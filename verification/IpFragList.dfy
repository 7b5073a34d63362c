/** The fragment chain as the program keeps it: nodes linked in both directions
    and rewired in place (dpi/IpFragment.cc). The chain it holds is proved to be
    the sequence that IpChain computes. */
module IpFragList {
  import opened SeqArith
  import opened IpChain

  class IpFrag {
    var offset: int
    var end: int
    var len: int
    var skb: Packet
    var ptr: int
    var next: IpFrag?
    var prev: IpFrag?

    constructor (offset: int, end: int, skb: Packet, ptr: int)
      ensures Value() == Frag(offset, end, end - offset, skb, ptr)
      ensures next == null && prev == null
    {
      this.offset, this.end, this.len, this.skb, this.ptr := offset, end, end - offset, skb, ptr;
      next, prev := null, null;
    }

    ghost function Value(): Frag
      reads this
    {
      Frag(offset, end, len, skb, ptr)
    }
  }

  /** The node at position `i`, null outside. */
  ghost function At(nodes: seq<IpFrag>, i: int): IpFrag? {
    if 0 <= i < |nodes| then nodes[i] else null
  }

  ghost predicate Distinct(nodes: seq<IpFrag>) {
    forall i, j :: 0 <= i < j < |nodes| ==> nodes[i] != nodes[j]
  }

  /** The nodes from `head` on are `nodes`, and both links of each agree with that. */
  ghost predicate Linked(head: IpFrag?, nodes: seq<IpFrag>)
    reads nodes
  {
    && head == At(nodes, 0)
    && (forall i {:trigger nodes[i].next} :: 0 <= i < |nodes| ==> nodes[i].next == At(nodes, i + 1))
    && (forall i {:trigger nodes[i].prev} :: 0 <= i < |nodes| ==> nodes[i].prev == At(nodes, i - 1))
  }

  ghost predicate Represent(nodes: seq<IpFrag>, chain: seq<Frag>)
    requires |chain| == |nodes|
    reads nodes
  {
    forall i {:trigger nodes[i].Value()} {:trigger chain[i]} :: 0 <= i < |nodes| ==> nodes[i].Value() == chain[i]
  }

  lemma Alone(nodes: seq<IpFrag>, k: int)
    requires Distinct(nodes)
    ensures forall i :: 0 <= i < |nodes| && i != k ==> nodes[i] != At(nodes, k)
  {
  }

  lemma DistinctWithout(nodes: seq<IpFrag>, k: nat)
    requires Distinct(nodes) && k < |nodes|
    ensures Distinct(nodes[..k] + nodes[k + 1..])
  {
  }

  lemma DistinctWith(nodes: seq<IpFrag>, n: IpFrag, k: nat)
    requires Distinct(nodes) && n !in nodes && k <= |nodes|
    ensures Distinct(nodes[..k] + [n] + nodes[k..])
  {
    assert forall i :: 0 <= i < |nodes| ==> nodes[i] in nodes;
  }

  class Ipq {
    var hdr: Header
    var len: nat
    var fragments: IpFrag?
    ghost var nodes: seq<IpFrag>
    /** What the nodes hold, in order. */
    ghost var chain: seq<Frag>

    ghost predicate Valid()
      reads this, nodes
    {
      Linked(fragments, nodes) && Distinct(nodes) && |chain| == |nodes| && Represent(nodes, chain)
    }

    ghost function Contents(): Queue
      reads this
    {
      Queue(hdr, len, chain)
    }

    constructor (hdr: Header)
      ensures Valid() && Contents() == Queue(hdr, 0, []) && nodes == []
    {
      this.hdr, len, fragments, nodes, chain := hdr, 0, null, [], [];
    }

    /** Take the node at position `k` out of the chain. Its own links stay as they were. */
    method Unlink(tmp: IpFrag, ghost k: nat)
      requires Valid() && k < |nodes| && nodes[k] == tmp
      modifies this`fragments, this`nodes, this`chain, nodes`next, nodes`prev
      ensures Valid() && nodes == old(nodes)[..k] + old(nodes)[k + 1..]
      ensures chain == old(chain)[..k] + old(chain)[k + 1..]
      ensures tmp.next == old(tmp.next) && tmp.prev == old(tmp.prev)
    {
      hide Distinct;
      Alone(nodes, k - 1);
      Alone(nodes, k + 1);
      DistinctWithout(nodes, k);
      ghost var was := nodes;
      if tmp.prev != null {
        tmp.prev.next := tmp.next;
      } else {
        fragments := tmp.next;
      }
      if tmp.next != null {
        tmp.next.prev := tmp.prev;
      }
      assert forall i {:trigger was[i].next} :: 0 <= i < |was| && i != k - 1 ==> was[i].next == At(was, i + 1);
      assert forall i {:trigger was[i].prev} :: 0 <= i < |was| && i != k + 1 ==> was[i].prev == At(was, i - 1);
      LinkedWithout(was, k, fragments, chain);
      nodes := nodes[..k] + nodes[k + 1..];
      chain := chain[..k] + chain[k + 1..];
    }

    /** The pointer updates that put a new node between `prev` and `next`. */
    method Rewire(tfp: IpFrag, prev: IpFrag?, next: IpFrag?, ghost k: nat)
      requires Valid() && k <= |nodes| && prev == At(nodes, k - 1) && next == At(nodes, k) && tfp !in nodes
      modifies this`fragments, nodes`next, nodes`prev, tfp`next, tfp`prev
      ensures Represent(nodes, chain)
      ensures fragments == if k == 0 then tfp else At(nodes, 0)
      ensures forall i {:trigger nodes[i].next} :: 0 <= i < |nodes| && i != k - 1 ==> nodes[i].next == At(nodes, i + 1)
      ensures forall i {:trigger nodes[i].prev} :: 0 <= i < |nodes| && i != k ==> nodes[i].prev == At(nodes, i - 1)
      ensures k > 0 ==> nodes[k - 1].next == tfp
      ensures k < |nodes| ==> nodes[k].prev == tfp
      ensures tfp.prev == prev && tfp.next == next && tfp.Value() == old(tfp.Value())
    {
      hide Distinct;
      Alone(nodes, k - 1);
      Alone(nodes, k);
      assert forall i :: 0 <= i < |nodes| ==> nodes[i] in nodes;
      tfp.prev := prev;
      tfp.next := next;
      if prev != null {
        prev.next := tfp;
      } else {
        fragments := tfp;
      }
      if next != null {
        next.prev := tfp;
      }
    }

    /** Put a new node between `prev` and `next`. */
    method Link(tfp: IpFrag, prev: IpFrag?, next: IpFrag?, ghost k: nat)
      requires Valid() && k <= |nodes| && prev == At(nodes, k - 1) && next == At(nodes, k) && tfp !in nodes
      modifies this`fragments, this`nodes, this`chain, nodes`next, nodes`prev, tfp`next, tfp`prev
      ensures Valid() && nodes == old(nodes)[..k] + [tfp] + old(nodes)[k..]
      ensures chain == old(chain)[..k] + [tfp.Value()] + old(chain)[k..]
    {
      hide Distinct, Linked, Represent;
      DistinctWith(nodes, tfp, k);
      Rewire(tfp, prev, next, k);
      LinkedWith(nodes, k, tfp, fragments, chain);
      nodes := nodes[..k] + [tfp] + nodes[k..];
      chain := chain[..k] + [tfp.Value()] + chain[k..];
    }

    /** Find the neighbours of a fragment that starts at `offset`. */
    method FindNeighbours(offset: int) returns (prev: IpFrag?, next: IpFrag?, ghost k: nat)
      requires Valid()
      ensures k == Place(chain, offset)
      ensures prev == At(nodes, k - 1) && next == At(nodes, k)
    {
      prev, next, k := null, fragments, 0;
      while next != null
        invariant k <= |nodes| && prev == At(nodes, k - 1) && next == At(nodes, k)
        invariant forall i :: 0 <= i < k ==> chain[i].offset < offset
        decreases |nodes| - k
      {
        assert next.Value() == chain[k];
        if next.offset >= offset {
          break;
        }
        prev := next;
        next := next.next;
        k := k + 1;
      }
      PlaceUnique(chain, offset, k);
    }

    /** Shorten a node by `i` bytes at its front. */
    method CutFront(tmp: IpFrag, i: int, ghost k: nat)
      requires Valid() && k < |nodes| && nodes[k] == tmp
      modifies tmp`len, tmp`offset, tmp`ptr, this`chain
      ensures Valid()
      ensures var v := old(chain)[k];
              chain == old(chain)[k := v.(len := v.len - i, offset := v.offset + i, ptr := v.ptr + i)]
      ensures tmp.Value() == chain[k]
    {
      hide Distinct;
      Alone(nodes, k);
      ghost var v := chain[k];
      assert tmp.Value() == v;
      tmp.len := tmp.len - i;
      tmp.offset := tmp.offset + i;
      tmp.ptr := tmp.ptr + i;
      chain := chain[k := v.(len := v.len - i, offset := v.offset + i, ptr := v.ptr + i)];
    }

    /** One overlapping node behind the new fragment: cut it, and take it out if nothing is left. */
    method TrimNode(tmp: IpFrag, i: int, end: int, ghost k: nat) returns (gone: bool)
      requires Valid() && k < |nodes| && nodes[k] == tmp && ChainOk(chain[k..])
      requires chain[k].offset < end && i == end - chain[k].offset
      modifies this`fragments, this`nodes, this`chain, nodes
      ensures Valid() && tmp.next == old(tmp.next) && k <= |nodes|
      ensures nodes == if gone then old(nodes)[..k] + old(nodes)[k + 1..] else old(nodes)
      ensures chain[..k] == old(chain)[..k]
      ensures ChainOk(chain[k..]) && Trim(chain[k..], end) == Trim(old(chain)[k..], end)
      ensures !gone ==> AllFrom(chain[k..], end)
    {
      hide Trim, ChainOk, Linked, Distinct, Represent;
      ghost var tail := chain[k..];
      CutFront(tmp, i, k);
      assert chain[k..] == tail[0 := chain[k]];
      TrimHead(tail, chain[k..], end);
      gone := tmp.len <= 0;
      if gone {
        ghost var cut := chain;
        Unlink(tmp, k);
        assert chain[k..] == cut[k..][1..];
      }
    }

    /** Trim what overlaps the new fragment from behind. The code measures the
        overlap on `next`, which is `tmp` whenever there is any. */
    method TrimBehind(next0: IpFrag?, end: int, ghost k: nat) returns (next: IpFrag?)
      requires Valid() && k <= |nodes| && next0 == At(nodes, k) && ChainOk(chain[k..])
      modifies this`fragments, this`nodes, this`chain, nodes
      ensures Valid() && k <= |nodes| && next == At(nodes, k)
      ensures nodes[..k] == old(nodes)[..k] && forall n :: n in nodes ==> n in old(nodes)
      ensures chain == old(chain)[..k] + Trim(old(chain)[k..], end)
    {
      hide Trim, ChainOk, Distinct;
      next := next0;
      ghost var was, before := nodes, chain;
      ghost var settled := false;
      var tmp := next;
      while tmp != null
        invariant Valid() && k <= |nodes| && next == At(nodes, k)
        invariant forall n :: n in nodes ==> n in was
        invariant nodes[..k] == was[..k]
        invariant !settled ==> tmp == next
        invariant settled ==> k < |nodes| && tmp == At(nodes, k + 1) && AllFrom(chain[k..], end)
        invariant chain[..k] == before[..k]
        invariant ChainOk(chain[k..])
        invariant Trim(chain[k..], end) == Trim(before[k..], end)
        decreases |nodes| + if settled then 0 else 1
      {
        var tfp := tmp.next;
        assert tmp.Value() == chain[if settled then k + 1 else k];
        if tmp.offset >= end {
          break;
        }
        SecondOf(chain, k);
        assert tmp == next && forall i :: 0 <= i < |nodes| ==> nodes[i] in nodes;
        var gone := TrimNode(tmp, end - next.offset, end, k);
        if gone {
          next := tfp;
        } else {
          settled := true;
        }
        tmp := tfp;
      }
      TrimNothing(chain[k..], end);
      assert chain == chain[..k] + chain[k..];
    }

    /** Insert a fragment into the chain: find its place, trim it against what
        lies in front, trim what lies behind, link it in. */
    method AddFragment(p: Packet)
      requires Valid() && ChainOk(chain)
      modifies this, nodes
      ensures Valid() && fresh(set n | n in nodes && n !in old(nodes))
      ensures Contents() == IpChain.AddFragment(old(Contents()), p)
    {
      hide Linked, Represent, Trim, ChainOk, Distinct, Place, NewNode;
      var offset, end, ptr := 8 * p.off, p.End(), 0;
      if !p.mf {
        len := end;
      }
      var prev, next, k := FindNeighbours(offset);
      ghost var before := chain;
      NeighbourValue(k);
      if prev != null && offset < prev.end {
        var i := prev.end - offset;
        offset := offset + i;
        ptr := ptr + i;
      }
      NewNodeIs(before, p);
      assert Frag(offset, end, end - offset, p, ptr) == NewNode(before, p);
      InsertBetween(p, prev, next, offset, end, ptr, k);
    }

    /** Trim what lies behind, and link the new node in. */
    method InsertBetween(p: Packet, prev: IpFrag?, next0: IpFrag?, offset: int, end: int, ptr: int, ghost k: nat)
      requires Valid() && ChainOk(chain)
      requires k <= |nodes| && prev == At(nodes, k - 1) && next0 == At(nodes, k)
      modifies this`fragments, this`nodes, this`chain, nodes
      ensures Valid() && fresh(set n | n in nodes && n !in old(nodes))
      ensures chain == old(chain)[..k] + [Frag(offset, end, end - offset, p, ptr)] + Trim(old(chain)[k..], end)
    {
      hide Linked, Represent, Trim, ChainOk, Distinct;
      SuffixOk(chain, k);
      ghost var before := chain;
      var next := TrimBehind(next0, end, k);
      assert chain[..k] == before[..k] && chain[k..] == Trim(before[k..], end);
      var tfp := new IpFrag(offset, end, p, ptr);
      PrevStays(old(nodes), nodes, k);
      assert forall i :: 0 <= i < |nodes| ==> nodes[i] in nodes && nodes[i] in old(nodes);
      Link(tfp, prev, next, k);
    }

    lemma NeighbourValue(k: nat)
      requires Valid()
      ensures 0 < k <= |nodes| ==> nodes[k - 1].Value() == chain[k - 1]
    {
    }

    /** Do the stored fragments connect, and has the final one been seen? */
    method IpDone() returns (done: bool)
      requires Valid()
      ensures done == Done(Contents())
    {
      if len == 0 {
        return false;
      }
      var fp, offset := fragments, 0;
      ghost var k := 0;
      while fp != null
        invariant k <= |nodes| && fp == At(nodes, k)
        invariant Connected(chain, 0) == Connected(chain[k..], offset)
        decreases |nodes| - k
      {
        assert fp.Value() == chain[k] == chain[k..][0] && chain[k..][1..] == chain[k + 1..];
        if fp.offset > offset {
          return false;
        }
        offset := fp.end;
        fp := fp.next;
        k := k + 1;
      }
      return true;
    }

    /** Copy all nodes into a fresh buffer, which starts out as `junk`. */
    method IpGlue(junk: nat -> byte) returns (r: Option<Datagram>)
      requires Valid() && ChainOk(chain)
      ensures r == Glue(Contents(), junk)
    {
      hide Linked, Represent, Distinct, ChainOk, Splice, NodeData, GlueFrom, GlueRest, Malloc;
      if hdr.ihl + len > 65535 {
        return None;
      }
      var skb := new byte[len](_ => 0);
      forall i: nat | i < len {
        skb[i] := junk(i);
      }
      assert forall i: nat :: i < len ==> skb[i] == junk(i);
      MallocIs(skb[..], len, junk);
      GlueEnds(chain, Malloc(len, junk));
      var fp, count := fragments, 0;
      ghost var k := 0;
      Start();
      while fp != null
        invariant k <= |nodes| && fp == At(nodes, k)
        invariant GlueRest(chain, k, skb[..], count) == GlueRest(chain, 0, Malloc(len, junk), 0)
        decreases |nodes| - k
      {
        Walk(k);
        ghost var f := chain[k];
        GlueStep(chain, k, skb[..], count);
        if fp.len < 0 || fp.offset + hdr.ihl + fp.len > hdr.ihl + len {
          return None;
        }
        CopyNode(skb, fp, f);
        count := count + fp.len;
        fp := fp.next;
        k := k + 1;
      }
      GlueDone(chain, skb[..], count);
      r := Some(Datagram(hdr, (hdr.ihl + count) % 0x1_0000, skb[..]));
    }

    /** `memmove` of a node's bytes to their place. */
    method CopyNode(skb: array<byte>, fp: IpFrag, ghost f: Frag)
      requires f == fp.Value() && NodeOk(f) && 0 <= f.len && f.offset + f.len <= skb.Length
      modifies skb
      ensures skb[..] == Splice(old(skb[..]), f.offset, NodeData(f))
    {
      ghost var data := NodeData(f);
      ghost var was := skb[..];
      forall j | 0 <= j < fp.len {
        skb[fp.offset + j] := fp.skb.payload[fp.ptr + j];
      }
      ghost var r := Splice(was, f.offset, data);
      assert forall j :: f.offset <= j < f.offset + f.len ==> skb[j] == fp.skb.payload[fp.ptr + (j - f.offset)];
      assert skb[..] == r;
    }

    lemma Start()
      requires Valid()
      ensures fragments == At(nodes, 0)
    {
    }

    lemma Walk(k: nat)
      requires Valid() && k < |nodes|
      ensures nodes[k].Value() == chain[k] && nodes[k].next == At(nodes, k + 1)
    {
    }
  }

  lemma NewNodeIs(frags: seq<Frag>, p: Packet)
    ensures var k := Place(frags, p.Offset());
            var i := if k > 0 && p.Offset() < frags[k - 1].end then frags[k - 1].end - p.Offset() else 0;
            NewNode(frags, p) == Frag(p.Offset() + i, p.End(), p.End() - (p.Offset() + i), p, i)
  {
  }

  /** Gluing from node `k` on. */
  ghost function GlueRest(chain: seq<Frag>, k: nat, body: seq<byte>, count: int): Option<(seq<byte>, int)>
    requires ChainOk(chain) && k <= |chain|
  {
    NodesAreOk(chain);
    GlueFrom(chain[k..], body, count)
  }

  lemma GlueStep(chain: seq<Frag>, k: nat, body: seq<byte>, count: int)
    requires ChainOk(chain) && k < |chain|
    ensures var f := chain[k];
            && NodeOk(f)
            && GlueRest(chain, k, body, count) ==
               if f.len < 0 || f.offset + f.len > |body| then None
               else GlueRest(chain, k + 1, Splice(body, f.offset, NodeData(f)), count + f.len)
  {
    hide Splice, NodeData;
    NodesAreOk(chain);
    assert chain[k..][0] == chain[k] && chain[k..][1..] == chain[k + 1..];
  }

  lemma GlueDone(chain: seq<Frag>, body: seq<byte>, count: int)
    requires ChainOk(chain)
    ensures GlueRest(chain, |chain|, body, count) == Some((body, count))
  {
  }

  lemma GlueEnds(chain: seq<Frag>, body: seq<byte>)
    requires ChainOk(chain)
    ensures forall i :: 0 <= i < |chain| ==> NodeOk(chain[i])
    ensures GlueRest(chain, 0, body, 0) == GlueFrom(chain, body, 0)
  {
    assert chain[0..] == chain;
  }

  lemma NodesAreOk(chain: seq<Frag>)
    requires ChainOk(chain)
    ensures forall i :: 0 <= i < |chain| ==> NodeOk(chain[i])
  {
  }

  lemma SuffixOk(frags: seq<Frag>, i: nat)
    requires ChainOk(frags) && i <= |frags|
    ensures ChainOk(frags[i..])
  {
  }

  lemma PrevStays(was: seq<IpFrag>, nodes: seq<IpFrag>, k: nat)
    requires k <= |was| && k <= |nodes| && nodes[..k] == was[..k]
    ensures At(nodes, k - 1) == At(was, k - 1)
  {
    assert k > 0 ==> nodes[..k][k - 1] == nodes[k - 1];
  }

  lemma {:induction false} MallocIs(b: seq<byte>, len: nat, junk: nat -> byte)
    requires |b| == len && forall i: nat :: i < len ==> b[i] == junk(i)
    ensures b == Malloc(len, junk)
  {
    if len > 0 {
      MallocIs(b[..len - 1], len - 1, junk);
      assert b == b[..len - 1] + [b[len - 1]];
    }
  }

  lemma SecondOf(chain: seq<Frag>, k: nat)
    ensures k + 1 < |chain| ==> chain[k..][1] == chain[k + 1]
  {
  }

  /** Rewiring around the node at `k` links the rest. */
  lemma LinkedWithout(was: seq<IpFrag>, k: nat, head: IpFrag?, chain: seq<Frag>)
    requires k < |was| && |chain| == |was| && Represent(was, chain)
    requires head == if k == 0 then At(was, 1) else At(was, 0)
    requires forall i {:trigger was[i].next} :: 0 <= i < |was| && i != k - 1 ==> was[i].next == At(was, i + 1)
    requires forall i {:trigger was[i].prev} :: 0 <= i < |was| && i != k + 1 ==> was[i].prev == At(was, i - 1)
    requires k > 0 ==> was[k - 1].next == At(was, k + 1)
    requires k + 1 < |was| ==> was[k + 1].prev == At(was, k - 1)
    ensures Linked(head, was[..k] + was[k + 1..]) && Represent(was[..k] + was[k + 1..], chain[..k] + chain[k + 1..])
  {
    var nodes := was[..k] + was[k + 1..];
    forall i | 0 <= i < |nodes|
      ensures nodes[i].next == At(nodes, i + 1) && nodes[i].prev == At(nodes, i - 1)
    {
      var j := if i < k then i else i + 1;
      assert nodes[i] == was[j];
    }
  }

  /** Rewiring around a new node at `k` links it in. */
  lemma LinkedWith(was: seq<IpFrag>, k: nat, n: IpFrag, head: IpFrag?, chain: seq<Frag>)
    requires k <= |was| && |chain| == |was| && Represent(was, chain)
    requires head == if k == 0 then n else At(was, 0)
    requires forall i {:trigger was[i].next} :: 0 <= i < |was| && i != k - 1 ==> was[i].next == At(was, i + 1)
    requires forall i {:trigger was[i].prev} :: 0 <= i < |was| && i != k ==> was[i].prev == At(was, i - 1)
    requires k > 0 ==> was[k - 1].next == n
    requires k < |was| ==> was[k].prev == n
    requires n.prev == At(was, k - 1) && n.next == At(was, k)
    ensures Linked(head, was[..k] + [n] + was[k..]) && Represent(was[..k] + [n] + was[k..], chain[..k] + [n.Value()] + chain[k..])
  {
    var nodes := was[..k] + [n] + was[k..];
    forall i | 0 <= i < |nodes|
      ensures nodes[i].next == At(nodes, i + 1) && nodes[i].prev == At(nodes, i - 1)
    {
      assert nodes[i] == if i < k then was[i] else if i == k then n else was[i - 1];
    }
  }

  lemma TrimNothing(tail: seq<Frag>, end: int)
    ensures tail == [] || end <= tail[0].offset ==> Trim(tail, end) == tail
  {
  }

  /** Cutting the first node of a tail is one step of `Trim`. */
  lemma TrimHead(tail: seq<Frag>, cut: seq<Frag>, end: int)
    requires tail != [] && ChainOk(tail) && tail[0].offset < end
    requires var i := end - tail[0].offset;
             cut == tail[0 := tail[0].(len := tail[0].len - i, offset := tail[0].offset + i, ptr := tail[0].ptr + i)]
    ensures if cut[0].len <= 0 then Trim(tail, end) == Trim(cut[1..], end) && ChainOk(cut[1..])
            else Trim(tail, end) == cut && Trim(cut, end) == cut && AllFrom(cut, end) && ChainOk(cut)
  {
    assert cut[1..] == tail[1..];
    assert cut == [cut[0]] + tail[1..];
    assert NodeOk(tail[0]);
    assert forall j :: 0 < j < |tail| ==> tail[0].end <= tail[j].offset;
  }

  lemma {:induction false} PlaceUnique(frags: seq<Frag>, offset: int, k: nat)
    requires k <= |frags| && (forall i :: 0 <= i < k ==> frags[i].offset < offset)
    requires k < |frags| ==> frags[k].offset >= offset
    ensures k == Place(frags, offset)
  {
    if k > 0 {
      PlaceUnique(frags[1..], offset, k - 1);
    }
  }
}
