/** Reassembly of one datagram: the chain of fragments with overlap trimming,
    the completeness test and the gluing (dpi/IpFragment.cc). */
module IpChain {
  import opened SeqArith

  datatype Option<+T> = None | Some(value: T)

  /** An IPv4 header: its length in bytes, what identifies the datagram, and
      the other bytes (total length, fragment word and checksum apart). */
  datatype Header = Header(ihl: nat, id: u16, src: u32, dst: u32, proto: byte, rest: seq<byte>)

  datatype RawPacket = RawPacket(hdr: Header, off: nat, mf: bool, payload: seq<byte>) {
    /** What `startIpfragProc` has checked, and the widths of the header fields. */
    predicate Wf() {
      20 <= hdr.ihl <= 60 && hdr.ihl % 4 == 0 && off <= 0x1FFF && hdr.ihl + |payload| <= 65535
    }

    function Offset(): nat { 8 * off }

    function End(): nat { 8 * off + |payload| }

    predicate Fragment() { mf || off != 0 }

    /** The length test that discards a fragment reaching past the largest datagram. */
    predicate Oversize() { hdr.ihl + |payload| + Offset() > 65535 }

    /** The fragment carries byte `v` at position `k` of its datagram. */
    predicate Carries(k: int, v: byte) {
      Offset() <= k < End() && payload[k - Offset()] == v
    }
  }

  type Packet = p: RawPacket | p.Wf() witness RawPacket(Header(20, 0, 0, 0, 0, []), 0, false, [])

  /** A node of the chain. `ptr` is where its data starts in the payload of `skb`. */
  datatype Frag = Frag(offset: int, end: int, len: int, skb: Packet, ptr: int)

  datatype Queue = Queue(hdr: Header, len: nat, frags: seq<Frag>)

  datatype Datagram = Datagram(hdr: Header, ipLen: int, body: seq<byte>)

  // ----- Insertion -----

  /** Number of nodes in front of the first one that starts at `offset` or later. */
  function Place(frags: seq<Frag>, offset: int): (k: nat)
    ensures k <= |frags|
    ensures forall i :: 0 <= i < k ==> frags[i].offset < offset
    ensures k < |frags| ==> frags[k].offset >= offset
  {
    if frags == [] || frags[0].offset >= offset then 0 else 1 + Place(frags[1..], offset)
  }

  /** Cut the part before `end` off the nodes behind; nodes left empty disappear. */
  function Trim(next: seq<Frag>, end: int): seq<Frag> {
    if next == [] || next[0].offset >= end then next
    else
      var i := end - next[0].offset;
      var t := next[0].(len := next[0].len - i, offset := end, ptr := next[0].ptr + i);
      if t.len <= 0 then Trim(next[1..], end) else [t] + next[1..]
  }

  /** How much of the front of a new fragment its predecessor already holds. */
  function FrontOverlap(frags: seq<Frag>, offset: int): nat {
    var k := Place(frags, offset);
    if k > 0 && offset < frags[k - 1].end then frags[k - 1].end - offset else 0
  }

  function NewNode(frags: seq<Frag>, p: Packet): Frag {
    var i := FrontOverlap(frags, p.Offset());
    Frag(p.Offset() + i, p.End(), p.End() - (p.Offset() + i), p, i)
  }

  function Insert(frags: seq<Frag>, p: Packet): seq<Frag> {
    var k := Place(frags, p.Offset());
    frags[..k] + [NewNode(frags, p)] + Trim(frags[k..], p.End())
  }

  /** A node is a slice of the fragment it came from: what it lacks was cut off its front. */
  predicate NodeOk(f: Frag) {
    && f.len == f.end - f.offset
    && f.end == f.skb.End() && f.skb.Offset() <= f.offset
    && f.ptr == f.offset - f.skb.Offset()
  }

  /** Offsets do not decrease, and every node starts at or after the end of every earlier one. */
  ghost predicate ChainOk(frags: seq<Frag>) {
    && (forall i :: 0 <= i < |frags| ==> NodeOk(frags[i]))
    && (forall i, j :: 0 <= i < j < |frags| ==>
          frags[i].offset <= frags[j].offset && frags[i].end <= frags[j].offset)
  }

  ghost predicate AllFrom(frags: seq<Frag>, bound: int) {
    forall i :: 0 <= i < |frags| ==> bound <= frags[i].offset
  }

  lemma {:induction false} TrimOk(next: seq<Frag>, end: int, bound: int)
    requires ChainOk(next) && AllFrom(next, bound)
    ensures ChainOk(Trim(next, end)) && AllFrom(Trim(next, end), end) && AllFrom(Trim(next, end), bound)
  {
    if next != [] && next[0].offset < end && next[0].end <= end {
      TrimOk(next[1..], end, bound);
    }
  }

  ghost predicate AllUpTo(frags: seq<Frag>, bound: int) {
    forall i :: 0 <= i < |frags| ==> frags[i].offset <= bound && frags[i].end <= bound
  }

  lemma ChainJoin(a: seq<Frag>, n: Frag, t: seq<Frag>)
    requires ChainOk(a) && NodeOk(n) && ChainOk(t)
    requires AllUpTo(a, n.offset) && AllFrom(t, n.offset) && AllFrom(t, n.end)
    ensures ChainOk(a + [n] + t)
  {
    hide NodeOk;
    var all := a + [n] + t;
    assert forall i :: 0 <= i < |all| ==> all[i] == if i < |a| then a[i] else if i == |a| then n else t[i - |a| - 1];
  }

  /** The new node starts after everything in front, and what lies behind starts after the new node. */
  lemma NewNodeFits(frags: seq<Frag>, p: Packet)
    requires ChainOk(frags)
    ensures var k := Place(frags, p.Offset()); var n := NewNode(frags, p);
            && NodeOk(n) && AllUpTo(frags[..k], n.offset)
            && (n.offset == p.Offset() || AllFrom(frags[k..], n.offset))
            && p.Offset() <= n.offset && AllFrom(frags[k..], p.Offset())
  {
    var k := Place(frags, p.Offset());
    forall i | 0 <= i < |frags[k..]| ensures frags[k..][i].offset >= p.Offset() {
      assert i > 0 ==> frags[k].offset <= frags[k + i].offset;
    }
  }

  /** The chain invariant survives any fragment, nested ones included. */
  lemma InsertOk(frags: seq<Frag>, p: Packet)
    requires ChainOk(frags)
    ensures ChainOk(Insert(frags, p))
  {
    hide Trim, Place, NewNode, NodeOk, AllFrom, AllUpTo;
    var k := Place(frags, p.Offset());
    var n := NewNode(frags, p);
    NewNodeFits(frags, p);
    NewNodeEnds(frags, p);
    TrimOk(frags[k..], p.End(), p.Offset());
    AboveEnd(Trim(frags[k..], p.End()), p.End(), n.offset);
    if n.offset != p.Offset() {
      TrimOk(frags[k..], p.End(), n.offset);
    }
    ChainJoin(frags[..k], n, Trim(frags[k..], p.End()));
  }

  lemma NewNodeEnds(frags: seq<Frag>, p: Packet)
    ensures NewNode(frags, p).end == p.End() && p.Offset() <= p.End()
  {
  }

  lemma AboveEnd(t: seq<Frag>, end: int, offset: int)
    requires AllFrom(t, end)
    ensures offset <= end ==> AllFrom(t, offset)
  {
  }

  // ----- Completeness test and gluing -----

  /** No node starts beyond the end of the node before it. */
  predicate Connected(frags: seq<Frag>, offset: int) {
    frags == [] || (frags[0].offset <= offset && Connected(frags[1..], frags[0].end))
  }

  predicate Done(q: Queue) {
    q.len != 0 && Connected(q.frags, 0)
  }

  /** `memmove` of `data` to position `at` of the buffer. */
  function Splice(body: seq<byte>, at: nat, data: seq<byte>): (r: seq<byte>)
    requires at + |data| <= |body|
    ensures |r| == |body|
    ensures r[..at] == body[..at]
    ensures forall k :: at <= k < at + |data| ==> r[k] == data[k - at]
  {
    body[..at] + data + body[at + |data|..]
  }

  /** Bytes of a node. */
  function NodeData(f: Frag): (r: seq<byte>)
    requires NodeOk(f) && 0 <= f.len
    ensures |r| == f.len
    ensures forall j :: 0 <= j < |r| ==> f.skb.Carries(f.offset + j, r[j])
  {
    f.skb.payload[f.ptr..f.ptr + f.len]
  }

  /** Copy the nodes into the buffer one by one; a node of negative length or
      one reaching past the buffer spoils the datagram. */
  function GlueFrom(frags: seq<Frag>, body: seq<byte>, count: int): (r: Option<(seq<byte>, int)>)
    requires forall i :: 0 <= i < |frags| ==> NodeOk(frags[i])
    ensures r.Some? ==> |r.value.0| == |body|
  {
    if frags == [] then Some((body, count))
    else
      var f := frags[0];
      assert NodeOk(f);
      if f.len < 0 || f.offset + f.len > |body| then None
      else GlueFrom(frags[1..], Splice(body, f.offset, NodeData(f)), count + f.len)
  }

  /** A fresh buffer keeps whatever memory held. */
  function Malloc(len: nat, junk: nat -> byte): (r: seq<byte>)
    ensures |r| == len
  {
    if len == 0 then [] else Malloc(len - 1, junk) + [junk(len - 1)]
  }

  /** Build the datagram in a fresh buffer. */
  function Glue(q: Queue, junk: nat -> byte): Option<Datagram>
    requires forall i :: 0 <= i < |q.frags| ==> NodeOk(q.frags[i])
  {
    if q.hdr.ihl + q.len > 65535 then None
    else
      match GlueFrom(q.frags, Malloc(q.len, junk), 0)
      case None => None
      case Some(r) => Some(Datagram(q.hdr, (q.hdr.ihl + r.1) % 0x1_0000, r.0))
  }

  /** The new fragment enters the queue; the fragment at offset 0 brings the header. */
  function Refresh(q: Queue, p: Packet): Queue {
    if p.off == 0 then q.(hdr := p.hdr) else q
  }

  function AddFragment(q: Queue, p: Packet): Queue {
    Queue(q.hdr, if p.mf then q.len else p.End(), Insert(q.frags, p))
  }

  datatype Waiting = Absent | Present(q: Queue)

  datatype Arrival = Arrival(state: Waiting, out: Option<Datagram>)

  function Opened(w: Waiting, p: Packet): Queue {
    match w
    case Absent => Queue(p.hdr, 0, [])
    case Present(q) => Refresh(q, p)
  }

  /** One fragment of a datagram. Complete or spoiled, the queue is gone after gluing. */
  function Arrive(w: Waiting, p: Packet, junk: nat -> byte): Arrival
    requires w.Present? ==> ChainOk(w.q.frags)
  {
    var q := Opened(w, p);
    if p.Oversize() then Arrival(Present(q), None)
    else
      InsertOk(q.frags, p);
      var q1 := AddFragment(q, p);
      if Done(q1) then Arrival(Absent, Glue(q1, junk)) else Arrival(Present(q1), None)
  }

  // ----- Safety: what is returned was received -----

  function EndOf(frags: seq<Frag>, offset: int): int {
    if frags == [] then offset else EndOf(frags[1..], frags[0].end)
  }

  ghost predicate FromNode(frags: seq<Frag>, k: int, v: byte) {
    exists i :: 0 <= i < |frags| && frags[i].skb.Carries(k, v)
  }

  /** Gluing a connected chain copies every position up to its end exactly once. */
  lemma {:induction false} GlueRun(frags: seq<Frag>, offset: nat, body: seq<byte>, count: int)
    requires ChainOk(frags) && Connected(frags, offset) && AllFrom(frags, offset) && offset <= |body|
    requires GlueFrom(frags, body, count).Some?
    ensures var r := GlueFrom(frags, body, count).value; var end := EndOf(frags, offset);
            && offset <= end <= |body| && r.1 == count + (end - offset)
            && r.0[..offset] == body[..offset]
            && (forall k :: offset <= k < end ==> FromNode(frags, k, r.0[k]))
            && (forall i :: 0 <= i < |frags| ==> frags[i].end <= end)
  {
    hide Splice, NodeData, RawPacket.Carries;
    if frags != [] {
      var f, rest := frags[0], frags[1..];
      assert NodeOk(f) && f.offset == offset;
      var data := NodeData(f);
      var body1 := Splice(body, f.offset, data);
      assert AllFrom(rest, f.end);
      GlueRun(rest, f.end, body1, count + f.len);
      var r, end := GlueFrom(frags, body, count).value, EndOf(frags, offset);
      forall k | offset <= k < end ensures FromNode(frags, k, r.0[k]) {
        if k < f.end {
          assert r.0[k] == r.0[..f.end][k] == body1[..f.end][k] == data[k - f.offset];
          assert frags[0].skb.Carries(k, r.0[k]);
        } else {
          var i :| 0 <= i < |rest| && rest[i].skb.Carries(k, r.0[k]);
          assert frags[i + 1].skb.Carries(k, r.0[k]);
        }
      }
      assert r.0[..offset] == r.0[..f.end][..offset] == body1[..f.end][..offset] == body1[..offset];
    }
  }

  ghost predicate ReachesEnd(q: Queue) {
    q.len == 0 || exists f :: f in q.frags && q.len <= f.end
  }

  /** A datagram that comes out of gluing a complete queue has no gap, and its
      length and header length field match. */
  lemma GlueSafe(q: Queue, junk: nat -> byte)
    requires ChainOk(q.frags) && ReachesEnd(q) && Done(q) && AllFrom(q.frags, 0) && Glue(q, junk).Some?
    ensures var d := Glue(q, junk).value;
            && d.hdr == q.hdr && |d.body| == q.len && d.ipLen == q.hdr.ihl + q.len
            && forall k :: 0 <= k < q.len ==> FromNode(q.frags, k, d.body[k])
  {
    GlueRun(q.frags, 0, Malloc(q.len, junk), 0);
  }

  /** The queue stands for the fragments `ps` received since it was created, latest last. */
  ghost predicate Stands(q: Queue, ps: seq<Packet>) {
    && ps != [] && ChainOk(q.frags) && AllFrom(q.frags, 0) && ReachesEnd(q)
    && (forall f :: f in q.frags ==> f.skb in ps)
    && q.hdr == LatestHeader(ps) && q.len == LatestEnd(ps)
  }

  /** The header of the latest fragment at offset 0, or else of the first fragment. */
  function LatestHeader(ps: seq<Packet>): Header
    requires ps != []
  {
    if |ps| == 1 || ps[|ps| - 1].off == 0 then ps[|ps| - 1].hdr else LatestHeader(ps[..|ps| - 1])
  }

  lemma {:induction false} TrimKeepsSkbs(next: seq<Frag>, end: int, len: int)
    ensures forall f :: f in Trim(next, end) ==> exists g :: g in next && g.skb == f.skb
    ensures (exists f :: f in next && len <= f.end) && end < len && (forall i :: 0 <= i < |next| ==> NodeOk(next[i])) ==>
            exists f :: f in Trim(next, end) && len <= f.end
  {
    if next != [] && next[0].offset < end {
      var i := end - next[0].offset;
      var t := next[0].(len := next[0].len - i, offset := end, ptr := next[0].ptr + i);
      if t.len <= 0 {
        TrimKeepsSkbs(next[1..], end, len);
        assert forall f :: f in next ==> f == next[0] || f in next[1..];
      } else {
        assert forall f :: f in next ==> f == next[0] || f in next[1..];
        assert Trim(next, end) == [t] + next[1..];
        assert forall f :: f in Trim(next, end) <==> f == t || f in next[1..];
        assert next[0] in next;
      }
    }
  }

  /** The end announced by the latest final fragment that was not discarded as oversized, 0 if none has come. */
  function LatestEnd(ps: seq<Packet>): nat {
    if ps == [] then 0
    else if !ps[|ps| - 1].mf && !ps[|ps| - 1].Oversize() then ps[|ps| - 1].End() else LatestEnd(ps[..|ps| - 1])
  }

  /** A datagram handed on is made of the fragments `ps` and nothing else. */
  ghost predicate MadeOf(d: Datagram, ps: seq<Packet>) {
    && ps != [] && d.hdr == LatestHeader(ps)
    && |d.body| == LatestEnd(ps) && d.ipLen == d.hdr.ihl + |d.body|
    && forall k :: 0 <= k < |d.body| ==> CarriedBy(ps, k, d.body[k])
  }

  ghost predicate CarriedBy(ps: seq<Packet>, k: int, v: byte) {
    exists p: Packet :: p in ps && p.Carries(k, v)
  }

  lemma InsertReachesEnd(frags: seq<Frag>, p: Packet, len: nat)
    requires ChainOk(frags) && exists f :: f in frags && len <= f.end
    ensures exists f :: f in Insert(frags, p) && len <= f.end
  {
    hide Place, Trim, NodeOk;
    var k := Place(frags, p.Offset());
    var r, t := Insert(frags, p), Trim(frags[k..], p.End());
    assert r[k] == NewNode(frags, p) && r[k] in r;
    NewNodeEnds(frags, p);
    if p.End() < len {
      var f :| f in frags && len <= f.end;
      assert frags == frags[..k] + frags[k..];
      TrimKeepsSkbs(frags[k..], p.End(), len);
      assert forall g :: g in frags[..k] || g in t ==> g in r;
      assert f in frags[..k] || f in frags[k..];
    }
  }

  lemma InsertSkbs(frags: seq<Frag>, p: Packet)
    ensures forall f :: f in Insert(frags, p) ==> f.skb == p || exists g :: g in frags && g.skb == f.skb
  {
    hide Place, Trim;
    var k := Place(frags, p.Offset());
    TrimKeepsSkbs(frags[k..], p.End(), 0);
    forall f | f in Insert(frags, p) ensures f.skb == p || exists g :: g in frags && g.skb == f.skb {
      if f in Trim(frags[k..], p.End()) {
        var g :| g in frags[k..] && g.skb == f.skb;
        assert g in frags;
      } else if f in frags[..k] {
        assert f in frags;
      }
    }
  }

  lemma InsertFrom(frags: seq<Frag>, p: Packet)
    requires ChainOk(frags) && AllFrom(frags, 0)
    ensures AllFrom(Insert(frags, p), 0)
  {
    hide Place, Trim, NodeOk;
    TrimOk(frags[Place(frags, p.Offset())..], p.End(), 0);
  }


  /** The waiting queue stands for the fragments received since it was created. */
  ghost predicate Tracks(w: Waiting, ps: seq<Packet>) {
    match w
    case Absent => ps == []
    case Present(q) => Stands(q, ps)
  }

  /** A fragment is stored or, once nothing is missing, the queue leaves; a
      datagram handed on is made of the fragments received for this queue. */
  lemma ArriveSafe(w: Waiting, p: Packet, junk: nat -> byte, ps: seq<Packet>)
    requires Tracks(w, ps)
    ensures var a := Arrive(w, p, junk);
            && (a.state.Present? ==> Tracks(a.state, ps + [p]) && a.out == None)
            && (a.out.Some? ==> MadeOf(a.out.value, ps + [p]))
  {
    hide Insert, LatestHeader, LatestEnd, Glue, Done;
    var q := Opened(w, p);
    var qs := ps + [p];
    OpenedStands(w, p, ps);
    if !p.Oversize() {
      InsertOk(q.frags, p);
      AddStands(q, p, ps);
      var q1 := AddFragment(q, p);
      if Done(q1) && Glue(q1, junk).Some? {
        GlueSafe(q1, junk);
        var d := Glue(q1, junk).value;
        forall k | 0 <= k < q1.len ensures CarriedBy(qs, k, d.body[k]) {
          var i :| 0 <= i < |q1.frags| && q1.frags[i].skb.Carries(k, d.body[k]);
          assert q1.frags[i] in q1.frags;
        }
      }
    }
  }

  lemma LatestOnAppend(ps: seq<Packet>, p: Packet)
    ensures LatestHeader(ps + [p]) == if ps == [] || p.off == 0 then p.hdr else LatestHeader(ps)
    ensures LatestEnd(ps + [p]) == if !p.mf && !p.Oversize() then p.End() else LatestEnd(ps)
  {
    assert (ps + [p])[..|ps|] == ps;
  }

  /** Header handling on arrival: everything but the chain is as for `ps + [p]`. */
  lemma OpenedStands(w: Waiting, p: Packet, ps: seq<Packet>)
    requires Tracks(w, ps)
    ensures var q := Opened(w, p);
            && ChainOk(q.frags) && AllFrom(q.frags, 0) && ReachesEnd(q) && q.len == LatestEnd(ps)
            && (forall f :: f in q.frags ==> f.skb in ps)
            && q.hdr == LatestHeader(ps + [p])
    ensures p.Oversize() ==> Stands(Opened(w, p), ps + [p])
  {
    LatestOnAppend(ps, p);
  }

  lemma AddStands(q: Queue, p: Packet, ps: seq<Packet>)
    requires ChainOk(q.frags) && AllFrom(q.frags, 0) && ReachesEnd(q) && q.len == LatestEnd(ps)
    requires forall f :: f in q.frags ==> f.skb in ps
    requires q.hdr == LatestHeader(ps + [p]) && !p.Oversize()
    ensures Stands(AddFragment(q, p), ps + [p])
  {
    hide ChainOk, Insert, LatestHeader, LatestEnd, NodeOk;
    InsertOk(q.frags, p);
    InsertFrom(q.frags, p);
    InsertSkbs(q.frags, p);
    LatestOnAppend(ps, p);
    if p.mf {
      if q.len != 0 {
        InsertReachesEnd(q.frags, p, q.len);
      }
    } else {
      InsertHas(q.frags, p);
    }
  }

  lemma InsertHas(frags: seq<Frag>, p: Packet)
    ensures exists f :: f in Insert(frags, p) && f.end == p.End()
  {
    var k := Place(frags, p.Offset());
    assert Insert(frags, p)[k] == NewNode(frags, p);
  }
}
