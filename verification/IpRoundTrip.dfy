/** Reassembly is complete: fragments of one datagram yield that datagram as
    soon as, and not before, they cover it. */
module IpRoundTrip {
  import opened SeqArith
  import opened IpChain

  /** The datagram as sent, before it was cut. */
  datatype Whole = Whole(hdr: Header, payload: seq<byte>) {
    predicate Wf() {
      20 <= hdr.ihl <= 60 && hdr.ihl % 4 == 0 && payload != [] && hdr.ihl + |payload| <= 65535
    }
  }

  /** `p` is a piece of `d`: it carries a slice of the payload, announces more
      fragments unless it reaches the end, and brings the header if it is the first. */
  ghost predicate PieceOf(p: Packet, d: Whole) {
    && p.End() <= |d.payload| && p.payload == d.payload[p.Offset()..p.End()]
    && (p.mf <==> p.End() < |d.payload|)
    && p.hdr.ihl <= d.hdr.ihl && (p.off == 0 ==> p.hdr == d.hdr)
    && p.Fragment()
  }

  ghost predicate Covers(ps: seq<Packet>, k: int) {
    exists p: Packet :: p in ps && p.Offset() <= k < p.End()
  }

  ghost predicate Complete(ps: seq<Packet>, d: Whole) {
    forall k :: 0 <= k < |d.payload| ==> Covers(ps, k)
  }

  ghost predicate Inside(f: Frag, k: int) {
    f.offset <= k < f.end
  }

  ghost predicate InChain(frags: seq<Frag>, k: int) {
    exists f :: f in frags && Inside(f, k)
  }

  /** The fragment ends before its predecessor in the chain does: the new node gets a negative length. */
  predicate Nested(frags: seq<Frag>, p: Packet) {
    NewNode(frags, p).len < 0
  }

  /** That happens exactly if the fragment ends before its predecessor in the chain. */
  lemma NestedExactly(frags: seq<Frag>, p: Packet)
    ensures var k := Place(frags, p.Offset());
            Nested(frags, p) <==> k > 0 && p.End() < frags[k - 1].end
  {
  }

  /** The queue holds exactly the bytes that `ps` carry. */
  ghost predicate Keeps(q: Queue, ps: seq<Packet>, d: Whole) {
    && Stands(q, ps)
    && (forall f :: f in q.frags ==> f.offset <= |d.payload|)
    && (forall k {:trigger Covers(ps, k)} :: Covers(ps, k) <==> InChain(q.frags, k))
    && (forall p :: p in ps ==> PieceOf(p, d))
  }

  /** No node of the chain has a negative length. */
  ghost predicate NoneNegative(frags: seq<Frag>) {
    forall f :: f in frags ==> 0 <= f.len
  }

  /** None but perhaps the last. */
  predicate InnerOk(frags: seq<Frag>) {
    forall i :: 0 <= i < |frags| - 1 ==> 0 <= frags[i].len
  }

  lemma {:induction false} TrimCoverage(next: seq<Frag>, end: int, k: int)
    requires ChainOk(next)
    ensures InChain(Trim(next, end), k) <==> InChain(next, k) && end <= k
  {
    if next == [] {
    } else if next[0].offset >= end {
      assert forall f :: f in next ==> end <= f.offset;
    } else if next[0].end <= end {
      assert NodeOk(next[0]);
      assert InChain(next, k) && end <= k ==> InChain(next[1..], k) by {
        assert forall f :: f in next <==> f == next[0] || f in next[1..];
      }
      assert forall f :: f in next[1..] ==> f in next;
      TrimCoverage(next[1..], end, k);
    } else {
      assert NodeOk(next[0]);
      TrimFirst(next, end, k);
    }
  }

  lemma TrimFirst(next: seq<Frag>, end: int, k: int)
    requires ChainOk(next) && next != [] && next[0].offset < end < next[0].end && NodeOk(next[0])
    ensures InChain(Trim(next, end), k) <==> InChain(next, k) && end <= k
  {
    var i := end - next[0].offset;
    var t := next[0].(len := next[0].len - i, offset := end, ptr := next[0].ptr + i);
    assert Trim(next, end) == [t] + next[1..];
    assert forall f :: f in next <==> f == next[0] || f in next[1..];
    assert forall f :: f in [t] + next[1..] <==> f == t || f in next[1..];
    assert forall f :: f in next[1..] ==> end <= f.offset;
    hide ChainOk, NodeOk, Trim;
    if InChain(next, k) && end <= k {
      var f :| f in next && Inside(f, k);
      assert f == next[0] ==> Inside(t, k);
    }
  }

  lemma InChainJoin(a: seq<Frag>, n: Frag, t: seq<Frag>, k: int)
    ensures InChain(a + [n] + t, k) <==> InChain(a, k) || Inside(n, k) || InChain(t, k)
  {
    assert forall f :: f in a + [n] + t <==> f in a || f == n || f in t;
  }

  lemma InChainSplit(frags: seq<Frag>, i: nat, k: int)
    requires i <= |frags|
    ensures InChain(frags, k) <==> InChain(frags[..i], k) || InChain(frags[i..], k)
  {
    assert frags == frags[..i] + frags[i..];
    assert forall f :: f in frags <==> f in frags[..i] || f in frags[i..];
  }

  /** What the new node leaves out at the front, its predecessor holds. */
  lemma FrontHeld(frags: seq<Frag>, p: Packet, k: int)
    requires p.Offset() <= k < NewNode(frags, p).offset
    ensures InChain(frags[..Place(frags, p.Offset())], k)
  {
    var i := Place(frags, p.Offset());
    assert frags[..i][i - 1] in frags[..i] && Inside(frags[i - 1], k);
  }

  lemma BehindStarts(frags: seq<Frag>, offset: int, k: int)
    requires AllFrom(frags, offset) && InChain(frags, k)
    ensures offset <= k
  {
  }

  lemma NestedHeld(frags: seq<Frag>, p: Packet, k: int)
    requires Nested(frags, p) && p.Offset() <= k < p.End()
    ensures InChain(frags[..Place(frags, p.Offset())], k)
  {
    var i := Place(frags, p.Offset());
    assert frags[..i][i - 1] in frags[..i] && Inside(frags[i - 1], k);
  }

  /** A nested fragment cuts nothing off the nodes behind: its predecessor ends after it. */
  lemma NestedBehind(frags: seq<Frag>, p: Packet)
    requires ChainOk(frags) && Nested(frags, p)
    ensures AllFrom(frags[Place(frags, p.Offset())..], p.End())
  {
  }

  /** A fragment, nested or not, adds exactly its own positions. */
  lemma InsertCoverage(frags: seq<Frag>, p: Packet, k: int)
    requires ChainOk(frags)
    ensures InChain(Insert(frags, p), k) <==> InChain(frags, k) || p.Offset() <= k < p.End()
  {
    hide Trim, Place, NodeOk, InChain, ChainOk, NewNode;
    var i := Place(frags, p.Offset());
    var n := NewNode(frags, p);
    NewNodeFits(frags, p);
    NewNodeEnds(frags, p);
    SuffixOk(frags, i);
    TrimCoverage(frags[i..], p.End(), k);
    InChainSplit(frags, i, k);
    InChainJoin(frags[..i], n, Trim(frags[i..], p.End()), k);
    if p.Offset() <= k < n.offset {
      FrontHeld(frags, p, k);
    }
    if InChain(frags[i..], k) {
      BehindStarts(frags[i..], p.Offset(), k);
    }
    if Nested(frags, p) {
      NestedBehind(frags, p);
      if InChain(frags[i..], k) {
        BehindStarts(frags[i..], p.End(), k);
      }
      if p.Offset() <= k < p.End() {
        NestedHeld(frags, p, k);
      }
    }
  }

  lemma SuffixOk(frags: seq<Frag>, i: nat)
    requires ChainOk(frags) && i <= |frags|
    ensures ChainOk(frags[i..]) && ChainOk(frags[..i])
  {
  }

  lemma {:induction false} TrimOffsets(next: seq<Frag>, end: int, bound: int)
    requires end <= bound && forall f :: f in next ==> f.offset <= bound
    ensures forall f :: f in Trim(next, end) ==> f.offset <= bound
  {
    if next != [] && next[0].offset < end {
      var i := end - next[0].offset;
      var t := next[0].(len := next[0].len - i, offset := end, ptr := next[0].ptr + i);
      assert forall f :: f in next[1..] ==> f in next;
      if t.len <= 0 {
        TrimOffsets(next[1..], end, bound);
      } else {
        assert forall f :: f in [t] + next[1..] <==> f == t || f in next[1..];
      }
    }
  }

  lemma InsertOffsets(frags: seq<Frag>, p: Packet, bound: int)
    requires p.End() <= bound && forall f :: f in frags ==> f.offset <= bound && f.end <= bound
    ensures forall f :: f in Insert(frags, p) ==> f.offset <= bound
  {
    hide Trim, Place;
    var k := Place(frags, p.Offset());
    assert forall f :: f in frags[k..] || f in frags[..k] ==> f in frags;
    TrimOffsets(frags[k..], p.End(), bound);
    assert k > 0 ==> frags[k - 1] in frags;
  }

  /** A connected chain has no negative node but perhaps its last, and leaves out nothing below any of its ends. */
  lemma {:induction false} ConnectedCovers(frags: seq<Frag>, offset: int)
    requires ChainOk(frags) && Connected(frags, offset) && AllFrom(frags, offset)
    ensures InnerOk(frags)
    ensures forall f, k :: f in frags && offset <= k < f.end ==> InChain(frags, k)
  {
    if frags != [] {
      var rest := frags[1..];
      assert NodeOk(frags[0]) && frags[0] in frags && forall f :: f in rest ==> f in frags;
      assert rest != [] ==> rest[0] == frags[1] && 0 <= frags[0].len;
      assert AllFrom(rest, frags[0].end);
      ConnectedCovers(rest, frags[0].end);
      assert forall i :: 0 <= i < |rest| ==> rest[i] == frags[i + 1];
      forall f, k | f in frags && offset <= k < f.end ensures InChain(frags, k) {
        if k < frags[0].end {
          assert Inside(frags[0], k);
        } else {
          assert f in rest && InChain(rest, k);
        }
      }
    }
  }

  lemma {:induction false} CoveredConnects(frags: seq<Frag>, offset: int, bound: int)
    requires ChainOk(frags) && AllFrom(frags, offset) && InnerOk(frags) && offset <= bound
    requires forall f :: f in frags ==> f.offset <= bound && f.end <= bound
    requires forall k :: offset <= k < bound ==> InChain(frags, k)
    ensures Connected(frags, offset)
  {
    if frags != [] {
      var rest := frags[1..];
      assert NodeOk(frags[0]) && frags[0] in frags && forall f :: f in rest ==> f in frags;
      assert forall f :: f in frags ==> frags[0].offset <= f.offset;
      assert offset < bound ==> InChain(frags, offset);
      assert frags[0].offset <= offset;
      if rest != [] {
        assert AllFrom(rest, frags[0].end);
        assert forall i :: 0 <= i < |rest| ==> rest[i] == frags[i + 1];
        forall k | frags[0].end <= k < bound ensures InChain(rest, k) {
          assert InChain(frags, k);
          var f :| f in frags && Inside(f, k);
          assert f in rest;
        }
        CoveredConnects(rest, frags[0].end, bound);
      }
    }
  }

  lemma PieceFits(p: Packet, d: Whole)
    requires PieceOf(p, d) && d.Wf()
    ensures !p.Oversize() && p.End() <= |d.payload|
  {
  }

  lemma {:induction false} FinalEnd(ps: seq<Packet>, d: Whole)
    requires d.Wf() && forall p :: p in ps ==> PieceOf(p, d)
    ensures LatestEnd(ps) == 0 || LatestEnd(ps) == |d.payload|
    ensures LatestEnd(ps) != 0 <==> exists p: Packet :: p in ps && !p.mf
  {
    if ps != [] {
      var last, front := ps[|ps| - 1], ps[..|ps| - 1];
      assert last in ps && forall p :: p in ps <==> p in front || p == last;
      PieceFits(last, d);
      FinalEnd(front, d);
    }
  }

  lemma {:induction false} FirstHeader(ps: seq<Packet>, d: Whole)
    requires ps != [] && forall p :: p in ps ==> PieceOf(p, d)
    ensures (exists p: Packet :: p in ps && p.off == 0) ==> LatestHeader(ps) == d.hdr
  {
    var last, front := ps[|ps| - 1], ps[..|ps| - 1];
    assert last in ps && forall p :: p in ps <==> p in front || p == last;
    if |ps| > 1 {
      FirstHeader(front, d);
    }
  }

  /** The completeness test answers yes exactly if every byte has arrived and no node but the last is negative. */
  lemma DoneExact(q: Queue, ps: seq<Packet>, d: Whole)
    requires Keeps(q, ps, d) && d.Wf()
    ensures Done(q) <==> Complete(ps, d) && InnerOk(q.frags)
    ensures Done(q) ==> q.len == |d.payload| && q.hdr == d.hdr
  {
    hide LatestHeader, LatestEnd, ChainOk, RawPacket.Oversize, InnerOk;
    FinalEnd(ps, d);
    FirstHeader(ps, d);
    var n := |d.payload|;
    if Done(q) {
      ConnectedCovers(q.frags, 0);
      var f :| f in q.frags && q.len <= f.end;
      forall k | 0 <= k < n ensures Covers(ps, k) {
        assert InChain(q.frags, k);
      }
      assert Covers(ps, 0);
    }
    if Complete(ps, d) {
      assert Covers(ps, n - 1);
      var p: Packet :| p in ps && p.Offset() <= n - 1 < p.End();
      assert PieceOf(p, d) && !p.mf;
      if InnerOk(q.frags) {
        forall f | f in q.frags ensures f.end <= n {
          EndWithin(q, ps, d, f);
        }
        forall k | 0 <= k < n ensures InChain(q.frags, k) {
          assert Covers(ps, k);
        }
        CoveredConnects(q.frags, 0, n);
      }
    }
  }

  lemma EndWithin(q: Queue, ps: seq<Packet>, d: Whole, f: Frag)
    requires Keeps(q, ps, d) && f in q.frags
    ensures f.end <= |d.payload| && f.offset + f.len == f.end
  {
    assert f.skb in ps && NodeOk(f);
  }

  /** A node of negative length spoils the datagram. */
  lemma {:induction false} GlueRefuses(frags: seq<Frag>, body: seq<byte>, count: int)
    requires (forall i :: 0 <= i < |frags| ==> NodeOk(frags[i])) && !NoneNegative(frags)
    ensures GlueFrom(frags, body, count) == None
  {
    hide Splice, NodeData;
    assert NodeOk(frags[0]);
    if 0 <= frags[0].len && frags[0].offset + frags[0].len <= |body| {
      assert forall f :: f in frags ==> f == frags[0] || f in frags[1..];
      GlueRefuses(frags[1..], Splice(body, frags[0].offset, NodeData(frags[0])), count + frags[0].len);
    }
  }

  lemma {:induction false} GlueSucceeds(frags: seq<Frag>, body: seq<byte>, count: int)
    requires forall i :: 0 <= i < |frags| ==> NodeOk(frags[i])
    requires forall f :: f in frags ==> 0 <= f.len && f.offset + f.len <= |body|
    ensures GlueFrom(frags, body, count).Some?
  {
    hide Splice, NodeData;
    if frags != [] {
      assert NodeOk(frags[0]) && frags[0] in frags;
      GlueSucceeds(frags[1..], Splice(body, frags[0].offset, NodeData(frags[0])), count + frags[0].len);
    }
  }

  lemma BodyIsPayload(q: Queue, ps: seq<Packet>, d: Whole, b: seq<byte>)
    requires Keeps(q, ps, d) && |b| == |d.payload|
    requires forall k :: 0 <= k < |b| ==> FromNode(q.frags, k, b[k])
    ensures b == d.payload
  {
    hide ChainOk, LatestHeader, LatestEnd, InChain, Covers;
    forall k | 0 <= k < |b| ensures b[k] == d.payload[k] {
      var i :| 0 <= i < |q.frags| && q.frags[i].skb.Carries(k, b[k]);
      assert q.frags[i] in q.frags && PieceOf(q.frags[i].skb, d);
    }
  }

  /** A complete queue glues to the datagram that was sent if no node is negative, and is refused otherwise. */
  lemma GlueWhole(q: Queue, ps: seq<Packet>, d: Whole, junk: nat -> byte)
    requires Keeps(q, ps, d) && d.Wf() && Done(q)
    ensures Glue(q, junk) == if NoneNegative(q.frags) then Some(Original(d)) else None
  {
    hide LatestHeader, LatestEnd, InChain, Covers, Connected, PieceOf, FromNode, GlueFrom;
    DoneExact(q, ps, d);
    if NoneNegative(q.frags) {
      forall f | f in q.frags ensures f.offset + f.len <= |d.payload| {
        EndWithin(q, ps, d, f);
      }
      GlueSucceeds(q.frags, Malloc(q.len, junk), 0);
      GlueSafe(q, junk);
      BodyIsPayload(q, ps, d, Glue(q, junk).value.body);
    } else {
      GlueRefuses(q.frags, Malloc(q.len, junk), 0);
    }
  }

  /** The datagram as it was sent. */
  function Original(d: Whole): Datagram {
    Datagram(d.hdr, d.hdr.ihl + |d.payload|, d.payload)
  }

  ghost predicate KeepsAll(w: Waiting, ps: seq<Packet>, d: Whole) {
    match w
    case Absent => ps == []
    case Present(q) => Keeps(q, ps, d)
  }

  function FragsOf(w: Waiting): seq<Frag> {
    if w.Present? then w.q.frags else []
  }

  /** One more piece, nested or not: the datagram comes out, as it was sent, exactly if it is now complete and the
      chain then has no negative node. If only the last node is negative the complete queue is thrown away;
      otherwise it goes on waiting. */
  lemma ArriveExact(w: Waiting, p: Packet, junk: nat -> byte, ps: seq<Packet>, d: Whole)
    requires KeepsAll(w, ps, d) && d.Wf() && PieceOf(p, d)
    ensures w.Present? ==> ChainOk(w.q.frags)
    ensures var a := Arrive(w, p, junk);
            var chain := Insert(FragsOf(w), p);
            && (a.out.Some? <==> Complete(ps + [p], d) && NoneNegative(chain))
            && (a.out.Some? ==> a.out.value == Original(d))
            && (a.state.Absent? <==> Complete(ps + [p], d) && InnerOk(chain))
            && (a.state.Present? ==> Keeps(a.state.q, ps + [p], d) && a.state.q.frags == chain)
  {
    hide ChainOk, LatestHeader, LatestEnd, InChain, Connected, PieceOf, Insert, Complete, Covers, InnerOk;
    PieceFits(p, d);
    var q := Opened(w, p);
    OpenedStands(w, p, ps);
    InsertOk(q.frags, p);
    AddStands(q, p, ps);
    var q1 := AddFragment(q, p);
    forall k ensures Covers(ps + [p], k) <==> InChain(q1.frags, k) {
      InsertCoverage(q.frags, p, k);
      CoversAppend(ps, p, k);
      EmptyCovers(k);
    }
    forall f | f in q.frags ensures f.end <= |d.payload| {
      EndWithin(w.q, ps, d, f);
    }
    InsertOffsets(q.frags, p, |d.payload|);
    assert Keeps(q1, ps + [p], d);
    DoneExact(q1, ps + [p], d);
    InnerOfAll(q1.frags);
    if Done(q1) {
      GlueWhole(q1, ps + [p], d, junk);
    }
  }

  lemma InnerOfAll(frags: seq<Frag>)
    ensures NoneNegative(frags) ==> InnerOk(frags)
  {
  }

  lemma CoversAppend(ps: seq<Packet>, p: Packet, k: int)
    ensures Covers(ps + [p], k) <==> Covers(ps, k) || p.Offset() <= k < p.End()
  {
    assert forall q: Packet :: q in ps + [p] <==> q in ps || q == p;
  }

  lemma EmptyCovers(k: int)
    ensures !Covers([], k) && !InChain([], k)
  {
  }

  /** State and output after the last of a sequence of fragments, starting with no queue. */
  ghost function Feed(ps: seq<Packet>, junk: nat -> byte): Arrival
    decreases |ps|
  {
    if ps == [] then Arrival(Absent, None)
    else
      var w := Feed(ps[..|ps| - 1], junk).state;
      if w.Present? && !ChainOk(w.q.frags) then Arrival(Absent, None)
      else Arrive(w, ps[|ps| - 1], junk)
  }

  /** No fragment of the sequence ends before its predecessor in the chain it meets. */
  ghost predicate NeverNested(ps: seq<Packet>, junk: nat -> byte)
    decreases |ps|
  {
    ps == [] ||
    (NeverNested(ps[..|ps| - 1], junk) && !Nested(FragsOf(Feed(ps[..|ps| - 1], junk).state), ps[|ps| - 1]))
  }

  ghost predicate PiecesOf(ps: seq<Packet>, d: Whole) {
    forall p :: p in ps ==> PieceOf(p, d)
  }

  // ----- Which nested fragments stay in the way -----

  /** Where the predecessors of nested fragments end, as far as no later fragment has carried that position. */
  ghost function Stuck(ps: seq<Packet>, junk: nat -> byte): set<int>
    decreases |ps|
  {
    if ps == [] then {}
    else
      var front, p := ps[..|ps| - 1], ps[|ps| - 1];
      var chain := FragsOf(Feed(front, junk).state);
      (set e | e in Stuck(front, junk) && !(p.Offset() <= e < p.End()))
      + if Nested(chain, p) then {chain[Place(chain, p.Offset()) - 1].end} else {}
  }

  /** The negative nodes of a chain start there. */
  ghost predicate NegativeAt(frags: seq<Frag>, e: int) {
    exists f :: f in frags && f.len < 0 && f.offset == e
  }

  lemma {:induction false} TrimNegative(next: seq<Frag>, end: int, e: int)
    requires ChainOk(next)
    ensures NegativeAt(Trim(next, end), e) <==> NegativeAt(next, e) && end <= e
  {
    if next != [] && next[0].offset < end {
      var i := end - next[0].offset;
      var t := next[0].(len := next[0].len - i, offset := end, ptr := next[0].ptr + i);
      assert NodeOk(next[0]);
      assert forall f :: f in next <==> f == next[0] || f in next[1..];
      if t.len <= 0 {
        TrimNegative(next[1..], end, e);
      } else {
        assert forall f :: f in [t] + next[1..] <==> f == t || f in next[1..];
        assert forall f :: f in next[1..] ==> end <= f.offset;
      }
    } else if next != [] {
      assert forall f :: f in next ==> end <= f.offset;
    }
  }

  /** A negative node goes when a fragment carries the position it starts at, and comes with a nested fragment. */
  lemma InsertNegative(frags: seq<Frag>, p: Packet, e: int)
    requires ChainOk(frags)
    ensures NegativeAt(Insert(frags, p), e) <==>
              || (NegativeAt(frags, e) && !(p.Offset() <= e < p.End()))
              || (Nested(frags, p) && e == frags[Place(frags, p.Offset()) - 1].end)
  {
    hide Trim, NodeOk, ChainOk, NegativeAt, Place, NewNode;
    var i := Place(frags, p.Offset());
    var n := NewNode(frags, p);
    SuffixOk(frags, i);
    NewNodeFits(frags, p);
    TrimNegative(frags[i..], p.End(), e);
    NegativeJoin(frags[..i], [n] + Trim(frags[i..], p.End()), e);
    NegativeJoin([n], Trim(frags[i..], p.End()), e);
    NegativeJoin(frags[..i], frags[i..], e);
    assert frags == frags[..i] + frags[i..];
    assert Insert(frags, p) == frags[..i] + ([n] + Trim(frags[i..], p.End()));
    NegativeOne(n, e);
    if NegativeAt(frags[i..], e) {
      NegativeFrom(frags[i..], p.Offset(), e);
    }
    if NegativeAt(frags[..i], e) {
      NegativeBelow(frags[..i], p.Offset(), e);
    }
    if Nested(frags, p) {
      NestedStart(frags, p);
    }
  }

  lemma NegativeJoin(a: seq<Frag>, b: seq<Frag>, e: int)
    ensures NegativeAt(a + b, e) <==> NegativeAt(a, e) || NegativeAt(b, e)
  {
    assert forall f :: f in a + b <==> f in a || f in b;
  }

  lemma NegativeOne(n: Frag, e: int)
    ensures NegativeAt([n], e) <==> n.len < 0 && n.offset == e
  {
    assert n in [n];
  }

  lemma NegativeFrom(frags: seq<Frag>, bound: int, e: int)
    requires AllFrom(frags, bound) && NegativeAt(frags, e)
    ensures bound <= e
  {
  }

  lemma NegativeBelow(frags: seq<Frag>, bound: int, e: int)
    requires (forall i :: 0 <= i < |frags| ==> frags[i].offset < bound) && NegativeAt(frags, e)
    ensures e < bound
  {
  }

  lemma NestedStart(frags: seq<Frag>, p: Packet)
    requires Nested(frags, p)
    ensures Place(frags, p.Offset()) > 0
    ensures NewNode(frags, p).offset == frags[Place(frags, p.Offset()) - 1].end
  {
  }

  /** The queue has not left before the last fragment. */
  ghost predicate Waits(ps: seq<Packet>, junk: nat -> byte) {
    forall j {:trigger ps[..j]} :: 0 < j < |ps| ==> Feed(ps[..j], junk).state.Present?
  }

  /** One more piece for a queue that waits, told by the positions that are stuck. */
  lemma OneMorePiece(w: Waiting, ps: seq<Packet>, p: Packet, d: Whole, junk: nat -> byte, stuck: set<int>)
    requires d.Wf() && PieceOf(p, d) && KeepsAll(w, ps, d)
    requires forall e :: e in stuck <==> NegativeAt(Insert(FragsOf(w), p), e)
    ensures w.Present? ==> ChainOk(w.q.frags)
    ensures var a := Arrive(w, p, junk);
            && (a.out.Some? <==> Complete(ps + [p], d) && stuck == {})
            && (a.out.Some? ==> a.out.value == Original(d) && a.state == Absent)
            && (a.state.Present? ==> Keeps(a.state.q, ps + [p], d) && forall e :: e in stuck <==> NegativeAt(a.state.q.frags, e))
            && (a.state.Absent? ==> Complete(ps + [p], d))
  {
    hide ChainOk, PieceOf, Arrive, Keeps, InnerOk, Insert, NegativeAt, Complete, NoneNegative;
    ArriveExact(w, p, junk, ps, d);
    NoneStuck(Insert(FragsOf(w), p), stuck);
    InnerOfAll(Insert(FragsOf(w), p));
  }

  lemma FeedOne(ps: seq<Packet>, junk: nat -> byte)
    requires ps != []
    ensures var w := Feed(ps[..|ps| - 1], junk).state;
            (w.Present? ==> ChainOk(w.q.frags)) ==> Feed(ps, junk) == Arrive(w, ps[|ps| - 1], junk)
  {
    hide Arrive, ChainOk;
  }

  /** Pieces of a datagram, cut anywhere, overlapping and nested at will, in any order and with repetitions, as long
      as the queue waits: the datagram comes out, exactly as it was sent, if and only if the pieces cover it and
      each position where the predecessor of a nested piece ended has been carried by a later piece. */
  lemma {:induction false} Reassembles(ps: seq<Packet>, d: Whole, junk: nat -> byte)
    requires d.Wf() && PiecesOf(ps, d) && ps != [] && Waits(ps, junk)
    ensures var a := Feed(ps, junk);
            && (a.out.Some? <==> Complete(ps, d) && Stuck(ps, junk) == {})
            && (a.out.Some? ==> a.out.value == Original(d) && a.state == Absent)
            && (a.state.Present? ==> Keeps(a.state.q, ps, d) && forall e :: e in Stuck(ps, junk) <==> NegativeAt(a.state.q.frags, e))
            && (a.state.Absent? ==> Complete(ps, d))
    decreases |ps|
  {
    hide ChainOk, PieceOf, Arrive, Keeps, Nested, InnerOk, Insert, NegativeAt, Complete, Feed, Stuck;
    var n := |ps| - 1;
    var front, p := ps[..n], ps[n];
    assert front + [p] == ps && p in ps;
    var w := Feed(front, junk).state;
    WaitsBefore(ps, d, junk);
    if n > 0 {
      Reassembles(front, d, junk);
      KeepsChain(w.q, front, d);
    } else {
      NothingFed(junk);
    }
    StuckIsNegative(ps, junk);
    OneMorePiece(w, front, p, d, junk, Stuck(ps, junk));
    FeedOne(ps, junk);
  }

  lemma WaitsBefore(ps: seq<Packet>, d: Whole, junk: nat -> byte)
    requires PiecesOf(ps, d) && ps != [] && Waits(ps, junk)
    ensures PiecesOf(ps[..|ps| - 1], d) && Waits(ps[..|ps| - 1], junk)
    ensures |ps| > 1 ==> Feed(ps[..|ps| - 1], junk).state.Present?
  {
    hide PieceOf, Feed;
    var n := |ps| - 1;
    var front := ps[..n];
    assert forall q :: q in front ==> q in ps;
    forall j | 0 < j < n ensures front[..j] == ps[..j] {
    }
  }

  lemma NothingFed(junk: nat -> byte)
    ensures Feed([], junk).state == Absent && Stuck([], junk) == {}
    ensures ChainOk([]) && forall e :: !NegativeAt([], e)
  {
    hide NegativeAt;
    forall e ensures !NegativeAt([], e) {
      NothingNegative(e);
    }
  }

  lemma StuckIsNegative(ps: seq<Packet>, junk: nat -> byte)
    requires ps != []
    requires var w := Feed(ps[..|ps| - 1], junk).state;
             ChainOk(FragsOf(w)) && forall e :: e in Stuck(ps[..|ps| - 1], junk) <==> NegativeAt(FragsOf(w), e)
    ensures var w := Feed(ps[..|ps| - 1], junk).state;
            forall e :: e in Stuck(ps, junk) <==> NegativeAt(Insert(FragsOf(w), ps[|ps| - 1]), e)
  {
    hide ChainOk, Nested, Insert, NegativeAt, Feed;
    var w := Feed(ps[..|ps| - 1], junk).state;
    forall e ensures e in Stuck(ps, junk) <==> NegativeAt(Insert(FragsOf(w), ps[|ps| - 1]), e) {
      InsertNegative(FragsOf(w), ps[|ps| - 1], e);
    }
  }

  lemma KeepsChain(q: Queue, ps: seq<Packet>, d: Whole)
    requires Keeps(q, ps, d)
    ensures ChainOk(q.frags)
  {
  }

  lemma NoneStuck(frags: seq<Frag>, stuck: set<int>)
    requires forall e :: e in stuck <==> NegativeAt(frags, e)
    ensures stuck == {} <==> NoneNegative(frags)
  {
    forall f | f in frags && f.len < 0 ensures NegativeAt(frags, f.offset) {
    }
    assert (forall e :: e !in stuck) ==> stuck == {};
  }

  lemma NothingNegative(e: int)
    ensures !NegativeAt([], e)
  {
  }

  /** Pieces that never nest: nothing comes out while they do not cover the datagram, and the one that completes the
      cover brings it out. */
  lemma {:induction false} NeverNestedWaits(ps: seq<Packet>, d: Whole, junk: nat -> byte)
    requires d.Wf() && PiecesOf(ps, d) && NeverNested(ps, junk)
    requires ps != [] && !Complete(ps[..|ps| - 1], d)
    ensures Waits(ps, junk) && Stuck(ps, junk) == {}
    decreases |ps|
  {
    hide PieceOf, Nested, Complete, Feed;
    var n := |ps| - 1;
    var front := ps[..n];
    assert forall q :: q in front ==> q in ps;
    if n > 0 {
      SmallerIncomplete(front, d);
      NeverNestedWaits(front, d, junk);
      Reassembles(front, d, junk);
      forall j | 0 < j < |ps| ensures Feed(ps[..j], junk).state.Present? {
        if j < n {
          assert front[..j] == ps[..j];
        } else {
          assert ps[..j] == front;
        }
      }
    }
  }

  lemma SmallerIncomplete(ps: seq<Packet>, d: Whole)
    requires ps != [] && !Complete(ps, d)
    ensures !Complete(ps[..|ps| - 1], d)
  {
    var k :| 0 <= k < |d.payload| && !Covers(ps, k);
    assert forall q: Packet :: q in ps[..|ps| - 1] ==> q in ps;
    assert !Covers(ps[..|ps| - 1], k);
  }

  // ----- Cutting along one set of boundaries never nests -----

  ghost predicate Cuts(cuts: seq<nat>, d: Whole) {
    && |cuts| >= 2 && cuts[0] == 0 && cuts[|cuts| - 1] == |d.payload|
    && forall i, j :: 0 <= i < j < |cuts| ==> cuts[i] < cuts[j]
  }

  /** From one boundary to the next. */
  ghost predicate Between(cuts: seq<nat>, offset: int, end: int) {
    exists i {:trigger cuts[i]} :: 0 <= i < |cuts| - 1 && offset == cuts[i] && end == cuts[i + 1]
  }

  ghost predicate ExactChain(frags: seq<Frag>, cuts: seq<nat>) {
    forall f :: f in frags ==> Between(cuts, f.offset, f.end)
  }

  /** Two intervals between neighbouring boundaries are the same or apart. */
  lemma SameOrApart(cuts: seq<nat>, d: Whole, a: int, b: int, x: int, y: int)
    requires Cuts(cuts, d) && Between(cuts, a, b) && Between(cuts, x, y)
    ensures a < b && (a < x ==> b <= x) && (a <= x < b ==> x == a && y == b)
  {
    var i :| 0 <= i < |cuts| - 1 && a == cuts[i] && b == cuts[i + 1];
    var j :| 0 <= j < |cuts| - 1 && x == cuts[j] && y == cuts[j + 1];
  }

  lemma {:induction false} TrimExact(next: seq<Frag>, cuts: seq<nat>, d: Whole, p: Packet)
    requires Cuts(cuts, d) && ExactChain(next, cuts) && Between(cuts, p.Offset(), p.End())
    requires ChainOk(next) && AllFrom(next, p.Offset())
    ensures ExactChain(Trim(next, p.End()), cuts)
  {
    if next != [] && next[0].offset < p.End() {
      assert next[0] in next && NodeOk(next[0]);
      SameOrApart(cuts, d, p.Offset(), p.End(), next[0].offset, next[0].end);
      TrimExact(next[1..], cuts, d, p);
    }
  }

  lemma InsertExact(frags: seq<Frag>, cuts: seq<nat>, d: Whole, p: Packet)
    requires Cuts(cuts, d) && ExactChain(frags, cuts) && Between(cuts, p.Offset(), p.End()) && ChainOk(frags)
    ensures !Nested(frags, p) && ExactChain(Insert(frags, p), cuts)
  {
    hide Trim, Between, Cuts, NodeOk, ChainOk;
    var k := Place(frags, p.Offset());
    SameOrApart(cuts, d, p.Offset(), p.End(), p.Offset(), p.End());
    if k > 0 {
      assert frags[k - 1] in frags;
      SameOrApart(cuts, d, frags[k - 1].offset, frags[k - 1].end, p.Offset(), p.End());
    }
    NewNodeFits(frags, p);
    SuffixOk(frags, k);
    assert forall f :: f in frags[k..] || f in frags[..k] ==> f in frags;
    TrimExact(frags[k..], cuts, d, p);
  }

  /** The pieces are those of one cutting of the datagram. */
  ghost predicate CutAlong(ps: seq<Packet>, cuts: seq<nat>) {
    forall p: Packet :: p in ps ==> Between(cuts, p.Offset(), p.End())
  }

  lemma {:induction false} CutNeverNests(ps: seq<Packet>, cuts: seq<nat>, d: Whole, junk: nat -> byte)
    requires Cuts(cuts, d) && CutAlong(ps, cuts)
    ensures NeverNested(ps, junk)
    ensures var w := Feed(ps, junk).state; ExactChain(FragsOf(w), cuts) && ChainOk(FragsOf(w))
    decreases |ps|
  {
    hide Between, Cuts, Insert, ChainOk, Nested, Glue, Done;
    EmptyChain();
    if ps != [] {
      var n := |ps| - 1;
      var front, p := ps[..n], ps[n];
      assert p in ps && forall q :: q in front ==> q in ps;
      CutNeverNests(front, cuts, d, junk);
      var w := Feed(front, junk).state;
      InsertExact(FragsOf(w), cuts, d, p);
      InsertOk(FragsOf(w), p);
      assert Opened(w, p).frags == FragsOf(w);
    }
  }

  lemma EmptyChain()
    ensures ChainOk([])
  {
  }

  /** Round trip: a datagram cut at any boundaries, its pieces arriving in any
      order with duplicates, yields nothing until the last missing piece and
      then exactly the original header and payload. */
  lemma RoundTrip(ps: seq<Packet>, cuts: seq<nat>, d: Whole, junk: nat -> byte)
    requires d.Wf() && Cuts(cuts, d) && PiecesOf(ps, d) && CutAlong(ps, cuts)
    requires ps != [] && !Complete(ps[..|ps| - 1], d)
    ensures Feed(ps, junk).out ==
            if Complete(ps, d) then Some(Original(d)) else None
  {
    hide Feed, NeverNested, Complete, PiecesOf, Keeps, NegativeAt, Stuck, Waits;
    CutNeverNests(ps, cuts, d, junk);
    NeverNestedWaits(ps, d, junk);
    Reassembles(ps, d, junk);
  }

  // ----- A nested fragment can stall a datagram -----

  /** The piece of `d` from 8-byte block `i` up to block `j`. */
  function Cut(d: Whole, i: nat, j: nat): Packet
    requires d.Wf() && i <= j && 8 * j <= |d.payload| && i <= 0x1FFF
  {
    RawPacket(d.hdr, i, 8 * j < |d.payload|, d.payload[8 * i..8 * j])
  }

  lemma FeedStep(ps: seq<Packet>, w: Waiting, p: Packet, q1: Queue, junk: nat -> byte)
    requires Feed(ps, junk).state == w && (w.Present? ==> ChainOk(w.q.frags))
    requires q1 == AddFragment(Opened(w, p), p) && !Done(q1) && !p.Oversize()
    ensures Feed(ps + [p], junk) == Arrival(Present(q1), None)
  {
    hide AddFragment, Done, ChainOk;
    assert (ps + [p])[..|ps|] == ps;
  }

  lemma InsertLast(frags: seq<Frag>, p: Packet)
    requires forall f :: f in frags ==> f.offset < p.Offset() && f.end <= p.Offset()
    ensures Insert(frags, p) == frags + [Frag(p.Offset(), p.End(), p.End() - p.Offset(), p, 0)]
  {
    var k := Place(frags, p.Offset());
    assert forall i :: 0 <= i < |frags| ==> frags[i] in frags;
  }

  lemma InsertNested(fa: Frag, fb: Frag, c: Packet)
    requires fa.offset < c.Offset() && c.End() < fa.end == fb.offset && c.Offset() <= fb.offset
    ensures Insert([fa, fb], c) == [fa, Frag(fa.end, c.End(), c.End() - fa.end, c, fa.end - c.Offset()), fb]
  {
    assert Place([fb], c.Offset()) == 0;
    assert Place([fa, fb], c.Offset()) == 1;
  }

  /** A nested piece can keep a datagram in: a 40-byte datagram whose second
      block comes again on its own, between two pieces that already touch, does not
      come out although every byte has arrived. */
  lemma NestedStalls(d: Whole, junk: nat -> byte)
    requires d.Wf() && |d.payload| == 40
    ensures var ps := [Cut(d, 0, 3), Cut(d, 3, 4), Cut(d, 1, 2), Cut(d, 4, 5)];
            PiecesOf(ps, d) && Complete(ps, d) && Feed(ps, junk).out == None && Feed(ps, junk).state.Present?
  {
    hide Feed, Arrive, Insert, Connected, ChainOk;
    var a, b, c, e := Cut(d, 0, 3), Cut(d, 3, 4), Cut(d, 1, 2), Cut(d, 4, 5);
    var ps := [a, b, c, e];
    assert a in ps && b in ps && c in ps && e in ps;
    assert forall k :: 0 <= k < 40 ==> Covers(ps, k);
    StallFeeds(d, a, b, c, e, junk);
  }

  lemma InsertBehind(fa: Frag, c: Packet)
    requires fa.offset < c.Offset() && c.End() < fa.end
    ensures Insert([fa], c) == [fa, Frag(fa.end, c.End(), c.End() - fa.end, c, fa.end - c.Offset())]
  {
    assert Place([], c.Offset()) == 0;
    assert Place([fa], c.Offset()) == 1;
  }

  lemma InsertOver(fa: Frag, fc: Frag, e: Packet)
    requires fa.offset < e.Offset() && fa.end == e.Offset() == fc.offset && fc.end < fc.offset < e.End() && NodeOk(fc)
    ensures Insert([fa, fc], e) == [fa, Frag(e.Offset(), e.End(), e.End() - e.Offset(), e, 0)]
    ensures Place([fa, fc], e.Offset()) == 1
  {
    assert Place([fc], e.Offset()) == 0;
    assert Place([fa, fc], e.Offset()) == 1;
    assert [fa, fc][1..] == [fc] && [fa, fc][..1] == [fa];
    assert Trim([fc], e.End()) == [] by { assert [fc][1..] == [] && Trim([], e.End()) == []; }
  }

  lemma InsertBefore(fa: Frag, fc: Frag, e: Packet)
    requires e.Offset() < e.End() == fa.offset <= fc.offset
    ensures Insert([fa, fc], e) == [Frag(e.Offset(), e.End(), e.End() - e.Offset(), e, 0), fa, fc]
  {
    assert Place([fa, fc], e.Offset()) == 0;
  }

  /** The first two pieces of either example below. */
  lemma TwoArrive(d: Whole, a: Packet, c: Packet, junk: nat -> byte)
    requires d.Wf() && PieceOf(a, d) && PieceOf(c, d) && a.hdr == c.hdr == d.hdr && c.mf && a.Offset() < c.Offset() && c.End() < a.End()
    requires a.off != 0 || a.mf
    ensures var fa, fc := Frag(a.Offset(), a.End(), |a.payload|, a, 0), Frag(a.End(), c.End(), c.End() - a.End(), c, a.End() - c.Offset());
            && Feed([a], junk) == Arrival(Present(Queue(d.hdr, if a.mf then 0 else a.End(), [fa])), None)
            && Feed([a, c], junk) == Arrival(Present(Queue(d.hdr, if a.mf then 0 else a.End(), [fa, fc])), None)
            && ChainOk([fa]) && ChainOk([fa, fc])
  {
    hide Feed, Insert, ChainOk, PieceOf;
    PieceFits(a, d);
    PieceFits(c, d);
    var fa, fc := Frag(a.Offset(), a.End(), |a.payload|, a, 0), Frag(a.End(), c.End(), c.End() - a.End(), c, a.End() - c.Offset());
    TwoOk(fa, fc);
    FeedNothing(junk);
    EmptyChain();
    InsertLast([], a);
    InsertBehind(fa, c);
    assert [] + [fa] == [fa] && [] + [a] == [a] && [a] + [c] == [a, c];
    var len := if a.mf then 0 else a.End();
    FeedStep([], Absent, a, Queue(d.hdr, len, [fa]), junk);
    FeedStep([a], Present(Queue(d.hdr, len, [fa])), c, Queue(d.hdr, len, [fa, fc]), junk);
  }

  /** Not every nested piece does: here the last piece carries the position at which the first one ended. */
  lemma NestedPasses(d: Whole, junk: nat -> byte)
    requires d.Wf() && |d.payload| == 40
    ensures var ps := [Cut(d, 0, 3), Cut(d, 1, 2), Cut(d, 3, 5)];
            PiecesOf(ps, d) && !NeverNested(ps, junk) && Feed(ps, junk) == Arrival(Absent, Some(Original(d)))
  {
    hide Feed, Insert, ChainOk, Keeps, NegativeAt, NeverNested, PieceOf, Complete;
    var a, c, e := Cut(d, 0, 3), Cut(d, 1, 2), Cut(d, 3, 5);
    var ps := [a, c, e];
    var fa, fc := Frag(0, 24, 24, a, 0), Frag(24, 16, -8, c, 16);
    CutsArePieces(d);
    TwoArrive(d, a, c, junk);
    InsertOver(fa, fc, e);
    assert ps[..2] == [a, c] && ps[..1] == [a] && [a, c][..1] == [a] && [a][..0] == [];
    assert PiecesOf(ps, d);
    ThreeCover(a, c, e, d);
    StuckTwo(a, c, e, [fa], [fa, fc], junk);
    Reassembles(ps, d, junk);
    FeedOnce(ps, junk);
  }

  lemma CutsArePieces(d: Whole)
    requires d.Wf()
    ensures forall i: nat, j: nat :: i < j && 8 * j <= |d.payload| && i <= 0x1FFF && (i > 0 || 8 * j < |d.payload|) ==> PieceOf(Cut(d, i, j), d)
  {
  }

  lemma ThreeCover(a: Packet, c: Packet, e: Packet, d: Whole)
    requires a.off == 0 && a.End() >= e.Offset() && e.End() == |d.payload|
    ensures Complete([a, c, e], d)
  {
    assert a in [a, c, e] && e in [a, c, e];
  }

  /** The position is stuck after the second piece and no longer after the third. */
  lemma StuckTwo(a: Packet, c: Packet, e: Packet, one: seq<Frag>, two: seq<Frag>, junk: nat -> byte)
    requires Feed([a], junk).state.Present? && Feed([a], junk).state.q.frags == one
    requires Feed([a, c], junk).state.Present? && Feed([a, c], junk).state.q.frags == two
    requires |one| == 1 && one[0].offset < c.Offset() && c.End() < one[0].end && e.Offset() <= one[0].end < e.End()
    requires |two| == 2 && Place(two, e.Offset()) == 1 && two[0].end <= e.End()
    ensures Stuck([a, c, e], junk) == {} && !NeverNested([a, c, e], junk)
    ensures Waits([a, c, e], junk)
  {
    hide Feed;
    var ps := [a, c, e];
    assert ps[..2] == [a, c] && [a, c][..1] == [a] && [a][..0] == [];
    FeedNothing(junk);
    assert Place(one, c.Offset()) == 1 by { assert Place(one[1..], c.Offset()) == 0; }
    assert Stuck([], junk) == {} && Stuck([a], junk) == {};
    assert Nested(one, c) && Stuck([a, c], junk) == {one[0].end};
    assert !NeverNested([a, c], junk);
    forall j | 0 < j < 3 ensures Feed(ps[..j], junk).state.Present? {
      assert ps[..j] == if j == 1 then [a] else [a, c];
    }
  }

  lemma FeedOnce(ps: seq<Packet>, junk: nat -> byte)
    ensures var a := Feed(ps, junk); a.out.Some? ==> a.state == Absent
  {
    hide Glue, Done, Insert;
  }

  /** And where the nested piece is the last of the chain, the queue counts as complete and is thrown away: the
      datagram is lost although every byte has arrived. */
  lemma NestedLost(d: Whole, junk: nat -> byte)
    requires d.Wf() && |d.payload| == 48
    ensures var ps := [Cut(d, 3, 6), Cut(d, 4, 5), Cut(d, 0, 3)];
            PiecesOf(ps, d) && Complete(ps, d) && Feed(ps, junk) == Arrival(Absent, None)
  {
    hide Insert, ChainOk, Keeps, PieceOf;
    var a, c, e := Cut(d, 3, 6), Cut(d, 4, 5), Cut(d, 0, 3);
    var ps := [a, c, e];
    CutsArePieces(d);
    assert Complete(ps, d) by {
      assert a in ps && e in ps;
    }
    LostFeeds(d, a, c, e, junk);
  }

  lemma LostFeeds(d: Whole, a: Packet, c: Packet, e: Packet, junk: nat -> byte)
    requires d.Wf() && PieceOf(a, d) && PieceOf(c, d) && PieceOf(e, d) && a.hdr == c.hdr == e.hdr == d.hdr
    requires !a.mf && c.mf && e.mf && a.off == 3 && a.End() == 48 && c.off == 4 && c.End() == 40 && e.off == 0 && e.End() == 24
    ensures Feed([a, c, e], junk) == Arrival(Absent, None)
  {
    hide Insert, ChainOk, PieceOf, Glue;
    var fa, fc, fe := Frag(24, 48, 24, a, 0), Frag(48, 40, -8, c, 16), Frag(0, 24, 24, e, 0);
    TwoArrive(d, a, c, junk);
    InsertBefore(fa, fc, e);
    PieceFits(e, d);
    assert [a, c, e][..2] == [a, c];
    var q1 := Queue(d.hdr, 48, [fe, fa, fc]);
    ThreeConnect(fe, fa, fc);
    assert Done(q1);
    ThreeOk(fe, fa, fc);
    SpoiltGlue(q1, junk);
  }

  lemma ThreeConnect(a: Frag, b: Frag, c: Frag)
    requires a.offset == 0 && b.offset <= a.end && c.offset <= b.end
    ensures Connected([a, b, c], 0)
  {
    assert [a, b, c][1..] == [b, c] && [b, c][1..] == [c] && [c][1..] == [];
    assert Connected([], c.end);
    assert Connected([c], b.end);
    assert Connected([b, c], a.end);
  }

  lemma SpoiltGlue(q: Queue, junk: nat -> byte)
    requires (forall i :: 0 <= i < |q.frags| ==> NodeOk(q.frags[i])) && |q.frags| == 3 && q.frags[2].len < 0
    ensures Glue(q, junk) == None
  {
    assert q.frags[2] in q.frags;
    GlueRefuses(q.frags, Malloc(q.len, junk), 0);
  }

  lemma StallFeeds(d: Whole, a: Packet, b: Packet, c: Packet, e: Packet, junk: nat -> byte)
    requires d.Wf() && a.hdr == b.hdr == c.hdr == e.hdr == d.hdr && a.mf && b.mf && c.mf && !e.mf
    requires a.off == 0 && b.off == 3 && c.off == 1 && e.off == 4
    requires a.End() == 24 && b.End() == 32 && c.End() == 16 && e.End() == 40
    requires d.hdr.ihl <= 60
    ensures Feed([a, b, c, e], junk).out == None && Feed([a, b, c, e], junk).state.Present?
  {
    hide Feed, Insert, ChainOk;
    var fa, fb, fc, fe := Frag(0, 24, 24, a, 0), Frag(24, 32, 8, b, 0), Frag(24, 16, -8, c, 16), Frag(32, 40, 8, e, 0);
    StallChains(a, b, c, e);
    ThreeOk(fa, fc, fb);
    TwoOk(fa, fb);
    FeedNothing(junk);
    FeedStep([], Absent, a, Queue(d.hdr, 0, [fa]), junk);
    assert [] + [a] == [a] && [a] + [b] == [a, b] && [a, b] + [c] == [a, b, c] && [a, b, c] + [e] == [a, b, c, e];
    FeedStep([a], Present(Queue(d.hdr, 0, [fa])), b, Queue(d.hdr, 0, [fa, fb]), junk);
    FeedStep([a, b], Present(Queue(d.hdr, 0, [fa, fb])), c, Queue(d.hdr, 0, [fa, fc, fb]), junk);
    assert !Connected([fb, fe], 16) && !Connected([fc, fb, fe], 24) && !Connected([fa, fc, fb, fe], 0);
    FeedStep([a, b, c], Present(Queue(d.hdr, 0, [fa, fc, fb])), e, Queue(d.hdr, 40, [fa, fc, fb, fe]), junk);
  }

  lemma FeedNothing(junk: nat -> byte)
    ensures Feed([], junk).state == Absent
  {
  }

  lemma TwoOk(a: Frag, b: Frag)
    requires NodeOk(a) && NodeOk(b) && a.offset <= b.offset && a.end <= b.offset
    ensures ChainOk([]) && ChainOk([a]) && ChainOk([a, b])
  {
  }

  lemma ThreeOk(a: Frag, b: Frag, c: Frag)
    requires NodeOk(a) && NodeOk(b) && NodeOk(c) && a.offset <= b.offset <= c.offset
    requires a.end <= b.offset && a.end <= c.offset && b.end <= c.offset
    ensures ChainOk([a, b, c])
  {
    hide NodeOk;
  }

  /** The chains along the way: the repeated block becomes a node of length -8 at offset 24. */
  lemma StallChains(a: Packet, b: Packet, c: Packet, e: Packet)
    requires a.off == 0 && b.off == 3 && c.off == 1 && e.off == 4
    requires a.End() == 24 && b.End() == 32 && c.End() == 16 && e.End() == 40
    ensures var fa, fb, fc, fe := Frag(0, 24, 24, a, 0), Frag(24, 32, 8, b, 0), Frag(24, 16, -8, c, 16), Frag(32, 40, 8, e, 0);
            && Insert([], a) == [fa] && Insert([fa], b) == [fa, fb]
            && Insert([fa, fb], c) == [fa, fc, fb] && Insert([fa, fc, fb], e) == [fa, fc, fb, fe]
  {
    hide Insert, Place, Trim, ChainOk, NodeOk;
    var fa, fb, fc := Frag(0, 24, 24, a, 0), Frag(24, 32, 8, b, 0), Frag(24, 16, -8, c, 16);
    InsertLast([], a);
    InsertLast([fa], b);
    InsertNested(fa, fb, c);
    InsertLast([fa, fc, fb], e);
  }
}
