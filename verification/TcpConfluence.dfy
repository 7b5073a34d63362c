/** What the wrapping reassembler computes, seen on unbounded stream positions:
    the queue stays ordered for every input, and the bytes handed out depend
    only on which bytes arrived. */
module TcpConfluence {
  import opened SeqArith
  import opened TcpReassembly

  /** A segment placed on the unbounded position line. */
  datatype Piece = Piece(off: int, data: Payload, fin: bool) {
    function End(): int { off + |data| }
  }

  /** The reassembler without wrapping: the position wanted next, the pieces
      held back, and the bytes handed out so far. */
  datatype Ideal = Ideal(next: int, held: seq<Piece>, out: seq<byte>)

  /** The part of a piece from a position on. */
  function From(p: Piece, next: int): seq<byte> {
    if p.off <= next <= p.End() then p.data[next - p.off..] else []
  }

  function IdealHead(st: Ideal): (id: Ideal)
    requires st.held != [] && st.held[0].off <= st.next
    ensures id.held == st.held[1..]
  {
    var p := st.held[0];
    if p.End() + Bit(p.fin) > st.next
    then Ideal(p.End(), st.held[1..], st.out + From(p, st.next))
    else st.(held := st.held[1..])
  }

  function IdealDrain(st: Ideal): Ideal
    decreases |st.held|
  {
    if st.held == [] || st.held[0].off > st.next then st else IdealDrain(IdealHead(st))
  }

  function IdealAt(held: seq<Piece>, off: int): (i: nat)
    ensures i <= |held|
    ensures forall j :: 0 <= j < i ==> held[j].off <= off
    ensures i < |held| ==> off < held[i].off
  {
    if held == [] || held[0].off > off then 0 else 1 + IdealAt(held[1..], off)
  }

  function IdealStep(st: Ideal, p: Piece): Ideal {
    if p.off <= st.next then
      if p.End() + Bit(p.fin) > st.next
      then IdealDrain(Ideal(p.End(), st.held, st.out + From(p, st.next)))
      else st
    else
      st.(held := Hold(st.held, p))
  }

  function Concat(chunks: seq<seq<byte>>): seq<byte> {
    if chunks == [] then [] else chunks[0] + Concat(chunks[1..])
  }

  lemma {:induction false} ConcatAppend(a: seq<seq<byte>>, b: seq<seq<byte>>)
    ensures Concat(a + b) == Concat(a) + Concat(b)
  {
    if a == [] {
      assert a + b == b;
    } else {
      assert (a + b)[1..] == a[1..] + b;
      ConcatAppend(a[1..], b);
    }
  }

  // ----- The wrapping code computes the ideal one -----

  ghost predicate Sorted(held: seq<Piece>) {
    forall i, j :: 0 <= i < j < |held| ==> held[i].off <= held[j].off
  }

  /** Every held piece lies within the window where wrapped comparisons are exact. */
  ghost predicate InReach(held: seq<Piece>, next: int) {
    forall i :: 0 <= i < |held| ==> next - 65535 <= held[i].off <= next + TWO31
  }

  ghost predicate Beyond(held: seq<Piece>, next: int) {
    forall i :: 0 <= i < |held| ==> next < held[i].off
  }

  ghost predicate Wraps(base: int, frag: Skbuff, p: Piece) {
    frag.seqNum == U32(base + p.off) && frag.data == p.data && frag.fin == p.fin
  }

  ghost predicate QueueWraps(base: int, fraglist: seq<Skbuff>, held: seq<Piece>) {
    |fraglist| == |held| && forall i :: 0 <= i < |held| ==> Wraps(base, fraglist[i], held[i])
  }

  /** The two halves represent an ideal reassembler whose position 0 has sequence number `base`. */
  ghost predicate Represents(base: int, snd: HalfStream, rcv: HalfStream, st: Ideal) {
    && ExpSeq(snd, rcv) == U32(base + st.next)
    && QueueWraps(base, rcv.fraglist, st.held)
    && Sorted(st.held)
    && InReach(st.held, st.next)
  }

  /** No urgent byte is pending and none is queued. */
  predicate NoUrgent(rcv: HalfStream) {
    !rcv.urgSeen && forall i :: 0 <= i < |rcv.fraglist| ==> !rcv.fraglist[i].urg
  }

  /** Wrapped comparisons agree with positions for anything in reach. */
  lemma ReachAgrees(base: int, next: int, off: int, len: nat, fin: bool)
    requires -TWO31 < off - next <= TWO31 && len <= 65535
    ensures After(U32(base + off), U32(base + next)) <==> off > next
    ensures off <= next ==>
      (After(U32(U32(base + off) + len + Bit(fin)), U32(base + next)) <==> off + len + Bit(fin) > next)
  {
    AfterExact(base + off, base + next);
    if off <= next {
      WrapAdd(base + off, len + Bit(fin));
      AfterExact(base + off + len + Bit(fin), base + next);
    }
  }

  /** Delivering one piece that has been reached. */
  lemma DeliverRefines(base: int, snd: HalfStream, rcv: HalfStream, next: int, p: Piece,
                       urg: bool, urgPtr: u32)
    requires ExpSeq(snd, rcv) == U32(base + next)
    requires -TWO31 < p.off - next <= 0 && p.End() + Bit(p.fin) > next
    ensures Reaches(ExpSeq(snd, rcv), U32(base + p.off), |p.data|, p.fin)
    ensures var d := AddFromskb(snd, rcv, p.data, U32(base + p.off), p.fin, urg, urgPtr);
            && ExpSeq(d.snd, d.rcv) == U32(base + p.End())
            && d.snd.firstDataSeq == snd.firstDataSeq
            && d.rcv.fraglist == rcv.fraglist && d.rcv.rmemAlloc == rcv.rmemAlloc
            && (!urg && !rcv.urgSeen ==> !d.rcv.urgSeen && Concat(d.chunks) == From(p, next))
  {
    hide U32, I32, After, Before;
    ReachAgrees(base, next, p.off, |p.data|, p.fin);
    AddFromskbAdvances(snd, rcv, p.data, U32(base + p.off), p.fin, urg, urgPtr);
    WrapAdd(base + p.off, |p.data|);
    LostIs(base, next, p.off);
  }

  lemma LostIs(base: int, next: int, off: int)
    requires 0 <= next - off < TWO31
    ensures U32(U32(base + next) - U32(base + off)) == next - off
  {
    hide U32, I32;
    var k := Quotient(base + next);
    var m := Quotient(base + off);
    Congruent(U32(base + next) - U32(base + off), next - off, m - k);
    WrapSmall(next - off);
  }

  lemma HeadRefines(base: int, snd: HalfStream, rcv: HalfStream, st: Ideal)
    requires Represents(base, snd, rcv, st) && st.held != []
    ensures After(rcv.fraglist[0].seqNum, ExpSeq(snd, rcv)) <==> st.held[0].off > st.next
    ensures st.held[0].off <= st.next ==>
      var d := DeliverHead(snd, rcv); var id := IdealHead(st);
      && ExpSeq(d.snd, d.rcv) == U32(base + id.next) && st.next <= id.next
      && (id.next == st.next || id.next <= st.held[0].off + 65535)
      && d.snd.firstDataSeq == snd.firstDataSeq
      && (NoUrgent(rcv) ==> !d.rcv.urgSeen && id.out == st.out + Concat(d.chunks))
  {
    hide U32, I32, After, Before;
    var frag, p := rcv.fraglist[0], st.held[0];
    assert Wraps(base, frag, p);
    ReachAgrees(base, st.next, p.off, |p.data|, p.fin);
    if p.off <= st.next && p.End() + Bit(p.fin) > st.next {
      DeliverRefines(base, snd, rcv, st.next, p, frag.urg, U32(frag.urgPtr + frag.seqNum - 1));
    }
  }

  lemma {:induction false} DrainRefines(base: int, snd: HalfStream, rcv: HalfStream, st: Ideal)
    requires Represents(base, snd, rcv, st)
    ensures var d := Drain(snd, rcv); var id := IdealDrain(st);
            && Represents(base, d.snd, d.rcv, id) && Beyond(id.held, id.next)
            && d.snd.firstDataSeq == snd.firstDataSeq
            && (NoUrgent(rcv) ==> NoUrgent(d.rcv) && id.out == st.out + Concat(d.chunks))
    decreases |rcv.fraglist|
  {
    hide U32, I32, After, Before, AddFromskb, DeliverHead, IdealHead, ExpSeq;
    if rcv.fraglist != [] {
      HeadRefines(base, snd, rcv, st);
      if st.held[0].off <= st.next {
        var d, id := DeliverHead(snd, rcv), IdealHead(st);
        assert Represents(base, d.snd, d.rcv, id);
        DrainRefines(base, d.snd, d.rcv, id);
        ConcatAppend(d.chunks, Drain(d.snd, d.rcv).chunks);
      }
    }
  }

  lemma {:induction false} InsertRefines(base: int, fraglist: seq<Skbuff>, held: seq<Piece>, next: int, off: int)
    requires QueueWraps(base, fraglist, held)
    requires Beyond(held, next) && InReach(held, next) && next < off <= next + TWO31
    ensures InsertAt(fraglist, U32(base + off)) == IdealAt(held, off)
  {
    hide U32, I32, After, Before;
    if held != [] {
      assert Wraps(base, fraglist[0], held[0]);
      HalfSpaceOrder(base + held[0].off, base + off);
      InsertRefines(base, fraglist[1..], held[1..], next, off);
    }
  }

  function Hold(held: seq<Piece>, p: Piece): seq<Piece> {
    var i := IdealAt(held, p.off);
    held[..i] + [p] + held[i..]
  }

  lemma InsertRepresents(base: int, fraglist: seq<Skbuff>, held: seq<Piece>, next: int, skb: Skbuff, p: Piece)
    requires QueueWraps(base, fraglist, held) && Wraps(base, skb, p)
    requires Sorted(held) && Beyond(held, next) && InReach(held, next) && next < p.off <= next + TWO31
    ensures QueueWraps(base, Insert(fraglist, skb), Hold(held, p))
    ensures Sorted(Hold(held, p)) && Beyond(Hold(held, p), next) && InReach(Hold(held, p), next)
  {
    hide U32, I32, After, Before, InsertAt, IdealAt;
    InsertRefines(base, fraglist, held, next, p.off);
    var i := IdealAt(held, p.off);
    forall j | 0 <= j < |held| + 1
      ensures Wraps(base, Insert(fraglist, skb)[j], Hold(held, p)[j])
    {
      if j < i {
        assert Wraps(base, fraglist[j], held[j]);
      } else if j > i {
        assert Wraps(base, fraglist[j - 1], held[j - 1]);
      }
    }
    forall j | i <= j < |held| ensures p.off < held[j].off {
      assert held[i].off <= held[j].off;
    }
  }

  lemma InsertStepRefines(base: int, snd: HalfStream, rcv: HalfStream, st: Ideal, sg: Segment, p: Piece)
    requires Represents(base, snd, rcv, st) && Beyond(st.held, st.next)
    requires p.data == sg.data && p.fin == sg.fin && sg.seqNum == U32(base + p.off)
    requires After(sg.seqNum, ExpSeq(snd, rcv)) && st.next < p.off <= st.next + TWO31
    ensures var q := TcpQueue(snd, rcv, sg); var id := st.(held := Hold(st.held, p));
            && Represents(base, q.snd, q.rcv, id) && Beyond(id.held, id.next)
            && q.snd.firstDataSeq == snd.firstDataSeq
            && (NoUrgent(rcv) && !sg.urg ==> NoUrgent(q.rcv) && q.chunks == [])
  {
    hide U32, I32, After, Before, InsertAt, Hold;
    var skb := Skbuff(sg.data, sg.skblen, sg.urp, sg.fin, sg.urg, sg.seqNum);
    InsertRepresents(base, rcv.fraglist, st.held, st.next, skb, p);
  }

  lemma DeliverStepRefines(base: int, snd: HalfStream, rcv: HalfStream, st: Ideal, sg: Segment, p: Piece)
    requires Represents(base, snd, rcv, st) && Beyond(st.held, st.next)
    requires p.data == sg.data && p.fin == sg.fin && sg.seqNum == U32(base + p.off)
    requires -TWO31 < p.off - st.next <= 0 && p.End() + Bit(p.fin) > st.next
    ensures !After(sg.seqNum, ExpSeq(snd, rcv))
    ensures After(U32(sg.seqNum + |sg.data| + Bit(sg.fin)), ExpSeq(snd, rcv))
    ensures var q := TcpQueue(snd, rcv, sg); var id := IdealStep(st, p);
            && Represents(base, q.snd, q.rcv, id) && Beyond(id.held, id.next)
            && q.snd.firstDataSeq == snd.firstDataSeq
            && (NoUrgent(rcv) && !sg.urg ==> NoUrgent(q.rcv) && id.out == st.out + Concat(q.chunks))
  {
    hide U32, I32, After, Before, AddFromskb, Drain, IdealDrain, Insert, Hold, ExpSeq, From, QueueWraps;
    var urgPtr := U32(sg.urp + sg.seqNum - 1);
    DeliverRefines(base, snd, rcv, st.next, p, sg.urg, urgPtr);
    var d := AddFromskb(snd, rcv, sg.data, sg.seqNum, sg.fin, sg.urg, urgPtr);
    var st1 := Ideal(p.End(), st.held, st.out + From(p, st.next));
    assert Represents(base, d.snd, d.rcv, st1);
    DrainRefines(base, d.snd, d.rcv, st1);
    ConcatAppend(d.chunks, Drain(d.snd, d.rcv).chunks);
  }

  /** One segment, on the code's wrapped numbers and on positions. */
  lemma StepRefines(base: int, snd: HalfStream, rcv: HalfStream, st: Ideal, sg: Segment, off: int)
    requires Represents(base, snd, rcv, st) && Beyond(st.held, st.next)
    requires sg.seqNum == U32(base + off) && -TWO31 < off - st.next <= TWO31
    ensures var q := TcpQueue(snd, rcv, sg); var id := IdealStep(st, Piece(off, sg.data, sg.fin));
            && Represents(base, q.snd, q.rcv, id) && Beyond(id.held, id.next)
            && q.snd.firstDataSeq == snd.firstDataSeq
            && (NoUrgent(rcv) && !sg.urg ==> NoUrgent(q.rcv) && id.out == st.out + Concat(q.chunks))
  {
    hide U32, I32, After, Before, AddFromskb, Drain, IdealDrain, Insert, Hold, ExpSeq, From, QueueWraps;
    var p := Piece(off, sg.data, sg.fin);
    ReachAgrees(base, st.next, off, |sg.data|, sg.fin);
    if off > st.next {
      InsertStepRefines(base, snd, rcv, st, sg, p);
    } else if p.End() + Bit(p.fin) > st.next {
      DeliverStepRefines(base, snd, rcv, st, sg, p);
    }
  }

  // ----- The queue, for every segment whatsoever -----

  /** The queue is ordered by distance ahead of the wanted number, and every
      entry starts strictly after it: nothing that could be delivered is left. */
  ghost predicate QueueInOrder(snd: HalfStream, rcv: HalfStream) {
    var exp := ExpSeq(snd, rcv);
    && (forall i :: 0 <= i < |rcv.fraglist| ==> 0 < Ahead(exp, rcv.fraglist[i].seqNum) <= TWO31)
    && (forall i, j :: 0 <= i < j < |rcv.fraglist| ==>
          Ahead(exp, rcv.fraglist[i].seqNum) <= Ahead(exp, rcv.fraglist[j].seqNum))
  }

  ghost function Places(exp: u32, fraglist: seq<Skbuff>): seq<Piece> {
    seq(|fraglist|, i requires 0 <= i < |fraglist| =>
      Piece(exp + Ahead(exp, fraglist[i].seqNum), fraglist[i].data, fraglist[i].fin))
  }

  /** Position of a sequence number relative to the wanted one: behind it if the
      code treats it as old, ahead of it otherwise. */
  function Position(exp: u32, seqNum: u32): int {
    if After(seqNum, exp) then exp + Ahead(exp, seqNum) else exp - Ahead(seqNum, exp)
  }

  lemma PositionInReach(exp: u32, seqNum: u32)
    ensures seqNum == U32(0 + Position(exp, seqNum))
    ensures -TWO31 < Position(exp, seqNum) - exp <= TWO31
  {
    hide U32, I32;
    WrapSmall(exp);
    WrapSmall(seqNum);
    AfterMeansAhead(seqNum, exp);
    AheadPlaces(exp, seqNum);
    var k := Quotient(exp - seqNum);
    Congruent(exp - Ahead(seqNum, exp), seqNum, k);
    Opposite(seqNum, exp);
  }

  lemma Opposite(a: u32, b: u32)
    ensures Ahead(a, b) == 0 <==> Ahead(b, a) == 0
    ensures Ahead(a, b) != 0 ==> Ahead(a, b) + Ahead(b, a) == TWO32
  {
  }

  lemma PlacesRepresent(snd: HalfStream, rcv: HalfStream)
    requires QueueInOrder(snd, rcv)
    ensures var exp := ExpSeq(snd, rcv); var st := Ideal(exp, Places(exp, rcv.fraglist), []);
            Represents(0, snd, rcv, st) && Beyond(st.held, st.next)
  {
    hide U32, I32, After, Before;
    var exp := ExpSeq(snd, rcv);
    WrapSmall(exp);
    forall i | 0 <= i < |rcv.fraglist|
      ensures rcv.fraglist[i].seqNum == U32(0 + Places(exp, rcv.fraglist)[i].off)
    {
      AheadPlaces(exp, rcv.fraglist[i].seqNum);
    }
  }

  lemma RepresentedInOrder(base: int, snd: HalfStream, rcv: HalfStream, st: Ideal)
    requires Represents(base, snd, rcv, st) && Beyond(st.held, st.next)
    ensures QueueInOrder(snd, rcv)
  {
    hide U32, I32, After, Before;
    var exp := ExpSeq(snd, rcv);
    forall i | 0 <= i < |rcv.fraglist|
      ensures Ahead(exp, rcv.fraglist[i].seqNum) == st.held[i].off - st.next
    {
      assert Wraps(base, rcv.fraglist[i], st.held[i]);
      var k := Quotient(base + st.next);
      var m := Quotient(base + st.held[i].off);
      Congruent(rcv.fraglist[i].seqNum - exp, st.held[i].off - st.next, k - m);
      WrapSmall(st.held[i].off - st.next);
    }
  }

  /** Whatever segment arrives, the queue stays in order and fully drained. */
  lemma TcpQueueKeepsOrder(snd: HalfStream, rcv: HalfStream, sg: Segment)
    requires QueueInOrder(snd, rcv)
    ensures var q := TcpQueue(snd, rcv, sg); QueueInOrder(q.snd, q.rcv)
  {
    hide *;
    var exp := ExpSeq(snd, rcv);
    PlacesRepresent(snd, rcv);
    PositionInReach(exp, sg.seqNum);
    var st, off := Ideal(exp, Places(exp, rcv.fraglist), []), Position(exp, sg.seqNum);
    StepRefines(0, snd, rcv, st, sg, off);
    var q, id := TcpQueue(snd, rcv, sg), IdealStep(st, Piece(off, sg.data, sg.fin));
    RepresentedInOrder(0, q.snd, q.rcv, id);
  }

  /** Memory charged for a queue. */
  function Charge(fraglist: seq<Skbuff>): int {
    if fraglist == [] then 0 else fraglist[0].truesize + Charge(fraglist[1..])
  }

  lemma {:induction false} ChargeInsert(fraglist: seq<Skbuff>, i: nat, skb: Skbuff)
    requires i <= |fraglist|
    ensures Charge(fraglist[..i] + [skb] + fraglist[i..]) == Charge(fraglist) + skb.truesize
  {
    var all := fraglist[..i] + [skb] + fraglist[i..];
    if i == 0 {
      assert all[1..] == fraglist;
    } else {
      assert all[1..] == fraglist[1..][..i - 1] + [skb] + fraglist[1..][i - 1..];
      ChargeInsert(fraglist[1..], i - 1, skb);
    }
  }

  lemma {:induction false} DrainKeepsCharge(snd: HalfStream, rcv: HalfStream)
    ensures var d := Drain(snd, rcv);
            d.rcv.rmemAlloc - Charge(d.rcv.fraglist) == rcv.rmemAlloc - Charge(rcv.fraglist)
    decreases |rcv.fraglist|
  {
    hide U32, I32, After, Before;
    if rcv.fraglist != [] && !After(rcv.fraglist[0].seqNum, ExpSeq(snd, rcv)) {
      var d := DeliverHead(snd, rcv);
      DrainKeepsCharge(d.snd, d.rcv);
    }
  }

  /** `rmem_alloc` is the sum of the queued sizes after every segment. */
  lemma TcpQueueKeepsCharge(snd: HalfStream, rcv: HalfStream, sg: Segment)
    requires rcv.rmemAlloc == Charge(rcv.fraglist)
    ensures var q := TcpQueue(snd, rcv, sg); q.rcv.rmemAlloc == Charge(q.rcv.fraglist)
  {
    hide U32, I32, After, Before, Drain, InsertAt;
    var exp := ExpSeq(snd, rcv);
    if After(sg.seqNum, exp) {
      ChargeInsert(rcv.fraglist, InsertAt(rcv.fraglist, sg.seqNum),
                   Skbuff(sg.data, sg.skblen, sg.urp, sg.fin, sg.urg, sg.seqNum));
    } else if After(U32(sg.seqNum + |sg.data| + Bit(sg.fin)), exp) {
      var d := AddFromskb(snd, rcv, sg.data, sg.seqNum, sg.fin, sg.urg, U32(sg.urp + sg.seqNum - 1));
      DrainKeepsCharge(d.snd, d.rcv);
    }
  }

  // ----- Confluence -----

  /** The piece is a slice of the sender's byte stream. */
  ghost predicate SliceOf(stream: seq<byte>, p: Piece) {
    0 <= p.off && p.End() <= |stream| && p.data == stream[p.off..p.End()]
  }

  ghost predicate Slices(stream: seq<byte>, ps: seq<Piece>) {
    forall k :: 0 <= k < |ps| ==> SliceOf(stream, ps[k])
  }

  ghost predicate Holds(p: Piece, i: int) {
    p.off <= i < p.End()
  }

  ghost predicate Covered(ps: seq<Piece>, i: int) {
    exists p :: p in ps && Holds(p, i)
  }

  /** Length of the longest prefix of an `n`-byte stream that the pieces cover, from `p` on. */
  ghost function CoveredFrom(ps: seq<Piece>, n: nat, p: nat): (r: nat)
    requires p <= n
    ensures p <= r <= n
    ensures forall i :: p <= i < r ==> Covered(ps, i)
    ensures r == n || !Covered(ps, r)
    decreases n - p
  {
    if p < n && Covered(ps, p) then CoveredFrom(ps, n, p + 1) else p
  }

  ghost function LongestPrefix(ps: seq<Piece>, n: nat): nat {
    CoveredFrom(ps, n, 0)
  }

  /** Bytes handed out are the stream up to `next`, which is covered; every
      byte of `seen` is either handed out or held. */
  ghost predicate Faithful(stream: seq<byte>, seen: seq<Piece>, st: Ideal) {
    && 0 <= st.next <= |stream| && st.out == stream[..st.next]
    && Slices(stream, st.held)
    && (forall i :: 0 <= i < st.next ==> Covered(seen, i))
    && (forall i {:trigger Covered(st.held, i)} :: Covered(st.held, i) ==> Covered(seen, i))
    && (forall i {:trigger Covered(seen, i)} :: Covered(seen, i) ==> i < st.next || Covered(st.held, i))
  }

  lemma CoveredTail(held: seq<Piece>, i: int)
    requires held != []
    ensures Covered(held, i) <==> Holds(held[0], i) || Covered(held[1..], i)
  {
    if Covered(held, i) && !Holds(held[0], i) {
      var p :| p in held && Holds(p, i);
      assert p in held[1..];
    }
    if Holds(held[0], i) {
      assert held[0] in held;
    }
  }

  lemma CoveredInsert(held: seq<Piece>, p: Piece, i: int)
    ensures Covered(Hold(held, p), i) <==> Covered(held, i) || Holds(p, i)
  {
    var k := IdealAt(held, p.off);
    forall q ensures q in Hold(held, p) <==> q in held || q == p {
      assert held == held[..k] + held[k..];
    }
  }

  /** Handing out a piece that has been reached extends the delivered prefix of the stream. */
  lemma DeliverFaithful(stream: seq<byte>, p: Piece, st: Ideal)
    requires SliceOf(stream, p) && p.off <= st.next <= p.End()
    requires 0 <= st.next <= |stream| && st.out == stream[..st.next]
    ensures st.out + From(p, st.next) == stream[..p.End()]
  {
  }

  lemma {:induction false} DrainFaithful(stream: seq<byte>, seen: seq<Piece>, st: Ideal)
    requires Faithful(stream, seen, st)
    ensures Faithful(stream, seen, IdealDrain(st))
    decreases |st.held|
  {
    if st.held != [] && st.held[0].off <= st.next {
      var id, p := IdealHead(st), st.held[0];
      forall i ensures Covered(st.held, i) <==> Holds(p, i) || Covered(st.held[1..], i) {
        CoveredTail(st.held, i);
      }
      if p.End() + Bit(p.fin) > st.next {
        DeliverFaithful(stream, p, st);
      }
      assert Slices(stream, id.held);
      forall i | 0 <= i < id.next ensures Covered(seen, i) {
        assert i >= st.next ==> Holds(p, i) && Covered(st.held, i);
      }
      DrainFaithful(stream, seen, id);
    }
  }

  lemma HoldFaithful(stream: seq<byte>, seen: seq<Piece>, st: Ideal, p: Piece)
    requires Faithful(stream, seen, st) && SliceOf(stream, p)
    requires forall i :: Covered(seen + [p], i) <==> Covered(seen, i) || Holds(p, i)
    ensures Faithful(stream, seen + [p], st.(held := Hold(st.held, p)))
  {
    hide Covered, SliceOf;
    forall i ensures Covered(Hold(st.held, p), i) <==> Covered(st.held, i) || Holds(p, i) {
      CoveredInsert(st.held, p, i);
    }
    assert Slices(stream, Hold(st.held, p));
  }

  lemma StepFaithful(stream: seq<byte>, seen: seq<Piece>, st: Ideal, p: Piece)
    requires Faithful(stream, seen, st) && SliceOf(stream, p)
    ensures Faithful(stream, seen + [p], IdealStep(st, p))
  {
    hide IdealDrain, Hold;
    forall i ensures Covered(seen + [p], i) <==> Covered(seen, i) || Holds(p, i) {
      assert forall q :: q in seen + [p] <==> q in seen || q == p;
    }
    if p.off > st.next {
      HoldFaithful(stream, seen, st, p);
    } else if p.End() + Bit(p.fin) > st.next {
      var st1 := Ideal(p.End(), st.held, st.out + From(p, st.next));
      DeliverFaithful(stream, p, st);
      assert Faithful(stream, seen + [p], st1) by { hide From; }
      DrainFaithful(stream, seen + [p], st1);
    }
  }

  /** A faithful state with nothing deliverable left has handed out exactly the longest covered prefix. */
  lemma FaithfulIsLongest(stream: seq<byte>, seen: seq<Piece>, st: Ideal)
    requires Faithful(stream, seen, st) && Beyond(st.held, st.next)
    ensures st.next == LongestPrefix(seen, |stream|)
  {
    var r := LongestPrefix(seen, |stream|);
    assert !Covered(st.held, st.next);
    assert !Covered(seen, st.next);
    assert r < st.next ==> Covered(seen, r);
  }

  /** What surrounds a slice when it arrives as a segment: header fields that
      play no part in where its bytes go. */
  datatype Arrival = Arrival(piece: Piece, urp: u16, skblen: int)

  function SegmentOf(base: int, a: Arrival): Segment {
    Segment(U32(base + a.piece.off), a.piece.data, a.piece.fin, false, a.urp, a.skblen)
  }

  function PiecesOf(arrivals: seq<Arrival>): seq<Piece> {
    seq(|arrivals|, i requires 0 <= i < |arrivals| => arrivals[i].piece)
  }

  /** The arrivals through `TcpQueue`, one after another. */
  function RunQueue(base: int, snd: HalfStream, rcv: HalfStream, arrivals: seq<Arrival>): Delivery {
    if arrivals == [] then Delivery(snd, rcv, [], false)
    else
      var r := RunQueue(base, snd, rcv, arrivals[..|arrivals| - 1]);
      var q := TcpQueue(r.snd, r.rcv, SegmentOf(base, arrivals[|arrivals| - 1]));
      Delivery(q.snd, q.rcv, r.chunks + q.chunks, r.finTimer || q.finTimer)
  }

  /** Each segment arrives within half of the sequence space of the number then wanted. */
  ghost predicate InWindow(stream: seq<byte>, ps: seq<Piece>) {
    forall k {:trigger ps[k]} :: 0 <= k < |ps| ==>
      -TWO31 < ps[k].off - LongestPrefix(ps[..k], |stream|) <= TWO31
  }

  /** A direction in which nothing has been delivered or queued yet. */
  ghost predicate Untouched(base: int, snd: HalfStream, rcv: HalfStream) {
    ExpSeq(snd, rcv) == U32(base) && rcv.fraglist == [] && !rcv.urgSeen
  }

  lemma {:induction false} RunRefines(stream: seq<byte>, base: int, snd: HalfStream, rcv: HalfStream,
                                      arrivals: seq<Arrival>) returns (st: Ideal)
    requires Untouched(base, snd, rcv)
    requires Slices(stream, PiecesOf(arrivals)) && InWindow(stream, PiecesOf(arrivals))
    ensures var r := RunQueue(base, snd, rcv, arrivals);
            && Represents(base, r.snd, r.rcv, st) && Beyond(st.held, st.next)
            && NoUrgent(r.rcv) && Concat(r.chunks) == st.out
    ensures Faithful(stream, PiecesOf(arrivals), st)
  {
    hide U32, I32, After, Before, TcpQueue, IdealStep, LongestPrefix;
    var ps := PiecesOf(arrivals);
    if arrivals == [] {
      st := Ideal(0, [], []);
    } else {
      var n := |arrivals| - 1;
      var before, last := arrivals[..n], arrivals[n];
      assert PiecesOf(before) == ps[..n] && ps == ps[..n] + [last.piece];
      forall k | 0 <= k < n
        ensures ps[..n][k] == ps[k] && ps[..n][..k] == ps[..k]
      {
      }
      var st0 := RunRefines(stream, base, snd, rcv, before);
      FaithfulIsLongest(stream, ps[..n], st0);
      assert ps[n] == last.piece;
      var r := RunQueue(base, snd, rcv, before);
      var sg := SegmentOf(base, last);
      StepRefines(base, r.snd, r.rcv, st0, sg, last.piece.off);
      st := IdealStep(st0, last.piece);
      StepFaithful(stream, ps[..n], st0, last.piece);
      ConcatAppend(r.chunks, TcpQueue(r.snd, r.rcv, sg).chunks);
    }
  }

  /** The bytes handed out over a run are exactly the longest prefix of the
      stream that the received segments cover. */
  lemma DeliversLongestPrefix(stream: seq<byte>, base: int, snd: HalfStream, rcv: HalfStream,
                              arrivals: seq<Arrival>)
    requires Untouched(base, snd, rcv)
    requires Slices(stream, PiecesOf(arrivals)) && InWindow(stream, PiecesOf(arrivals))
    ensures Concat(RunQueue(base, snd, rcv, arrivals).chunks)
            == stream[..LongestPrefix(PiecesOf(arrivals), |stream|)]
  {
    hide TcpQueue, RunQueue, LongestPrefix;
    var st := RunRefines(stream, base, snd, rcv, arrivals);
    FaithfulIsLongest(stream, PiecesOf(arrivals), st);
  }

  /** Order, duplication and overlap are immaterial: two runs that receive the
      same bytes hand out the same bytes. */
  lemma OrderIndependent(stream: seq<byte>, base: int, snd: HalfStream, rcv: HalfStream,
                         a: seq<Arrival>, b: seq<Arrival>)
    requires Untouched(base, snd, rcv)
    requires Slices(stream, PiecesOf(a)) && InWindow(stream, PiecesOf(a))
    requires Slices(stream, PiecesOf(b)) && InWindow(stream, PiecesOf(b))
    requires forall i :: Covered(PiecesOf(a), i) <==> Covered(PiecesOf(b), i)
    ensures Concat(RunQueue(base, snd, rcv, a).chunks) == Concat(RunQueue(base, snd, rcv, b).chunks)
  {
    hide TcpQueue, RunQueue;
    DeliversLongestPrefix(stream, base, snd, rcv, a);
    DeliversLongestPrefix(stream, base, snd, rcv, b);
    var n := |stream|;
    var x, y := LongestPrefix(PiecesOf(a), n), LongestPrefix(PiecesOf(b), n);
    assert x < n ==> !Covered(PiecesOf(a), x);
    assert y < n ==> !Covered(PiecesOf(b), y);
    assert x < y ==> Covered(PiecesOf(b), x);
    assert y < x ==> Covered(PiecesOf(a), y);
  }
}
