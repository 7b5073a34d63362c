/** What the application hears of one stream amid all other traffic: the tracker
    treats every stream as if it were alone, a handshake connects it, and from
    then on exactly the received part of each byte stream is heard
    (dpi/TcpFragment.cc). */
module TcpDelivery {
  import opened SeqArith
  import opened TcpReassembly
  import opened TcpConfluence
  import opened TcpStreams
  import opened TcpProtocol

  // ----- One stream on its own -----

  datatype Life = Life(stream: TcpStream, history: seq<Event>)

  predicate Readable(pkts: seq<Packet>) {
    forall i :: 0 <= i < |pkts| ==> pkts[i].DataLen() >= 0
  }

  predicate FromClient(s: TcpStream, pkt: Packet) {
    pkt.addr == s.addr
  }

  /** A stream that sees these packets and no others. */
  function Follow(s0: TcpStream, pkts: seq<Packet>): Life
    requires Readable(pkts)
  {
    if pkts == [] then Life(s0, [])
    else
      var n := |pkts| - 1;
      var l := Follow(s0, pkts[..n]);
      var o := StreamStep(l.stream, FromClient(l.stream, pkts[n]), pkts[n]);
      Life(o.stream, l.history + o.events)
  }

  lemma {:induction false} FollowAppend(s0: TcpStream, a: seq<Packet>, b: seq<Packet>)
    requires Readable(a) && Readable(b)
    ensures var l := Follow(s0, a); var m := Follow(l.stream, b);
            Follow(s0, a + b) == Life(m.stream, l.history + m.history)
    decreases |b|
  {
    hide StreamStep;
    if b == [] {
      assert a + b == a;
    } else {
      var n := |b| - 1;
      FollowAppend(s0, a, b[..n]);
      assert (a + b)[..|a + b| - 1] == a + b[..n];
    }
  }

  /** The state of a stream after what a packet says about the handshake and what it acknowledges. */
  function Acknowledged(s: TcpStream, fromClient: bool, pkt: Packet): TcpStream {
    Acknowledge(if Completes(s, fromClient, pkt) then Establish(s, pkt) else s, fromClient, pkt)
  }

  predicate BothClosed(s: TcpStream) {
    s.client.state == FIN_CONFIRMED && s.server.state == FIN_CONFIRMED
  }

  /** The data of the packet, or its FIN, reaches the queue. */
  predicate Queues(s: TcpStream, fromClient: bool, pkt: Packet)
    requires pkt.DataLen() >= 0
  {
    && !pkt.syn && !OutOfWindow(Receiver(s, fromClient), pkt) && !pkt.rst
    && !(pkt.ackFlag && BothClosed(Acknowledged(s, fromClient, pkt)))
    && pkt.DataLen() + Bit(pkt.fin) > 0
  }

  function Accepts(s: TcpStream, dir: bool, pkt: Packet): seq<Segment>
    requires pkt.DataLen() >= 0
  {
    if FromClient(s, pkt) == dir && Queues(s, dir, pkt) then [Incoming(pkt)] else []
  }

  /** The segments of one direction that have reached the queue. */
  function Accepted(s0: TcpStream, dir: bool, pkts: seq<Packet>): seq<Segment>
    requires Readable(pkts)
  {
    if pkts == [] then []
    else
      var n := |pkts| - 1;
      Accepted(s0, dir, pkts[..n]) + Accepts(Follow(s0, pkts[..n]).stream, dir, pkts[n])
  }

  /** How many of them came before the connection was reported. */
  function Quiet(s0: TcpStream, dir: bool, pkts: seq<Packet>): nat
    requires Readable(pkts)
  {
    if pkts == [] then 0
    else
      var n := |pkts| - 1;
      Quiet(s0, dir, pkts[..n])
      + if Follow(s0, pkts).stream.connected then 0 else |Accepts(Follow(s0, pkts[..n]).stream, dir, pkts[n])|
  }

  // ----- What the application hears -----

  function Direct(dir: bool): Direction {
    if dir then FROMCLIENT else FROMSERVER
  }

  /** The bytes of one direction in a history of callbacks. */
  function HeardBytes(h: seq<Event>, d: Direction): seq<byte> {
    if h == [] then []
    else
      var e := h[|h| - 1];
      HeardBytes(h[..|h| - 1], d) + if e.Data? && e.dir == d then e.bytes else []
  }

  lemma HeardLast(h: seq<Event>, d: Direction)
    requires h != []
    ensures var e := h[|h| - 1];
            HeardBytes(h, d) == HeardBytes(h[..|h| - 1], d) + if e.Data? && e.dir == d then e.bytes else []
  {
  }

  lemma {:induction false} HeardAppend(a: seq<Event>, b: seq<Event>, d: Direction)
    ensures HeardBytes(a + b, d) == HeardBytes(a, d) + HeardBytes(b, d)
    decreases |b|
  {
    if b == [] {
      assert a + b == a;
    } else {
      hide HeardBytes;
      var n := |b| - 1;
      HeardAppend(a, b[..n], d);
      HeardLast(b, d);
      HeardLast(a + b, d);
      assert (a + b)[..|a + b| - 1] == a + b[..n];
    }
  }

  lemma {:induction false} HeardData(chunks: seq<seq<byte>>, from: Direction, d: Direction)
    ensures HeardBytes(DataEvents(chunks, from), d) == if from == d then Concat(chunks) else []
    decreases |chunks|
  {
    if chunks != [] {
      var n := |chunks| - 1;
      HeardData(chunks[..n], from, d);
      assert DataEvents(chunks, from)[..n] == DataEvents(chunks[..n], from);
      ConcatAppend(chunks[..n], [chunks[n]]);
      assert chunks == chunks[..n] + [chunks[n]];
    }
  }

  lemma HeardOne(e: Event, d: Direction)
    requires !e.Data?
    ensures HeardBytes([e], d) == []
  {
    assert [e][..0] == [];
  }

  // ----- One packet -----

  /** Nothing that matters to the queue of this direction differs. */
  ghost predicate SameQueue(s: TcpStream, r: TcpStream, dir: bool) {
    && Sender(r, dir).firstDataSeq == Sender(s, dir).firstDataSeq
    && Receiver(r, dir).count == Receiver(s, dir).count && Receiver(r, dir).urgCount == Receiver(s, dir).urgCount
    && Receiver(r, dir).urgSeen == Receiver(s, dir).urgSeen && Receiver(r, dir).fraglist == Receiver(s, dir).fraglist
  }

  /** The halves of this direction stand for an ideal reassembler with nothing deliverable left. */
  ghost predicate Stands(base: int, s: TcpStream, dir: bool, st: Ideal) {
    Represents(base, Sender(s, dir), Receiver(s, dir), st) && Beyond(st.held, st.next) && NoUrgent(Receiver(s, dir))
  }

  lemma SameStands(base: int, s: TcpStream, r: TcpStream, dir: bool, st: Ideal)
    requires Stands(base, s, dir, st) && SameQueue(s, r, dir)
    ensures Stands(base, r, dir, st)
  {
    hide U32;
  }

  lemma AcknowledgedSame(s: TcpStream, fromClient: bool, pkt: Packet, dir: bool)
    ensures var r := Acknowledged(s, fromClient, pkt);
            SameQueue(s, r, dir) && r.addr == s.addr && (r.connected <==> s.connected || Completes(s, fromClient, pkt))
            && (s.server.state != CLOSE ==> r.server.state != CLOSE)
  {
    hide I32;
  }

  /** Data of the other direction, or none. */
  lemma AbsorbOther(s: TcpStream, fromClient: bool, pkt: Packet, dir: bool)
    requires pkt.DataLen() >= 0 && (fromClient != dir || pkt.DataLen() + Bit(pkt.fin) == 0)
    ensures var a := Absorb(s, fromClient, pkt);
            && SameQueue(s, a.stream, dir) && HeardBytes(a.events, Direct(dir)) == []
  {
    hide TcpQueue;
    var snd, rcv := Sender(s, fromClient), Receiver(s, fromClient);
    TcpQueueFramed(snd, rcv, Incoming(pkt));
    var chunks := if pkt.DataLen() + Bit(pkt.fin) > 0 then TcpQueue(snd, rcv, Incoming(pkt)).chunks else [];
    HeardData(chunks, Direct(fromClient), Direct(dir));
  }

  lemma AbsorbKeepsRest(s: TcpStream, fromClient: bool, pkt: Packet)
    requires pkt.DataLen() >= 0
    ensures var a := Absorb(s, fromClient, pkt).stream;
            a.addr == s.addr && a.connected == s.connected && (s.server.state != CLOSE ==> a.server.state != CLOSE)
  {
    hide TcpQueue;
    TcpQueueFramed(Sender(s, fromClient), Receiver(s, fromClient), Incoming(pkt));
  }

  /** Data of this direction, `off` bytes into its stream. */
  lemma AbsorbOwn(base: int, s: TcpStream, dir: bool, pkt: Packet, st: Ideal, off: int)
    requires pkt.DataLen() + Bit(pkt.fin) > 0 && pkt.DataLen() >= 0
    requires Stands(base, s, dir, st) && !pkt.urg
    requires pkt.seqNum == U32(base + off) && -TWO31 < off - st.next <= TWO31
    ensures var a := Absorb(s, dir, pkt);
            var id := IdealStep(st, Piece(off, pkt.Body(), pkt.fin));
            && Stands(base, a.stream, dir, id)
            && HeardBytes(a.events, Direct(dir)) == HeardIf(s.connected, st.out, id.out)
            && st.out + HeardIf(true, st.out, id.out) == id.out
  {
    hide U32, TcpQueue, IdealStep, Represents, NoUrgent;
    var snd, rcv := Sender(s, dir), Receiver(s, dir);
    var id := IdealStep(st, Piece(off, pkt.Body(), pkt.fin));
    StepRefines(base, snd, rcv, st, Incoming(pkt), off);
    TcpQueueFramed(snd, rcv, Incoming(pkt));
    var q := TcpQueue(snd, rcv, Incoming(pkt));
    assert id.out[|st.out|..] == Concat(q.chunks);
    HeardData(q.chunks, Direct(dir), Direct(dir));
    RepresentsWindow(base, q.snd, q.rcv, id, pkt.win);
  }

  /** What is new in `out`, if it is reported. */
  function HeardIf(reported: bool, before: seq<byte>, out: seq<byte>): seq<byte> {
    if reported && |before| <= |out| then out[|before|..] else []
  }

  lemma RepresentsWindow(base: int, snd: HalfStream, rcv: HalfStream, st: Ideal, window: u16)
    requires Represents(base, snd, rcv, st)
    ensures Represents(base, snd.(window := window), rcv, st)
  {
    hide U32;
  }

  /** Where a packet leads a stream, apart from its queues. */
  lemma StepRest(s: TcpStream, fromClient: bool, pkt: Packet)
    requires pkt.DataLen() >= 0
    ensures var r := StreamStep(s, fromClient, pkt).stream;
            && r.addr == s.addr && (s.connected ==> r.connected) && (s.server.state != CLOSE ==> r.server.state != CLOSE)
  {
    hide U32, Absorb, Acknowledge, Completes, OutOfWindow, GetWscale;
    AcknowledgedSame(s, fromClient, pkt, true);
    AbsorbKeepsRest(Acknowledged(s, fromClient, pkt), fromClient, pkt);
  }

  lemma SynAckSame(s: TcpStream, pkt: Packet)
    ensures SameQueue(s, SynAck(s, pkt), true)
  {
  }

  /** A packet that queues nothing in this direction. */
  lemma StepOther(base: int, s: TcpStream, dir: bool, pkt: Packet, st: Ideal)
    requires pkt.DataLen() >= 0 && Stands(base, s, dir, st) && Accepts(s, dir, pkt) == []
    requires dir || s.server.state != CLOSE
    ensures var o := StreamStep(s, FromClient(s, pkt), pkt);
            Stands(base, o.stream, dir, st) && HeardBytes(o.events, Direct(dir)) == []
  {
    hide U32, Stands, SameQueue, Absorb, Acknowledge, Completes, Establish, OutOfWindow, SynAck, HeardBytes;
    var fromClient := FromClient(s, pkt);
    var s1 := Acknowledged(s, fromClient, pkt);
    AcknowledgedSame(s, fromClient, pkt, dir);
    SameStands(base, s, s1, dir, st);
    NothingHeard(s.addr, Direct(dir));
    if pkt.syn {
      if AcceptsSynAck(s, fromClient, pkt) {
        SynAckSame(s, pkt);
        SameStands(base, s, SynAck(s, pkt), dir, st);
      }
    } else if !OutOfWindow(Receiver(s, fromClient), pkt) && !pkt.rst
      && !(pkt.ackFlag && BothClosed(s1)) {
      AbsorbOther(s1, fromClient, pkt, dir);
      SameStands(base, s1, Absorb(s1, fromClient, pkt).stream, dir, st);
      HeardAppend(OpeningEvents(s, fromClient, pkt), Absorb(s1, fromClient, pkt).events, Direct(dir));
    }
  }

  /** The connection callback, where it is due. */
  function OpeningEvents(s: TcpStream, fromClient: bool, pkt: Packet): seq<Event> {
    if Completes(s, fromClient, pkt) then [Connected(s.addr)] else []
  }

  lemma NothingHeard(addr: Tuple4, d: Direction)
    ensures HeardBytes([], d) == [] && HeardBytes([Connected(addr)], d) == [] && HeardBytes([Reset], d) == []
    ensures forall a: seq<Event>, b: seq<Event> ::
              HeardBytes(a, d) == [] && (b == [] || b == [Closed]) ==> HeardBytes(a + b, d) == []
  {
    HeardOne(Connected(addr), d);
    HeardOne(Reset, d);
    HeardOne(Closed, d);
    forall a: seq<Event>, b: seq<Event> | HeardBytes(a, d) == [] && (b == [] || b == [Closed])
      ensures HeardBytes(a + b, d) == []
    {
      HeardAppend(a, b, d);
    }
  }

  /** A packet that queues a segment of this direction. */
  lemma StepOwn(base: int, s: TcpStream, dir: bool, pkt: Packet, st: Ideal, off: int)
    requires pkt.DataLen() >= 0 && Stands(base, s, dir, st) && Accepts(s, dir, pkt) != [] && !pkt.urg
    requires pkt.seqNum == U32(base + off) && -TWO31 < off - st.next <= TWO31
    ensures var o := StreamStep(s, dir, pkt);
            var id := IdealStep(st, Piece(off, pkt.Body(), pkt.fin));
            && Stands(base, o.stream, dir, id)
            && HeardBytes(o.events, Direct(dir)) == HeardIf(o.stream.connected, st.out, id.out)
            && st.out + HeardIf(true, st.out, id.out) == id.out
  {
    hide U32, Stands, SameQueue, Absorb, Acknowledge, Completes, Establish, OutOfWindow, HeardBytes, IdealStep, HeardIf;
    var s1 := Acknowledged(s, dir, pkt);
    AcknowledgedSame(s, dir, pkt, dir);
    SameStands(base, s, s1, dir, st);
    NothingHeard(s.addr, Direct(dir));
    AbsorbOwn(base, s1, dir, pkt, st, off);
    AbsorbKeepsRest(s1, dir, pkt);
    HeardAppend(OpeningEvents(s, dir, pkt), Absorb(s1, dir, pkt).events, Direct(dir));
  }

  // ----- A whole conversation -----

  /** The pieces of `stream` that the segments carry, each within half of the sequence space when it comes. */
  ghost predicate Fits(base: int, stream: seq<byte>, sgs: seq<Segment>, ps: seq<Piece>) {
    && |ps| == |sgs| && Slices(stream, ps) && InWindow(stream, ps)
    && forall i :: 0 <= i < |ps| ==> CarriedBy(base, sgs[i], ps[i])
  }

  predicate CarriedBy(base: int, sg: Segment, p: Piece) {
    sg.seqNum == U32(base + p.off) && sg.data == p.data && sg.fin == p.fin && !sg.urg
  }

  lemma FitsBefore(base: int, stream: seq<byte>, sgs: seq<Segment>, ps: seq<Piece>, n: nat)
    requires Fits(base, stream, sgs, ps) && n <= |ps|
    ensures Fits(base, stream, sgs[..n], ps[..n])
  {
    hide U32, SliceOf, LongestPrefix;
    forall k | 0 <= k < n ensures ps[..n][k] == ps[k] && ps[..n][..k] == ps[..k] && sgs[..n][k] == sgs[k] {
    }
  }

  ghost predicate Told(stream: seq<byte>, l: Life, dir: bool, quiet: nat, ps: seq<Piece>, st: Ideal) {
    && quiet <= |ps|
    && (!l.stream.connected ==> quiet == |ps| && HeardBytes(l.history, Direct(dir)) == [])
    && var from := LongestPrefix(ps[..quiet], |stream|);
       from <= st.next <= |stream|
       && (l.stream.connected ==> HeardBytes(l.history, Direct(dir)) == stream[from..st.next])
  }

  lemma NothingReceived(stream: seq<byte>)
    ensures LongestPrefix([], |stream|) == 0
  {
    assert !Covered([], 0);
  }

  lemma {:induction false} FollowRefines(base: int, stream: seq<byte>, s0: TcpStream, dir: bool, pkts: seq<Packet>,
                                         ps: seq<Piece>) returns (st: Ideal)
    requires Readable(pkts) && Untouched(base, Sender(s0, dir), Receiver(s0, dir)) && (dir || s0.server.state != CLOSE)
    requires Fits(base, stream, Accepted(s0, dir, pkts), ps)
    ensures var l := Follow(s0, pkts);
            && Stands(base, l.stream, dir, st) && Faithful(stream, ps, st) && (dir || l.stream.server.state != CLOSE)
            && Told(stream, l, dir, Quiet(s0, dir, pkts), ps, st)
    decreases |pkts|
  {
    hide U32, Stands, Faithful, Told, Fits, StreamStep, Accepts, InWindow;
    if pkts == [] {
      st := NothingYet(base, stream, s0, dir, ps);
    } else {
      var n := |pkts| - 1;
      var l := Follow(s0, pkts[..n]);
      var early := Accepted(s0, dir, pkts[..n]);
      var quiet := Quiet(s0, dir, pkts[..n]);
      var more := Accepts(l.stream, dir, pkts[n]);
      AcceptedSize(base, stream, early, more, ps);
      FitsBefore(base, stream, early + more, ps, |early|);
      assert (early + more)[..|early|] == early;
      var st0 := FollowRefines(base, stream, s0, dir, pkts[..n], ps[..|early|]);
      StepRest(l.stream, FromClient(l.stream, pkts[n]), pkts[n]);
      st := OneMore(base, stream, l, dir, pkts[n], early, quiet, ps, st0);
    }
  }

  lemma AcceptedSize(base: int, stream: seq<byte>, early: seq<Segment>, more: seq<Segment>, ps: seq<Piece>)
    requires Fits(base, stream, early + more, ps)
    ensures |ps| == |early| + |more|
  {
  }

  lemma NothingYet(base: int, stream: seq<byte>, s0: TcpStream, dir: bool, ps: seq<Piece>) returns (st: Ideal)
    requires Untouched(base, Sender(s0, dir), Receiver(s0, dir)) && Fits(base, stream, [], ps)
    ensures Stands(base, s0, dir, st) && Faithful(stream, ps, st) && Told(stream, Life(s0, []), dir, 0, ps, st)
  {
    hide U32;
    st := Ideal(0, [], []);
    NothingReceived(stream);
    assert ps == [] && ps[..0] == [];
  }

  /** One more packet of the conversation. */
  lemma OneMore(base: int, stream: seq<byte>, l: Life, dir: bool, pkt: Packet, early: seq<Segment>, quiet: nat,
                ps: seq<Piece>, st0: Ideal) returns (st: Ideal)
    requires pkt.DataLen() >= 0 && (dir || l.stream.server.state != CLOSE)
    requires Fits(base, stream, early + Accepts(l.stream, dir, pkt), ps) && |early| <= |ps|
    requires Stands(base, l.stream, dir, st0) && Faithful(stream, ps[..|early|], st0)
    requires Told(stream, l, dir, quiet, ps[..|early|], st0)
    ensures var o := StreamStep(l.stream, FromClient(l.stream, pkt), pkt);
            var more := Accepts(l.stream, dir, pkt);
            && Stands(base, o.stream, dir, st) && Faithful(stream, ps, st)
            && Told(stream, Life(o.stream, l.history + o.events), dir,
                    quiet + if o.stream.connected then 0 else |more|, ps, st)
  {
    hide U32, Stands, Faithful, StreamStep, Queues, SliceOf, LongestPrefix, IdealStep, HeardBytes;
    var n := |early|;
    var more := Accepts(l.stream, dir, pkt);
    var fromClient := FromClient(l.stream, pkt);
    var o := StreamStep(l.stream, fromClient, pkt);
    StepRest(l.stream, fromClient, pkt);
    HeardAppend(l.history, o.events, Direct(dir));
    StandsNext(base, stream, l.stream, dir, ps[..n], st0);
    assert l.stream.connected ==> ps[..n][..quiet] == ps[..quiet];
    assert !l.stream.connected ==> ps[..n] == ps[..quiet];
    if more == [] {
      StepOther(base, l.stream, dir, pkt, st0);
      st := st0;
      AcceptedSize(base, stream, early, more, ps);
      assert ps[..n] == ps;
    } else {
      var p := ps[n];
      assert (early + more)[n] == Incoming(pkt);
      assert CarriedBy(base, (early + more)[n], p);
      assert ps == ps[..n] + [p];
      StepOwn(base, l.stream, dir, pkt, st0, p.off);
      st := IdealStep(st0, p);
      StepFaithful(stream, ps[..n], st0, p);
      StandsNext(base, stream, o.stream, dir, ps, st);
      AcceptedSize(base, stream, early, more, ps);
      assert ps[..n + 1] == ps;
      NewlyHeard(stream, ps[..n], ps, st0, st, if l.stream.connected then LongestPrefix(ps[..quiet], |stream|) else st0.next);
    }
  }

  lemma StandsNext(base: int, stream: seq<byte>, s: TcpStream, dir: bool, ps: seq<Piece>, st: Ideal)
    requires Stands(base, s, dir, st) && Faithful(stream, ps, st)
    ensures st.next == LongestPrefix(ps, |stream|)
  {
    hide U32;
    FaithfulIsLongest(stream, ps, st);
  }

  lemma NewlyHeard(stream: seq<byte>, seen: seq<Piece>, seen': seq<Piece>, st: Ideal, st': Ideal, from: nat)
    requires Faithful(stream, seen, st) && Faithful(stream, seen', st') && from <= st.next
    requires st.out + HeardIf(true, st.out, st'.out) == st'.out
    ensures st.next <= st'.next <= |stream|
    ensures stream[from..st.next] + HeardIf(true, st.out, st'.out) == stream[from..st'.next]
    ensures HeardIf(true, st.out, st'.out) == stream[st.next..st'.next]
  {
  }

  /** Over a whole conversation, whatever the other direction does meanwhile: what is heard of a direction is exactly
      the longest prefix of its byte stream that the accepted segments cover, less what was covered before the
      connection was reported. */
  lemma ConversationHeard(base: int, stream: seq<byte>, s0: TcpStream, dir: bool, pkts: seq<Packet>, ps: seq<Piece>)
    requires Readable(pkts) && Untouched(base, Sender(s0, dir), Receiver(s0, dir)) && (dir || s0.server.state != CLOSE)
    requires Fits(base, stream, Accepted(s0, dir, pkts), ps)
    ensures var l := Follow(s0, pkts);
            var quiet := Quiet(s0, dir, pkts);
            && quiet <= |ps|
            && var from, to := LongestPrefix(ps[..quiet], |stream|), LongestPrefix(ps, |stream|);
            && from <= to <= |stream|
            && HeardBytes(l.history, Direct(dir)) == if l.stream.connected then stream[from..to] else []
  {
    hide U32, Stands, Faithful, Follow, Accepted, Fits, Quiet, LongestPrefix;
    var st := FollowRefines(base, stream, s0, dir, pkts, ps);
    StandsNext(base, stream, Follow(s0, pkts).stream, dir, ps, st);
  }

  lemma {:induction false} QuietConnected(s0: TcpStream, dir: bool, pkts: seq<Packet>)
    requires Readable(pkts) && s0.connected
    ensures Follow(s0, pkts).stream.connected && Quiet(s0, dir, pkts) == 0
    decreases |pkts|
  {
    hide StreamStep, Accepts;
    if pkts != [] {
      var n := |pkts| - 1;
      QuietConnected(s0, dir, pkts[..n]);
      var s := Follow(s0, pkts[..n]).stream;
      StepRest(s, FromClient(s, pkts[n]), pkts[n]);
    }
  }

  // ----- The handshake -----

  /** The answer to a first packet and what completes the handshake (section 3.4 of RFC 793). */
  predicate IsHandshake(first: Packet, answer: Packet, third: Packet) {
    && first.addr != first.addr.Reversed()
    && answer.addr == first.addr.Reversed() && answer.DataLen() >= 0
    && answer.syn && answer.ackFlag && answer.ack == U32(first.seqNum + 1)
    && third.addr == first.addr && third.DataLen() == 0 && !third.syn && !third.rst && !third.fin
    && third.ackFlag && third.seqNum == U32(first.seqNum + 1) && third.ack == U32(answer.seqNum + 1)
  }

  /** The sequence number of the first byte of a direction. */
  function FirstByte(first: Packet, answer: Packet, dir: bool): int {
    if dir then first.seqNum + 1 else answer.seqNum + 1
  }

  lemma FollowTwo(s0: TcpStream, a: Packet, b: Packet)
    requires a.DataLen() >= 0 && b.DataLen() >= 0
    ensures var o := StreamStep(s0, FromClient(s0, a), a);
            var q := StreamStep(o.stream, FromClient(o.stream, b), b);
            Follow(s0, [a, b]) == Life(q.stream, o.events + q.events)
  {
    hide StreamStep;
    assert [a, b][..1] == [a] && [a][..0] == [];
    assert Follow(s0, []) == Life(s0, []);
    assert Follow(s0, [a]) == Life(StreamStep(s0, FromClient(s0, a), a).stream, StreamStep(s0, FromClient(s0, a), a).events);
  }

  /** A handshake connects the stream and reports it, with both directions ready at their first bytes. */
  lemma HandshakeConnects(first: Packet, answer: Packet, third: Packet, hash: Tuple4 -> nat)
    requires IsHandshake(first, answer, third) && !first.junk.urgSeen
    ensures var l := Follow(NewStream(first, hash), [answer, third]);
            && l.stream.connected && l.history == [Connected(first.addr)]
            && l.stream.client.state == ESTABLISHED && l.stream.server.state == ESTABLISHED
            && Untouched(FirstByte(first, answer, true), l.stream.client, l.stream.server)
            && Untouched(FirstByte(first, answer, false), l.stream.server, l.stream.client)
  {
    hide U32, StreamStep, NewStream, SynAck, ExpSeq;
    var s0 := NewStream(first, hash);
    FollowTwo(s0, answer, third);
    AnswerStep(first, answer, hash);
    ThirdStep(SynAck(s0, answer), third);
    ReadyQueues(StreamStep(SynAck(s0, answer), true, third).stream, first, answer);
  }

  lemma AnswerStep(first: Packet, answer: Packet, hash: Tuple4 -> nat)
    requires answer.DataLen() >= 0 && answer.syn && answer.ackFlag && answer.ack == U32(first.seqNum + 1)
    ensures var s0 := NewStream(first, hash);
            var s1 := SynAck(s0, answer);
            && StreamStep(s0, false, answer) == Stay(s1) && s0.addr == s1.addr == first.addr && !s1.connected
            && s1.client.state == SYN_SENT && s1.server.state == SYN_RECV
            && s1.server.seqNum == U32(answer.seqNum + 1) && s1.server.ackSeq == answer.ack
            && Primed(s1.client, first.seqNum + 1) && Primed(s1.server, answer.seqNum + 1)
            && s1.client.urgSeen == s1.server.urgSeen == first.junk.urgSeen
  {
    hide U32, GetWscale;
  }

  /** Nothing has been received by this half, and what it will send starts at `base`. */
  predicate Primed(h: HalfStream, base: int) {
    h.firstDataSeq == U32(base) && h.count == 0 && h.urgCount == 0 && h.fraglist == []
  }

  lemma ThirdStep(s: TcpStream, third: Packet)
    requires third.DataLen() == 0 && !third.syn && !third.rst && !third.fin && third.ackFlag
    requires s.client.state == SYN_SENT && s.server.state == SYN_RECV && !s.connected
    requires third.seqNum == s.server.ackSeq && third.ack == s.server.seqNum
    ensures var o := StreamStep(s, true, third);
            && o.events == [Connected(s.addr)] && o.stream.connected
            && o.stream == s.(client := s.client.(state := ESTABLISHED, ackSeq := third.ack, window := third.win),
                              server := s.server.(state := ESTABLISHED), connected := true, ts := third.now)
  {
    hide U32, I32, TcpQueue;
    SignOfNothing(third.ack);
    assert DataEvents([], FROMCLIENT) == [];
  }

  lemma ReadyQueues(s: TcpStream, first: Packet, answer: Packet)
    requires Primed(s.client, first.seqNum + 1) && Primed(s.server, answer.seqNum + 1)
    requires !s.client.urgSeen && !s.server.urgSeen
    ensures Untouched(FirstByte(first, answer, true), s.client, s.server)
    ensures Untouched(FirstByte(first, answer, false), s.server, s.client)
  {
    hide U32;
    FirstIsFirst(first.seqNum + 1);
    FirstIsFirst(answer.seqNum + 1);
  }

  lemma SignOfNothing(a: u32)
    ensures I32(a - a) == 0
  {
  }

  lemma FirstIsFirst(a: int)
    ensures U32(U32(a) + 0 + 0) == U32(a)
  {
  }

  // ----- The tracker as independent streams -----

  /** The packets of one flow. */
  function Own(pkts: seq<Packet>, addr: Tuple4): (r: seq<Packet>)
    ensures Readable(r)
  {
    if pkts == [] then []
    else
      var n := |pkts| - 1;
      Own(pkts[..n], addr) + if IsOwn(pkts[n], addr) then [pkts[n]] else []
  }

  predicate IsOwn(pkt: Packet, addr: Tuple4) {
    pkt.Sound() && FlowKey(pkt.addr) == FlowKey(addr)
  }

  /** The stream that packet `k` has opened, had it been alone since. */
  function Since(trace: seq<Packet>, k: nat, hash: Tuple4 -> nat): Life
    requires k < |trace|
  {
    Follow(NewStream(trace[k], hash), Own(trace[k + 1..], trace[k].addr))
  }

  /** What a packet does to a stream that is live afterwards. */
  ghost predicate Fate(s: Tcp, r: Tcp, pkt: Packet, id: StreamId, hash: Tuple4 -> nat) {
    && id in r.streams && id in r.history
    && if id in s.streams && id in s.history then
         if IsOwn(pkt, s.streams[id].addr) then
           var o := StreamStep(s.streams[id], FromClient(s.streams[id], pkt), pkt);
           !o.free && r.streams[id] == o.stream && r.history[id] == s.history[id] + o.events
         else r.streams[id] == s.streams[id] && r.history[id] == s.history[id]
       else id == s.nextId && pkt.Sound() && pkt.Opens() && r.streams[id] == NewStream(pkt, hash) && r.history[id] == []
  }

  /** What survives the timeout check is untouched by it. */
  ghost predicate Spares(s: Tcp, r: Tcp) {
    && r.nextId == s.nextId
    && (forall id :: id in r.streams ==> id in s.streams && r.streams[id] == s.streams[id])
    && (forall id :: id in r.streams && id in s.history ==> id in r.history && r.history[id] == s.history[id])
  }

  lemma {:induction false} CheckTcpSpares(s: Tcp, now: int)
    ensures Spares(s, CheckTcpTimeouts(s, now))
    decreases |s.tcpTimeouts|
  {
    if s.tcpTimeouts != map[] && First(s.tcpTimeouts) <= now {
      var id := s.tcpTimeouts[First(s.tcpTimeouts)];
      DelTimeoutShrinks(s.tcpTimeouts, First(s.tcpTimeouts));
      CheckTcpSpares(Free(Report(s, id, TimedOut), id), now);
    }
  }

  lemma {:induction false} CheckFinSpares(s: Tcp, now: int)
    ensures Spares(s, CheckFinTimeouts(s, now))
    decreases |s.finTimeouts|
  {
    if s.finTimeouts != map[] && First(s.finTimeouts) <= now {
      var id := s.finTimeouts[First(s.finTimeouts)];
      DelTimeoutShrinks(s.finTimeouts, First(s.finTimeouts));
      CheckFinSpares(Free(Report(s, id, Closed), id), now);
    }
  }

  lemma AddNewFate(s: Tcp, pkt: Packet, hash: Tuple4 -> nat, tableSize: nat, id: StreamId)
    requires TableOk(s, hash) && id in AddNew(s, pkt, hash, tableSize).streams
    ensures var r := AddNew(s, pkt, hash, tableSize);
            && id in r.history
            && if id == s.nextId then r.streams[id] == NewStream(pkt, hash) && r.history[id] == []
               else id in s.streams && r.streams[id] == s.streams[id] && r.history[id] == s.history[id]
  {
    hide NewStream;
    ClearAllEmpties(s);
  }

  lemma ApplyFate(s: Tcp, pkt: Packet, known: StreamId, o: Outcome, id: StreamId)
    requires id in Apply(s, known, o, pkt.now).streams && known in s.streams
    ensures var r := Apply(s, known, o, pkt.now);
            if id == known then
              id in r.history && !o.free && r.streams[id] == o.stream
              && r.history[id] == (if id in s.history then s.history[id] else []) + o.events
            else id in s.streams && r.streams[id] == s.streams[id]
                 && (id in s.history ==> id in r.history && r.history[id] == s.history[id])
  {
    hide DelTimeout, AddTimeout;
  }

  /** A packet once the timers have been checked. */
  ghost function Handle(s: Tcp, pkt: Packet, hash: Tuple4 -> nat, tableSize: nat): Tcp {
    if !pkt.Sound() then s
    else
      match Lookup(s, pkt.addr)
      case NotFound => if pkt.Opens() then AddNew(s, pkt, hash, tableSize) else s
      case Stream(id, fromClient) =>
        if pkt.Opens() then AddNew(Free(s, id), pkt, hash, tableSize)
        else Apply(s, id, StreamStep(s.streams[id], fromClient, pkt), pkt.now)
  }

  lemma HandleFate(s: Tcp, pkt: Packet, hash: Tuple4 -> nat, tableSize: nat, id: StreamId)
    requires TableOk(s, hash) && id in Handle(s, pkt, hash, tableSize).streams
    ensures Fate(s, Handle(s, pkt, hash, tableSize), pkt, id, hash)
  {
    hide TableOk, NewStream, StreamStep, AddNew, Apply, Lookup, FlowKey;
    LookupIsFlowMap(s, pkt.addr, hash);
    IdsBelow(s, hash);
    HistoriesKept(s, hash);
    if pkt.Sound() {
      match Lookup(s, pkt.addr) {
        case NotFound =>
          if pkt.Opens() {
            AddNewFate(s, pkt, hash, tableSize, id);
          }
        case Stream(known, fromClient) =>
          if pkt.Opens() {
            FreeKeepsTable(s, known, hash, |s.streams|);
            AddNewFate(Free(s, known), pkt, hash, tableSize, id);
            if id in s.streams {
              OthersApart(s, known, id, pkt, hash);
            }
          } else {
            ApplyFate(s, pkt, known, StreamStep(s.streams[known], fromClient, pkt), id);
            OthersApart(s, known, id, pkt, hash);
          }
      }
    }
  }

  lemma HistoriesKept(s: Tcp, hash: Tuple4 -> nat)
    requires TableOk(s, hash)
    ensures forall id :: id in s.streams ==> id in s.history
  {
  }

  lemma OthersApart(s: Tcp, known: StreamId, id: StreamId, pkt: Packet, hash: Tuple4 -> nat)
    requires TableOk(s, hash) && known in s.streams && id in s.streams && FlowKey(s.streams[known].addr) == FlowKey(pkt.addr)
    ensures FlowKey(s.streams[id].addr) == FlowKey(pkt.addr) ==> id == known
  {
    SameFlow(s.streams[known].addr, s.streams[id].addr);
  }

  lemma SparedFate(s: Tcp, s0: Tcp, r: Tcp, pkt: Packet, id: StreamId, hash: Tuple4 -> nat)
    requires TableOk(s, hash) && TableOk(s0, hash) && Spares(s, s0) && Fate(s0, r, pkt, id, hash)
    ensures Fate(s, r, pkt, id, hash)
  {
    hide NewStream, StreamStep, FlowKey, TableOk;
    HistoriesKept(s, hash);
    HistoriesKept(s0, hash);
    IdsBelow(s, hash);
  }

  lemma SparesBoth(s: Tcp, r: Tcp, q: Tcp)
    requires Spares(s, r) && Spares(r, q)
    ensures Spares(s, q)
  {
  }

  lemma ProcessFate(s: Tcp, pkt: Packet, hash: Tuple4 -> nat, tableSize: nat, id: StreamId)
    requires TableOk(s, hash) && TableOk(CheckTimeouts(s, pkt.now), hash)
    requires id in Process(s, pkt, hash, tableSize).streams
    ensures Fate(s, Process(s, pkt, hash, tableSize), pkt, id, hash)
  {
    hide TableOk, Spares, Fate, StreamStep, AddNew, Apply, Lookup, Free, CheckTcpTimeouts, CheckFinTimeouts;
    var s0 := CheckTimeouts(s, pkt.now);
    var r := Process(s, pkt, hash, tableSize);
    assert r == Handle(s0, pkt, hash, tableSize);
    hide Handle, Process;
    CheckTcpSpares(s, pkt.now);
    CheckFinSpares(CheckTcpTimeouts(s, pkt.now), pkt.now);
    SparesBoth(s, CheckTcpTimeouts(s, pkt.now), s0);
    HandleFate(s0, pkt, hash, tableSize, id);
    SparedFate(s, s0, r, pkt, id, hash);
  }

  lemma {:induction false} FollowKeepsAddr(s0: TcpStream, pkts: seq<Packet>)
    requires Readable(pkts)
    ensures Follow(s0, pkts).stream.addr == s0.addr
    decreases |pkts|
  {
    hide StreamStep;
    if pkts != [] {
      var n := |pkts| - 1;
      FollowKeepsAddr(s0, pkts[..n]);
      var s := Follow(s0, pkts[..n]).stream;
      StepRest(s, FromClient(s, pkts[n]), pkts[n]);
    }
  }

  /** None of these packets ends the stream. */
  predicate Unended(s0: TcpStream, pkts: seq<Packet>)
    requires Readable(pkts)
  {
    pkts == [] ||
    var n := |pkts| - 1;
    var s := Follow(s0, pkts[..n]).stream;
    Unended(s0, pkts[..n]) && !StreamStep(s, FromClient(s, pkts[n]), pkts[n]).free
  }

  /** Since its first packet a stream has done what it would have done alone, and nothing has ended it. */
  ghost predicate LivesSince(trace: seq<Packet>, k: nat, s: Tcp, id: StreamId, hash: Tuple4 -> nat) {
    && k < |trace| && trace[k].Sound() && trace[k].Opens()
    && id in s.streams && id in s.history && Since(trace, k, hash) == Life(s.streams[id], s.history[id])
    && Unended(NewStream(trace[k], hash), Own(trace[k + 1..], trace[k].addr))
  }

  lemma OwnGrows(pkts: seq<Packet>, pkt: Packet, addr: Tuple4)
    ensures Own(pkts + [pkt], addr) == if IsOwn(pkt, addr) then Own(pkts, addr) + [pkt] else Own(pkts, addr)
  {
    hide IsOwn;
    assert (pkts + [pkt])[..|pkts|] == pkts;
  }

  lemma FollowMore(s0: TcpStream, pkts: seq<Packet>, pkt: Packet)
    requires Readable(pkts) && pkt.DataLen() >= 0
    ensures var l := Follow(s0, pkts);
            var o := StreamStep(l.stream, FromClient(l.stream, pkt), pkt);
            Follow(s0, pkts + [pkt]) == Life(o.stream, l.history + o.events)
  {
    hide StreamStep;
    assert (pkts + [pkt])[..|pkts|] == pkts;
  }

  lemma UnendedMore(s0: TcpStream, pkts: seq<Packet>, pkt: Packet)
    requires Readable(pkts) && pkt.DataLen() >= 0
    ensures var s := Follow(s0, pkts).stream;
            Unended(s0, pkts + [pkt]) <==> Unended(s0, pkts) && !StreamStep(s, FromClient(s, pkt), pkt).free
  {
    hide StreamStep, Follow;
    assert (pkts + [pkt])[..|pkts|] == pkts;
  }

  lemma SinceGrows(trace: seq<Packet>, k: nat, pkt: Packet, hash: Tuple4 -> nat)
    requires k < |trace|
    ensures var l, m := Since(trace, k, hash), Since(trace + [pkt], k, hash);
            var s0 := NewStream(trace[k], hash);
            var before, after := Own(trace[k + 1..], trace[k].addr), Own((trace + [pkt])[k + 1..], trace[k].addr);
            if IsOwn(pkt, l.stream.addr) then
              var o := StreamStep(l.stream, FromClient(l.stream, pkt), pkt);
              m == Life(o.stream, l.history + o.events) && (Unended(s0, after) <==> Unended(s0, before) && !o.free)
            else m == l && after == before
  {
    hide StreamStep, FlowKey, Own, Follow, NewStream, Unended;
    var s0, own := NewStream(trace[k], hash), Own(trace[k + 1..], trace[k].addr);
    assert (trace + [pkt])[k + 1..] == trace[k + 1..] + [pkt];
    OwnGrows(trace[k + 1..], pkt, trace[k].addr);
    FollowKeepsAddr(s0, own);
    NewStreamAddr(trace[k], hash);
    if IsOwn(pkt, trace[k].addr) {
      FollowMore(s0, own, pkt);
      UnendedMore(s0, own, pkt);
    }
  }

  lemma NewStreamAddr(pkt: Packet, hash: Tuple4 -> nat)
    ensures NewStream(pkt, hash).addr == pkt.addr
  {
    hide U32, GetWscale;
  }

  lemma SinceNow(trace: seq<Packet>, pkt: Packet, hash: Tuple4 -> nat)
    ensures Since(trace + [pkt], |trace|, hash) == Life(NewStream(pkt, hash), [])
    ensures Unended(NewStream(pkt, hash), Own((trace + [pkt])[|trace| + 1..], pkt.addr))
  {
    assert (trace + [pkt])[|trace| + 1..] == [];
  }

  /** Over every capture: each stream in the table is in the state, and has told the application exactly what,
      it would have had its own packets been the only traffic since it was opened. */
  lemma {:induction false} Isolated(trace: seq<Packet>, hash: Tuple4 -> nat, tableSize: nat, id: StreamId) returns (k: nat)
    requires tableSize > 0 && id in Run(trace, hash, tableSize).streams
    ensures LivesSince(trace, k, Run(trace, hash, tableSize), id, hash)
    decreases |trace|
  {
    hide Process, Since, StreamStep, NewStream, FlowKey, Distinct, TimersOk, OncePerStream, StreamsOk, Own, Unended;
    var n := |trace| - 1;
    var s, pkt := Run(trace[..n], hash, tableSize), trace[n];
    RunIsGood(trace[..n], hash, tableSize);
    CheckTimeoutsKeeps(trace[..n], s, pkt.now, hash, tableSize);
    ProcessFate(s, pkt, hash, tableSize, id);
    assert trace[..n] + [pkt] == trace;
    if id in s.streams {
      k := Isolated(trace[..n], hash, tableSize, id);
      SinceGrows(trace[..n], k, pkt, hash);
    } else {
      k := n;
      SinceNow(trace[..n], pkt, hash);
    }
  }
}
