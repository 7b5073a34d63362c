/** The queue of the direction from server to client, which the second packet of
    the handshake renumbers (dpi/TcpFragment.cc). */
module TcpServerQueue {
  import opened SeqArith
  import opened TcpReassembly
  import opened TcpConfluence
  import opened TcpStreams
  import opened TcpProtocol
  import opened TcpDelivery
  import opened TcpTimers

  // ----- One packet -----

  /** Every entry of the queue starts after the number that is wanted once the direction is renumbered. */
  ghost predicate StillAhead(s: TcpStream, pkt: Packet) {
    var first := U32(U32(pkt.seqNum + 1) + s.client.count + s.client.urgCount);
    forall i :: 0 <= i < |s.client.fraglist| ==> 0 < Ahead(first, s.client.fraglist[i].seqNum) <= TWO31
  }

  /** Distances from two numbers differ by a constant, as long as both stay within half of the sequence space. */
  lemma SameDistances(exp: u32, first: u32, a: u32, b: u32)
    requires 0 < Ahead(exp, a) <= Ahead(exp, b) <= TWO31
    requires 0 < Ahead(first, a) <= TWO31 && 0 < Ahead(first, b) <= TWO31
    ensures Ahead(first, a) <= Ahead(first, b)
  {
    hide U32;
    var k := Quotient(a - exp);
    var l := Quotient(b - exp);
    var m := Quotient(a - first);
    var n := Quotient(b - first);
    assert Ahead(first, b) - Ahead(first, a) == Ahead(exp, b) - Ahead(exp, a) + (l - k - n + m) * TWO32;
  }

  /** An accepted SYN/ACK keeps the queue in order if and only if all of it lies ahead of the new numbering. */
  lemma SynAckExact(s: TcpStream, fromClient: bool, pkt: Packet)
    requires pkt.DataLen() >= 0 && AcceptsSynAck(s, fromClient, pkt) && QueueInOrder(s.server, s.client)
    ensures var r := StreamStep(s, fromClient, pkt).stream;
            QueueInOrder(r.server, r.client) <==> StillAhead(s, pkt)
  {
    hide U32, Ahead, GetWscale;
    var r := SynAck(s, pkt);
    assert r.client.fraglist == s.client.fraglist;
    var exp, first := ExpSeq(s.server, s.client), ExpSeq(r.server, r.client);
    if StillAhead(s, pkt) {
      forall i, j | 0 <= i < j < |s.client.fraglist|
        ensures Ahead(first, s.client.fraglist[i].seqNum) <= Ahead(first, s.client.fraglist[j].seqNum)
      {
        SameDistances(exp, first, s.client.fraglist[i].seqNum, s.client.fraglist[j].seqNum);
      }
    }
  }

  /** Every packet keeps the queue of that direction in order, but for an accepted SYN/ACK that renumbers it past
      something queued. */
  lemma ServerDirectionKept(s: TcpStream, fromClient: bool, pkt: Packet)
    requires pkt.DataLen() >= 0 && QueueInOrder(s.server, s.client)
    ensures var o := StreamStep(s, fromClient, pkt);
            QueueInOrder(o.stream.server, o.stream.client) <==> (AcceptsSynAck(s, fromClient, pkt) ==> StillAhead(s, pkt))
  {
    hide U32, I32, QueueInOrder, TcpQueue, GetWscale, OutOfWindow, StillAhead;
    if pkt.syn {
      if AcceptsSynAck(s, fromClient, pkt) {
        SynAckExact(s, fromClient, pkt);
      }
    } else if !OutOfWindow(Receiver(s, fromClient), pkt) && !pkt.rst {
      EstablishSame(s, pkt);
      var s0 := if Completes(s, fromClient, pkt) then Establish(s, pkt) else s;
      AcknowledgeSame(s0, fromClient, pkt);
      AbsorbSame(Acknowledge(s0, fromClient, pkt), fromClient, pkt);
    }
  }

  lemma EstablishSame(s: TcpStream, pkt: Packet)
    requires QueueInOrder(s.server, s.client)
    ensures QueueInOrder(Establish(s, pkt).server, Establish(s, pkt).client)
  {
    SameOrder(s.server, s.client, Establish(s, pkt).server, Establish(s, pkt).client);
  }

  lemma AcknowledgeSame(s: TcpStream, fromClient: bool, pkt: Packet)
    requires QueueInOrder(s.server, s.client)
    ensures var r := Acknowledge(s, fromClient, pkt); QueueInOrder(r.server, r.client)
  {
    var r := Acknowledge(s, fromClient, pkt);
    SameOrder(s.server, s.client, r.server, r.client);
  }

  lemma AbsorbSame(s: TcpStream, fromClient: bool, pkt: Packet)
    requires QueueInOrder(s.server, s.client) && pkt.DataLen() >= 0
    ensures var o := Absorb(s, fromClient, pkt); QueueInOrder(o.stream.server, o.stream.client)
  {
    hide TcpQueue, QueueInOrder;
    var snd, rcv := Sender(s, fromClient), Receiver(s, fromClient);
    TcpQueueFramed(snd, rcv, Incoming(pkt));
    var q := TcpQueue(snd, rcv, Incoming(pkt));
    if fromClient {
      SameOrder(rcv, snd, q.rcv, q.snd.(window := pkt.win));
      SameOrder(rcv, snd, rcv, snd.(window := pkt.win));
    } else {
      TcpQueueKeepsOrder(snd, rcv, Incoming(pkt));
      SameOrder(q.snd, q.rcv, q.snd.(window := pkt.win), q.rcv);
      SameOrder(snd, rcv, snd.(window := pkt.win), rcv);
    }
  }

  // ----- Whole captures -----

  /** Whenever a SYN/ACK is accepted, what is queued then lies ahead of the new numbering. */
  ghost predicate NeverOvertaken(s0: TcpStream, pkts: seq<Packet>)
    requires Readable(pkts)
    decreases |pkts|
  {
    pkts == [] ||
    var n := |pkts| - 1;
    var s := Follow(s0, pkts[..n]).stream;
    && NeverOvertaken(s0, pkts[..n])
    && (AcceptsSynAck(s, FromClient(s, pkts[n]), pkts[n]) ==> StillAhead(s, pkts[n]))
  }

  lemma {:induction false} FollowInOrder(s0: TcpStream, pkts: seq<Packet>)
    requires Readable(pkts) && QueueInOrder(s0.server, s0.client) && NeverOvertaken(s0, pkts)
    ensures var s := Follow(s0, pkts).stream; QueueInOrder(s.server, s.client)
    decreases |pkts|
  {
    hide QueueInOrder, StreamStep, StillAhead;
    if pkts != [] {
      var n := |pkts| - 1;
      FollowInOrder(s0, pkts[..n]);
      var s := Follow(s0, pkts[..n]).stream;
      ServerDirectionKept(s, FromClient(s, pkts[n]), pkts[n]);
    }
  }

  /** Over every capture: the queue from server to client of a live stream is in order and nothing deliverable is
      left in it, unless its SYN/ACK has overtaken data. */
  lemma LiveServerQueue(trace: seq<Packet>, hash: Tuple4 -> nat, tableSize: nat, id: StreamId) returns (k: nat)
    requires tableSize > 0 && id in Run(trace, hash, tableSize).streams
    ensures LivesSince(trace, k, Run(trace, hash, tableSize), id, hash)
    ensures NeverOvertaken(NewStream(trace[k], hash), Own(trace[k + 1..], trace[k].addr)) ==>
              var s := Run(trace, hash, tableSize).streams[id]; QueueInOrder(s.server, s.client)
  {
    hide QueueInOrder, NeverOvertaken, Follow, Own;
    k := Isolated(trace, hash, tableSize, id);
    var s0 := NewStream(trace[k], hash);
    if NeverOvertaken(s0, Own(trace[k + 1..], trace[k].addr)) {
      NewQueue(trace[k], hash);
      FollowInOrder(s0, Own(trace[k + 1..], trace[k].addr));
    }
  }

  lemma NewQueue(pkt: Packet, hash: Tuple4 -> nat)
    ensures var s := NewStream(pkt, hash); QueueInOrder(s.server, s.client)
  {
    hide U32, GetWscale;
  }

  // ----- A capture in which data is overtaken -----

  /** A packet for a live stream when no timer is due. */
  lemma StepKnown(s: Tcp, pkt: Packet, hash: Tuple4 -> nat, tableSize: nat, id: StreamId)
    requires TableOk(s, hash) && pkt.Sound() && !pkt.Opens() && id in s.streams
    requires FlowKey(s.streams[id].addr) == FlowKey(pkt.addr)
    requires (forall t :: t in s.tcpTimeouts ==> pkt.now < t) && s.finTimeouts == map[]
    ensures Process(s, pkt, hash, tableSize)
            == Apply(s, id, StreamStep(s.streams[id], FromClient(s.streams[id], pkt), pkt), pkt.now)
  {
    hide StreamStep, Apply, FlowKey, TableOk, Lookup;
    LookupIsFlowMap(s, pkt.addr, hash);
    assert Lookup(s, pkt.addr) == Stream(id, FromClient(s.streams[id], pkt));
    assert s.tcpTimeouts != map[] ==> First(s.tcpTimeouts) in s.tcpTimeouts;
    assert CheckTimeouts(s, pkt.now) == s;
  }

  const HOST: Tuple4 := Tuple4(Endpoint(1, 1), Endpoint(2, 2))

  /** What the memory of a new stream held. */
  const ZERO: HalfStream := HalfStream(CLOSE, 0, 0, 0, 0, 0, 0, false, 0, 0, false, 1, [])

  function Zeros(): Payload {
    [0, 0, 0, 0, 0, 0, 0, 0, 0, 0, 0, 0, 0, 0, 0, 0, 0, 0, 0, 0]
  }

  /** SYN; one byte of the server, on its way before its SYN/ACK; the SYN/ACK. */
  function FirstSyn(): Packet {
    Packet(HOST, Zeros(), 5, 100, 0, true, false, false, false, false, 1000, 0, 1, 0, ZERO)
  }

  function EarlyByte(): Packet {
    Packet(HOST.Reversed(), Zeros() + [7], 5, 1, 0, false, false, false, false, false, 1000, 0, 1, 0, ZERO)
  }

  function LateSynAck(): Packet {
    Packet(HOST.Reversed(), Zeros(), 5, 0, 101, true, true, false, false, false, 1000, 0, 1, 0, ZERO)
  }

  lemma EarlyStep(hash: Tuple4 -> nat)
    ensures var s, pkt := NewStream(FirstSyn(), hash), EarlyByte();
            var o := StreamStep(s, false, pkt);
            && s.addr == HOST && o.events == [] && !o.free && !o.touched && !o.finTimer
            && o.stream.addr == HOST && o.stream.client.state == SYN_SENT && o.stream.server.state == CLOSE
            && o.stream.client.seqNum == 101 && o.stream.client.count == 0 && o.stream.client.urgCount == 0
            && |o.stream.client.fraglist| == 1 && o.stream.client.fraglist[0].seqNum == 1
  {
    hide GetWscale;
    var s, pkt := NewStream(FirstSyn(), hash), EarlyByte();
    assert FirstSyn().Options() == [] && GetWscale([]) == (false, 1) by { NoOptions(); }
    assert pkt.DataLen() == 1;
    assert !OutOfWindow(s.client, pkt);
    assert Insert([], Skbuff(pkt.Body(), 1, 0, false, false, 1)) == [Skbuff(pkt.Body(), 1, 0, false, false, 1)];
    assert DataEvents([], FROMSERVER) == [];
  }

  lemma NoOptions()
    ensures GetWscale([]) == (false, 1)
  {
  }

  /** The exception is real: in this capture the SYN/ACK makes the byte in the queue the one that is wanted next, and
      it stays there. */
  lemma OvertakenInCapture(hash: Tuple4 -> nat, tableSize: nat)
    requires tableSize > 0
    ensures var r := Run([FirstSyn(), EarlyByte(), LateSynAck()], hash, tableSize);
            && 0 in r.streams
            && var s := r.streams[0];
               && |s.client.fraglist| == 1 && ExpSeq(s.server, s.client) == s.client.fraglist[0].seqNum
               && !QueueInOrder(s.server, s.client)
  {
    hide NewStream, StreamStep, TableOk, StreamsOk, Zeros;
    var a, b, c := FirstSyn(), EarlyByte(), LateSynAck();
    SoundThree();
    FirstPacket(a, hash, tableSize);
    EarlyStep(hash);
    var s1 := Run([a], hash, tableSize);
    RunIsGood([a], hash, tableSize);
    StepKnown(s1, b, hash, tableSize, 0);
    assert [a, b][..1] == [a];
    var s2 := Run([a, b], hash, tableSize);
    RunIsGood([a, b], hash, tableSize);
    StepKnown(s2, c, hash, tableSize, 0);
    assert [a, b, c][..2] == [a, b];
    LateStep(s2.streams[0]);
  }

  lemma SoundThree()
    ensures FirstSyn().Sound() && FirstSyn().Opens() && EarlyByte().Sound() && LateSynAck().Sound() && FlowKey(HOST) == FlowKey(HOST.Reversed())
  {
  }

  lemma LateStep(s: TcpStream)
    requires s.client.state == SYN_SENT && s.server.state == CLOSE && s.client.seqNum == 101
    requires s.client.count == 0 && s.client.urgCount == 0
    requires |s.client.fraglist| == 1 && s.client.fraglist[0].seqNum == 1
    ensures var o := StreamStep(s, false, LateSynAck());
            && o.events == [] && !o.free && !o.touched && !o.finTimer
            && o.stream.client.fraglist == s.client.fraglist && ExpSeq(o.stream.server, o.stream.client) == 1
            && !QueueInOrder(o.stream.server, o.stream.client)
  {
    hide GetWscale;
    var o := StreamStep(s, false, LateSynAck());
    assert Ahead(1, o.stream.client.fraglist[0].seqNum) == 0;
  }
}
