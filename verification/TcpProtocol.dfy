/** What holds over every capture: the callback protocol of each stream, the
    handshake behind it, the stream table, the queues and their memory. */
module TcpProtocol {
  import opened SetFacts
  import opened SeqArith
  import opened TcpReassembly
  import opened TcpConfluence
  import opened TcpStreams

  // ----- What TcpQueue leaves alone -----

  /** Only the sender's teardown state and the receiver's delivery fields may differ. */
  ghost predicate Framed(snd: HalfStream, rcv: HalfStream, snd': HalfStream, rcv': HalfStream) {
    && snd' == snd.(state := snd'.state)
    && (snd'.state == snd.state || snd'.state == FIN_SENT || snd'.state == CLOSING)
    && rcv' == rcv.(count := rcv'.count, urgCount := rcv'.urgCount, urgSeen := rcv'.urgSeen,
                    urgPtr := rcv'.urgPtr, rmemAlloc := rcv'.rmemAlloc, fraglist := rcv'.fraglist)
  }

  lemma AddFromskbFramed(snd: HalfStream, rcv: HalfStream, data: Payload, seqNum: u32,
                         fin: bool, urg: bool, urgPtr: u32)
    requires Reaches(ExpSeq(snd, rcv), seqNum, |data|, fin)
    ensures var d := AddFromskb(snd, rcv, data, seqNum, fin, urg, urgPtr);
            Framed(snd, rcv, d.snd, d.rcv) && d.rcv.fraglist == rcv.fraglist
  {
    hide U32, I32, After, Before, UrgentInside, NonEmpty;
  }

  lemma HeadFramed(snd: HalfStream, rcv: HalfStream)
    requires rcv.fraglist != [] && !After(rcv.fraglist[0].seqNum, ExpSeq(snd, rcv))
    ensures var d := DeliverHead(snd, rcv); Framed(snd, rcv, d.snd, d.rcv)
  {
    hide U32, I32, After, Before, AddFromskb;
    var frag := rcv.fraglist[0];
    if After(U32(frag.seqNum + |frag.data| + Bit(frag.fin)), ExpSeq(snd, rcv)) {
      AddFromskbFramed(snd, rcv, frag.data, frag.seqNum, frag.fin, frag.urg, U32(frag.urgPtr + frag.seqNum - 1));
    }
  }

  lemma {:induction false} DrainFramed(snd: HalfStream, rcv: HalfStream)
    ensures var d := Drain(snd, rcv); Framed(snd, rcv, d.snd, d.rcv)
    decreases |rcv.fraglist|
  {
    hide U32, I32, After, Before, DeliverHead;
    if rcv.fraglist != [] && !After(rcv.fraglist[0].seqNum, ExpSeq(snd, rcv)) {
      var d := DeliverHead(snd, rcv);
      HeadFramed(snd, rcv);
      DrainFramed(d.snd, d.rcv);
    }
  }

  lemma TcpQueueFramed(snd: HalfStream, rcv: HalfStream, sg: Segment)
    ensures var q := TcpQueue(snd, rcv, sg); Framed(snd, rcv, q.snd, q.rcv)
  {
    hide U32, I32, After, Before, Drain, Insert, AddFromskb;
    var exp := ExpSeq(snd, rcv);
    if !After(sg.seqNum, exp) && After(U32(sg.seqNum + |sg.data| + Bit(sg.fin)), exp) {
      AddFromskbFramed(snd, rcv, sg.data, sg.seqNum, sg.fin, sg.urg, U32(sg.urp + sg.seqNum - 1));
      var d := AddFromskb(snd, rcv, sg.data, sg.seqNum, sg.fin, sg.urg, U32(sg.urp + sg.seqNum - 1));
      DrainFramed(d.snd, d.rcv);
    }
  }

  // ----- Handshake evidence in the capture -----

  ghost predicate Opening(trace: seq<Packet>, i: int, addr: Tuple4, clientSeq: u32) {
    && 0 <= i < |trace| && trace[i].Sound() && trace[i].Opens()
    && trace[i].addr == addr && clientSeq == U32(trace[i].seqNum + 1)
  }

  ghost predicate Answering(trace: seq<Packet>, j: int, addr: Tuple4, clientSeq: u32, serverSeq: u32) {
    && 0 <= j < |trace| && trace[j].Sound() && trace[j].syn && trace[j].ackFlag
    && trace[j].addr == addr.Reversed() && trace[j].ack == clientSeq
    && serverSeq == U32(trace[j].seqNum + 1)
  }

  ghost predicate Completing(trace: seq<Packet>, k: int, addr: Tuple4, serverSeq: u32) {
    && 0 <= k < |trace| && trace[k].Sound() && !trace[k].syn && !trace[k].rst && trace[k].ackFlag
    && trace[k].addr == addr && trace[k].ack == serverSeq
  }

  ghost predicate Opened(trace: seq<Packet>, addr: Tuple4, clientSeq: u32) {
    exists i :: Opening(trace, i, addr, clientSeq)
  }

  ghost predicate Answered(trace: seq<Packet>, addr: Tuple4, clientSeq: u32, serverSeq: u32) {
    exists i, j :: i < j && Opening(trace, i, addr, clientSeq) && Answering(trace, j, addr, clientSeq, serverSeq)
  }

  /** SYN, SYN/ACK and ACK with matching numbers, in this order. */
  ghost predicate Handshake(trace: seq<Packet>, addr: Tuple4) {
    exists i, j, k, clientSeq, serverSeq ::
      && i < j < k && Opening(trace, i, addr, clientSeq)
      && Answering(trace, j, addr, clientSeq, serverSeq) && Completing(trace, k, addr, serverSeq)
  }

  lemma EvidenceGrows(trace: seq<Packet>, pkt: Packet)
    ensures forall a, c :: Opened(trace, a, c) ==> Opened(trace + [pkt], a, c)
    ensures forall a, c, v :: Answered(trace, a, c, v) ==> Answered(trace + [pkt], a, c, v)
    ensures forall a :: Handshake(trace, a) ==> Handshake(trace + [pkt], a)
  {
    forall a, c | Opened(trace, a, c) ensures Opened(trace + [pkt], a, c) {
      var i :| Opening(trace, i, a, c);
      assert Opening(trace + [pkt], i, a, c);
    }
    forall a, c, v | Answered(trace, a, c, v) ensures Answered(trace + [pkt], a, c, v) {
      var i, j :| i < j && Opening(trace, i, a, c) && Answering(trace, j, a, c, v);
      assert Opening(trace + [pkt], i, a, c) && Answering(trace + [pkt], j, a, c, v);
    }
    forall a | Handshake(trace, a) ensures Handshake(trace + [pkt], a) {
      var i, j, k, c, v :| i < j < k && Opening(trace, i, a, c) && Answering(trace, j, a, c, v) && Completing(trace, k, a, v);
      assert Opening(trace + [pkt], i, a, c) && Answering(trace + [pkt], j, a, c, v) && Completing(trace + [pkt], k, a, v);
    }
  }

  lemma NewOpening(trace: seq<Packet>, pkt: Packet)
    requires pkt.Sound() && pkt.Opens()
    ensures Opened(trace + [pkt], pkt.addr, U32(pkt.seqNum + 1))
  {
    assert Opening(trace + [pkt], |trace|, pkt.addr, U32(pkt.seqNum + 1));
  }

  lemma NewAnswer(trace: seq<Packet>, pkt: Packet, addr: Tuple4)
    requires pkt.Sound() && pkt.syn && pkt.ackFlag && pkt.addr == addr.Reversed()
    requires Opened(trace, addr, pkt.ack)
    ensures Answered(trace + [pkt], addr, pkt.ack, U32(pkt.seqNum + 1))
  {
    var i :| Opening(trace, i, addr, pkt.ack);
    assert Opening(trace + [pkt], i, addr, pkt.ack);
    assert Answering(trace + [pkt], |trace|, addr, pkt.ack, U32(pkt.seqNum + 1));
  }

  lemma NewCompletion(trace: seq<Packet>, pkt: Packet, clientSeq: u32)
    requires pkt.Sound() && !pkt.syn && !pkt.rst && pkt.ackFlag
    requires Answered(trace, pkt.addr, clientSeq, pkt.ack)
    ensures Handshake(trace + [pkt], pkt.addr)
  {
    var i, j :| i < j && Opening(trace, i, pkt.addr, clientSeq) && Answering(trace, j, pkt.addr, clientSeq, pkt.ack);
    var t, k := trace + [pkt], |trace|;
    assert Opening(t, i, pkt.addr, clientSeq) && Answering(t, j, pkt.addr, clientSeq, pkt.ack);
    assert i < j < k && Completing(t, k, pkt.addr, pkt.ack);
  }

  // ----- One stream -----

  /** At most one connection callback, first; then data; at most one of
      close, reset and timeout, last. */
  ghost predicate Protocol(h: seq<Event>) {
    || h == []
    || (&& h[0].Connected?
        && (forall i :: 0 < i < |h| - 1 ==> h[i].Data?)
        && (|h| > 1 ==> !h[|h| - 1].Connected?))
  }

  /** The history of a stream still in the table. */
  ghost predicate LiveHistory(h: seq<Event>, connected: bool, addr: Tuple4) {
    if connected then h != [] && h[0] == Connected(addr) && forall i :: 0 < i < |h| ==> h[i].Data?
    else h == []
  }

  predicate MemoryOk(h: HalfStream) {
    h.rmemAlloc == Charge(h.fraglist) && h.rmemAlloc <= 65535
  }

  ghost predicate StreamOk(trace: seq<Packet>, s: TcpStream, h: seq<Event>) {
    && LiveHistory(h, s.connected, s.addr)
    && (s.connected ==> s.client.state != SYN_SENT && Handshake(trace, s.addr))
    && Opened(trace, s.addr, s.client.seqNum)
    && (s.server.state == SYN_RECV ==> Answered(trace, s.addr, s.client.seqNum, s.server.seqNum))
    && QueueInOrder(s.client, s.server)
    && MemoryOk(s.client) && MemoryOk(s.server)
  }

  /** The history a stream leaves behind. */
  ghost predicate PastHistory(trace: seq<Packet>, h: seq<Event>) {
    Protocol(h) && (h != [] ==> h[0].Connected? && Handshake(trace, h[0].addr))
  }

  lemma AbsorbKeeps(trace: seq<Packet>, s: TcpStream, h: seq<Event>, fromClient: bool, pkt: Packet)
    requires StreamOk(trace, s, h) && pkt.DataLen() >= 0
    ensures var o := Absorb(s, fromClient, pkt);
            && o.stream.addr == s.addr && o.stream.hashIndex == s.hashIndex
            && LiveHistory(h + o.events, s.connected, s.addr)
            && (!o.free ==> StreamOk(trace, o.stream, h + o.events))
  {
    hide TcpQueue, QueueInOrder, Charge, Opened, Answered, Handshake;
    var snd, rcv := Sender(s, fromClient), Receiver(s, fromClient);
    TcpQueueFramed(snd, rcv, Incoming(pkt));
    TcpQueueKeepsCharge(snd, rcv, Incoming(pkt));
    var q := TcpQueue(snd, rcv, Incoming(pkt));
    if fromClient {
      TcpQueueKeepsOrder(snd, rcv, Incoming(pkt));
      SameOrder(q.snd, q.rcv, q.snd.(window := pkt.win), q.rcv);
      SameOrder(snd, rcv, snd.(window := pkt.win), rcv);
    } else {
      SameOrder(rcv, snd, q.rcv, q.snd.(window := pkt.win));
      SameOrder(rcv, snd, rcv, snd.(window := pkt.win));
    }
  }

  lemma SameOrder(snd: HalfStream, rcv: HalfStream, snd': HalfStream, rcv': HalfStream)
    requires QueueInOrder(snd, rcv) && snd'.firstDataSeq == snd.firstDataSeq
    requires rcv'.count == rcv.count && rcv'.urgCount == rcv.urgCount && rcv'.fraglist == rcv.fraglist
    ensures QueueInOrder(snd', rcv')
  {
  }

  /** The acknowledgement part of a packet, with the third step of the handshake if it is one. */
  lemma AcknowledgeKeeps(trace: seq<Packet>, s: TcpStream, h: seq<Event>, fromClient: bool, pkt: Packet)
    requires StreamOk(trace, s, h)
    requires pkt.Sound() && !pkt.syn && !pkt.rst && (fromClient ==> pkt.addr == s.addr)
    ensures var completes := Completes(s, fromClient, pkt);
            var s1 := Acknowledge(if completes then Establish(s, pkt) else s, fromClient, pkt);
            && s1.addr == s.addr && s1.hashIndex == s.hashIndex
            && StreamOk(trace + [pkt], s1, h + if completes then [Connected(s.addr)] else [])
  {
    hide U32, I32, QueueInOrder, Charge, Opened, Answered, Handshake;
    EvidenceGrows(trace, pkt);
    var completes := Completes(s, fromClient, pkt);
    if completes {
      NewCompletion(trace, pkt, s.client.seqNum);
    } else {
      assert h + [] == h;
    }
    var s0 := if completes then Establish(s, pkt) else s;
    var s1 := Acknowledge(s0, fromClient, pkt);
    SameOrder(s.client, s.server, s1.client, s1.server);
  }

  /** Ending a live stream's history with a terminal callback, or with none. */
  lemma HistoryEnds(trace: seq<Packet>, s: TcpStream, h: seq<Event>, e: Event)
    requires LiveHistory(h, s.connected, s.addr) && (s.connected ==> Handshake(trace, s.addr)) && !e.Connected?
    ensures PastHistory(trace, h)
    ensures s.connected ==> PastHistory(trace, h + [e])
  {
    hide Handshake;
  }

  lemma StreamStepKeeps(trace: seq<Packet>, s: TcpStream, h: seq<Event>, fromClient: bool, pkt: Packet)
    requires StreamOk(trace, s, h)
    requires pkt.Sound() && !pkt.Opens() && pkt.addr == if fromClient then s.addr else s.addr.Reversed()
    ensures var o := StreamStep(s, fromClient, pkt);
            && o.stream.addr == s.addr && o.stream.hashIndex == s.hashIndex
            && (!o.free ==> StreamOk(trace + [pkt], o.stream, h + o.events))
            && (o.free ==> PastHistory(trace + [pkt], h + o.events))
  {
    hide U32, I32, QueueInOrder, Charge, Opened, Answered, Handshake, Absorb, Acknowledge, GetWscale, OutOfWindow;
    EvidenceGrows(trace, pkt);
    assert h + [] == h;
    HistoryEnds(trace + [pkt], s, h, Reset);
    if pkt.syn {
      if AcceptsSynAck(s, fromClient, pkt) {
        NewAnswer(trace, pkt, s.addr);
        var s1 := SynAck(s, pkt);
        SameOrder(s.client, s.server, s1.client, s1.server);
      }
    } else if !OutOfWindow(Receiver(s, fromClient), pkt) && !pkt.rst {
      AcknowledgedKeeps(trace, s, h, fromClient, pkt);
    }
  }

  lemma AcknowledgedKeeps(trace: seq<Packet>, s: TcpStream, h: seq<Event>, fromClient: bool, pkt: Packet)
    requires StreamOk(trace, s, h)
    requires pkt.Sound() && !pkt.syn && !pkt.rst && (fromClient ==> pkt.addr == s.addr)
    requires !OutOfWindow(Receiver(s, fromClient), pkt)
    ensures var o := StreamStep(s, fromClient, pkt);
            && o.stream.addr == s.addr && o.stream.hashIndex == s.hashIndex
            && (!o.free ==> StreamOk(trace + [pkt], o.stream, h + o.events))
            && (o.free ==> PastHistory(trace + [pkt], h + o.events))
  {
    hide U32, I32, QueueInOrder, Charge, Opened, Answered, Handshake, Absorb, Acknowledge, OutOfWindow, PastHistory;
    AcknowledgeKeeps(trace, s, h, fromClient, pkt);
    var completes := Completes(s, fromClient, pkt);
    var s1 := Acknowledge(if completes then Establish(s, pkt) else s, fromClient, pkt);
    var opening := if completes then [Connected(s.addr)] else [];
    HistoryEnds(trace + [pkt], s1, h + opening, Closed);
    if !(pkt.ackFlag && s1.client.state == FIN_CONFIRMED && s1.server.state == FIN_CONFIRMED) {
      var a := Absorb(s1, fromClient, pkt);
      AbsorbKeeps(trace + [pkt], s1, h + opening, fromClient, pkt);
      assert h + (opening + a.events) == (h + opening) + a.events;
      HistoryEnds(trace + [pkt], s1, h + opening + a.events, Closed);
    } else {
      assert h + (opening + [Closed]) == (h + opening) + [Closed];
      assert h + (opening + []) == h + opening;
    }
  }

  // ----- The whole tracker -----

  /** No two live streams join the same pair of endpoints, in either direction. */
  ghost predicate Distinct(streams: map<StreamId, TcpStream>) {
    forall a, b :: a in streams && b in streams && a != b ==>
      streams[a].addr != streams[b].addr && streams[a].addr != streams[b].addr.Reversed()
  }

  /** Timers point only at live streams, and `once` at each at most once. */
  ghost predicate TimersOk(timers: Timers, streams: map<StreamId, TcpStream>) {
    forall t :: t in timers ==> timers[t] in streams
  }

  ghost predicate OncePerStream(timers: Timers) {
    forall t, u :: t in timers && u in timers && timers[t] == timers[u] ==> t == u
  }

  ghost predicate TableOk(s: Tcp, hash: Tuple4 -> nat) {
    && Distinct(s.streams)
    && (forall id :: id in s.streams ==> id in s.history && s.streams[id].hashIndex == hash(s.streams[id].addr))
    && (forall id :: id in s.history ==> id < s.nextId)
    && TimersOk(s.tcpTimeouts, s.streams) && TimersOk(s.finTimeouts, s.streams)
    && OncePerStream(s.tcpTimeouts)
  }

  ghost predicate StreamsOk(trace: seq<Packet>, s: Tcp) {
    && (forall id :: id in s.streams && id in s.history ==> StreamOk(trace, s.streams[id], s.history[id]))
    && (forall id :: id in s.history && id !in s.streams ==> PastHistory(trace, s.history[id]))
  }

  ghost predicate Good(trace: seq<Packet>, s: Tcp, hash: Tuple4 -> nat, tableSize: nat) {
    TableOk(s, hash) && StreamsOk(trace, s) && |s.streams| <= tableSize
  }

  lemma StreamOkGrows(trace: seq<Packet>, pkt: Packet, s: TcpStream, h: seq<Event>)
    requires StreamOk(trace, s, h)
    ensures StreamOk(trace + [pkt], s, h)
  {
    hide Opened, Answered, Handshake, QueueInOrder, Charge;
    EvidenceGrows(trace, pkt);
  }

  lemma GoodGrows(trace: seq<Packet>, pkt: Packet, s: Tcp)
    requires StreamsOk(trace, s)
    ensures StreamsOk(trace + [pkt], s)
  {
    hide StreamOk, Handshake;
    EvidenceGrows(trace, pkt);
    forall id | id in s.streams && id in s.history ensures StreamOk(trace + [pkt], s.streams[id], s.history[id]) {
      StreamOkGrows(trace, pkt, s.streams[id], s.history[id]);
    }
  }

  lemma StreamHistoryEnds(trace: seq<Packet>, s: TcpStream, h: seq<Event>, e: Event)
    requires StreamOk(trace, s, h) && !e.Connected?
    ensures PastHistory(trace, if s.connected then h + [e] else h)
  {
    hide Opened, Answered, Handshake, QueueInOrder, Charge, PastHistory;
    HistoryEnds(trace, s, h, e);
  }

  lemma FreeKeepsStreams(trace: seq<Packet>, s: Tcp, id: StreamId, e: Event)
    requires StreamsOk(trace, s) && id in s.streams && id in s.history && !e.Connected?
    ensures StreamsOk(trace, Free(s, id))
    ensures StreamsOk(trace, Free(Report(s, id, e), id))
  {
    hide StreamOk, PastHistory, DelTimeout;
    StreamHistoryEnds(trace, s.streams[id], s.history[id], e);
    PastIsQuiet(trace, s.streams[id], s.history[id]);
  }

  /** Removing a stream, with or without a last report. */
  lemma FreeKeeps(trace: seq<Packet>, s: Tcp, id: StreamId, hash: Tuple4 -> nat, tableSize: nat, e: Event, report: bool)
    requires Good(trace, s, hash, tableSize) && id in s.streams && !e.Connected?
    ensures Good(trace, Free(if report then Report(s, id, e) else s, id), hash, tableSize)
  {
    hide StreamsOk, Free, Distinct, TimersOk, OncePerStream;
    FreeKeepsStreams(trace, s, id, e);
    var s1 := if report then Report(s, id, e) else s;
    assert s1.streams == s.streams && s1.tcpTimeouts == s.tcpTimeouts && s1.finTimeouts == s.finTimeouts;
    assert s1.history.Keys == s.history.Keys;
    FreeKeepsTable(s1, id, hash, tableSize);
  }

  lemma FreeKeepsTable(s: Tcp, id: StreamId, hash: Tuple4 -> nat, tableSize: nat)
    requires TableOk(s, hash) && |s.streams| <= tableSize && id in s.streams
    ensures TableOk(Free(s, id), hash) && |Free(s, id).streams| <= tableSize
  {
    assert (s.streams - {id}).Keys < s.streams.Keys;
    ProperSubsetSize((s.streams - {id}).Keys, s.streams.Keys);
  }

  lemma PastIsQuiet(trace: seq<Packet>, s: TcpStream, h: seq<Event>)
    requires StreamOk(trace, s, h)
    ensures PastHistory(trace, h)
  {
    hide Opened, Answered, Handshake, QueueInOrder, Charge, PastHistory;
    HistoryEnds(trace, s, h, Closed);
  }

  lemma {:induction false} CheckTcpKeeps(trace: seq<Packet>, s: Tcp, now: int, hash: Tuple4 -> nat, tableSize: nat)
    requires Good(trace, s, hash, tableSize)
    ensures var r := CheckTcpTimeouts(s, now);
            Good(trace, r, hash, tableSize) && (forall t :: t in r.tcpTimeouts ==> now < t)
    decreases |s.tcpTimeouts|
  {
    hide StreamsOk;
    if s.tcpTimeouts != map[] && First(s.tcpTimeouts) <= now {
      var id := s.tcpTimeouts[First(s.tcpTimeouts)];
      FreeKeeps(trace, s, id, hash, tableSize, TimedOut, true);
      DelTimeoutShrinks(s.tcpTimeouts, First(s.tcpTimeouts));
      CheckTcpKeeps(trace, Free(Report(s, id, TimedOut), id), now, hash, tableSize);
    }
  }

  lemma {:induction false} CheckFinKeeps(trace: seq<Packet>, s: Tcp, now: int, hash: Tuple4 -> nat, tableSize: nat)
    requires Good(trace, s, hash, tableSize) && forall t :: t in s.tcpTimeouts ==> now < t
    ensures var r := CheckFinTimeouts(s, now);
            && Good(trace, r, hash, tableSize) && (forall t :: t in r.finTimeouts ==> now < t)
            && (forall t :: t in r.tcpTimeouts ==> now < t)
    decreases |s.finTimeouts|
  {
    hide StreamsOk;
    if s.finTimeouts != map[] && First(s.finTimeouts) <= now {
      var id := s.finTimeouts[First(s.finTimeouts)];
      FreeKeeps(trace, s, id, hash, tableSize, Closed, true);
      DelTimeoutShrinks(s.finTimeouts, First(s.finTimeouts));
      CheckFinKeeps(trace, Free(Report(s, id, Closed), id), now, hash, tableSize);
    }
  }

  /** After the timeout check no due timer is left in either set. */
  lemma CheckTimeoutsKeeps(trace: seq<Packet>, s: Tcp, now: int, hash: Tuple4 -> nat, tableSize: nat)
    requires Good(trace, s, hash, tableSize)
    ensures var r := CheckTimeouts(s, now);
            && Good(trace, r, hash, tableSize)
            && (forall t :: t in r.tcpTimeouts ==> now < t) && (forall t :: t in r.finTimeouts ==> now < t)
  {
    hide Good;
    CheckTcpKeeps(trace, s, now, hash, tableSize);
    CheckFinKeeps(trace, CheckTcpTimeouts(s, now), now, hash, tableSize);
  }

  lemma ClearAllKeeps(trace: seq<Packet>, s: Tcp, hash: Tuple4 -> nat, tableSize: nat)
    requires Good(trace, s, hash, tableSize)
    ensures Good(trace, ClearAll(s), hash, tableSize)
  {
    hide StreamOk, PastHistory;
    var r := ClearAll(s);
    forall id | id in r.history ensures PastHistory(trace, r.history[id]) {
      if id in s.streams {
        StreamHistoryEnds(trace, s.streams[id], s.history[id], TimedOut);
        PastIsQuiet(trace, s.streams[id], s.history[id]);
      }
    }
  }

  /** The endpoints are not those of any live stream. */
  ghost predicate Unknown(s: Tcp, addr: Tuple4) {
    forall id :: id in s.streams ==> s.streams[id].addr != addr && s.streams[id].addr != addr.Reversed()
  }

  /** A fresh stream enters the table with its timer. */
  function Enter(s: Tcp, stream: TcpStream, now: int): Tcp {
    Tcp(s.streams[s.nextId := stream], AddTimeout(s.tcpTimeouts, s.nextId, now + 30),
        s.finTimeouts, s.nextId + 1, s.history[s.nextId := []])
  }

  lemma EnterKeepsTable(s: Tcp, stream: TcpStream, now: int, hash: Tuple4 -> nat)
    requires TableOk(s, hash) && Unknown(s, stream.addr) && stream.hashIndex == hash(stream.addr)
    ensures TableOk(Enter(s, stream, now), hash)
  {
    var r := Enter(s, stream, now);
    assert stream.addr == stream.addr.Reversed().Reversed();
    forall a, b | a in r.streams && b in r.streams && a != b
      ensures r.streams[a].addr != r.streams[b].addr && r.streams[a].addr != r.streams[b].addr.Reversed()
    {
    }
  }

  lemma AddNewKeeps(trace: seq<Packet>, s: Tcp, pkt: Packet, hash: Tuple4 -> nat, tableSize: nat)
    requires Good(trace, s, hash, tableSize) && Unknown(s, pkt.addr) && tableSize > 0
    requires pkt.Sound() && pkt.Opens()
    ensures Good(trace + [pkt], AddNew(s, pkt, hash, tableSize), hash, tableSize)
  {
    hide StreamOk, PastHistory, NewStream, ClearAll, TableOk;
    var s1 := if |s.streams| >= tableSize then ClearAll(s) else s;
    ClearAllKeeps(trace, s, hash, tableSize);
    ClearAllEmpties(s);
    GoodGrows(trace, pkt, s1);
    NewStreamOk(trace, pkt, hash);
    var n := NewStream(pkt, hash);
    EnterKeepsTable(s1, n, pkt.now, hash);
    IdsBelow(s1, hash);
    EnterKeepsStreams(trace + [pkt], s1, n, pkt.now);
    assert AddNew(s, pkt, hash, tableSize) == Enter(s1, n, pkt.now);
  }

  lemma IdsBelow(s: Tcp, hash: Tuple4 -> nat)
    requires TableOk(s, hash)
    ensures s.nextId !in s.streams && s.nextId !in s.history
  {
  }

  lemma EnterKeepsStreams(trace: seq<Packet>, s: Tcp, stream: TcpStream, now: int)
    requires StreamsOk(trace, s) && StreamOk(trace, stream, []) && s.nextId !in s.history
    ensures StreamsOk(trace, Enter(s, stream, now))
  {
    hide StreamOk, PastHistory;
  }

  lemma ClearAllEmpties(s: Tcp)
    ensures ClearAll(s).streams == map[]
  {
  }

  lemma NewStreamOk(trace: seq<Packet>, pkt: Packet, hash: Tuple4 -> nat)
    requires pkt.Sound() && pkt.Opens()
    ensures var n := NewStream(pkt, hash);
            n.addr == pkt.addr && n.hashIndex == hash(pkt.addr) && StreamOk(trace + [pkt], n, [])
  {
    hide U32, Opened, Answered, Handshake, GetWscale;
    NewOpening(trace, pkt);
  }

  /** The unordered pair of endpoints of a flow. */
  function FlowKey(addr: Tuple4): set<Endpoint> {
    {addr.src, addr.dst}
  }

  lemma SameFlow(a: Tuple4, b: Tuple4)
    ensures FlowKey(a) == FlowKey(b) <==> a == b || a == b.Reversed()
  {
    if FlowKey(a) == FlowKey(b) {
      assert a.src in FlowKey(b) && a.dst in FlowKey(b) && b.src in FlowKey(a) && b.dst in FlowKey(a);
    }
  }

  /** The lookup treats the table as a map keyed by unordered endpoint pairs:
      it finds a stream exactly if one joins the packet's endpoints, finds that
      one, and tells the direction by the order of the endpoints. */
  lemma LookupIsFlowMap(s: Tcp, addr: Tuple4, hash: Tuple4 -> nat)
    requires TableOk(s, hash)
    ensures Lookup(s, addr) == NotFound <==>
              forall id :: id in s.streams ==> FlowKey(s.streams[id].addr) != FlowKey(addr)
    ensures forall id, fromClient :: Lookup(s, addr) == Stream(id, fromClient) <==>
              && id in s.streams && FlowKey(s.streams[id].addr) == FlowKey(addr)
              && (fromClient <==> s.streams[id].addr == addr)
  {
    assert addr.Reversed().Reversed() == addr;
    forall id | id in s.streams
      ensures FlowKey(s.streams[id].addr) == FlowKey(addr) <==> HasAddr(s, id, addr) || HasAddr(s, id, addr.Reversed())
    {
      SameFlow(s.streams[id].addr, addr);
    }
    assert forall a, b :: HasAddr(s, a, addr) && (HasAddr(s, b, addr) || HasAddr(s, b, addr.Reversed())) ==> a == b;
    assert forall a, b :: HasAddr(s, a, addr.Reversed()) && HasAddr(s, b, addr.Reversed()) ==> a == b;
  }

  lemma LookupDirection(s: Tcp, addr: Tuple4, hash: Tuple4 -> nat)
    requires TableOk(s, hash)
    ensures Lookup(s, addr) == NotFound ==> Unknown(s, addr)
    ensures Lookup(s, addr).Stream? ==>
              && var id := Lookup(s, addr).id;
              && id in s.streams
              && addr == (if Lookup(s, addr).fromClient then s.streams[id].addr else s.streams[id].addr.Reversed())
              && Unknown(Free(s, id), addr)
  {
    assert addr.Reversed().Reversed() == addr;
    if Lookup(s, addr) == NotFound {
      assert forall id :: id in s.streams ==> !HasAddr(s, id, addr) && !HasAddr(s, id, addr.Reversed());
    } else {
      var id := Lookup(s, addr).id;
      assert HasAddr(s, id, addr) || HasAddr(s, id, addr.Reversed());
    }
  }

  lemma TimersKeep(timers: Timers, streams: map<StreamId, TcpStream>, id: StreamId, second: int)
    requires TimersOk(timers, streams) && id in streams
    ensures TimersOk(AddTimeout(timers, id, second), streams) && TimersOk(Restart(timers, id, second), streams)
    ensures OncePerStream(timers) ==> OncePerStream(Restart(timers, id, second))
  {
  }

  lemma TimersSameKeys(timers: Timers, streams: map<StreamId, TcpStream>, streams': map<StreamId, TcpStream>)
    requires TimersOk(timers, streams) && streams'.Keys == streams.Keys
    ensures TimersOk(timers, streams')
  {
    assert forall id :: id in streams.Keys ==> id in streams'.Keys;
  }

  lemma UpdateKeepsDistinct(streams: map<StreamId, TcpStream>, id: StreamId, stream: TcpStream)
    requires Distinct(streams) && id in streams && stream.addr == streams[id].addr
    ensures Distinct(streams[id := stream])
    ensures |streams[id := stream]| == |streams| && streams[id := stream].Keys == streams.Keys
  {
    assert streams[id := stream].Keys == streams.Keys;
    assert |streams[id := stream].Keys| == |streams.Keys|;
  }

  /** The table and timers after a stream's outcome has been recorded, before it is freed. */
  lemma RecordKeepsTable(s: Tcp, id: StreamId, o: Outcome, now: int, hash: Tuple4 -> nat)
    requires TableOk(s, hash) && id in s.streams
    requires o.stream.addr == s.streams[id].addr && o.stream.hashIndex == s.streams[id].hashIndex
    ensures TableOk(Record(s, id, o, now), hash)
    ensures |Record(s, id, o, now).streams| == |s.streams|
  {
    hide Distinct, OncePerStream, TimersOk, AddTimeout, Restart;
    UpdateKeepsDistinct(s.streams, id, o.stream);
    var streams := s.streams[id := o.stream];
    TimersSameKeys(s.tcpTimeouts, s.streams, streams);
    TimersSameKeys(s.finTimeouts, s.streams, streams);
    TimersKeep(s.tcpTimeouts, streams, id, now + 30);
    TimersKeep(s.finTimeouts, streams, id, now + 5);
  }

  lemma RecordKeepsStreams(trace: seq<Packet>, s: Tcp, id: StreamId, o: Outcome, now: int)
    requires StreamsOk(trace, s) && id in s.streams && id in s.history
    requires !o.free ==> StreamOk(trace, o.stream, s.history[id] + o.events)
    requires o.free ==> PastHistory(trace, s.history[id] + o.events)
    ensures StreamsOk(trace, Apply(s, id, o, now))
  {
    hide StreamOk, PastHistory, AddTimeout, DelTimeout, Restart;
  }

  lemma ApplyKeeps(trace: seq<Packet>, s: Tcp, id: StreamId, o: Outcome, now: int, hash: Tuple4 -> nat, tableSize: nat)
    requires TableOk(s, hash) && StreamsOk(trace, s) && |s.streams| <= tableSize && id in s.streams
    requires o.stream.addr == s.streams[id].addr && o.stream.hashIndex == s.streams[id].hashIndex
    requires !o.free ==> StreamOk(trace, o.stream, s.history[id] + o.events)
    requires o.free ==> PastHistory(trace, s.history[id] + o.events)
    ensures Good(trace, Apply(s, id, o, now), hash, tableSize)
  {
    hide StreamOk, PastHistory, StreamsOk, TimersOk, OncePerStream, Distinct, Free;
    RecordKeepsTable(s, id, o, now, hash);
    RecordKeepsStreams(trace, s, id, o, now);
    var r := Record(s, id, o, now);
    assert r.streams == s.streams[id := o.stream];
    if o.free {
      FreeKeepsTable(r, id, hash, tableSize);
    }
  }

  /** Every packet keeps the invariant of the tracker. */
  lemma ProcessKeeps(trace: seq<Packet>, s: Tcp, pkt: Packet, hash: Tuple4 -> nat, tableSize: nat)
    requires Good(trace, s, hash, tableSize) && tableSize > 0
    ensures Good(trace + [pkt], Process(s, pkt, hash, tableSize), hash, tableSize)
  {
    hide StreamOk, PastHistory, TimersOk, OncePerStream, Distinct, CheckTimeouts, Lookup, StreamStep, Apply, AddNew, Free;
    var s0 := CheckTimeouts(s, pkt.now);
    CheckTimeoutsKeeps(trace, s, pkt.now, hash, tableSize);
    GoodGrows(trace, pkt, s0);
    LookupDirection(s0, pkt.addr, hash);
    if pkt.Sound() {
      match Lookup(s0, pkt.addr)
      case NotFound =>
        if pkt.Opens() {
          AddNewKeeps(trace, s0, pkt, hash, tableSize);
        }
      case Stream(id, fromClient) =>
        if pkt.Opens() {
          FreeKeeps(trace, s0, id, hash, tableSize, Closed, false);
          AddNewKeeps(trace, Free(s0, id), pkt, hash, tableSize);
        } else {
          StreamStepKeeps(trace, s0.streams[id], s0.history[id], fromClient, pkt);
          ApplyKeeps(trace + [pkt], s0, id, StreamStep(s0.streams[id], fromClient, pkt), pkt.now, hash, tableSize);
        }
    }
  }

  lemma {:induction false} RunIsGood(trace: seq<Packet>, hash: Tuple4 -> nat, tableSize: nat)
    requires tableSize > 0
    ensures Good(trace, Run(trace, hash, tableSize), hash, tableSize)
  {
    hide StreamOk, PastHistory, Process;
    if trace != [] {
      var n := |trace| - 1;
      RunIsGood(trace[..n], hash, tableSize);
      ProcessKeeps(trace[..n], Run(trace[..n], hash, tableSize), trace[n], hash, tableSize);
      assert trace[..n] + [trace[n]] == trace;
    }
  }

  // ----- Theorems over every capture -----

  /** Every stream's callbacks follow the protocol, and its connection callback
      was preceded by a complete handshake between its endpoints. */
  lemma CallbackProtocol(trace: seq<Packet>, hash: Tuple4 -> nat, tableSize: nat, id: StreamId)
    requires tableSize > 0
    ensures var s := Run(trace, hash, tableSize);
            id in s.history ==>
              && Protocol(s.history[id])
              && (s.history[id] != [] ==> s.history[id][0].Connected? && Handshake(trace, s.history[id][0].addr))
  {
    hide Handshake, QueueInOrder, Opened, Answered;
    RunIsGood(trace, hash, tableSize);
    var s := Run(trace, hash, tableSize);
    if id in s.history && id in s.streams {
      PastIsQuiet(trace, s.streams[id], s.history[id]);
    }
  }

  /** A stream still in the table has had no terminal callback, and its queues
      are in order and within the memory limit. */
  lemma LiveStreams(trace: seq<Packet>, hash: Tuple4 -> nat, tableSize: nat, id: StreamId)
    requires tableSize > 0
    ensures var s := Run(trace, hash, tableSize);
            id in s.streams ==>
              && id in s.history && LiveHistory(s.history[id], s.streams[id].connected, s.streams[id].addr)
              && QueueInOrder(s.streams[id].client, s.streams[id].server)
              && MemoryOk(s.streams[id].client) && MemoryOk(s.streams[id].server)
  {
    hide Handshake, QueueInOrder, Opened, Answered;
    RunIsGood(trace, hash, tableSize);
  }

  /** The table stays within its size, never holds a flow twice, and its timers name live streams only. */
  lemma TableStaysSound(trace: seq<Packet>, hash: Tuple4 -> nat, tableSize: nat)
    requires tableSize > 0
    ensures var s := Run(trace, hash, tableSize);
            && |s.streams| <= tableSize && Distinct(s.streams)
            && TimersOk(s.tcpTimeouts, s.streams) && TimersOk(s.finTimeouts, s.streams)
            && OncePerStream(s.tcpTimeouts)
  {
    hide StreamsOk;
    RunIsGood(trace, hash, tableSize);
  }
}
