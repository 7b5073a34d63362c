/** Why the history of a stream ends, and how: timers that fall due, a RST, FINs
    that both ends have acknowledged, the memory limit, a new SYN, a full table
    (dpi/TcpFragment.cc). */
module TcpEndings {
  import opened SeqArith
  import opened TcpReassembly
  import opened TcpConfluence
  import opened TcpStreams
  import opened TcpProtocol
  import opened TcpDelivery
  import opened TcpWindow

  // ----- Timers -----

  /** The stream has a timer whose second has come. */
  ghost predicate Due(timers: Timers, id: StreamId, now: int) {
    exists t :: t in timers && timers[t] == id && t <= now
  }

  /** Both hold the same timers of this stream. */
  ghost predicate SameTimers(a: Timers, b: Timers, id: StreamId) {
    forall t :: t in a && a[t] == id <==> t in b && b[t] == id
  }

  /** How a history goes on when the stream ends with one more callback, if it is connected. */
  function Last(h: seq<Event>, connected: bool, e: Event): seq<Event> {
    if connected then h + [e] else h
  }

  ghost predicate Kept(s: Tcp, r: Tcp, id: StreamId)
    requires id in s.streams && id in s.history
  {
    && id in r.streams && id in r.history && r.streams[id] == s.streams[id] && r.history[id] == s.history[id]
    && SameTimers(r.tcpTimeouts, s.tcpTimeouts, id) && SameTimers(r.finTimeouts, s.finTimeouts, id)
  }

  ghost predicate Ended(r: Tcp, id: StreamId, h: seq<Event>) {
    id !in r.streams && id in r.history && r.history[id] == h
  }

  lemma {:induction false} GoneStaysTcp(s: Tcp, now: int, id: StreamId)
    requires id !in s.streams && id in s.history
    ensures Ended(CheckTcpTimeouts(s, now), id, s.history[id])
    decreases |s.tcpTimeouts|
  {
    hide DelTimeout;
    if s.tcpTimeouts != map[] && First(s.tcpTimeouts) <= now {
      var other := s.tcpTimeouts[First(s.tcpTimeouts)];
      DelTimeoutShrinks(s.tcpTimeouts, First(s.tcpTimeouts));
      GoneStaysTcp(Free(Report(s, other, TimedOut), other), now, id);
    }
  }

  lemma {:induction false} GoneStaysFin(s: Tcp, now: int, id: StreamId)
    requires id !in s.streams && id in s.history
    ensures Ended(CheckFinTimeouts(s, now), id, s.history[id])
    decreases |s.finTimeouts|
  {
    hide DelTimeout;
    if s.finTimeouts != map[] && First(s.finTimeouts) <= now {
      var other := s.finTimeouts[First(s.finTimeouts)];
      DelTimeoutShrinks(s.finTimeouts, First(s.finTimeouts));
      GoneStaysFin(Free(Report(s, other, Closed), other), now, id);
    }
  }

  lemma FreeOther(s: Tcp, other: StreamId, e: Event, id: StreamId)
    requires id in s.streams && id in s.history && other != id
    ensures Kept(s, Free(Report(s, other, e), other), id)
  {
  }

  lemma FreeSelf(s: Tcp, id: StreamId, e: Event)
    requires id in s.streams && id in s.history
    ensures Ended(Free(Report(s, id, e), id), id, Last(s.history[id], s.streams[id].connected, e))
  {
  }

  lemma SameDue(a: Timers, b: Timers, id: StreamId, now: int)
    requires SameTimers(a, b, id)
    ensures Due(a, id, now) <==> Due(b, id, now)
  {
    if Due(a, id, now) {
      var t :| t in a && a[t] == id && t <= now;
      assert t in b && b[t] == id;
    }
    if Due(b, id, now) {
      var t :| t in b && b[t] == id && t <= now;
      assert t in a && a[t] == id;
    }
  }

  /** A stream times out exactly when its inactivity timer is due. */
  lemma {:induction false} CheckTcpExact(s: Tcp, now: int, id: StreamId)
    requires id in s.streams && id in s.history
    ensures var r := CheckTcpTimeouts(s, now);
            if Due(s.tcpTimeouts, id, now) then Ended(r, id, Last(s.history[id], s.streams[id].connected, TimedOut))
            else Kept(s, r, id)
    decreases |s.tcpTimeouts|
  {
    hide Free, Report, Ended, Last, DelTimeout;
    if s.tcpTimeouts == map[] || now < First(s.tcpTimeouts) {
      assert s.tcpTimeouts != map[] ==> IsFirst(s.tcpTimeouts, First(s.tcpTimeouts));
    } else {
      var other := s.tcpTimeouts[First(s.tcpTimeouts)];
      var s1 := Free(Report(s, other, TimedOut), other);
      DelTimeoutShrinks(s.tcpTimeouts, First(s.tcpTimeouts));
      FreedTimers(s, other, TimedOut);
      if other == id {
        FreeSelf(s, id, TimedOut);
        EndedIs(s1, id, Last(s.history[id], s.streams[id].connected, TimedOut));
        GoneStaysTcp(s1, now, id);
      } else {
        FreeOther(s, other, TimedOut, id);
        SameDue(s1.tcpTimeouts, s.tcpTimeouts, id, now);
        CheckTcpExact(s1, now, id);
      }
    }
  }

  lemma FreedTimers(s: Tcp, other: StreamId, e: Event)
    ensures var r := Free(Report(s, other, e), other);
            r.tcpTimeouts == DelTimeout(s.tcpTimeouts, other) && r.finTimeouts == DelTimeout(s.finTimeouts, other)
  {
  }

  lemma EndedIs(r: Tcp, id: StreamId, h: seq<Event>)
    requires Ended(r, id, h)
    ensures id !in r.streams && id in r.history && r.history[id] == h
  {
  }

  /** And is closed exactly when its FIN timer is due. */
  lemma {:induction false} CheckFinExact(s: Tcp, now: int, id: StreamId)
    requires id in s.streams && id in s.history
    ensures var r := CheckFinTimeouts(s, now);
            if Due(s.finTimeouts, id, now) then Ended(r, id, Last(s.history[id], s.streams[id].connected, Closed))
            else Kept(s, r, id)
    decreases |s.finTimeouts|
  {
    hide Free, Report, Ended, Last, DelTimeout;
    if s.finTimeouts == map[] || now < First(s.finTimeouts) {
      assert s.finTimeouts != map[] ==> IsFirst(s.finTimeouts, First(s.finTimeouts));
    } else {
      var other := s.finTimeouts[First(s.finTimeouts)];
      var s1 := Free(Report(s, other, Closed), other);
      DelTimeoutShrinks(s.finTimeouts, First(s.finTimeouts));
      FreedTimers(s, other, Closed);
      if other == id {
        FreeSelf(s, id, Closed);
        EndedIs(s1, id, Last(s.history[id], s.streams[id].connected, Closed));
        GoneStaysFin(s1, now, id);
      } else {
        FreeOther(s, other, Closed, id);
        SameDue(s1.finTimeouts, s.finTimeouts, id, now);
        CheckFinExact(s1, now, id);
      }
    }
  }

  lemma CheckExact(s: Tcp, now: int, id: StreamId)
    requires id in s.streams && id in s.history
    ensures var r := CheckTimeouts(s, now); var st := s.streams[id];
            if Due(s.tcpTimeouts, id, now) then Ended(r, id, Last(s.history[id], st.connected, TimedOut))
            else if Due(s.finTimeouts, id, now) then Ended(r, id, Last(s.history[id], st.connected, Closed))
            else Kept(s, r, id)
  {
    hide CheckTcpTimeouts, CheckFinTimeouts, Last;
    var s1 := CheckTcpTimeouts(s, now);
    CheckTcpExact(s, now, id);
    if Due(s.tcpTimeouts, id, now) {
      GoneStaysFin(s1, now, id);
    } else {
      CheckFinExact(s1, now, id);
      SameDue(s1.finTimeouts, s.finTimeouts, id, now);
    }
  }

  // ----- A packet -----

  /** No live stream has these ends. */
  ghost predicate NoStream(s: Tcp, addr: Tuple4) {
    forall id :: id in s.streams ==> FlowKey(s.streams[id].addr) != FlowKey(addr)
  }

  lemma ClearedExact(s: Tcp, id: StreamId)
    requires id in s.history
    ensures Ended(ClearAll(s), id,
                  if id in s.streams then Last(s.history[id], s.streams[id].connected, TimedOut) else s.history[id])
  {
  }

  lemma EnterExact(s: Tcp, stream: TcpStream, now: int, id: StreamId)
    requires id in s.history && id != s.nextId
    ensures if id in s.streams then Kept(s, Enter(s, stream, now), id) else Ended(Enter(s, stream, now), id, s.history[id])
  {
  }

  lemma AddNewExact(s: Tcp, pkt: Packet, hash: Tuple4 -> nat, tableSize: nat, id: StreamId)
    requires TableOk(s, hash) && id in s.history
    ensures var r := AddNew(s, pkt, hash, tableSize);
            if id !in s.streams then Ended(r, id, s.history[id])
            else if |s.streams| >= tableSize then Ended(r, id, Last(s.history[id], s.streams[id].connected, TimedOut))
            else Kept(s, r, id)
  {
    hide NewStream, TableOk, Kept, ClearAll, Enter, Last;
    IdsBelow(s, hash);
    var s1 := if |s.streams| >= tableSize then ClearAll(s) else s;
    ClearedNext(s);
    ClearedExact(s, id);
    EnterExact(s1, NewStream(pkt, hash), pkt.now, id);
    AddNewIsEnter(s, pkt, hash, tableSize);
  }

  lemma ClearedNext(s: Tcp)
    ensures ClearAll(s).nextId == s.nextId && ClearAll(s).streams == map[]
  {
  }

  lemma AddNewIsEnter(s: Tcp, pkt: Packet, hash: Tuple4 -> nat, tableSize: nat)
    ensures AddNew(s, pkt, hash, tableSize)
            == Enter(if |s.streams| >= tableSize then ClearAll(s) else s, NewStream(pkt, hash), pkt.now)
  {
    hide NewStream, ClearAll, AddTimeout;
  }

  /** The stream goes on after a packet of its own. */
  ghost predicate Goes(s: Tcp, r: Tcp, id: StreamId, o: Outcome, now: int)
    requires id in s.streams && id in s.history
  {
    && id in r.streams && id in r.history && r.streams[id] == o.stream && r.history[id] == s.history[id] + o.events
    && (forall t :: t in r.tcpTimeouts && r.tcpTimeouts[t] == id ==>
          if o.touched then t == now + 30 else t in s.tcpTimeouts && s.tcpTimeouts[t] == id)
    && (forall t :: t in r.finTimeouts && r.finTimeouts[t] == id ==>
          (t in s.finTimeouts && s.finTimeouts[t] == id) || (o.finTimer && t == now + 5))
  }

  lemma ApplyExact(s: Tcp, known: StreamId, o: Outcome, now: int, id: StreamId)
    requires known in s.streams && id in s.streams && id in s.history
    ensures var r := Apply(s, known, o, now);
            if id == known then
              if o.free then Ended(r, id, s.history[id] + o.events)
              else Goes(s, r, id, o, now)
            else Kept(s, r, id)
  {
  }

  /** What becomes of a live stream once the timers have been checked. */
  lemma HandleExact(s: Tcp, pkt: Packet, hash: Tuple4 -> nat, tableSize: nat, id: StreamId)
    requires TableOk(s, hash) && |s.streams| <= tableSize && id in s.streams && id in s.history
    ensures var r := Handle(s, pkt, hash, tableSize); var st, h := s.streams[id], s.history[id];
            if IsOwn(pkt, st.addr) && pkt.Opens() then Ended(r, id, h)
            else if IsOwn(pkt, st.addr) then
              var o := StreamStep(st, FromClient(st, pkt), pkt);
              if o.free then Ended(r, id, h + o.events)
              else Goes(s, r, id, o, pkt.now)
            else if pkt.Sound() && pkt.Opens() && |s.streams| >= tableSize && NoStream(s, pkt.addr) then
              Ended(r, id, Last(h, st.connected, TimedOut))
            else Kept(s, r, id)
  {
    hide TableOk, NewStream, StreamStep, AddNew, Apply, Lookup, FlowKey, Last;
    LookupIsFlowMap(s, pkt.addr, hash);
    if pkt.Sound() {
      match Lookup(s, pkt.addr) {
        case NotFound =>
          if pkt.Opens() {
            AddNewExact(s, pkt, hash, tableSize, id);
          }
        case Stream(known, fromClient) =>
          OthersApart(s, known, id, pkt, hash);
          if pkt.Opens() {
            ReopenExact(s, pkt, hash, tableSize, known, id);
          } else {
            ApplyExact(s, known, StreamStep(s.streams[known], fromClient, pkt), pkt.now, id);
          }
      }
    }
  }

  /** A first packet for a live stream: that one goes without a callback, and nothing else changes. */
  lemma ReopenExact(s: Tcp, pkt: Packet, hash: Tuple4 -> nat, tableSize: nat, known: StreamId, id: StreamId)
    requires TableOk(s, hash) && |s.streams| <= tableSize && known in s.streams && id in s.streams && id in s.history
    ensures var r := AddNew(Free(s, known), pkt, hash, tableSize);
            if id == known then Ended(r, id, s.history[id]) else Kept(s, r, id)
  {
    hide TableOk, NewStream, AddNew, Last;
    FreeKeepsTable(s, known, hash, tableSize);
    FreeLess(s, known);
    AddNewExact(Free(s, known), pkt, hash, tableSize, id);
  }

  lemma FreeLess(s: Tcp, id: StreamId)
    requires id in s.streams
    ensures |Free(s, id).streams| < |s.streams|
  {
    var rest := Free(s, id).streams;
    assert rest.Keys == s.streams.Keys - {id};
    assert |rest.Keys| == |rest| && |s.streams.Keys| == |s.streams|;
  }

  // ----- The whole step -----

  /** The table has no room for the stream that the packet opens. */
  ghost predicate FullFor(s: Tcp, pkt: Packet, tableSize: nat) {
    pkt.Sound() && pkt.Opens() && |s.streams| >= tableSize && NoStream(s, pkt.addr)
  }

  /** What one captured packet makes of a live stream: an inactivity timer that is due ends it with a timeout, then a
      FIN timer that is due closes it; a first packet of its flow takes it away without a word; any other packet of its
      flow is a step of its own; and a new stream for a full table makes it time out. */
  lemma ProcessExact(trace: seq<Packet>, s: Tcp, pkt: Packet, hash: Tuple4 -> nat, tableSize: nat, id: StreamId)
    requires Good(trace, s, hash, tableSize) && id in s.streams
    ensures id in s.history
    ensures var r := Process(s, pkt, hash, tableSize); var st, h := s.streams[id], s.history[id];
            if Due(s.tcpTimeouts, id, pkt.now) then Ended(r, id, Last(h, st.connected, TimedOut))
            else if Due(s.finTimeouts, id, pkt.now) then Ended(r, id, Last(h, st.connected, Closed))
            else if IsOwn(pkt, st.addr) && pkt.Opens() then Ended(r, id, h)
            else if IsOwn(pkt, st.addr) then
              var o := StreamStep(st, FromClient(st, pkt), pkt);
              if o.free then Ended(r, id, h + o.events) else Goes(s, r, id, o, pkt.now)
            else if FullFor(CheckTimeouts(s, pkt.now), pkt, tableSize) then Ended(r, id, Last(h, st.connected, TimedOut))
            else Kept(s, r, id)
  {
    hide StreamsOk, TableOk, NoStream, StreamStep, AddNew, Apply, Lookup, CheckTcpTimeouts, CheckFinTimeouts, Last, IsOwn;
    HistoriesKept(s, hash);
    var s0 := CheckTimeouts(s, pkt.now);
    assert Process(s, pkt, hash, tableSize) == Handle(s0, pkt, hash, tableSize);
    hide Handle, Process;
    CheckExact(s, pkt.now, id);
    CheckTimeoutsKeeps(trace, s, pkt.now, hash, tableSize);
    if Due(s.tcpTimeouts, id, pkt.now) || Due(s.finTimeouts, id, pkt.now) {
      HandleGone(s0, pkt, hash, tableSize, id);
    } else {
      HandleExact(s0, pkt, hash, tableSize, id);
    }
  }

  /** A stream that is gone stays as it is. */
  lemma HandleGone(s: Tcp, pkt: Packet, hash: Tuple4 -> nat, tableSize: nat, id: StreamId)
    requires TableOk(s, hash) && |s.streams| <= tableSize && id !in s.streams && id in s.history
    ensures Ended(Handle(s, pkt, hash, tableSize), id, s.history[id])
  {
    hide TableOk, NewStream, StreamStep, AddNew, Lookup, FlowKey;
    LookupIsFlowMap(s, pkt.addr, hash);
    if pkt.Sound() {
      match Lookup(s, pkt.addr) {
        case NotFound =>
          if pkt.Opens() {
            AddNewExact(s, pkt, hash, tableSize, id);
          }
        case Stream(known, fromClient) =>
          if pkt.Opens() {
            FreeKeepsTable(s, known, hash, tableSize);
            AddNewExact(Free(s, known), pkt, hash, tableSize, id);
          } else {
            ApplyGone(s, known, StreamStep(s.streams[known], fromClient, pkt), pkt.now, id);
          }
      }
    }
  }

  lemma ApplyGone(s: Tcp, known: StreamId, o: Outcome, now: int, id: StreamId)
    requires known in s.streams && id !in s.streams && id in s.history
    ensures Ended(Apply(s, known, o, now), id, s.history[id])
  {
  }

  lemma ProcessGone(trace: seq<Packet>, s: Tcp, pkt: Packet, hash: Tuple4 -> nat, tableSize: nat, id: StreamId)
    requires Good(trace, s, hash, tableSize) && id !in s.streams && id in s.history
    ensures Ended(Process(s, pkt, hash, tableSize), id, s.history[id])
  {
    hide StreamsOk, TableOk, StreamStep, AddNew, Apply, Lookup, CheckTcpTimeouts, CheckFinTimeouts;
    var s0 := CheckTimeouts(s, pkt.now);
    assert Process(s, pkt, hash, tableSize) == Handle(s0, pkt, hash, tableSize);
    hide Handle, Process;
    GoneStaysTcp(s, pkt.now, id);
    GoneStaysFin(CheckTcpTimeouts(s, pkt.now), pkt.now, id);
    CheckTimeoutsKeeps(trace, s, pkt.now, hash, tableSize);
    HandleGone(s0, pkt, hash, tableSize, id);
  }

  // ----- A packet of the stream's own, told from the packets -----

  /** The packet is let in, and is neither a SYN nor a RST. */
  predicate LetIn(t: Talk, fromClient: bool, pkt: Packet) {
    !pkt.syn && !pkt.rst && Admits(Granted(t, !fromClient), pkt)
  }

  /** Only data is told. */
  predicate OnlyData(events: seq<Event>) {
    forall i :: 0 <= i < |events| ==> events[i].Data?
  }

  lemma AbsorbCharge(s: TcpStream, fromClient: bool, pkt: Packet)
    requires pkt.DataLen() >= 0 && MemoryOk(Receiver(s, fromClient))
    ensures var a := Absorb(s, fromClient, pkt);
            && OnlyData(a.events) && (a.free <==> Charge(Receiver(a.stream, fromClient).fraglist) > 65535)
  {
    hide TcpQueue, Charge;
    TcpQueueKeepsCharge(Sender(s, fromClient), Receiver(s, fromClient), Incoming(pkt));
  }

  lemma AcknowledgeMemory(s: TcpStream, fromClient: bool, pkt: Packet)
    requires MemoryOk(Receiver(s, fromClient))
    ensures MemoryOk(Receiver(Acknowledge(s, fromClient, pkt), fromClient))
  {
    hide Charge;
  }

  /** A running stream: what is not let in leaves it alone, a RST that is ends it with a reset, an acknowledgement that
      confirms the second of both FINs closes it, and data that does not fit in its memory ends it without a word. */
  lemma OwnExact(s: TcpStream, t: Talk, pkt: Packet)
    requires pkt.DataLen() >= 0 && Running(s) && Agrees(s, t) && MemoryOk(Receiver(s, FromClient(s, pkt)))
    ensures var fromClient := FromClient(s, pkt); var o := StreamStep(s, fromClient, pkt);
            if pkt.syn || !Admits(Granted(t, !fromClient), pkt) then o == Stay(s)
            else if pkt.rst then o.free && o.events == [Reset]
            else if pkt.ackFlag && BothClosed(Acknowledge(s, fromClient, pkt)) then o.free && o.events == [Closed]
            else OnlyData(o.events) && (o.free <==> Charge(Receiver(o.stream, fromClient).fraglist) > 65535)
  {
    hide U32, Before, Absorb, Acknowledge, SynAck, Charge;
    var fromClient := FromClient(s, pkt);
    assert Admits(Granted(t, !fromClient), pkt) <==> !OutOfWindow(Receiver(s, fromClient), pkt);
    hide OutOfWindow, Admits;
    var s1 := Acknowledge(s, fromClient, pkt);
    AcknowledgeGrants(s, fromClient, pkt);
    AcknowledgeMemory(s, fromClient, pkt);
    AbsorbCharge(s1, fromClient, pkt);
  }

  // ----- Evidence of FINs and of their acknowledgement -----

  /** Packet `i` brings a FIN of this direction. */
  predicate Fins(t: Talk, addr: Tuple4, pkts: seq<Packet>, dir: bool, i: nat) {
    && i < |pkts| && (pkts[i].addr == addr) == dir && pkts[i].fin
    && LetIn(TalkAfter(t, addr, pkts[..i]), dir, pkts[i])
  }

  /** Packet `j` of the other end acknowledges. */
  predicate Acks(t: Talk, addr: Tuple4, pkts: seq<Packet>, dir: bool, j: nat) {
    && j < |pkts| && (pkts[j].addr == addr) != dir && pkts[j].ackFlag
    && LetIn(TalkAfter(t, addr, pkts[..j]), !dir, pkts[j])
  }

  ghost predicate FinCame(t: Talk, addr: Tuple4, pkts: seq<Packet>, dir: bool) {
    exists i: nat :: Fins(t, addr, pkts, dir, i)
  }

  /** A FIN of this direction has come, and after it an acknowledgement of the other end. */
  ghost predicate FinAcked(t: Talk, addr: Tuple4, pkts: seq<Packet>, dir: bool) {
    exists i: nat, j: nat :: i < j && Fins(t, addr, pkts, dir, i) && Acks(t, addr, pkts, dir, j)
  }

  lemma FinsGrow(t: Talk, addr: Tuple4, pkts: seq<Packet>, pkt: Packet, dir: bool)
    ensures FinCame(t, addr, pkts, dir) ==> FinCame(t, addr, pkts + [pkt], dir)
    ensures FinAcked(t, addr, pkts, dir) ==> FinAcked(t, addr, pkts + [pkt], dir)
  {
    hide LetIn, TalkAfter;
    forall i: nat | i < |pkts| ensures (pkts + [pkt])[..i] == pkts[..i] && (pkts + [pkt])[i] == pkts[i] {
    }
    if FinCame(t, addr, pkts, dir) {
      var i: nat :| Fins(t, addr, pkts, dir, i);
      assert Fins(t, addr, pkts + [pkt], dir, i);
    }
    if FinAcked(t, addr, pkts, dir) {
      var i: nat, j: nat :| i < j && Fins(t, addr, pkts, dir, i) && Acks(t, addr, pkts, dir, j);
      assert Fins(t, addr, pkts + [pkt], dir, i) && Acks(t, addr, pkts + [pkt], dir, j);
    }
  }

  lemma FinHere(t: Talk, addr: Tuple4, pkts: seq<Packet>, pkt: Packet, dir: bool)
    requires (pkt.addr == addr) == dir && pkt.fin && LetIn(TalkAfter(t, addr, pkts), dir, pkt)
    ensures FinCame(t, addr, pkts + [pkt], dir)
  {
    hide LetIn, TalkAfter;
    assert (pkts + [pkt])[..|pkts|] == pkts;
    assert Fins(t, addr, pkts + [pkt], dir, |pkts|);
  }

  lemma AckHere(t: Talk, addr: Tuple4, pkts: seq<Packet>, pkt: Packet, dir: bool)
    requires (pkt.addr == addr) != dir && pkt.ackFlag && LetIn(TalkAfter(t, addr, pkts), !dir, pkt)
    requires FinCame(t, addr, pkts, dir)
    ensures FinAcked(t, addr, pkts + [pkt], dir)
  {
    hide LetIn, TalkAfter;
    var i: nat :| Fins(t, addr, pkts, dir, i);
    var all := pkts + [pkt];
    assert all[..|pkts|] == pkts && all[..i] == pkts[..i];
    assert Fins(t, addr, all, dir, i) && Acks(t, addr, all, dir, |pkts|);
  }

  predicate FinQueued(fraglist: seq<Skbuff>) {
    exists i :: 0 <= i < |fraglist| && fraglist[i].fin
  }

  predicate Finishing(h: HalfStream) {
    h.state == FIN_SENT || h.state == CLOSING || h.state == FIN_CONFIRMED
  }

  /** What the states of the halves and the queues say of FINs is borne out by the packets. */
  ghost predicate FinsOk(s: TcpStream, t: Talk, addr: Tuple4, pkts: seq<Packet>, dir: bool) {
    && (Finishing(Sender(s, dir)) || FinQueued(Receiver(s, dir).fraglist) ==> FinCame(t, addr, pkts, dir))
    && (Sender(s, dir).state == FIN_CONFIRMED ==> FinAcked(t, addr, pkts, dir))
  }

  lemma {:induction false} DrainFins(snd: HalfStream, rcv: HalfStream)
    ensures var d := Drain(snd, rcv);
            && (FinQueued(d.rcv.fraglist) ==> FinQueued(rcv.fraglist))
            && (d.snd.state != snd.state || d.finTimer ==> FinQueued(rcv.fraglist) && d.snd.state == FIN_SENT)
            && (d.finTimer ==> rcv.state == CLOSING)
    decreases |rcv.fraglist|
  {
    hide U32, I32, After, Before, AddFromskb;
    if rcv.fraglist != [] && !SeqArith.After(rcv.fraglist[0].seqNum, ExpSeq(snd, rcv)) {
      var d := DeliverHead(snd, rcv);
      HeadFramed(snd, rcv);
      HeadFins(snd, rcv);
      DrainFins(d.snd, d.rcv);
      assert forall i :: 0 <= i < |rcv.fraglist| - 1 ==> rcv.fraglist[1..][i] == rcv.fraglist[i + 1];
    }
  }

  lemma HeadFins(snd: HalfStream, rcv: HalfStream)
    requires rcv.fraglist != [] && !SeqArith.After(rcv.fraglist[0].seqNum, ExpSeq(snd, rcv))
    ensures var d := DeliverHead(snd, rcv);
            && (d.snd.state != snd.state || d.finTimer ==> rcv.fraglist[0].fin && d.snd.state == FIN_SENT)
            && (d.finTimer ==> rcv.state == CLOSING)
  {
    hide U32, I32, After, Before, UrgentInside, NonEmpty;
  }

  lemma AddFins(snd: HalfStream, rcv: HalfStream, data: Payload, seqNum: u32, fin: bool, urg: bool, urgPtr: u32)
    requires Reaches(ExpSeq(snd, rcv), seqNum, |data|, fin)
    ensures var d := AddFromskb(snd, rcv, data, seqNum, fin, urg, urgPtr);
            && d.snd.state == (if fin then FIN_SENT else snd.state) && (d.finTimer <==> fin && rcv.state == CLOSING)
            && d.rcv.state == rcv.state && d.rcv.fraglist == rcv.fraglist && d.rcv.rmemAlloc == rcv.rmemAlloc
  {
    hide U32, I32, After, Before, UrgentInside, NonEmpty;
  }

  /** Where a FIN comes from: the segment, or one that has been queued. */
  lemma QueueFins(snd: HalfStream, rcv: HalfStream, sg: Segment)
    ensures var q := TcpQueue(snd, rcv, sg);
            && (FinQueued(q.rcv.fraglist) ==> sg.fin || FinQueued(rcv.fraglist))
            && (q.snd.state != snd.state ==> sg.fin || FinQueued(rcv.fraglist))
            && (q.snd.state != snd.state ==> q.snd.state != FIN_CONFIRMED)
            && (q.finTimer ==> (sg.fin || FinQueued(rcv.fraglist))
                               && (rcv.state == CLOSING || rcv.state == FIN_SENT || rcv.state == FIN_CONFIRMED))
  {
    hide U32, I32, After, Before, Drain, AddFromskb, InsertAt;
    var exp := ExpSeq(snd, rcv);
    if SeqArith.After(sg.seqNum, exp) {
      var skb := Skbuff(sg.data, sg.skblen, sg.urp, sg.fin, sg.urg, sg.seqNum);
      var n := InsertAt(rcv.fraglist, sg.seqNum);
      var all := Insert(rcv.fraglist, skb);
      if FinQueued(all) && !sg.fin {
        var i :| 0 <= i < |all| && all[i].fin;
        assert rcv.fraglist[if i < n then i else i - 1] == all[i];
      }
    } else if SeqArith.After(U32(sg.seqNum + |sg.data| + Bit(sg.fin)), exp) {
      AddFins(snd, rcv, sg.data, sg.seqNum, sg.fin, sg.urg, U32(sg.urp + sg.seqNum - 1));
      var d := AddFromskb(snd, rcv, sg.data, sg.seqNum, sg.fin, sg.urg, U32(sg.urp + sg.seqNum - 1));
      DrainFins(d.snd, d.rcv);
    }
  }

  lemma AbsorbFins(s: TcpStream, fromClient: bool, pkt: Packet)
    requires pkt.DataLen() >= 0
    ensures var a := Absorb(s, fromClient, pkt); var snd, rcv := Sender(s, fromClient), Receiver(s, fromClient);
            var snd', rcv' := Sender(a.stream, fromClient), Receiver(a.stream, fromClient);
            && rcv'.state == rcv.state && snd'.fraglist == snd.fraglist
            && (FinQueued(rcv'.fraglist) ==> pkt.fin || FinQueued(rcv.fraglist))
            && (snd'.state != snd.state ==> (pkt.fin || FinQueued(rcv.fraglist)) && snd'.state != FIN_CONFIRMED)
            && (a.finTimer ==> (pkt.fin || FinQueued(rcv.fraglist))
                               && (rcv.state == CLOSING || rcv.state == FIN_SENT || rcv.state == FIN_CONFIRMED))
  {
    hide TcpQueue, FinQueued;
    var snd, rcv := Sender(s, fromClient), Receiver(s, fromClient);
    QueueFins(snd, rcv, Incoming(pkt));
    TcpQueueFramed(snd, rcv, Incoming(pkt));
  }

  lemma AcknowledgeFins(s: TcpStream, fromClient: bool, pkt: Packet)
    ensures var r := Acknowledge(s, fromClient, pkt);
            && Sender(r, fromClient).state == Sender(s, fromClient).state
            && Sender(r, fromClient).fraglist == Sender(s, fromClient).fraglist
            && Receiver(r, fromClient).fraglist == Receiver(s, fromClient).fraglist
            && Receiver(r, fromClient).state
               == (if pkt.ackFlag && Receiver(s, fromClient).state == FIN_SENT then FIN_CONFIRMED else Receiver(s, fromClient).state)
  {
    hide I32;
  }

  /** The acknowledgement that a packet brings confirms only FINs that the packets show. */
  lemma ConfirmOk(s: TcpStream, t: Talk, addr: Tuple4, pkts: seq<Packet>, pkt: Packet, dir: bool)
    requires s.addr == addr && FinsOk(s, t, addr, pkts, dir)
    requires LetIn(TalkAfter(t, addr, pkts), FromClient(s, pkt), pkt)
    ensures FinsOk(Acknowledge(s, FromClient(s, pkt), pkt), t, addr, pkts + [pkt], dir)
  {
    hide LetIn, TalkAfter, Acknowledge, FinQueued, FinCame, FinAcked;
    FinsGrow(t, addr, pkts, pkt, dir);
    AcknowledgeFins(s, FromClient(s, pkt), pkt);
    if FromClient(s, pkt) != dir && pkt.ackFlag && Sender(s, dir).state == FIN_SENT {
      AckHere(t, addr, pkts, pkt, dir);
    }
  }

  lemma StepFins(s: TcpStream, t: Talk, addr: Tuple4, pkts: seq<Packet>, pkt: Packet, dir: bool)
    requires pkt.DataLen() >= 0 && Running(s) && Agrees(s, TalkAfter(t, addr, pkts)) && s.addr == addr
    requires FinsOk(s, t, addr, pkts, dir) && !StreamStep(s, FromClient(s, pkt), pkt).free
    ensures FinsOk(StreamStep(s, FromClient(s, pkt), pkt).stream, t, addr, pkts + [pkt], dir)
  {
    hide U32, Before, Absorb, Acknowledge, SynAck, FinQueued, FinCame, FinAcked, TalkAfter;
    var fromClient := FromClient(s, pkt);
    assert Admits(Granted(TalkAfter(t, addr, pkts), !fromClient), pkt) <==> !OutOfWindow(Receiver(s, fromClient), pkt);
    hide OutOfWindow, Admits;
    FinsGrow(t, addr, pkts, pkt, dir);
    if !pkt.syn && !OutOfWindow(Receiver(s, fromClient), pkt) && !pkt.rst {
      var s1 := Acknowledge(s, fromClient, pkt);
      ConfirmOk(s, t, addr, pkts, pkt, dir);
      AbsorbFins(s1, fromClient, pkt);
      if pkt.fin && fromClient == dir {
        FinHere(t, addr, pkts, pkt, dir);
      }
    }
  }

  lemma {:induction false} FollowFins(s0: TcpStream, t: Talk, dir: bool, pkts: seq<Packet>)
    requires Readable(pkts) && Running(s0) && Agrees(s0, t) && Unended(s0, pkts) && FinsOk(s0, t, s0.addr, [], dir)
    ensures FinsOk(Follow(s0, pkts).stream, t, s0.addr, pkts, dir)
    decreases |pkts|
  {
    hide StreamStep, Agrees, Running, FinsOk, TalkAfter;
    if pkts != [] {
      var n := |pkts| - 1;
      FollowFins(s0, t, dir, pkts[..n]);
      AcceptedIsAdmitted(s0, t, dir, pkts[..n]);
      assert pkts[..n] + [pkts[n]] == pkts;
      StepFins(Follow(s0, pkts[..n]).stream, t, s0.addr, pkts[..n], pkts[n], dir);
    }
  }

  /** A packet that closes a running stream completes the acknowledgement of the FINs of both directions. */
  lemma CloseEvidence(s: TcpStream, t: Talk, addr: Tuple4, pkts: seq<Packet>, pkt: Packet)
    requires s.addr == addr && FinsOk(s, t, addr, pkts, true) && FinsOk(s, t, addr, pkts, false)
    requires LetIn(TalkAfter(t, addr, pkts), FromClient(s, pkt), pkt)
    requires BothClosed(Acknowledge(s, FromClient(s, pkt), pkt))
    ensures FinAcked(t, addr, pkts + [pkt], true) && FinAcked(t, addr, pkts + [pkt], false)
  {
    hide LetIn, TalkAfter, Acknowledge, FinCame, FinAcked, FinQueued;
    ConfirmOk(s, t, addr, pkts, pkt, true);
    ConfirmOk(s, t, addr, pkts, pkt, false);
  }

  // ----- Over a capture -----

  /** A stream that a handshake has connected and that is still in the table. */
  ghost predicate Conversation(trace: seq<Packet>, k: nat, s: Tcp, id: StreamId, hash: Tuple4 -> nat,
                               answer: Packet, third: Packet, rest: seq<Packet>) {
    && LivesSince(trace, k, s, id, hash) && IsHandshake(trace[k], answer, third)
    && Readable(rest) && Own(trace[k + 1..], trace[k].addr) == [answer, third] + rest
  }

  /** What its ends have granted. */
  function Said(first: Packet, answer: Packet, third: Packet, rest: seq<Packet>): Talk {
    TalkAfter(Initial(first, answer, third), first.addr, rest)
  }

  lemma Connects(first: Packet, answer: Packet, third: Packet, hash: Tuple4 -> nat)
    requires IsHandshake(first, answer, third)
    ensures var l := Follow(NewStream(first, hash), [answer, third]);
            && l.stream.client.state == ESTABLISHED && l.stream.server.state == ESTABLISHED
            && l.stream.client.fraglist == [] && l.stream.server.fraglist == []
  {
    hide U32, StreamStep, NewStream, SynAck;
    var s0 := NewStream(first, hash);
    FollowTwo(s0, answer, third);
    AnswerStep(first, answer, hash);
    ThirdStep(SynAck(s0, answer), third);
  }

  lemma NoFins(s: TcpStream, t: Talk)
    requires s.client.state == ESTABLISHED && s.server.state == ESTABLISHED
    requires s.client.fraglist == [] && s.server.fraglist == []
    ensures FinsOk(s, t, s.addr, [], true) && FinsOk(s, t, s.addr, [], false)
  {
    hide FinCame, FinAcked;
  }

  /** A live stream holds what its packets say. */
  lemma Lives(trace: seq<Packet>, k: nat, s: Tcp, id: StreamId, hash: Tuple4 -> nat,
              answer: Packet, third: Packet, rest: seq<Packet>)
    requires Conversation(trace, k, s, id, hash, answer, third, rest)
    ensures var st := s.streams[id]; var first := trace[k]; var t := Initial(first, answer, third);
            && Running(st) && st.addr == first.addr && Agrees(st, Said(first, answer, third, rest))
            && FinsOk(st, t, first.addr, rest, true) && FinsOk(st, t, first.addr, rest, false)
  {
    hide StreamStep, NewStream, Follow, Own, Unended, Running, Agrees, FinsOk, TalkAfter, IsHandshake, Initial;
    var first := trace[k];
    HandshakeReadable(first, answer, third);
    var l := Follow(NewStream(first, hash), [answer, third]);
    HandshakeAgrees(first, answer, third, hash);
    Connects(first, answer, third, hash);
    FollowAppend(NewStream(first, hash), [answer, third], rest);
    UnendedRest(NewStream(first, hash), [answer, third], rest);
    AcceptedIsAdmitted(l.stream, Initial(first, answer, third), true, rest);
    NoFins(l.stream, Initial(first, answer, third));
    FollowFins(l.stream, Initial(first, answer, third), true, rest);
    FollowFins(l.stream, Initial(first, answer, third), false, rest);
  }

  lemma HandshakeReadable(first: Packet, answer: Packet, third: Packet)
    requires IsHandshake(first, answer, third)
    ensures Readable([answer, third])
  {
  }

  /** Over any capture, what the next packet makes of a connected stream, and why its history ends if it does.
      A timeout: its inactivity timer is due, or a new stream finds the table full. A reset: a RST of its own is let in.
      Closed: its FIN timer is due, or an acknowledgement of its own confirms the second of both FINs. Without a word:
      a new SYN of its own, or data beyond the memory limit. Otherwise it goes on. */
  lemma EndsExactly(trace: seq<Packet>, pkt: Packet, hash: Tuple4 -> nat, tableSize: nat, id: StreamId, k: nat,
                    answer: Packet, third: Packet, rest: seq<Packet>)
    requires tableSize > 0 && Conversation(trace, k, Run(trace, hash, tableSize), id, hash, answer, third, rest)
    ensures var s, r := Run(trace, hash, tableSize), Run(trace + [pkt], hash, tableSize);
            var st, h, addr := s.streams[id], s.history[id], trace[k].addr;
            var fromClient := pkt.addr == addr;
            && id in r.history && Running(st)
            && if Due(s.tcpTimeouts, id, pkt.now) then Ended(r, id, h + [TimedOut])
               else if Due(s.finTimeouts, id, pkt.now) then Ended(r, id, h + [Closed])
               else if IsOwn(pkt, addr) && pkt.Opens() then Ended(r, id, h)
               else if IsOwn(pkt, addr) then
                 if pkt.syn || !Admits(Granted(Said(trace[k], answer, third, rest), !fromClient), pkt) then
                   id in r.streams && r.streams[id] == st && r.history[id] == h
                 else if pkt.rst then Ended(r, id, h + [Reset])
                 else if pkt.ackFlag && BothClosed(Acknowledge(st, fromClient, pkt)) then
                   && Ended(r, id, h + [Closed])
                   && FinAcked(Initial(trace[k], answer, third), addr, rest + [pkt], true)
                   && FinAcked(Initial(trace[k], answer, third), addr, rest + [pkt], false)
                 else
                   var o := StreamStep(st, fromClient, pkt);
                   && OnlyData(o.events)
                   && if Charge(Receiver(o.stream, fromClient).fraglist) > 65535 then Ended(r, id, h + o.events)
                      else id in r.streams && r.streams[id] == o.stream && r.history[id] == h + o.events
               else if FullFor(CheckTimeouts(s, pkt.now), pkt, tableSize) then Ended(r, id, h + [TimedOut])
               else id in r.streams && r.streams[id] == st && r.history[id] == h
  {
    hide Process, StreamStep, NewStream, FlowKey, StreamsOk, Own, Unended, Running, Agrees, FinsOk, FinAcked, Admits, Acknowledge,
      BothClosed, OnlyData, Charge, Due, FullFor, CheckTimeouts, Said, Initial, IsHandshake, Since, TableOk;
    var s := Run(trace, hash, tableSize);
    assert (trace + [pkt])[..|trace|] == trace;
    RunIsGood(trace, hash, tableSize);
    Lives(trace, k, s, id, hash, answer, third, rest);
    ProcessExact(trace, s, pkt, hash, tableSize, id);
    RunningConnected(s.streams[id]);
    if IsOwn(pkt, trace[k].addr) {
      assert pkt.DataLen() >= 0;
      LiveMemory(trace, s, id, FromClient(s.streams[id], pkt));
      OwnExact(s.streams[id], Said(trace[k], answer, third, rest), pkt);
      var fromClient := pkt.addr == trace[k].addr;
      if !pkt.syn && !pkt.rst && Admits(Granted(Said(trace[k], answer, third, rest), !fromClient), pkt)
        && BothClosed(Acknowledge(s.streams[id], fromClient, pkt)) {
        ClosesOk(s.streams[id], trace[k], answer, third, rest, pkt);
      }
    }
  }

  lemma ClosesOk(s: TcpStream, first: Packet, answer: Packet, third: Packet, rest: seq<Packet>, pkt: Packet)
    requires var t := Initial(first, answer, third);
             s.addr == first.addr && FinsOk(s, t, first.addr, rest, true) && FinsOk(s, t, first.addr, rest, false)
    requires !pkt.syn && !pkt.rst && Admits(Granted(Said(first, answer, third, rest), !(pkt.addr == first.addr)), pkt)
    requires BothClosed(Acknowledge(s, pkt.addr == first.addr, pkt))
    ensures FinAcked(Initial(first, answer, third), first.addr, rest + [pkt], true)
    ensures FinAcked(Initial(first, answer, third), first.addr, rest + [pkt], false)
  {
    hide Acknowledge, BothClosed, FinsOk, FinAcked, Admits, Initial;
    CloseEvidence(s, Initial(first, answer, third), first.addr, rest, pkt);
  }

  lemma RunningConnected(s: TcpStream)
    requires Running(s)
    ensures s.connected
  {
  }

  lemma LiveMemory(trace: seq<Packet>, s: Tcp, id: StreamId, fromClient: bool)
    requires StreamsOk(trace, s) && id in s.streams && id in s.history
    ensures MemoryOk(Receiver(s.streams[id], fromClient))
  {
    hide Charge, Handshake, QueueInOrder, Opened, Answered;
  }

  lemma {:induction false} CheckTcpHistories(s: Tcp, now: int, id: StreamId)
    requires id !in s.history && TimersOk(s.tcpTimeouts, s.streams) && forall i :: i in s.streams ==> i in s.history
    ensures id !in CheckTcpTimeouts(s, now).history
    decreases |s.tcpTimeouts|
  {
    if s.tcpTimeouts != map[] && First(s.tcpTimeouts) <= now {
      var other := s.tcpTimeouts[First(s.tcpTimeouts)];
      DelTimeoutShrinks(s.tcpTimeouts, First(s.tcpTimeouts));
      CheckTcpHistories(Free(Report(s, other, TimedOut), other), now, id);
    }
  }

  lemma {:induction false} CheckFinHistories(s: Tcp, now: int, id: StreamId)
    requires id !in s.history && TimersOk(s.finTimeouts, s.streams) && forall i :: i in s.streams ==> i in s.history
    ensures id !in CheckFinTimeouts(s, now).history
    decreases |s.finTimeouts|
  {
    if s.finTimeouts != map[] && First(s.finTimeouts) <= now {
      var other := s.finTimeouts[First(s.finTimeouts)];
      DelTimeoutShrinks(s.finTimeouts, First(s.finTimeouts));
      CheckFinHistories(Free(Report(s, other, Closed), other), now, id);
    }
  }

  /** A history begins with a stream in the table. */
  lemma BornLive(trace: seq<Packet>, s: Tcp, pkt: Packet, hash: Tuple4 -> nat, tableSize: nat, id: StreamId)
    requires Good(trace, s, hash, tableSize) && id !in s.history && id in Process(s, pkt, hash, tableSize).history
    ensures id in Process(s, pkt, hash, tableSize).streams
  {
    hide StreamsOk, StreamStep, NewStream, Lookup, FlowKey, Distinct, OncePerStream, CheckTcpTimeouts, CheckFinTimeouts;
    CheckTcpKeeps(trace, s, pkt.now, hash, tableSize);
    CheckTcpHistories(s, pkt.now, id);
    CheckFinHistories(CheckTcpTimeouts(s, pkt.now), pkt.now, id);
    CheckTimeoutsKeeps(trace, s, pkt.now, hash, tableSize);
    LookupIsFlowMap(CheckTimeouts(s, pkt.now), pkt.addr, hash);
  }

  /** Every history of a stream that has left the table ended with one packet, after which nothing has been added. */
  lemma {:induction false} WhereEnded(trace: seq<Packet>, hash: Tuple4 -> nat, tableSize: nat, id: StreamId) returns (n: nat)
    requires tableSize > 0 && id in Run(trace, hash, tableSize).history && id !in Run(trace, hash, tableSize).streams
    ensures n < |trace| && id in Run(trace[..n], hash, tableSize).streams
    ensures Ended(Run(trace[..n] + [trace[n]], hash, tableSize), id, Run(trace, hash, tableSize).history[id])
    decreases |trace|
  {
    hide Process, Good;
    var m := |trace| - 1;
    var s := Run(trace[..m], hash, tableSize);
    assert trace[..m] + [trace[m]] == trace;
    RunIsGood(trace[..m], hash, tableSize);
    if id in s.streams {
      n := m;
    } else if id in s.history {
      n := WhereEnded(trace[..m], hash, tableSize, id);
      ProcessGone(trace[..m], s, trace[m], hash, tableSize, id);
      assert trace[..m][..n] == trace[..n];
    } else {
      BornLive(trace[..m], s, trace[m], hash, tableSize, id);
    }
  }

  // ----- The orderly close -----

  lemma JustAhead(e: u32, n: nat)
    requires 0 < n <= 65536
    ensures !SeqArith.After(e, e) && SeqArith.After(U32(e + n), e)
  {
    AfterExact(e, e);
    AfterExact(e + n, e);
    WrapSmall(e);
  }

  /** A FIN where its direction goes on is delivered, whatever is queued behind it. */
  lemma FinDelivered(snd: HalfStream, rcv: HalfStream, sg: Segment)
    requires sg.fin && sg.seqNum == ExpSeq(snd, rcv)
    ensures TcpQueue(snd, rcv, sg).snd.state == FIN_SENT
  {
    hide U32, I32, After, Before, Drain, AddFromskb;
    JustAhead(sg.seqNum, |sg.data| + 1);
    AddFins(snd, rcv, sg.data, sg.seqNum, sg.fin, sg.urg, U32(sg.urp + sg.seqNum - 1));
    var d := AddFromskb(snd, rcv, sg.data, sg.seqNum, sg.fin, sg.urg, U32(sg.urp + sg.seqNum - 1));
    DrainFins(d.snd, d.rcv);
  }

  lemma FinStep(s: TcpStream, t: Talk, pkt: Packet)
    requires pkt.DataLen() >= 0 && Running(s) && Agrees(s, t) && LetIn(t, FromClient(s, pkt), pkt)
    requires pkt.fin && pkt.seqNum == ExpSeq(Sender(s, FromClient(s, pkt)), Receiver(s, FromClient(s, pkt)))
    requires !StreamStep(s, FromClient(s, pkt), pkt).free
    ensures var r := StreamStep(s, FromClient(s, pkt), pkt).stream;
            && Sender(r, FromClient(s, pkt)).state == FIN_SENT
            && (Receiver(s, FromClient(s, pkt)).state == FIN_CONFIRMED ==> Receiver(r, FromClient(s, pkt)).state == FIN_CONFIRMED)
  {
    hide U32, Before, TcpQueue, Acknowledge;
    var fromClient := FromClient(s, pkt);
    assert !OutOfWindow(Receiver(s, fromClient), pkt);
    hide OutOfWindow, Admits;
    var s1 := Acknowledge(s, fromClient, pkt);
    AcknowledgedSame(s, fromClient, pkt, fromClient);
    AcknowledgeGrants(s, fromClient, pkt);
    AcknowledgeFins(s, fromClient, pkt);
    FinDelivered(Sender(s1, fromClient), Receiver(s1, fromClient), Incoming(pkt));
    TcpQueueFramed(Sender(s1, fromClient), Receiver(s1, fromClient), Incoming(pkt));
  }

  lemma AckStep(s: TcpStream, t: Talk, pkt: Packet)
    requires pkt.DataLen() == 0 && !pkt.fin && Running(s) && Agrees(s, t) && LetIn(t, FromClient(s, pkt), pkt)
    requires pkt.ackFlag && Receiver(s, FromClient(s, pkt)).state == FIN_SENT
    requires !StreamStep(s, FromClient(s, pkt), pkt).free
    ensures Receiver(StreamStep(s, FromClient(s, pkt), pkt).stream, FromClient(s, pkt)).state == FIN_CONFIRMED
  {
    hide U32, Before, TcpQueue, Acknowledge;
    var fromClient := FromClient(s, pkt);
    assert !OutOfWindow(Receiver(s, fromClient), pkt);
    hide OutOfWindow, Admits;
    AcknowledgeGrants(s, fromClient, pkt);
    AcknowledgeFins(s, fromClient, pkt);
  }

  /** Where a direction goes on is told by what has been let in of it. */
  lemma Wanted(first: Packet, answer: Packet, third: Packet, hash: Tuple4 -> nat, pkts: seq<Packet>,
               dir: bool, stream: seq<byte>, ps: seq<Piece>)
    requires IsHandshake(first, answer, third) && !first.junk.urgSeen && Readable([answer, third]) && Readable(pkts)
    requires var s0 := Follow(NewStream(first, hash), [answer, third]).stream; Unended(s0, pkts)
    requires Fits(FirstByte(first, answer, dir), stream, Admitted(Initial(first, answer, third), first.addr, dir, pkts), ps)
    ensures var s0 := Follow(NewStream(first, hash), [answer, third]).stream; var s := Follow(s0, pkts).stream;
            && ExpSeq(Sender(s, dir), Receiver(s, dir)) == U32(FirstByte(first, answer, dir) + LongestPrefix(ps, |stream|))
            && Running(s) && s.addr == first.addr && Agrees(s, TalkAfter(Initial(first, answer, third), first.addr, pkts))
  {
    hide U32, StreamStep, NewStream, Accepted, Admitted, Initial, Fits, LongestPrefix, Follow, Untouched, Unended, Running,
      Agrees, TalkAfter, ExpSeq, FirstByte, IsHandshake, Faithful, Told;
    var s0 := Follow(NewStream(first, hash), [answer, third]).stream;
    HandshakeConnects(first, answer, third, hash);
    HandshakeAgrees(first, answer, third, hash);
    AcceptedIsAdmitted(s0, Initial(first, answer, third), dir, pkts);
    RunningOpen(s0);
    var st := FollowRefines(FirstByte(first, answer, dir), stream, s0, dir, pkts, ps);
    StandsNext(FirstByte(first, answer, dir), stream, Follow(s0, pkts).stream, dir, ps, st);
    StandsAt(FirstByte(first, answer, dir), Follow(s0, pkts).stream, dir, st);
  }

  lemma RunningOpen(s: TcpStream)
    requires Running(s)
    ensures s.server.state != CLOSE
  {
  }

  lemma StandsAt(base: int, s: TcpStream, dir: bool, st: Ideal)
    requires Stands(base, s, dir, st)
    ensures ExpSeq(Sender(s, dir), Receiver(s, dir)) == U32(base + st.next)
  {
    hide U32, ExpSeq;
  }

  /** The FIN of a direction comes where its bytes that have been let in end. */
  ghost predicate FinInOrder(first: Packet, answer: Packet, third: Packet, pkts: seq<Packet>, dir: bool,
                             stream: seq<byte>, ps: seq<Piece>, fin: Packet)
    requires Readable(pkts)
  {
    && (fin.addr == first.addr) == dir && fin.fin && LetIn(Said(first, answer, third, pkts), dir, fin)
    && Fits(FirstByte(first, answer, dir), stream, Admitted(Initial(first, answer, third), first.addr, dir, pkts), ps)
    && fin.seqNum == U32(FirstByte(first, answer, dir) + LongestPrefix(ps, |stream|))
  }

  lemma FinFollows(first: Packet, answer: Packet, third: Packet, hash: Tuple4 -> nat, pkts: seq<Packet>,
                   dir: bool, stream: seq<byte>, ps: seq<Piece>, fin: Packet)
    requires IsHandshake(first, answer, third) && !first.junk.urgSeen && Readable([answer, third]) && Readable(pkts)
    requires fin.DataLen() >= 0
    requires var s0 := Follow(NewStream(first, hash), [answer, third]).stream; Unended(s0, pkts + [fin])
    requires FinInOrder(first, answer, third, pkts, dir, stream, ps, fin)
    ensures var s0 := Follow(NewStream(first, hash), [answer, third]).stream;
            var s, r := Follow(s0, pkts).stream, Follow(s0, pkts + [fin]).stream;
            && Sender(r, dir).state == FIN_SENT
            && (Receiver(s, dir).state == FIN_CONFIRMED ==> Receiver(r, dir).state == FIN_CONFIRMED)
  {
    hide U32, StreamStep, NewStream, Admitted, Initial, Fits, LongestPrefix, Follow, Unended, Running,
      Agrees, TalkAfter, ExpSeq, FirstByte, IsHandshake, LetIn;
    var s0 := Follow(NewStream(first, hash), [answer, third]).stream;
    UnendedMore(s0, pkts, fin);
    Wanted(first, answer, third, hash, pkts, dir, stream, ps);
    FollowMore(s0, pkts, fin);
    FinStep(Follow(s0, pkts).stream, Said(first, answer, third, pkts), fin);
  }

  lemma AckFollows(first: Packet, answer: Packet, third: Packet, hash: Tuple4 -> nat, pkts: seq<Packet>, dir: bool, ack: Packet)
    requires IsHandshake(first, answer, third) && Readable([answer, third]) && Readable(pkts) && ack.DataLen() == 0
    requires var s0 := Follow(NewStream(first, hash), [answer, third]).stream;
             Unended(s0, pkts + [ack]) && Sender(Follow(s0, pkts).stream, dir).state == FIN_SENT
    requires (ack.addr == first.addr) != dir && ack.ackFlag && !ack.fin && LetIn(Said(first, answer, third, pkts), !dir, ack)
    ensures Sender(Follow(Follow(NewStream(first, hash), [answer, third]).stream, pkts + [ack]).stream, dir).state == FIN_CONFIRMED
  {
    hide U32, StreamStep, NewStream, Initial, Follow, Unended, Running, Agrees, TalkAfter, IsHandshake, LetIn;
    var s0 := Follow(NewStream(first, hash), [answer, third]).stream;
    UnendedMore(s0, pkts, ack);
    HandshakeAgrees(first, answer, third, hash);
    AcceptedIsAdmitted(s0, Initial(first, answer, third), dir, pkts);
    FollowMore(s0, pkts, ack);
    AckStep(Follow(s0, pkts).stream, Said(first, answer, third, pkts), ack);
  }

  /** FIN, acknowledgement, FIN, acknowledgement: the last of them ends the history of a connected stream with the
      close callback, whatever else is captured in between. */
  lemma FarewellCloses(trace: seq<Packet>, hash: Tuple4 -> nat, tableSize: nat, id: StreamId, k: nat,
                       answer: Packet, third: Packet, rest: seq<Packet>, dir: bool,
                       fin1: Packet, ack1: Packet, fin2: Packet, ack2: Packet,
                       stream1: seq<byte>, ps1: seq<Piece>, stream2: seq<byte>, ps2: seq<Piece>)
    requires tableSize > 0 && Readable(rest) && fin1.DataLen() >= 0 && ack1.DataLen() == 0 && fin2.DataLen() >= 0
    requires var s := Run(trace, hash, tableSize);
             Conversation(trace, k, s, id, hash, answer, third, rest + [fin1] + [ack1] + [fin2])
    requires !trace[k].junk.urgSeen
    requires FinInOrder(trace[k], answer, third, rest, dir, stream1, ps1, fin1)
    requires (ack1.addr == trace[k].addr) != dir && ack1.ackFlag && !ack1.fin
             && LetIn(Said(trace[k], answer, third, rest + [fin1]), !dir, ack1)
    requires FinInOrder(trace[k], answer, third, rest + [fin1] + [ack1], !dir, stream2, ps2, fin2)
    requires IsOwn(ack2, trace[k].addr) && (ack2.addr == trace[k].addr) == dir && ack2.ackFlag
             && LetIn(Said(trace[k], answer, third, rest + [fin1] + [ack1] + [fin2]), dir, ack2)
    requires var s := Run(trace, hash, tableSize); !Due(s.tcpTimeouts, id, ack2.now) && !Due(s.finTimeouts, id, ack2.now)
    ensures Ended(Run(trace + [ack2], hash, tableSize), id, Run(trace, hash, tableSize).history[id] + [Closed])
  {
    hide StreamStep, NewStream, Initial, Follow, Unended, Running, Agrees, TalkAfter, IsHandshake, Admits, Own, Run, Due, Ended,
      FinInOrder, OnlyData, Charge, FullFor, FinAcked, Said, Acknowledge, FlowKey;
    var first, s := trace[k], Run(trace, hash, tableSize);
    var p1 := rest + [fin1];
    var p2 := p1 + [ack1];
    var p3 := p2 + [fin2];
    HandshakeReadable(first, answer, third);
    var s0 := Follow(NewStream(first, hash), [answer, third]).stream;
    FollowAppend(NewStream(first, hash), [answer, third], p3);
    UnendedRest(NewStream(first, hash), [answer, third], p3);
    UnendedMore(s0, p2, fin2);
    UnendedMore(s0, p1, ack1);
    FinFollows(first, answer, third, hash, rest, dir, stream1, ps1, fin1);
    AckFollows(first, answer, third, hash, p1, dir, ack1);
    FinFollows(first, answer, third, hash, p2, !dir, stream2, ps2, fin2);
    assert s.streams[id] == Follow(s0, p3).stream;
    AcknowledgeFins(s.streams[id], dir, ack2);
    EndsExactly(trace, ack2, hash, tableSize, id, k, answer, third, p3);
  }

  // ----- When the timers fall due -----

  /** The latest packet that has restarted the inactivity timer: the one that has opened the stream, or one of its own
      that has delivered something. */
  function LastTouch(trace: seq<Packet>, k: nat, hash: Tuple4 -> nat): nat
    requires k < |trace|
    decreases |trace|
  {
    var n := |trace| - 1;
    if n <= k then k
    else
      var s := Since(trace[..n], k, hash).stream;
      if IsOwn(trace[n], trace[k].addr) && StreamStep(s, FromClient(s, trace[n]), trace[n]).touched then n
      else LastTouch(trace[..n], k, hash)
  }

  /** Packet `j` has armed the FIN timer. */
  predicate Arms(trace: seq<Packet>, k: nat, hash: Tuple4 -> nat, j: nat)
    requires k < |trace|
  {
    && k < j < |trace| && IsOwn(trace[j], trace[k].addr)
    && var s := Since(trace[..j], k, hash).stream;
       StreamStep(s, FromClient(s, trace[j]), trace[j]).finTimer
  }

  ghost predicate TimersFrom(trace: seq<Packet>, k: nat, s: Tcp, id: StreamId, hash: Tuple4 -> nat)
    requires k < |trace|
  {
    && LastTouch(trace, k, hash) < |trace|
    && (forall t :: t in s.tcpTimeouts && s.tcpTimeouts[t] == id ==> t == trace[LastTouch(trace, k, hash)].now + 30)
    && (forall t :: t in s.finTimeouts && s.finTimeouts[t] == id ==>
          exists j: nat :: j < |trace| && Arms(trace, k, hash, j) && t == trace[j].now + 5)
  }

  lemma ArmsGrows(trace: seq<Packet>, pkt: Packet, k: nat, hash: Tuple4 -> nat, j: nat)
    requires k < |trace| && Arms(trace, k, hash, j)
    ensures Arms(trace + [pkt], k, hash, j) && (trace + [pkt])[j] == trace[j]
  {
    hide StreamStep, Since, IsOwn;
    assert (trace + [pkt])[..j] == trace[..j];
  }

  /** The timers of a stream after one more packet. */
  lemma TimersGrow(trace: seq<Packet>, pkt: Packet, k: nat, s: Tcp, r: Tcp, id: StreamId, hash: Tuple4 -> nat)
    requires LivesSince(trace, k, s, id, hash) && TimersFrom(trace, k, s, id, hash)
    requires s.streams[id].addr == trace[k].addr
    requires if IsOwn(pkt, trace[k].addr) then
               Goes(s, r, id, StreamStep(s.streams[id], FromClient(s.streams[id], pkt), pkt), pkt.now)
             else Kept(s, r, id)
    ensures TimersFrom(trace + [pkt], k, r, id, hash)
  {
    hide StreamStep, Since, IsOwn, Arms, NewStream, Own, Unended;
    var all := trace + [pkt];
    assert all[..|trace|] == trace;
    forall t | t in r.finTimeouts && r.finTimeouts[t] == id
      ensures exists j: nat :: j < |all| && Arms(all, k, hash, j) && t == all[j].now + 5
    {
      if t in s.finTimeouts && s.finTimeouts[t] == id {
        var j: nat :| j < |trace| && Arms(trace, k, hash, j) && t == trace[j].now + 5;
        ArmsGrows(trace, pkt, k, hash, j);
      } else {
        ArmsHere(trace, pkt, k, hash);
      }
    }
  }

  lemma ArmsHere(trace: seq<Packet>, pkt: Packet, k: nat, hash: Tuple4 -> nat)
    requires k < |trace| && IsOwn(pkt, trace[k].addr)
    requires var s := Since(trace, k, hash).stream; StreamStep(s, FromClient(s, pkt), pkt).finTimer
    ensures Arms(trace + [pkt], k, hash, |trace|) && (trace + [pkt])[|trace|] == pkt
  {
    hide StreamStep, Since, IsOwn;
    assert (trace + [pkt])[..|trace|] == trace;
  }

  lemma NewTimers(trace: seq<Packet>, pkt: Packet, r: Tcp, id: StreamId, hash: Tuple4 -> nat)
    requires forall t :: t in r.tcpTimeouts && r.tcpTimeouts[t] == id ==> t == pkt.now + 30
    requires forall t :: t in r.finTimeouts ==> r.finTimeouts[t] != id
    ensures TimersFrom(trace + [pkt], |trace|, r, id, hash)
  {
  }

  lemma AddedTimers(s: Tcp, pkt: Packet, hash: Tuple4 -> nat, tableSize: nat, id: StreamId)
    requires TableOk(s, hash) && id !in s.streams && id in AddNew(s, pkt, hash, tableSize).streams
    ensures var r := AddNew(s, pkt, hash, tableSize);
            && (forall t :: t in r.tcpTimeouts && r.tcpTimeouts[t] == id ==> t == pkt.now + 30)
            && (forall t :: t in r.finTimeouts ==> r.finTimeouts[t] != id)
  {
    hide NewStream, Distinct, OncePerStream;
  }

  /** What a stream that the packet opens has of timers. */
  lemma OpenedTimers(s: Tcp, pkt: Packet, hash: Tuple4 -> nat, tableSize: nat, id: StreamId)
    requires TableOk(s, hash) && id !in s.streams && id in Handle(s, pkt, hash, tableSize).streams
    ensures var r := Handle(s, pkt, hash, tableSize);
            && (forall t :: t in r.tcpTimeouts && r.tcpTimeouts[t] == id ==> t == pkt.now + 30)
            && (forall t :: t in r.finTimeouts ==> r.finTimeouts[t] != id)
  {
    hide TableOk, AddNew, Apply, StreamStep, NewStream, Lookup, FlowKey;
    LookupIsFlowMap(s, pkt.addr, hash);
    if pkt.Sound() {
      match Lookup(s, pkt.addr) {
        case NotFound =>
          AddedTimers(s, pkt, hash, tableSize, id);
        case Stream(known, fromClient) =>
          if pkt.Opens() {
            FreeKeepsTable(s, known, hash, |s.streams|);
            AddedTimers(Free(s, known), pkt, hash, tableSize, id);
          } else {
            ApplyFate(s, pkt, known, StreamStep(s.streams[known], fromClient, pkt), id);
          }
      }
    }
  }

  lemma CheckSpares(s: Tcp, now: int)
    ensures Spares(s, CheckTimeouts(s, now))
  {
    hide Spares, CheckTcpTimeouts, CheckFinTimeouts;
    CheckTcpSpares(s, now);
    CheckFinSpares(CheckTcpTimeouts(s, now), now);
    SparesBoth(s, CheckTcpTimeouts(s, now), CheckTimeouts(s, now));
  }

  lemma ProcessIsHandle(s: Tcp, pkt: Packet, hash: Tuple4 -> nat, tableSize: nat)
    ensures Process(s, pkt, hash, tableSize) == Handle(CheckTimeouts(s, pkt.now), pkt, hash, tableSize)
  {
    hide CheckTcpTimeouts, CheckFinTimeouts, StreamStep, AddNew, Apply, Lookup;
  }

  /** Over every capture: a stream's inactivity timer stands 30 seconds after the latest packet that has restarted it,
      its FIN timer 5 seconds after one that has armed it. */
  lemma {:induction false} TimersSince(trace: seq<Packet>, hash: Tuple4 -> nat, tableSize: nat, id: StreamId) returns (k: nat)
    requires tableSize > 0 && id in Run(trace, hash, tableSize).streams
    ensures LivesSince(trace, k, Run(trace, hash, tableSize), id, hash)
    ensures TimersFrom(trace, k, Run(trace, hash, tableSize), id, hash)
    decreases |trace|
  {
    hide Process, Since, StreamStep, NewStream, FlowKey, Distinct, TimersOk, OncePerStream, StreamsOk, Own, Unended, Due,
      TimersFrom, FullFor, CheckTimeouts, Kept, Goes, Handle;
    var n := |trace| - 1;
    var s, pkt := Run(trace[..n], hash, tableSize), trace[n];
    RunIsGood(trace[..n], hash, tableSize);
    CheckTimeoutsKeeps(trace[..n], s, pkt.now, hash, tableSize);
    ProcessFate(s, pkt, hash, tableSize, id);
    assert trace[..n] + [pkt] == trace;
    if id in s.streams {
      k := TimersSince(trace[..n], hash, tableSize, id);
      SinceGrows(trace[..n], k, pkt, hash);
      ProcessExact(trace[..n], s, pkt, hash, tableSize, id);
      SinceAddr(trace[..n], k, hash);
      TimersGrow(trace[..n], pkt, k, s, Run(trace, hash, tableSize), id, hash);
    } else {
      k := n;
      SinceNow(trace[..n], pkt, hash);
      CheckSpares(s, pkt.now);
      ProcessIsHandle(s, pkt, hash, tableSize);
      OpenedTimers(CheckTimeouts(s, pkt.now), pkt, hash, tableSize, id);
      NewTimers(trace[..n], pkt, Run(trace, hash, tableSize), id, hash);
    }
  }

  lemma SinceAddr(trace: seq<Packet>, k: nat, hash: Tuple4 -> nat)
    requires k < |trace|
    ensures Since(trace, k, hash).stream.addr == trace[k].addr
  {
    hide NewStream, Own, Follow;
    NewStreamAddr(trace[k], hash);
    FollowKeepsAddr(NewStream(trace[k], hash), Own(trace[k + 1..], trace[k].addr));
  }

  /** A packet of a running stream restarts the inactivity timer exactly if it is let in with something to deliver:
      data or a FIN that begins no later than wanted and ends after that. */
  lemma TouchedExact(s: TcpStream, t: Talk, pkt: Packet)
    requires pkt.DataLen() >= 0 && Running(s) && Agrees(s, t) && !StreamStep(s, FromClient(s, pkt), pkt).free
    ensures var fromClient := FromClient(s, pkt); var exp := ExpSeq(Sender(s, fromClient), Receiver(s, fromClient));
            StreamStep(s, fromClient, pkt).touched
            <==> LetIn(t, fromClient, pkt) && pkt.DataLen() + Bit(pkt.fin) > 0
                 && !SeqArith.After(pkt.seqNum, exp) && SeqArith.After(U32(pkt.seqNum + pkt.DataLen() + Bit(pkt.fin)), exp)
  {
    hide U32, Before, SeqArith.After, Acknowledge, Drain, AddFromskb, Insert, SynAck;
    var fromClient := FromClient(s, pkt);
    assert Admits(Granted(t, !fromClient), pkt) <==> !OutOfWindow(Receiver(s, fromClient), pkt);
    hide OutOfWindow, Admits;
    AcknowledgedSame(s, fromClient, pkt, fromClient);
    AcknowledgeGrants(s, fromClient, pkt);
  }

  /** The FIN timer is armed only when FINs of both directions have come. */
  lemma ArmedByFins(s: TcpStream, t: Talk, addr: Tuple4, pkts: seq<Packet>, pkt: Packet)
    requires pkt.DataLen() >= 0 && Running(s) && Agrees(s, TalkAfter(t, addr, pkts)) && s.addr == addr
    requires FinsOk(s, t, addr, pkts, true) && FinsOk(s, t, addr, pkts, false)
    requires StreamStep(s, FromClient(s, pkt), pkt).finTimer
    ensures FinCame(t, addr, pkts + [pkt], true) && FinCame(t, addr, pkts + [pkt], false)
  {
    hide U32, Before, Absorb, Acknowledge, SynAck, FinQueued, FinCame, FinAcked, TalkAfter;
    var fromClient := FromClient(s, pkt);
    assert Admits(Granted(TalkAfter(t, addr, pkts), !fromClient), pkt) <==> !OutOfWindow(Receiver(s, fromClient), pkt);
    hide OutOfWindow, Admits;
    var s1 := Acknowledge(s, fromClient, pkt);
    AcknowledgeGrants(s, fromClient, pkt);
    ConfirmOk(s, t, addr, pkts, pkt, true);
    ConfirmOk(s, t, addr, pkts, pkt, false);
    AbsorbFins(s1, fromClient, pkt);
    if pkt.fin {
      FinHere(t, addr, pkts, pkt, fromClient);
    }
  }

  /** An early FIN, one that leaves a gap, arms the timer exactly if the other direction has had its FIN. */
  lemma EarlyFinArms(s: TcpStream, t: Talk, pkt: Packet)
    requires pkt.DataLen() >= 0 && Running(s) && Agrees(s, t) && !StreamStep(s, FromClient(s, pkt), pkt).free
    requires var fromClient := FromClient(s, pkt);
             && LetIn(t, fromClient, pkt) && pkt.fin
             && SeqArith.After(pkt.seqNum, ExpSeq(Sender(s, fromClient), Receiver(s, fromClient)))
    ensures var fromClient := FromClient(s, pkt);
            StreamStep(s, fromClient, pkt).finTimer
            <==> Receiver(s, fromClient).state == FIN_SENT || Receiver(s, fromClient).state == FIN_CONFIRMED
  {
    hide U32, Before, SeqArith.After, Acknowledge, Drain, AddFromskb, Insert, SynAck;
    var fromClient := FromClient(s, pkt);
    assert !OutOfWindow(Receiver(s, fromClient), pkt);
    hide OutOfWindow, Admits;
    AcknowledgedSame(s, fromClient, pkt, fromClient);
    AcknowledgeGrants(s, fromClient, pkt);
    AcknowledgeFins(s, fromClient, pkt);
  }
}
