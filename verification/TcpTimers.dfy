/** Which streams have a timer: the timers are ordered by second alone, so of two
    that fall due in the same second only the first is kept (dpi/TcpFragment.h,
    dpi/TcpFragment.cc). */
module TcpTimers {
  import opened SeqArith
  import opened TcpReassembly
  import opened TcpStreams
  import opened TcpProtocol

  ghost predicate HasTimer(timers: Timers, id: StreamId) {
    exists t :: t in timers && timers[t] == id
  }

  /** A timer that is inserted is there afterwards if and only if no other entry has its second. */
  lemma AddTimeoutExact(timers: Timers, id: StreamId, second: int)
    requires !HasTimer(timers, id)
    ensures HasTimer(AddTimeout(timers, id, second), id) <==> second !in timers
  {
    var r := AddTimeout(timers, id, second);
    if second !in timers {
      assert r[second] == id;
    }
  }

  /** A new stream has a timer if and only if the table was full, and so has been cleared, or no entry is due in
      the same second. */
  lemma NewStreamTimer(s: Tcp, pkt: Packet, hash: Tuple4 -> nat, tableSize: nat)
    requires TableOk(s, hash)
    ensures HasTimer(AddNew(s, pkt, hash, tableSize).tcpTimeouts, AddNew(s, pkt, hash, tableSize).nextId - 1)
            <==> |s.streams| >= tableSize || pkt.now + 30 !in s.tcpTimeouts
  {
    hide NewStream, AddTimeout;
    IdsBelow(s, hash);
    var s1 := if |s.streams| >= tableSize then ClearAll(s) else s;
    AddTimeoutExact(s1.tcpTimeouts, s.nextId, pkt.now + 30);
  }

  /** Data restarts a stream's timer; it keeps one if and only if no other stream's entry is due in the same
      second. Otherwise it loses the one it had. */
  lemma RestartExact(timers: Timers, id: StreamId, second: int)
    ensures HasTimer(Restart(timers, id, second), id) <==> (second in timers ==> timers[second] == id)
  {
    hide AddTimeout;
    AddTimeoutExact(DelTimeout(timers, id), id, second);
  }

  /** The first packet of a capture, if it opens a stream. */
  lemma FirstPacket(pkt: Packet, hash: Tuple4 -> nat, tableSize: nat)
    requires tableSize > 0 && pkt.Sound() && pkt.Opens()
    ensures Run([pkt], hash, tableSize)
            == Tcp(map[0 := NewStream(pkt, hash)], map[pkt.now + 30 := 0], map[], 1, map[0 := []])
  {
    hide NewStream;
    assert [pkt][..0] == [];
    assert Run([], hash, tableSize) == EMPTY;
    assert CheckTimeouts(EMPTY, pkt.now) == EMPTY;
    assert Lookup(EMPTY, pkt.addr) == NotFound;
  }

  function ZeroPayload(): Payload {
    [0, 0, 0, 0, 0, 0, 0, 0, 0, 0, 0, 0, 0, 0, 0, 0, 0, 0, 0, 0]
  }

  /** The first packet of a connection from `port`. */
  function SynFrom(port: u16): Packet {
    Packet(Tuple4(Endpoint(1, port), Endpoint(2, 80)), ZeroPayload(), 5, 100, 0, true, false, false, false, false,
           1000, 0, 1, 0, HalfStream(CLOSE, 0, 0, 0, 0, 0, 0, false, 0, 0, false, 1, []))
  }

  /** An open packet of an unknown flow when no timer is due. */
  lemma StepUnknown(s: Tcp, pkt: Packet, hash: Tuple4 -> nat, tableSize: nat)
    requires TableOk(s, hash) && pkt.Sound() && pkt.Opens() && s.finTimeouts == map[]
    requires forall t :: t in s.tcpTimeouts ==> pkt.now < t
    requires forall id :: id in s.streams ==> FlowKey(s.streams[id].addr) != FlowKey(pkt.addr)
    ensures Process(s, pkt, hash, tableSize) == AddNew(s, pkt, hash, tableSize)
  {
    hide AddNew, FlowKey, TableOk, Lookup;
    LookupIsFlowMap(s, pkt.addr, hash);
    assert s.tcpTimeouts != map[] ==> First(s.tcpTimeouts) in s.tcpTimeouts;
    assert CheckTimeouts(s, pkt.now) == s;
  }

  /** Two connections opened in the same second: the second stream is in the table without a timer. */
  lemma TwoSynsOneTimer(hash: Tuple4 -> nat, tableSize: nat)
    requires tableSize > 1
    ensures var r := Run([SynFrom(1000), SynFrom(1001)], hash, tableSize);
            0 in r.streams && 1 in r.streams && HasTimer(r.tcpTimeouts, 0) && !HasTimer(r.tcpTimeouts, 1)
  {
    hide NewStream, TableOk, StreamsOk, ZeroPayload, Process, SynFrom;
    var a, b := SynFrom(1000), SynFrom(1001);
    assert [a, b][..1] == [a];
    TwoFlows(hash);
    FirstPacket(a, hash, tableSize);
    RunIsGood([a], hash, tableSize);
    var s1 := Run([a], hash, tableSize);
    StepUnknown(s1, b, hash, tableSize);
    NewStreamTimer(s1, b, hash, tableSize);
    assert s1.tcpTimeouts[30] == 0;
  }

  lemma TwoFlows(hash: Tuple4 -> nat)
    ensures SynFrom(1000).Sound() && SynFrom(1001).Sound() && SynFrom(1000).Opens() && SynFrom(1001).Opens()
    ensures SynFrom(1000).now == SynFrom(1001).now == 0
    ensures NewStream(SynFrom(1000), hash).addr == SynFrom(1000).addr
    ensures FlowKey(SynFrom(1000).addr) != FlowKey(SynFrom(1001).addr)
  {
    hide U32, GetWscale;
    assert Endpoint(1, 1000) in FlowKey(SynFrom(1000).addr) && Endpoint(1, 1000) !in FlowKey(SynFrom(1001).addr);
  }
}
