/** The tracker as the object the program runs: methods that update the table,
    the timer sets and the queues in place (dpi/TcpFragment.cc). Each is proved
    against its function in TcpStreams, so all that TcpProtocol and
    TcpConfluence prove holds of this object. */
module TcpTracker {
  import opened SetFacts
  import opened SeqArith
  import opened TcpReassembly
  import opened TcpConfluence
  import opened TcpStreams
  import opened TcpProtocol

  /** Walk the options of a SYN for the window scale. */
  method ReadWscale(opts: seq<byte>) returns (on: bool, ws: u32)
    ensures (on, ws) == GetWscale(opts)
  {
    on, ws := false, 1;
    var ind := 0;
    while ind <= |opts| - 3
      invariant 1 <= ws <= 0x4000
      invariant WscaleFrom(opts, ind, on, ws) == GetWscale(opts)
      decreases |opts| - ind
    {
      if opts[ind] == 0 {
        return;
      } else if opts[ind] == 1 {
        ind := ind + 1;
      } else {
        if opts[ind] == 3 {
          on, ws := true, Factor(opts[ind + 2]);
        }
        if opts[ind + 1] < 2 {
          return;
        }
        ind := ind + opts[ind + 1];
      }
    }
  }

  class TcpFragment {
    const hash: Tuple4 -> nat
    const tableSize: nat
    var tcphashmap: map<StreamId, TcpStream>
    var tcpTimeoutSet: Timers
    var finTimeoutSet: Timers
    var nextNode: StreamId
    /** Callbacks made so far, stream by stream. */
    var history: map<StreamId, seq<Event>>
    /** Packets processed so far. */
    ghost var trace: seq<Packet>

    ghost function State(): Tcp
      reads this
    {
      Tcp(tcphashmap, tcpTimeoutSet, finTimeoutSet, nextNode, history)
    }

    ghost predicate Valid()
      reads this
    {
      && tableSize > 0
      && State() == Run(trace, hash, tableSize)
      && Good(trace, State(), hash, tableSize)
    }

    constructor (hash: Tuple4 -> nat, tableSize: nat)
      requires tableSize > 0
      ensures Valid() && trace == [] && this.hash == hash && this.tableSize == tableSize
    {
      this.hash, this.tableSize := hash, tableSize;
      tcphashmap, tcpTimeoutSet, finTimeoutSet, nextNode, history := map[], map[], map[], 0, map[];
      trace := [];
    }

    // ----- Timer sets -----

    method AddTcptimeout(id: StreamId, now: int)
      modifies this`tcpTimeoutSet
      ensures tcpTimeoutSet == AddTimeout(old(tcpTimeoutSet), id, now + 30)
    {
      if now + 30 !in tcpTimeoutSet {
        tcpTimeoutSet := tcpTimeoutSet[now + 30 := id];
      }
    }

    method AddFintimeout(id: StreamId, now: int)
      modifies this`finTimeoutSet
      ensures finTimeoutSet == AddTimeout(old(finTimeoutSet), id, now + 5)
    {
      if now + 5 !in finTimeoutSet {
        finTimeoutSet := finTimeoutSet[now + 5 := id];
      }
    }

    /** Erase every entry of a stream, one at a time. */
    static method EraseAll(timers: Timers, id: StreamId) returns (left: Timers)
      ensures left == DelTimeout(timers, id)
    {
      left := timers;
      var todo := timers.Keys;
      while todo != {}
        invariant todo <= timers.Keys
        invariant left == map t | t in timers && (t in todo || timers[t] != id) :: timers[t]
        decreases todo
      {
        assert (forall u: int :: u !in todo) ==> todo == {};
        var t :| t in todo;
        todo := todo - {t};
        if timers[t] == id {
          left := left - {t};
        }
      }
    }

    method UpdateTcptimeout(id: StreamId, now: int)
      modifies this`tcpTimeoutSet
      ensures tcpTimeoutSet == Restart(old(tcpTimeoutSet), id, now + 30)
    {
      tcpTimeoutSet := EraseAll(tcpTimeoutSet, id);
      AddTcptimeout(id, now);
    }

    // ----- Callbacks -----

    method Callback(id: StreamId, e: Event)
      requires id in history
      modifies this`history
      ensures history == old(history)[id := old(history)[id] + [e]]
    {
      history := history[id := history[id] + [e]];
    }

    /** Hand a buffer to the data callbacks of a connected stream. */
    method Notify(id: StreamId, fromClient: bool, data: seq<byte>)
      requires id in tcphashmap && id in history
      modifies this`history
      ensures history == old(history)[id := old(history)[id] + Heard(tcphashmap[id].connected, [data], fromClient)]
    {
      assert history[id] + [] == history[id] && history == history[id := history[id]];
      if tcphashmap[id].connected {
        assert Heard(true, [data], fromClient) == [Data(if fromClient then FROMCLIENT else FROMSERVER, data)];
        Callback(id, Data(if fromClient then FROMCLIENT else FROMSERVER, data));
      }
    }

    // ----- The stream table -----

    method FindStreamAux(addr: Tuple4) returns (found: bool, id: StreamId)
      requires TableOk(State(), hash)
      ensures found <==> exists i :: HasAddr(State(), i, addr)
      ensures found ==> HasAddr(State(), id, addr)
    {
      var key := hash(addr);
      var bucket := set i | i in tcphashmap && tcphashmap[i].hashIndex == key;
      found, id := false, 0;
      while bucket != {}
        invariant bucket <= tcphashmap.Keys
        invariant forall i :: HasAddr(State(), i, addr) ==> i in bucket || found
        invariant found ==> HasAddr(State(), id, addr)
        decreases bucket
      {
        assert (forall i: nat :: i !in bucket) ==> bucket == {};
        var i :| i in bucket;
        bucket := bucket - {i};
        if tcphashmap[i].addr == addr {
          found, id := true, i;
        }
      }
    }

    /** Look for the packet's own address first, then for the reversed one. */
    method FindStream(addr: Tuple4) returns (r: Found)
      requires TableOk(State(), hash)
      ensures r == Lookup(State(), addr)
    {
      var found, id := FindStreamAux(addr);
      if found {
        assert forall a, b :: HasAddr(State(), a, addr) && HasAddr(State(), b, addr) ==> a == b;
        return Stream(id, true);
      }
      found, id := FindStreamAux(addr.Reversed());
      if found {
        assert forall a, b :: HasAddr(State(), a, addr.Reversed()) && HasAddr(State(), b, addr.Reversed()) ==> a == b;
        return Stream(id, false);
      }
      return NotFound;
    }

    method FreeTcpstream(id: StreamId)
      requires id in tcphashmap
      modifies this`tcphashmap, this`tcpTimeoutSet, this`finTimeoutSet
      ensures State() == Free(old(State()), id)
    {
      tcpTimeoutSet := EraseAll(tcpTimeoutSet, id);
      finTimeoutSet := EraseAll(finTimeoutSet, id);
      var key := tcphashmap[id].hashIndex;
      var range := set i | i in tcphashmap && tcphashmap[i].hashIndex == key;
      assert id in range;
      while range != {}
        modifies this`tcphashmap
        invariant id in range ==> tcphashmap == old(tcphashmap)
        invariant id !in range ==> tcphashmap == old(tcphashmap) - {id}
        decreases range
      {
        assert (forall i: nat :: i !in range) ==> range == {};
        var i :| i in range;
        range := range - {i};
        if i == id {
          tcphashmap := tcphashmap - {i};
        }
      }
    }

    /** Report a timeout on every connected stream, then empty everything. */
    method ClearAllStream()
      requires TableOk(State(), hash)
      modifies this`tcphashmap, this`tcpTimeoutSet, this`finTimeoutSet, this`history
      ensures State() == ClearAll(old(State()))
    {
      hide Distinct, OncePerStream, TimersOk;
      ghost var before := history;
      var todo := tcphashmap.Keys;
      while todo != {}
        modifies this`history
        invariant todo <= tcphashmap.Keys <= before.Keys && history.Keys == before.Keys
        invariant forall i :: i in before ==>
          history[i] == (if i in tcphashmap && i !in todo && tcphashmap[i].connected then before[i] + [TimedOut] else before[i])
        decreases todo
      {
        assert (forall i: nat :: i !in todo) ==> todo == {};
        var id :| id in todo;
        todo := todo - {id};
        if tcphashmap[id].connected {
          Callback(id, TimedOut);
        }
      }
      tcphashmap, tcpTimeoutSet, finTimeoutSet := map[], map[], map[];
    }

    method AddNewtcp(pkt: Packet)
      requires TableOk(State(), hash)
      modifies this`tcphashmap, this`tcpTimeoutSet, this`finTimeoutSet, this`history, this`nextNode
      ensures State() == AddNew(old(State()), pkt, hash, tableSize)
    {
      if |tcphashmap| >= tableSize {
        ClearAllStream();
      }
      var on, ws := ReadWscale(pkt.Options());
      var seqNum := U32(pkt.seqNum + 1);
      var client := pkt.junk.(count := 0, rmemAlloc := 0, ackSeq := 0, urgCount := 0, fraglist := []);
      var server := client.(state := CLOSE);
      client := client.(state := SYN_SENT, seqNum := seqNum, firstDataSeq := seqNum, window := pkt.win,
                        wscaleOn := on, wscale := ws);
      var id := nextNode;
      tcphashmap := tcphashmap[id := TcpStream(pkt.addr, hash(pkt.addr), client, server, false, pkt.now)];
      nextNode := nextNode + 1;
      history := history[id := []];
      AddTcptimeout(id, pkt.now);
    }

    // ----- Timeouts -----

    /** Report the end of a stream that timed out, and free it. */
    method Expire(id: StreamId, e: Event)
      requires TableOk(State(), hash)
      requires (exists t :: t in tcpTimeoutSet && tcpTimeoutSet[t] == id) || (exists t :: t in finTimeoutSet && finTimeoutSet[t] == id)
      modifies this`tcphashmap, this`tcpTimeoutSet, this`finTimeoutSet, this`history
      ensures State() == Free(Report(old(State()), id, e), id) && TableOk(State(), hash)
      ensures tcpTimeoutSet == DelTimeout(old(tcpTimeoutSet), id)
      ensures finTimeoutSet == DelTimeout(old(finTimeoutSet), id)
    {
      hide Distinct, OncePerStream;
      FreeKeepsTable(Report(State(), id, e), id, hash, |tcphashmap|);
      if tcphashmap[id].connected {
        Callback(id, e);
      }
      FreeTcpstream(id);
    }

    method CheckTcpTimers(now: int)
      requires TableOk(State(), hash)
      modifies this`tcphashmap, this`tcpTimeoutSet, this`finTimeoutSet, this`history
      ensures State() == CheckTcpTimeouts(old(State()), now) && TableOk(State(), hash)
    {
      hide TableOk, Free, Report;
      ghost var s0 := State();
      while tcpTimeoutSet != map[]
        invariant TableOk(State(), hash)
        invariant CheckTcpTimeouts(State(), now) == CheckTcpTimeouts(s0, now)
        decreases |tcpTimeoutSet|
      {
        FirstExists(tcpTimeoutSet);
        var t :| t in tcpTimeoutSet && forall u :: u in tcpTimeoutSet ==> t <= u;
        assert IsFirst(tcpTimeoutSet, t) && t == First(tcpTimeoutSet);
        if now < t {
          break;
        }
        DelTimeoutShrinks(tcpTimeoutSet, t);
        Expire(tcpTimeoutSet[t], TimedOut);
      }
    }

    method CheckFinTimers(now: int)
      requires TableOk(State(), hash)
      modifies this`tcphashmap, this`tcpTimeoutSet, this`finTimeoutSet, this`history
      ensures State() == CheckFinTimeouts(old(State()), now) && TableOk(State(), hash)
    {
      hide TableOk, Free, Report;
      ghost var s0 := State();
      while finTimeoutSet != map[]
        invariant TableOk(State(), hash)
        invariant CheckFinTimeouts(State(), now) == CheckFinTimeouts(s0, now)
        decreases |finTimeoutSet|
      {
        FirstExists(finTimeoutSet);
        var t :| t in finTimeoutSet && forall u :: u in finTimeoutSet ==> t <= u;
        assert IsFirst(finTimeoutSet, t) && t == First(finTimeoutSet);
        if now < t {
          break;
        }
        DelTimeoutShrinks(finTimeoutSet, t);
        Expire(finTimeoutSet[t], Closed);
      }
    }

    method TcpChecktimeouts(now: int)
      requires TableOk(State(), hash)
      modifies this`tcphashmap, this`tcpTimeoutSet, this`finTimeoutSet, this`history
      ensures State() == CheckTimeouts(old(State()), now) && TableOk(State(), hash)
    {
      CheckTcpTimers(now);
      CheckFinTimers(now);
    }

    // ----- Delivery -----

    /** The urgent byte lies in the new part: hand out what precedes it, the
        segment for its sake, and what follows it. */
    method DeliverAroundUrgent(id: StreamId, fromClient: bool, exp: u32, rcv0: HalfStream, data: Payload,
                               thisSeq: u32, ghost fin: bool)
      returns (rcv: HalfStream)
      requires id in tcphashmap && id in history
      requires Reaches(exp, thisSeq, |data|, fin) && UrgentInside(exp, rcv0, thisSeq, |data|)
      modifies this`history
      ensures var lost := U32(exp - thisSeq);
              var toCopy := I32(rcv0.urgPtr - exp); var toCopy2 := I32(thisSeq + |data| - rcv0.urgPtr - 1);
              && 0 <= toCopy && lost + toCopy + 1 <= |data|
              && rcv == rcv0.(count := I32(I32(rcv0.count + toCopy) + toCopy2), urgCount := I32(rcv0.urgCount + 1), urgSeen := false)
              && history == old(history)[id := old(history)[id] + Heard(tcphashmap[id].connected,
                   NonEmpty(data[lost..lost + toCopy]) + [data] + NonEmpty(data[lost + toCopy + 1..]), fromClient)]
    {
      hide U32, I32, After, Before, Heard, UrgentInside;
      rcv := rcv0;
      var lost := U32(exp - thisSeq);
      UrgentBounds(exp, rcv, thisSeq, data, fin);
      var toCopy := I32(rcv.urgPtr - exp);
      var toCopy2 := I32(thisSeq + |data| - rcv.urgPtr - 1);
      ghost var h, on := history[id], tcphashmap[id].connected;
      ghost var first, last := data[lost..lost + toCopy], data[lost + toCopy + 1..];
      SignedSmall(rcv.count);
      SignedSmall(I32(rcv.count + toCopy));
      HeardThree(h, on, NonEmpty(first), data, NonEmpty(last), fromClient);
      HeardIf(h, on, toCopy > 0, first, fromClient);
      if toCopy > 0 {
        rcv := rcv.(count := I32(rcv.count + toCopy));
        Notify(id, fromClient, data[lost..lost + toCopy]);
      }
      Notify(id, fromClient, data);
      rcv := rcv.(urgSeen := false, urgCount := I32(rcv.urgCount + 1));
      HeardIf(h + Heard(on, NonEmpty(first), fromClient) + Heard(on, [data], fromClient), on, toCopy2 > 0, last, fromClient);
      if toCopy2 > 0 {
        rcv := rcv.(count := I32(rcv.count + toCopy2));
        Notify(id, fromClient, data[lost + toCopy + 1..]);
      }
    }

    /** Deliver the new part of a segment. `snd` and `rcv` are the halves as the
        caller has them; the data callbacks run as the pieces become available. */
    method AddFromskb(id: StreamId, fromClient: bool, snd0: HalfStream, rcv0: HalfStream, data: Payload,
                      thisSeq: u32, fin: bool, urg: bool, urgPtr: u32, now: int)
      returns (snd: HalfStream, rcv: HalfStream, ghost d: Delivery)
      requires id in tcphashmap && id in history
      requires Reaches(ExpSeq(snd0, rcv0), thisSeq, |data|, fin)
      modifies this`history, this`finTimeoutSet
      ensures d == TcpReassembly.AddFromskb(snd0, rcv0, data, thisSeq, fin, urg, urgPtr) && snd == d.snd && rcv == d.rcv
      ensures history == Heed(old(history), id, tcphashmap[id].connected, d.chunks, fromClient)
      ensures finTimeoutSet == if d.finTimer then AddTimeout(old(finTimeoutSet), id, now + 5) else old(finTimeoutSet)
    {
      hide U32, I32, After, Before, Heard, UrgentInside;
      snd, rcv := snd0, rcv0;
      d := TcpReassembly.AddFromskb(snd0, rcv0, data, thisSeq, fin, urg, urgPtr);
      var exp := ExpSeq(snd, rcv);
      var lost := U32(exp - thisSeq);
      LostBounds(exp, thisSeq, data, fin);
      if urg && After(urgPtr, U32(exp - 1)) && (!rcv.urgSeen || After(urgPtr, rcv.urgPtr)) {
        rcv := rcv.(urgPtr := urgPtr, urgSeen := true);
      }
      if UrgentInside(exp, rcv, thisSeq, |data|) {
        rcv := DeliverAroundUrgent(id, fromClient, exp, rcv, data, thisSeq, fin);
      } else if |data| - lost > 0 {
        rcv := rcv.(count := I32(rcv.count + (|data| - lost)));
        Notify(id, fromClient, data[lost..]);
      } else {
        SignedSmall(rcv.count);
        HeardNothing(history, id, tcphashmap[id].connected, fromClient);
      }
      if fin {
        snd := snd.(state := FIN_SENT);
        if rcv.state == CLOSING {
          AddFintimeout(id, now);
        }
      }
    }

    /** Take an arriving segment: deliver it and whatever it makes deliverable,
        ignore it, or put it into the queue. */
    method TcpQueue(id: StreamId, fromClient: bool, sg: Segment, now: int)
      requires id in tcphashmap && id in history
      modifies this`tcphashmap, this`history, this`tcpTimeoutSet, this`finTimeoutSet
      ensures State() == Queued(old(State()), id, fromClient, sg, now)
    {
      hide U32, I32, After, Before, Heard, Heed, TcpReassembly.AddFromskb, Drain, AddTimeout, Restart;
      var stream := tcphashmap[id];
      var exp := ExpSeq(Sender(stream, fromClient), Receiver(stream, fromClient));
      if !After(sg.seqNum, exp) {
        if After(U32(sg.seqNum + |sg.data| + Bit(sg.fin)), exp) {
          Accept(id, fromClient, sg, now);
        } else {
          HeardNothing(history, id, stream.connected, fromClient);
          WithOwnHalves(tcphashmap, id, fromClient);
        }
      } else {
        HoldBack(id, fromClient, sg, now);
      }
    }

    method Accept(id: StreamId, fromClient: bool, sg: Segment, now: int)
      requires id in tcphashmap && id in history
      requires Reaches(ExpSeq(Sender(tcphashmap[id], fromClient), Receiver(tcphashmap[id], fromClient)), sg.seqNum, |sg.data|, sg.fin)
      modifies this`tcphashmap, this`history, this`tcpTimeoutSet, this`finTimeoutSet
      ensures State() == Queued(old(State()), id, fromClient, sg, now)
    {
      hide U32, I32, After, Before, Heard, Heed, TcpReassembly.AddFromskb, Drain, AddTimeout, Restart;
      var stream := tcphashmap[id];
      var snd, rcv := Sender(stream, fromClient), Receiver(stream, fromClient);
      ghost var h, timers := history, tcpTimeoutSet;
      AddTwice(finTimeoutSet, id, now + 5);
      UpdateTcptimeout(id, now);
      var snd1, rcv1, d := AddFromskb(id, fromClient, snd, rcv, sg.data, sg.seqNum, sg.fin, sg.urg,
                                      U32(sg.urp + sg.seqNum - 1), now);
      var snd2, rcv2, r := GoForward(id, fromClient, snd1, rcv1, timers, now);
      HeedAppend(h, id, stream.connected, d.chunks, r.chunks, fromClient);
      tcphashmap := tcphashmap[id := WithHalves(stream, fromClient, snd2, rcv2)];
    }

    method HoldBack(id: StreamId, fromClient: bool, sg: Segment, now: int)
      requires id in tcphashmap && id in history
      requires After(sg.seqNum, ExpSeq(Sender(tcphashmap[id], fromClient), Receiver(tcphashmap[id], fromClient)))
      modifies this`tcphashmap, this`finTimeoutSet
      ensures State() == Queued(old(State()), id, fromClient, sg, now)
    {
      hide U32, I32, After, Before, Heard, Heed, AddTimeout, Restart, InsertAt;
      var stream := tcphashmap[id];
      var snd, rcv := Sender(stream, fromClient), Receiver(stream, fromClient);
      HeardNothing(history, id, stream.connected, fromClient);
      rcv := rcv.(rmemAlloc := rcv.rmemAlloc + sg.skblen);
      var pakiet := Skbuff(sg.data, sg.skblen, sg.urp, sg.fin, sg.urg, sg.seqNum);
      if sg.fin {
        snd := snd.(state := CLOSING);
        if rcv.state == FIN_SENT || rcv.state == FIN_CONFIRMED {
          AddFintimeout(id, now);
        }
      }
      var it := FindPlace(rcv.fraglist, sg.seqNum);
      rcv := rcv.(fraglist := rcv.fraglist[..it] + [pakiet] + rcv.fraglist[it..]);
      tcphashmap := tcphashmap[id := WithHalves(stream, fromClient, snd, rcv)];
    }

    /** Go forward from the segment just delivered through the queue. */
    method GoForward(id: StreamId, fromClient: bool, snd0: HalfStream, rcv0: HalfStream, ghost timers: Timers, now: int)
      returns (snd: HalfStream, rcv: HalfStream, ghost d: Delivery)
      requires id in tcphashmap && id in history
      requires tcpTimeoutSet == Restart(timers, id, now + 30)
      modifies this`history, this`tcpTimeoutSet, this`finTimeoutSet
      ensures d == Drain(snd0, rcv0) && snd == d.snd && rcv == d.rcv
      ensures history == Heed(old(history), id, tcphashmap[id].connected, d.chunks, fromClient)
      ensures finTimeoutSet == if d.finTimer then AddTimeout(old(finTimeoutSet), id, now + 5) else old(finTimeoutSet)
      ensures tcpTimeoutSet == old(tcpTimeoutSet)
    {
      hide U32, I32, After, Before, Heard, Heed, TcpReassembly.AddFromskb, AddTimeout, Restart;
      ghost var fins, h, on := finTimeoutSet, history, tcphashmap[id].connected;
      snd, rcv := snd0, rcv0;
      d := Drain(snd0, rcv0);
      ghost var chunks, fin := [], false;
      HeardNothing(history, id, on, fromClient);
      AddTwice(fins, id, now + 5);
      while rcv.fraglist != []
        modifies this`history, this`tcpTimeoutSet, this`finTimeoutSet
        invariant d == Drain(snd, rcv).(chunks := chunks + Drain(snd, rcv).chunks, finTimer := fin || Drain(snd, rcv).finTimer)
        invariant tcpTimeoutSet == Restart(timers, id, now + 30)
        invariant id in history && history == Heed(h, id, on, chunks, fromClient)
        invariant finTimeoutSet == if fin then AddTimeout(fins, id, now + 5) else fins
        decreases |rcv.fraglist|
      {
        var frag := rcv.fraglist[0];
        if After(frag.seqNum, ExpSeq(snd, rcv)) {
          break;
        }
        ghost var head := DeliverHead(snd, rcv);
        HeedAppend(h, id, on, chunks, head.chunks, fromClient);
        assert chunks + (head.chunks + Drain(head.snd, head.rcv).chunks) == (chunks + head.chunks) + Drain(head.snd, head.rcv).chunks;
        snd, rcv := TakeHead(id, fromClient, snd, rcv, timers, now);
        chunks, fin := chunks + head.chunks, fin || head.finTimer;
      }
      assert chunks + [] == chunks;
    }

    /** Deliver what is new in the first queue entry, and erase it. */
    method TakeHead(id: StreamId, fromClient: bool, snd0: HalfStream, rcv0: HalfStream, ghost timers: Timers, now: int)
      returns (snd: HalfStream, rcv: HalfStream)
      requires id in tcphashmap && id in history
      requires rcv0.fraglist != [] && !After(rcv0.fraglist[0].seqNum, ExpSeq(snd0, rcv0))
      requires tcpTimeoutSet == Restart(timers, id, now + 30)
      modifies this`history, this`tcpTimeoutSet, this`finTimeoutSet
      ensures var d := DeliverHead(snd0, rcv0);
              && snd == d.snd && rcv == d.rcv
              && history == Heed(old(history), id, tcphashmap[id].connected, d.chunks, fromClient)
              && finTimeoutSet == (if d.finTimer then AddTimeout(old(finTimeoutSet), id, now + 5) else old(finTimeoutSet))
      ensures tcpTimeoutSet == old(tcpTimeoutSet)
    {
      hide U32, I32, After, Before, Heard, Heed, TcpReassembly.AddFromskb, AddTimeout, Restart;
      snd, rcv := snd0, rcv0;
      var frag := rcv.fraglist[0];
      RestartTwice(timers, id, now + 30);
      HeardNothing(history, id, tcphashmap[id].connected, fromClient);
      if After(U32(frag.seqNum + |frag.data| + Bit(frag.fin)), ExpSeq(snd, rcv)) {
        UpdateTcptimeout(id, now);
        ghost var d;
        snd, rcv, d := AddFromskb(id, fromClient, snd, rcv, frag.data, frag.seqNum, frag.fin, frag.urg,
                                  U32(frag.urgPtr + frag.seqNum - 1), now);
      }
      rcv := rcv.(rmemAlloc := rcv.rmemAlloc - frag.truesize, fraglist := rcv0.fraglist[1..]);
    }

    /** Walk the queue to the first entry that starts after `thisSeq`. */
    static method FindPlace(fraglist: seq<Skbuff>, thisSeq: u32) returns (it: nat)
      ensures it == InsertAt(fraglist, thisSeq)
    {
      hide After;
      it := 0;
      while it < |fraglist|
        invariant it <= |fraglist|
        invariant InsertAt(fraglist, thisSeq) == it + InsertAt(fraglist[it..], thisSeq)
      {
        if After(fraglist[it].seqNum, thisSeq) {
          break;
        }
        it := it + 1;
      }
    }

    // ----- One captured packet -----

    method ProcessTcp(pkt: Packet)
      requires Valid()
      modifies this
      ensures Valid() && trace == old(trace) + [pkt]
      ensures State() == Process(old(State()), pkt, hash, tableSize)
    {
      hide TableOk, Process, StreamStep, Apply, AddNew, Free, CheckTimeouts, Lookup, StreamsOk;
      ghost var s := State();
      ProcessKeeps(trace, s, pkt, hash, tableSize);
      assert (trace + [pkt])[..|trace|] == trace;
      CheckTimeoutsKeeps(trace, s, pkt.now, hash, tableSize);
      TcpChecktimeouts(pkt.now);
      ghost var s0 := State();
      Dispatch(pkt);
      ProcessUnfolds(s, s0, State(), pkt, hash, tableSize);
      trace := trace + [pkt];
    }

    /** Everything `processTcp` does after the timeout check. */
    method Dispatch(pkt: Packet)
      requires TableOk(State(), hash)
      modifies this`tcphashmap, this`history, this`tcpTimeoutSet, this`finTimeoutSet, this`nextNode
      ensures Dispatched(old(State()), State(), pkt, hash, tableSize)
    {
      hide Process, StreamStep, Apply, AddNew, Free, Lookup, Distinct, OncePerStream;
      if |pkt.segment| < 20 || pkt.DataLen() < 0 || (pkt.addr.src.ip == 0 && pkt.addr.dst.ip == 0) {
        return;
      }
      LookupDirection(State(), pkt.addr, hash);
      var r := FindStream(pkt.addr);
      if r == NotFound {
        if pkt.syn && !pkt.ackFlag && !pkt.rst {
          AddNewtcp(pkt);
        }
        return;
      }
      var id, fromClient := r.id, r.fromClient;
      if pkt.syn && !pkt.ackFlag && !pkt.rst {
        FreeKeepsTable(State(), id, hash, |tcphashmap|);
        FreeTcpstream(id);
        AddNewtcp(pkt);
        return;
      }
      KnownStream(id, fromClient, pkt);
    }

    /** A packet of a stream in the table that does not open a connection. From
        the client a SYN is then ignored: the code there that would restart an
        old stream tests for flags already excluded. */
    method KnownStream(id: StreamId, fromClient: bool, pkt: Packet)
      requires id in tcphashmap && id in history && pkt.DataLen() >= 0
      modifies this`tcphashmap, this`history, this`tcpTimeoutSet, this`finTimeoutSet
      ensures State() == Apply(old(State()), id, StreamStep(old(tcphashmap[id]), fromClient, pkt), pkt.now)
    {
      hide Before, GetWscale, Absorb, Acknowledge, Free;
      var s := tcphashmap[id];
      ApplyStay(State(), id, pkt.now);
      if pkt.syn {
        if fromClient {
          return;
        }
        if s.client.state != SYN_SENT || s.server.state != CLOSE || !pkt.ackFlag {
          return;
        }
        if s.client.seqNum != pkt.ack {
          return;
        }
        Answer(id, pkt);
        return;
      }
      var rcv := Receiver(s, fromClient);
      if !(pkt.DataLen() == 0 && pkt.seqNum == rcv.ackSeq) &&
         (!Before(pkt.seqNum, U32(rcv.ackSeq + rcv.window * rcv.wscale)) ||
          Before(U32(pkt.seqNum + pkt.DataLen()), rcv.ackSeq)) {
        return;
      }
      if pkt.rst {
        ApplyReset(State(), id, fromClient, pkt);
        if s.connected {
          Callback(id, Reset);
        }
        FreeTcpstream(id);
        return;
      }
      AcceptedPacket(id, fromClient, pkt);
    }

    /** The server's SYN/ACK. */
    method Answer(id: StreamId, pkt: Packet)
      requires id in tcphashmap && id in history
      modifies this`tcphashmap
      ensures State() == Apply(old(State()), id, Stay(SynAck(old(tcphashmap[id]), pkt)), pkt.now)
    {
      hide GetWscale;
      var s := tcphashmap[id];
      var seqNum := U32(pkt.seqNum + 1);
      var client := s.client;
      var server := s.server.(state := SYN_RECV, seqNum := seqNum, firstDataSeq := seqNum,
                              ackSeq := pkt.ack, window := pkt.win);
      if client.wscaleOn {
        var on, ws := ReadWscale(pkt.Options());
        server := server.(wscaleOn := on, wscale := ws);
        if !on {
          client := client.(wscaleOn := false, wscale := 1);
          server := server.(wscale := 1);
        }
      } else {
        server := server.(wscaleOn := false, wscale := 1);
      }
      tcphashmap := tcphashmap[id := s.(ts := pkt.now, client := client, server := server)];
      assert history[id] + [] == history[id];
      assert history[id := history[id]] == history;
    }

    /** A packet inside the window and without RST: acknowledgement, handshake
        completion, orderly close, and data. */
    method AcceptedPacket(id: StreamId, fromClient: bool, pkt: Packet)
      requires id in tcphashmap && id in history
      requires pkt.DataLen() >= 0 && !pkt.syn && !pkt.rst
      requires !OutOfWindow(Receiver(tcphashmap[id], fromClient), pkt)
      modifies this`tcphashmap, this`history, this`tcpTimeoutSet, this`finTimeoutSet
      ensures State() == Apply(old(State()), id, StreamStep(old(tcphashmap[id]), fromClient, pkt), pkt.now)
    {
      hide I32, OutOfWindow, Absorb, Absorbed, Apply, Free, Incoming;
      ghost var s0 := State();
      var s := tcphashmap[id];
      ghost var opening := [];
      assert history[id] + [] == history[id] && history[id := history[id]] == history;
      if pkt.ackFlag {
        if fromClient && s.client.state == SYN_SENT && s.server.state == SYN_RECV && pkt.ack == s.server.seqNum {
          s := s.(client := s.client.(state := ESTABLISHED, ackSeq := pkt.ack), ts := pkt.now,
                  server := s.server.(state := ESTABLISHED));
          Callback(id, Connected(s.addr));
          s := s.(connected := true);
          opening := [Connected(s.addr)];
        }
        s := UpdateAck(s, fromClient, pkt.ack);
      }
      tcphashmap := tcphashmap[id := s];
      assert State() == Log(s0.(streams := s0.streams[id := s]), id, opening);
      if pkt.ackFlag && s.client.state == FIN_CONFIRMED && s.server.state == FIN_CONFIRMED {
        ApplyClose(s0, id, s, opening, pkt.now);
        if s.connected {
          Callback(id, Closed);
        }
        FreeTcpstream(id);
        return;
      }
      ApplyAbsorb(s0, id, s, opening, fromClient, pkt);
      TakeData(id, fromClient, pkt);
    }

    /** Queue the data and the FIN, take over the window, and drop a stream
        whose queue has grown too large. */
    method TakeData(id: StreamId, fromClient: bool, pkt: Packet)
      requires id in tcphashmap && id in history && pkt.DataLen() >= 0
      modifies this`tcphashmap, this`history, this`tcpTimeoutSet, this`finTimeoutSet
      ensures State() == Absorbed(old(State()), id, fromClient, pkt)
    {
      hide Queued, Free, Incoming;
      if pkt.DataLen() + Bit(pkt.fin) > 0 {
        QueuedKeepsId(State(), id, fromClient, Incoming(pkt), pkt.now);
        TcpQueue(id, fromClient, Incoming(pkt), pkt.now);
      }
      var s := tcphashmap[id];
      var snd := Sender(s, fromClient);
      tcphashmap := tcphashmap[id := WithHalves(s, fromClient, snd.(window := pkt.win), Receiver(s, fromClient))];
      if Receiver(s, fromClient).rmemAlloc > 65535 {
        FreeTcpstream(id);
      }
    }

    static method UpdateAck(s0: TcpStream, fromClient: bool, ack: u32) returns (s: TcpStream)
      ensures s == WithHalves(s0, fromClient, HandleAck(Sender(s0, fromClient), ack),
                     if Receiver(s0, fromClient).state == FIN_SENT then Receiver(s0, fromClient).(state := FIN_CONFIRMED)
                     else Receiver(s0, fromClient))
    {
      var snd, rcv := Sender(s0, fromClient), Receiver(s0, fromClient);
      if I32(ack - snd.ackSeq) > 0 {
        snd := snd.(ackSeq := ack);
      }
      if rcv.state == FIN_SENT {
        rcv := rcv.(state := FIN_CONFIRMED);
      }
      s := WithHalves(s0, fromClient, snd, rcv);
    }
  }

  /** `Process` without its timeout check, relating the states around it. */
  ghost predicate Dispatched(s0: Tcp, s1: Tcp, pkt: Packet, hash: Tuple4 -> nat, tableSize: nat) {
    if !pkt.Sound() then s1 == s0
    else
      match Lookup(s0, pkt.addr)
      case NotFound => s1 == if pkt.Opens() then AddNew(s0, pkt, hash, tableSize) else s0
      case Stream(id, fromClient) =>
        id in s0.streams &&
        s1 == if pkt.Opens() then AddNew(Free(s0, id), pkt, hash, tableSize)
              else Apply(s0, id, StreamStep(s0.streams[id], fromClient, pkt), pkt.now)
  }

  lemma ProcessUnfolds(s: Tcp, s0: Tcp, s1: Tcp, pkt: Packet, hash: Tuple4 -> nat, tableSize: nat)
    requires s0 == CheckTimeouts(s, pkt.now) && Dispatched(s0, s1, pkt, hash, tableSize)
    ensures s1 == Process(s, pkt, hash, tableSize)
  {
    hide CheckTimeouts, Lookup, AddNew, Free, Apply, StreamStep;
  }

  lemma ApplyStay(s: Tcp, id: StreamId, now: int)
    requires id in s.streams && id in s.history
    ensures Apply(s, id, Stay(s.streams[id]), now) == s
  {
    assert s.history[id] + [] == s.history[id];
    assert s.history[id := s.history[id]] == s.history;
    assert s.streams[id := s.streams[id]] == s.streams;
  }

  lemma ApplyReset(s: Tcp, id: StreamId, fromClient: bool, pkt: Packet)
    requires id in s.streams && id in s.history
    ensures Apply(s, id, Outcome(s.streams[id], if s.streams[id].connected then [Reset] else [], true, false, false), pkt.now)
            == Free(Report(s, id, Reset), id)
  {
    assert s.history[id] + [] == s.history[id];
    assert s.history[id := s.history[id]] == s.history;
    assert s.streams[id := s.streams[id]] == s.streams;
  }

  lemma ApplyClose(s: Tcp, id: StreamId, stream: TcpStream, opening: seq<Event>, now: int)
    requires id in s.streams && id in s.history
    ensures var s1 := Log(s.(streams := s.streams[id := stream]), id, opening);
            Apply(s, id, Outcome(stream, opening + if stream.connected then [Closed] else [], true, false, false), now)
            == Free(Report(s1, id, Closed), id)
  {
    hide Free;
    var h := s.history[id];
    assert h + (opening + [Closed]) == (h + opening) + [Closed];
    assert opening + [] == opening;
    assert s.history[id := h + opening][id := h + opening + [Closed]] == s.history[id := h + opening + [Closed]];
  }

  /** The tracker after the data part of a packet. */
  function WindowTaken(s: Tcp, id: StreamId, fromClient: bool, win: u16): Tcp
    requires id in s.streams
  {
    var t := s.streams[id];
    s.(streams := s.streams[id := WithHalves(t, fromClient, Sender(t, fromClient).(window := win), Receiver(t, fromClient))])
  }

  function Absorbed(s: Tcp, id: StreamId, fromClient: bool, pkt: Packet): Tcp
    requires id in s.streams && id in s.history && pkt.DataLen() >= 0
  {
    var s2 := if pkt.DataLen() + Bit(pkt.fin) > 0 then Queued(s, id, fromClient, Incoming(pkt), pkt.now) else s;
    var s3 := WindowTaken(s2, id, fromClient, pkt.win);
    if Receiver(s2.streams[id], fromClient).rmemAlloc > 65535 then Free(s3, id) else s3
  }

  lemma QueuedKeepsId(s: Tcp, id: StreamId, fromClient: bool, sg: Segment, now: int)
    requires id in s.streams && id in s.history
    ensures id in Queued(s, id, fromClient, sg, now).streams
  {
  }

  lemma NoData(dir: Direction)
    ensures DataEvents([], dir) == []
  {
  }

  /** What has been done to a stream so far, and then its data part, make one outcome. */
  lemma ApplyAbsorb(s: Tcp, id: StreamId, stream: TcpStream, opening: seq<Event>, fromClient: bool, pkt: Packet)
    requires id in s.streams && id in s.history && pkt.DataLen() >= 0
    ensures var a := Absorb(stream, fromClient, pkt);
            var s1 := Log(s.(streams := s.streams[id := stream]), id, opening);
            Apply(s, id, a.(events := opening + a.events), pkt.now) == Absorbed(s1, id, fromClient, pkt)
  {
    hide Free, TcpReassembly.TcpQueue, AddTimeout, Restart, Incoming, DataEvents;
    var a := Absorb(stream, fromClient, pkt);
    var s1 := Log(s.(streams := s.streams[id := stream]), id, opening);
    var h := s.history[id];
    var q := pkt.DataLen() + Bit(pkt.fin) > 0;
    var s2 := if q then Queued(s1, id, fromClient, Incoming(pkt), pkt.now) else s1;
    var s3 := WindowTaken(s2, id, fromClient, pkt.win);
    var r := Record(s, id, a.(events := opening + a.events), pkt.now);
    assert r.streams == s3.streams;
    assert r.history == s3.history by {
      assert h + (opening + a.events) == (h + opening) + a.events;
      assert h + opening + [] == h + opening;
      NoData(if fromClient then FROMCLIENT else FROMSERVER);
    }
    assert r == s3;
  }

  /** The data callbacks of a connected stream hear each buffer. */
  function Heard(connected: bool, chunks: seq<seq<byte>>, fromClient: bool): seq<Event> {
    if connected then DataEvents(chunks, if fromClient then FROMCLIENT else FROMSERVER) else []
  }

  /** The history after a stream has heard some buffers. */
  function Heed(history: map<StreamId, seq<Event>>, id: StreamId, on: bool, chunks: seq<seq<byte>>,
                fromClient: bool): (r: map<StreamId, seq<Event>>)
    requires id in history
    ensures id in r
  {
    history[id := history[id] + Heard(on, chunks, fromClient)]
  }

  lemma HeedAppend(history: map<StreamId, seq<Event>>, id: StreamId, on: bool,
                   a: seq<seq<byte>>, b: seq<seq<byte>>, fromClient: bool)
    requires id in history
    ensures Heed(Heed(history, id, on, a, fromClient), id, on, b, fromClient) == Heed(history, id, on, a + b, fromClient)
  {
    HeardAppend(on, a, b, fromClient);
    assert history[id] + (Heard(on, a, fromClient) + Heard(on, b, fromClient))
           == history[id] + Heard(on, a, fromClient) + Heard(on, b, fromClient);
  }

  lemma HeardNothing(history: map<StreamId, seq<Event>>, id: StreamId, on: bool, fromClient: bool)
    requires id in history
    ensures Heed(history, id, on, [], fromClient) == history
  {
    assert Heard(on, [], fromClient) == [];
    assert history[id] + [] == history[id];
    assert history[id := history[id]] == history;
  }

  lemma HeardIf(h: seq<Event>, on: bool, some: bool, data: seq<byte>, fromClient: bool)
    requires some <==> data != []
    ensures h + Heard(on, NonEmpty(data), fromClient) == if some then h + Heard(on, [data], fromClient) else h
  {
    assert h + [] == h;
  }

  lemma HeardAppend(on: bool, a: seq<seq<byte>>, b: seq<seq<byte>>, fromClient: bool)
    ensures Heard(on, a + b, fromClient) == Heard(on, a, fromClient) + Heard(on, b, fromClient)
  {
  }

  lemma HeardThree(h: seq<Event>, on: bool, a: seq<seq<byte>>, data: seq<byte>, b: seq<seq<byte>>, fromClient: bool)
    ensures h + Heard(on, a + [data] + b, fromClient)
            == h + Heard(on, a, fromClient) + Heard(on, [data], fromClient) + Heard(on, b, fromClient)
  {
    HeardAppend(on, a + [data], b, fromClient);
    HeardAppend(on, a, [data], fromClient);
  }

  /** The tracker after `TcpQueue` has run for one of its streams. */
  function Queued(s: Tcp, id: StreamId, fromClient: bool, sg: Segment, now: int): Tcp
    requires id in s.streams && id in s.history
  {
    var stream := s.streams[id];
    var q := TcpReassembly.TcpQueue(Sender(stream, fromClient), Receiver(stream, fromClient), sg);
    s.(streams := s.streams[id := WithHalves(stream, fromClient, q.snd, q.rcv)],
       tcpTimeouts := if q.touched then Restart(s.tcpTimeouts, id, now + 30) else s.tcpTimeouts,
       finTimeouts := if q.finTimer then AddTimeout(s.finTimeouts, id, now + 5) else s.finTimeouts,
       history := Heed(s.history, id, stream.connected, q.chunks, fromClient))
  }

  lemma WithOwnHalves(streams: map<StreamId, TcpStream>, id: StreamId, fromClient: bool)
    requires id in streams
    ensures WithHalves(streams[id], fromClient, Sender(streams[id], fromClient), Receiver(streams[id], fromClient)) == streams[id]
    ensures streams[id := streams[id]] == streams
  {
  }

  lemma AddTwice(timers: Timers, id: StreamId, second: int)
    ensures AddTimeout(AddTimeout(timers, id, second), id, second) == AddTimeout(timers, id, second)
  {
  }

  /** Restarting a timer twice within one packet is restarting it once. */
  lemma RestartTwice(timers: Timers, id: StreamId, second: int)
    ensures Restart(Restart(timers, id, second), id, second) == Restart(timers, id, second)
  {
    var once := Restart(timers, id, second);
    assert DelTimeout(once, id) == DelTimeout(timers, id);
  }
}
