/** What holds over every capture of IP packets: memory stays bounded, timers
    stay in order, datagrams handed on are genuine, and an undisturbed datagram
    is reassembled as if it came alone. */
module IpRun {
  import opened SeqArith
  import opened IpChain
  import opened IpRoundTrip
  import opened IpDefrag

  // ----- Memory bound -----

  /** The largest copy of a fragment. */
  const MAX_TRUESIZE: int := 65720

  /** A host can exceed the high threshold by one queue and one fragment. */
  const MEM_LIMIT: int := IPFRAG_HIGH_THRESH + SIZEOF_IPQ + HEADER_ROOM + SIZEOF_IPFRAG + MAX_TRUESIZE

  ghost predicate Bounded(s: Defrag) {
    forall dst :: dst in s.hosts ==> s.hosts[dst].mem <= MEM_LIMIT
  }

  /** Queues and hosts only leave, and hosts only get lighter. */
  ghost predicate Shrinks(s: Defrag, r: Defrag) {
    && (forall dst :: dst in r.hosts ==> dst in s.hosts && r.hosts[dst].mem <= s.hosts[dst].mem)
    && (forall k :: k in r.queues ==> k in s.queues && r.queues[k] == s.queues[k])
  }

  lemma FreeShrinksAll(s: Defrag, key: Key)
    requires Ok(s) && key in s.queues && key.dst in s.hosts
    ensures Shrinks(s, FreeQueue(s, key)) && FreeQueue(s, key).queues == s.queues - {key}
  {
    hide ChainOk, NoRepeat, TimersOk, ChargeAll, DelTimer, Remove;
    FragsPositive(s.queues[key].frags);
  }

  lemma {:induction false} ExpireShrinks(s: Defrag, now: int)
    requires Ok(s)
    ensures Shrinks(s, Expire(s, now))
    decreases |s.timers|
  {
    hide Ok, FreeQueue;
    if s.timers != [] {
      HeadKnown(s);
      if s.timers[0].expires < now {
        var key := s.timers[0].key;
        FreeQueueOk(s, key);
        DelTimerFacts(s.timers, key);
        FreeTimers(s, key);
        FreeShrinksAll(s, key);
        ExpireShrinks(FreeQueue(s, key), now);
      }
    }
  }

  lemma {:induction false} EvictShrinks(s: Defrag, dst: u32)
    requires Ok(s)
    ensures Shrinks(s, Evict(s, dst))
    decreases if dst in s.hosts then |s.hosts[dst].keys| + 1 else 0
  {
    hide FreeQueue, QueueOk, NoRepeat, TimersOk, ChargeAll;
    if dst in s.hosts {
      assert HostOk(s, dst);
      if s.hosts[dst].mem > IPFRAG_LOW_THRESH {
        var key := s.hosts[dst].keys[0];
        FreeQueueOk(s, key);
        FreeShrinks(s, key);
        FreeShrinksAll(s, key);
        EvictShrinks(FreeQueue(s, key), dst);
      }
    }
  }

  lemma {:induction false} KilledPositive(next: seq<Frag>, end: int)
    ensures Killed(next, end) >= 0
  {
    if next != [] {
      KilledPositive(next[1..], end);
    }
  }

  lemma TruesizeBound(p: Packet)
    ensures Truesize(p) <= MAX_TRUESIZE
  {
  }

  lemma StoreBounded(s: Defrag, p: Packet, now: int, junk: nat -> byte)
    requires Ok(s) && Bounded(s)
    requires p.hdr.dst in s.hosts ==> s.hosts[p.hdr.dst].mem <= IPFRAG_HIGH_THRESH
    ensures Bounded(Store(s, p, now, junk).0)
  {
    hide Ok, FreeQueue, Done, Glue, AddFragment, Killed, Place, Truesize, DelTimer, Opened;
    var key := KeyOf(p.hdr);
    ChainsOk(s);
    EnqueueOk(s, p, now);
    EnqueueKnows(s, p, now);
    var s1 := Enqueue(s, p, now);
    assert Bounded(s1) && s1.hosts[key.dst].mem <= IPFRAG_HIGH_THRESH + SIZEOF_IPQ + HEADER_ROOM;
    if !p.Oversize() {
      TruesizeBound(p);
      KilledPositive(s1.queues[key].frags[Place(s1.queues[key].frags, p.Offset())..], p.End());
      InsertKeepsOk(s1, p);
      InsertKnows(s1, p);
      var s2 := IpDefrag.Insert(s1, p);
      assert Bounded(s2);
      FreeQueueOk(s2, key);
      FreeShrinksAll(s2, key);
    }
  }

  /** After every packet each host holds at most the high threshold plus one queue and one fragment. */
  lemma ReceiveBounded(s: Defrag, p: Packet, now: int, junk: nat -> byte)
    requires Ok(s) && Bounded(s)
    ensures Bounded(Receive(s, p, now, junk).0)
  {
    hide Ok, Store, FreeQueue, Expire, Evict;
    var s0 := Expire(s, now);
    ExpireOk(s, now);
    ExpireShrinks(s, now);
    RelieveOk(s0, p.hdr.dst);
    EvictShrinks(s0, p.hdr.dst);
    var s1 := Relieve(s0, p.hdr.dst);
    if p.Fragment() {
      StoreBounded(s1, p, now, junk);
    } else if KeyOf(p.hdr) in s1.queues {
      FreeQueueOk(s1, KeyOf(p.hdr));
      FreeShrinksAll(s1, KeyOf(p.hdr));
    }
  }

  // ----- Timers in order -----

  ghost predicate InOrder(timers: seq<Timer>) {
    timers == [] || ((forall t :: t in timers[1..] ==> timers[0].expires <= t.expires) && InOrder(timers[1..]))
  }

  ghost predicate NoneAfter(timers: seq<Timer>, limit: int) {
    forall t :: t in timers ==> t.expires <= limit
  }

  lemma {:induction false} DelTimerOrder(timers: seq<Timer>, key: Key)
    ensures forall t :: t in DelTimer(timers, key) ==> t in timers
    ensures InOrder(timers) ==> InOrder(DelTimer(timers, key))
  {
    if timers != [] {
      DelTimerOrder(timers[1..], key);
      if timers[0].key != key {
        assert DelTimer(timers, key)[1..] == DelTimer(timers[1..], key);
      }
    }
  }

  lemma {:induction false} AppendOrder(timers: seq<Timer>, t: Timer)
    requires InOrder(timers) && NoneAfter(timers, t.expires)
    ensures InOrder(timers + [t]) && NoneAfter(timers + [t], t.expires)
  {
    if timers != [] {
      assert (timers + [t])[1..] == timers[1..] + [t];
      AppendOrder(timers[1..], t);
    } else {
      assert timers + [t] == [t];
    }
  }

  /** Timers are sorted by expiry, none later than a queue touched now would have. */
  ghost predicate Ordered(s: Defrag, now: int) {
    InOrder(s.timers) && NoneAfter(s.timers, now + IP_FRAG_TIME)
  }

  lemma {:induction false} ExpireOrdered(s: Defrag, now: int, last: int)
    requires Ordered(s, last)
    ensures Ordered(Expire(s, now), last)
    decreases |s.timers|
  {
    if s.timers != [] && s.timers[0].expires < now && s.timers[0].key in s.queues && s.timers[0].key.dst in s.hosts {
      DelTimerFacts(s.timers, s.timers[0].key);
      DelTimerOrder(s.timers, s.timers[0].key);
      ExpireOrdered(FreeQueue(s, s.timers[0].key), now, last);
    }
  }

  lemma {:induction false} EvictOrdered(s: Defrag, dst: u32, last: int)
    requires Ordered(s, last)
    ensures Ordered(Evict(s, dst), last)
    ensures forall t :: t in Evict(s, dst).timers ==> t in s.timers
    decreases if dst in s.hosts then |s.hosts[dst].keys| + 1 else 0
  {
    hide NoRepeat;
    if dst in s.hosts && s.hosts[dst].mem > IPFRAG_LOW_THRESH && s.hosts[dst].keys != [] &&
       s.hosts[dst].keys[0] in s.queues && s.hosts[dst].keys[0].dst == dst {
      DelTimerOrder(s.timers, s.hosts[dst].keys[0]);
      EvictOrdered(FreeQueue(s, s.hosts[dst].keys[0]), dst, last);
    }
  }

  lemma StoreOrdered(s: Defrag, p: Packet, now: int, junk: nat -> byte)
    requires Ok(s) && Ordered(s, now)
    ensures Ordered(Store(s, p, now, junk).0, now)
    ensures forall t :: t in Store(s, p, now, junk).0.timers ==> t in s.timers || t.expires == now + IP_FRAG_TIME
  {
    hide Ok, DelTimer, ChainOk, Done, Glue, AddFragment, Killed, Place, Truesize, Opened, Charge, Remove, InOrder;
    var key := KeyOf(p.hdr);
    ChainsOk(s);
    DelTimerOrder(s.timers, key);
    var ts := AddTimer(DelTimer(s.timers, key), key, now);
    AppendOrder(DelTimer(s.timers, key), Timer(key, now + IP_FRAG_TIME));
    DelTimerOrder(ts, key);
    EnqueueKnows(s, p, now);
  }

  /** With a clock that does not run backwards the timer list stays sorted, and
      no timer that was due is left. */
  lemma ReceiveOrdered(s: Defrag, p: Packet, now: int, last: int, junk: nat -> byte)
    requires Ok(s) && Ordered(s, last) && last <= now
    ensures var r := Receive(s, p, now, junk).0;
            Ordered(r, now) && forall t :: t in r.timers ==> now <= t.expires
  {
    hide Ok, Store, Expire, Evict, ChainOk, Charge, Remove, InOrder;
    var s0 := Expire(s, now);
    ExpireOk(s, now);
    ExpireOrdered(s, now, last);
    NoneDue(s0.timers, now);
    RelieveOk(s0, p.hdr.dst);
    EvictOrdered(s0, p.hdr.dst, last);
    var s1 := Relieve(s0, p.hdr.dst);
    if p.Fragment() {
      StoreOrdered(s1, p, now, junk);
    } else if KeyOf(p.hdr) in s1.queues {
      FreeQueueOk(s1, KeyOf(p.hdr));
      DelTimerOrder(s1.timers, KeyOf(p.hdr));
    }
  }

  lemma NoneDue(timers: seq<Timer>, now: int)
    requires InOrder(timers) && (timers != [] ==> now <= timers[0].expires)
    ensures forall t :: t in timers ==> now <= t.expires
  {
  }

  // ----- Whole captures -----

  datatype Input = Input(p: Packet, now: int)

  const START: Defrag := Defrag(map[], map[], [])

  lemma StartOk()
    ensures Ok(START)
  {
  }

  /** State and result after the last packet of a capture. */
  ghost function Run(trace: seq<Input>, junk: nat -> byte): (r: (Defrag, Result))
    ensures Ok(r.0)
  {
    StartOk();
    if trace == [] then (START, NotFragment)
    else
      var n := |trace| - 1;
      ReceiveOk(Run(trace[..n], junk).0, trace[n].p, trace[n].now, junk);
      Receive(Run(trace[..n], junk).0, trace[n].p, trace[n].now, junk)
  }

  ghost predicate ClockForward(trace: seq<Input>) {
    forall i, j :: 0 <= i < j < |trace| ==> trace[i].now <= trace[j].now
  }

  /** Memory accounting, the memory bound, and the one-to-one relation of timers
      and queues hold after every capture. */
  lemma {:induction false} RunBounded(trace: seq<Input>, junk: nat -> byte)
    ensures Ok(Run(trace, junk).0) && Bounded(Run(trace, junk).0)
  {
    hide Ok, Receive, Bounded;
    if trace != [] {
      var n := |trace| - 1;
      RunBounded(trace[..n], junk);
      ReceiveBounded(Run(trace[..n], junk).0, trace[n].p, trace[n].now, junk);
    } else {
      NothingBounded();
    }
  }

  lemma NothingBounded()
    ensures Bounded(START) && forall now :: Ordered(START, now)
  {
  }

  /** After every capture with a forward clock the timers are sorted and none is due. */
  lemma {:induction false} RunOrdered(trace: seq<Input>, junk: nat -> byte)
    requires ClockForward(trace) && trace != []
    ensures var s := Run(trace, junk).0; var now := trace[|trace| - 1].now;
            Ordered(s, now) && forall t :: t in s.timers ==> now <= t.expires
  {
    hide Ok, Receive, Ordered;
    var n := |trace| - 1;
    if n > 0 {
      RunOrdered(trace[..n], junk);
      assert trace[..n][n - 1] == trace[n - 1];
      ReceiveOrdered(Run(trace[..n], junk).0, trace[n].p, trace[n].now, trace[n - 1].now, junk);
    } else {
      NothingBounded();
      assert Run(trace[..n], junk).0 == START;
      ReceiveOrdered(Run(trace[..n], junk).0, trace[n].p, trace[n].now, trace[n].now, junk);
    }
  }

  // ----- Storing a fragment is one step of the queue's reassembly -----

  lemma StoreIsArrive(s: Defrag, p: Packet, now: int, junk: nat -> byte)
    requires Ok(s)
    ensures var key := KeyOf(p.hdr);
            && (key in s.queues ==> ChainOk(s.queues[key].frags))
            && var a := Arrive(WaitingOf(s, key), p, junk);
            && var r := Store(s, p, now, junk);
            && WaitingOf(r.0, key) == a.state
            && r.1 == (match a.out case None => Held case Some(d) => HandedOn(d))
            && r.0.queues - {key} == s.queues - {key}
  {
    hide Ok, ChainOk, Done, Glue, AddFragment, Killed, Place, Truesize, Opened, Charge, Remove, DelTimer;
    var key := KeyOf(p.hdr);
    ChainsOk(s);
    EnqueueOk(s, p, now);
    EnqueueKnows(s, p, now);
    var s1 := Enqueue(s, p, now);
    assert s1.queues - {key} == s.queues - {key};
    if !p.Oversize() {
      InsertKnows(s1, p);
      var s2 := IpDefrag.Insert(s1, p);
      ChainsOk(s1);
      IpChain.InsertOk(s1.queues[key].frags, p);
      assert s2.queues - {key} == s1.queues - {key};
      assert FreeQueue(s2, key).queues - {key} == s2.queues - {key};
    }
  }

  // ----- Datagrams handed on are genuine -----

  /** `ps` are fragments of this key that occur in the capture. */
  ghost predicate OfKey(ps: seq<Packet>, key: Key, trace: seq<Input>) {
    forall p :: p in ps ==> KeyOf(p.hdr) == key && exists i :: 0 <= i < |trace| && trace[i].p == p
  }

  ghost predicate Backed(q: Queue, key: Key, trace: seq<Input>) {
    exists ps :: Stands(q, ps) && OfKey(ps, key, trace)
  }

  ghost predicate Genuine(d: Datagram, key: Key, trace: seq<Input>) {
    exists ps :: MadeOf(d, ps) && OfKey(ps, key, trace)
  }

  lemma BackedGrows(q: Queue, key: Key, trace: seq<Input>, x: Input)
    requires Backed(q, key, trace)
    ensures Backed(q, key, trace + [x])
  {
    hide Stands;
    var ps :| Stands(q, ps) && OfKey(ps, key, trace);
    OfKeyGrows(ps, key, trace, x);
  }

  lemma OfKeyGrows(ps: seq<Packet>, key: Key, trace: seq<Input>, x: Input)
    requires OfKey(ps, key, trace)
    ensures OfKey(ps, key, trace + [x])
    ensures KeyOf(x.p.hdr) == key ==> OfKey(ps + [x.p], key, trace + [x])
  {
    forall p | p in ps ensures exists i :: 0 <= i < |trace + [x]| && (trace + [x])[i].p == p {
      var i :| 0 <= i < |trace| && trace[i].p == p;
      assert (trace + [x])[i] == trace[i];
    }
    assert (trace + [x])[|trace|] == x;
  }

  lemma ArriveBacked(w: Waiting, key: Key, trace: seq<Input>, x: Input, junk: nat -> byte)
    requires KeyOf(x.p.hdr) == key && (w.Present? ==> Backed(w.q, key, trace) && ChainOk(w.q.frags))
    ensures var a := Arrive(w, x.p, junk);
            && (a.state.Present? ==> Backed(a.state.q, key, trace + [x]))
            && (a.out.Some? ==> Genuine(a.out.value, key, trace + [x]))
  {
    hide Stands, Arrive, MadeOf;
    var ps: seq<Packet> := [];
    if w.Present? {
      ps :| Stands(w.q, ps) && OfKey(ps, key, trace);
    }
    ArriveSafe(w, x.p, junk, ps);
    OfKeyGrows(ps, key, trace, x);
  }

  ghost predicate AllBacked(s: Defrag, trace: seq<Input>) {
    forall k :: k in s.queues ==> Backed(s.queues[k], k, trace)
  }

  /** State after expiry and eviction, before the packet itself is handled. */
  function Prepared(s: Defrag, x: Input): Defrag {
    Relieve(Expire(s, x.now), x.p.hdr.dst)
  }

  lemma PreparedOk(s: Defrag, x: Input)
    requires Ok(s)
    ensures Ok(Prepared(s, x)) && forall k :: k in Prepared(s, x).queues ==> k in s.queues && Prepared(s, x).queues[k] == s.queues[k]
  {
    hide Ok, Expire, Evict;
    ExpireOk(s, x.now);
    RelieveOk(Expire(s, x.now), x.p.hdr.dst);
    ExpireShrinks(s, x.now);
    EvictShrinks(Expire(s, x.now), x.p.hdr.dst);
  }

  /** Whatever arrives, each queue stands for fragments of its own datagram that
      were captured, and a datagram handed on is made of such fragments. */
  lemma {:induction false} RunGenuine(trace: seq<Input>, junk: nat -> byte)
    ensures AllBacked(Run(trace, junk).0, trace)
    ensures Run(trace, junk).1.HandedOn? ==> Genuine(Run(trace, junk).1.d, KeyOf(trace[|trace| - 1].p.hdr), trace)
  {
    hide Ok, Store, Backed, Genuine, Arrive, FreeQueue, Expire, Relieve;
    if trace != [] {
      var n := |trace| - 1;
      var s, x := Run(trace[..n], junk).0, trace[n];
      assert trace[..n] + [x] == trace;
      RunGenuine(trace[..n], junk);
      PreparedOk(s, x);
      var s1, key := Prepared(s, x), KeyOf(x.p.hdr);
      forall k | k in s1.queues ensures Backed(s1.queues[k], k, trace) {
        BackedGrows(s1.queues[k], k, trace[..n], x);
      }
      ChainsOk(s1);
      if x.p.Fragment() {
        StoreIsArrive(s1, x.p, x.now, junk);
        ArriveBacked(WaitingOf(s1, key), key, trace[..n], x, junk);
        StoreOthers(s1, Store(s1, x.p, x.now, junk).0, key, trace);
      } else if key in s1.queues {
        FreeQueueOk(s1, key);
        FreeShrinksAll(s1, key);
      }
    }
  }

  lemma StoreOthers(s: Defrag, r: Defrag, key: Key, trace: seq<Input>)
    requires AllBacked(s, trace) && r.queues - {key} == s.queues - {key}
    requires key in r.queues ==> Backed(r.queues[key], key, trace)
    ensures AllBacked(r, trace)
  {
    hide Backed;
    forall k | k in r.queues && k != key ensures Backed(r.queues[k], k, trace) {
      assert k in r.queues - {key};
      assert r.queues[k] == (r.queues - {key})[k] == (s.queues - {key})[k] == s.queues[k];
    }
  }

  // ----- Undisturbed datagrams -----

  /** The fragments of one datagram among everything captured. */
  function Fragments(trace: seq<Input>, key: Key): seq<Packet> {
    if trace == [] then []
    else
      var n := |trace| - 1;
      var front := Fragments(trace[..n], key);
      if KeyOf(trace[n].p.hdr) == key && trace[n].p.Fragment() then front + [trace[n].p] else front
  }

  /** At no point is the datagram's queue lost to expiry or eviction, nor is it
      replaced by an unfragmented packet. */
  ghost predicate Undisturbed(trace: seq<Input>, key: Key, junk: nat -> byte) {
    trace == [] ||
    var n := |trace| - 1;
    var s := Run(trace[..n], junk).0;
    && Undisturbed(trace[..n], key, junk)
    && (key in s.queues ==> key in Prepared(s, trace[n]).queues)
    && (KeyOf(trace[n].p.hdr) == key ==> trace[n].p.Fragment())
  }

  /** An undisturbed datagram is reassembled as if its fragments arrived alone. */
  lemma {:induction false} RunIsFeed(trace: seq<Input>, key: Key, junk: nat -> byte)
    requires Undisturbed(trace, key, junk)
    ensures var f := Feed(Fragments(trace, key), junk); var r := Run(trace, junk);
            && WaitingOf(r.0, key) == f.state
            && (trace != [] && KeyOf(trace[|trace| - 1].p.hdr) == key ==>
                  r.1 == (match f.out case None => Held case Some(d) => HandedOn(d)))
  {
    hide Ok, Store, Arrive, FreeQueue, Expire, Relieve;
    if trace != [] {
      var n := |trace| - 1;
      var s, x := Run(trace[..n], junk).0, trace[n];
      RunIsFeed(trace[..n], key, junk);
      PreparedOk(s, x);
      var s1, k := Prepared(s, x), KeyOf(x.p.hdr);
      ChainsOk(s1);
      if x.p.Fragment() {
        StoreIsArrive(s1, x.p, x.now, junk);
        var front := Fragments(trace[..n], key);
        assert (front + [x.p])[..|front|] == front;
        if k != key {
          OtherKey(s1, Store(s1, x.p, x.now, junk).0, k, key);
        }
      } else if k in s1.queues {
        FreeQueueOk(s1, k);
        FreeShrinksAll(s1, k);
      }
    }
  }

  lemma OtherKey(s: Defrag, r: Defrag, k: Key, key: Key)
    requires r.queues - {k} == s.queues - {k} && k != key
    ensures WaitingOf(r, key) == WaitingOf(s, key)
  {
    assert key in r.queues <==> key in r.queues - {k};
    assert key in s.queues <==> key in s.queues - {k};
    if key in r.queues {
      assert r.queues[key] == (r.queues - {k})[key] == (s.queues - {k})[key] == s.queues[key];
    }
  }
}
