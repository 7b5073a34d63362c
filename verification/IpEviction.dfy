/** Which queues a packet lets go: those past their lifetime, and, when its host
    holds too much, the newest; and what follows for datagrams in traffic
    (dpi/IpFragment.cc). */
module IpEviction {
  import opened SeqArith
  import opened IpChain
  import opened IpRoundTrip
  import opened IpDefrag
  import opened IpRun

  // ----- Eviction -----

  lemma {:induction false} ChargePositive(queues: map<Key, Queue>, keys: seq<Key>)
    ensures ChargeAll(queues, keys) >= 0
  {
    hide Truesize;
    if keys != [] {
      if keys[0] in queues {
        FragsPositive(queues[keys[0]].frags);
      }
      ChargePositive(queues, keys[1..]);
    }
  }

  lemma {:induction false} ChargeFalls(queues: map<Key, Queue>, keys: seq<Key>, j: nat)
    requires j <= |keys|
    ensures ChargeAll(queues, keys[j..]) <= ChargeAll(queues, keys)
    decreases j
  {
    hide Charge;
    if j == 0 {
      assert keys[0..] == keys;
    } else {
      ChargePositive(queues, [keys[0]]);
      ChargeSplit(queues, [keys[0]], keys[1..]);
      assert [keys[0]] + keys[1..] == keys && keys[1..][j - 1..] == keys[j..];
      ChargeFalls(queues, keys[1..], j - 1);
    }
  }

  lemma {:induction false} ChargeSplit(queues: map<Key, Queue>, a: seq<Key>, b: seq<Key>)
    ensures ChargeAll(queues, a + b) == ChargeAll(queues, a) + ChargeAll(queues, b)
  {
    hide Charge;
    if a == [] {
      assert a + b == b;
    } else {
      assert (a + b)[1..] == a[1..] + b;
      ChargeSplit(queues, a[1..], b);
    }
  }

  /** The queues of a host after its newest is freed. */
  lemma FreeNewest(s: Defrag, dst: u32)
    requires Ok(s) && dst in s.hosts
    ensures s.hosts[dst].keys != [] && s.hosts[dst].keys[0] in s.queues && s.hosts[dst].keys[0].dst == dst
    ensures var r := FreeQueue(s, s.hosts[dst].keys[0]); var keys := s.hosts[dst].keys;
            && Ok(r) && r.queues == s.queues - {keys[0]} && keys[0] !in keys[1..]
            && (dst in r.hosts <==> keys[1..] != []) && (dst in r.hosts ==> r.hosts[dst].keys == keys[1..])
            && s.hosts[dst].mem == ChargeAll(s.queues, keys)
  {
    hide QueueOk, TimersOk, ChargeAll, Charge, DelTimer;
    assert HostOk(s, dst);
    FreeQueueOk(s, s.hosts[dst].keys[0]);
  }

  /** Eviction goes from the newest queue to the oldest, and frees a queue exactly if it
      and the older ones are together above the low threshold. */
  lemma {:induction false} EvictExact(s: Defrag, dst: u32, j: nat)
    requires Ok(s) && dst in s.hosts && j < |s.hosts[dst].keys|
    ensures s.hosts[dst].keys[j] in Evict(s, dst).queues <==> ChargeAll(s.queues, s.hosts[dst].keys[j..]) <= 196608
    decreases |s.hosts[dst].keys|
  {
    hide Ok, FreeQueue, ChargeAll, Charge;
    FreeNewest(s, dst);
    var keys := s.hosts[dst].keys;
    var r := FreeQueue(s, keys[0]);
    ChargeFalls(s.queues, keys, j);
    if s.hosts[dst].mem > IPFRAG_LOW_THRESH {
      EvictShrinks(r, dst);
      if j == 0 {
        assert keys[0..] == keys;
      } else {
        EvictExact(r, dst, j - 1);
        assert keys[1..][j - 1..] == keys[j..];
        assert forall k :: k in keys[j..] ==> k in keys[1..];
        ChargeSame(s.queues, r.queues, keys[j..]);
      }
    } else {
      Member(s, dst, j);
    }
  }

  lemma Member(s: Defrag, dst: u32, j: nat)
    requires Ok(s) && dst in s.hosts && j < |s.hosts[dst].keys|
    ensures s.hosts[dst].keys[j] in s.queues && s.hosts[dst].keys[j].dst == dst
  {
    assert HostOk(s, dst);
  }

  /** Queues of other hosts stay. */
  lemma {:induction false} EvictOthers(s: Defrag, dst: u32, key: Key)
    requires Ok(s) && key.dst != dst
    ensures key in Evict(s, dst).queues <==> key in s.queues
    decreases if dst in s.hosts then |s.hosts[dst].keys| + 1 else 0
  {
    hide Ok, FreeQueue, ChargeAll;
    if dst in s.hosts && s.hosts[dst].mem > IPFRAG_LOW_THRESH {
      FreeNewest(s, dst);
      EvictOthers(FreeQueue(s, s.hosts[dst].keys[0]), dst, key);
    }
  }

  /** Position of a queue in the list of its host. */
  function Position(keys: seq<Key>, key: Key): (j: nat)
    ensures key in keys ==> j < |keys| && keys[j] == key
  {
    if keys == [] || keys[0] == key then 0 else 1 + Position(keys[1..], key)
  }

  /** What a queue and the older ones of its host are charged. */
  function ChargeFrom(s: Defrag, key: Key): int
    requires key.dst in s.hosts && key in s.hosts[key.dst].keys
  {
    ChargeAll(s.queues, s.hosts[key.dst].keys[Position(s.hosts[key.dst].keys, key)..])
  }

  lemma Listed(s: Defrag, key: Key)
    requires Ok(s) && key in s.queues
    ensures key.dst in s.hosts && key in s.hosts[key.dst].keys
  {
  }

  /** A host holding at most 262144 keeps its queues; otherwise those stay that with the older ones
      are charged at most 196608. */
  lemma RelieveExact(s: Defrag, dst: u32, key: Key)
    requires Ok(s) && key in s.queues
    ensures key.dst in s.hosts && key in s.hosts[key.dst].keys
    ensures key in Relieve(s, dst).queues
            <==> key.dst != dst || s.hosts[dst].mem <= 262144 || ChargeFrom(s, key) <= 196608
  {
    hide Ok, Evict, ChargeAll;
    Listed(s, key);
    if key.dst != dst {
      EvictOthers(s, dst, key);
    } else {
      EvictExact(s, dst, Position(s.hosts[dst].keys, key));
    }
  }

  // ----- Expiry -----

  /** Some timer of the queue is past its time. */
  predicate Due(timers: seq<Timer>, key: Key, now: int) {
    exists t :: t in timers && t.key == key && t.expires < now
  }

  lemma {:induction false} DelTimerOthers(timers: seq<Timer>, key: Key)
    ensures forall t :: t in DelTimer(timers, key) <==> t in timers && t.key != key
  {
    if timers != [] {
      DelTimerOthers(timers[1..], key);
    }
  }

  /** Expiry frees exactly the queues whose timers are due. */
  lemma {:induction false} ExpireExact(s: Defrag, now: int, key: Key)
    requires Ok(s) && InOrder(s.timers)
    ensures key in Expire(s, now).queues <==> key in s.queues && !Due(s.timers, key, now)
    decreases |s.timers|
  {
    hide Ok, FreeQueue, InOrder, DelTimer;
    if s.timers != [] {
      HeadKnown(s);
      var head := s.timers[0];
      if head.expires < now {
        FreeQueueOk(s, head.key);
        FreeTimers(s, head.key);
        FreeShrinksAll(s, head.key);
        DelTimerFacts(s.timers, head.key);
        DelTimerOrder(s.timers, head.key);
        DelTimerOthers(s.timers, head.key);
        ExpireExact(FreeQueue(s, head.key), now, key);
        if key == head.key {
          ExpireShrinks(FreeQueue(s, head.key), now);
          assert head in s.timers;
        }
      } else {
        NoneDue(s.timers, now);
      }
    }
  }

  // ----- Times of last fragments -----

  /** Index of the latest packet of the key before `n`, or -1. */
  function LastSeen(trace: seq<Input>, n: nat, key: Key): (l: int)
    requires n <= |trace|
    ensures -1 <= l < n
  {
    if n == 0 then -1
    else if KeyOf(trace[n - 1].p.hdr) == key then n - 1
    else LastSeen(trace, n - 1, key)
  }

  /** The timer falls due 30 seconds after the latest packet of its key. */
  ghost predicate TimerOfLast(trace: seq<Input>, n: nat, t: Timer)
    requires n <= |trace|
  {
    LastSeen(trace, n, t.key) >= 0 && t.expires == trace[LastSeen(trace, n, t.key)].now + 30000
  }

  lemma {:induction false} TimersOfLast(trace: seq<Input>, n: nat, junk: nat -> byte)
    requires n <= |trace|
    ensures forall t :: t in Run(trace[..n], junk).0.timers ==> TimerOfLast(trace, n, t)
    decreases n
  {
    hide Ok, Receive;
    if n > 0 {
      TimersOfLast(trace, n - 1, junk);
      assert trace[..n][..n - 1] == trace[..n - 1];
      var s, x := Run(trace[..n - 1], junk).0, trace[n - 1];
      TimersReceived(s, x, junk);
    }
  }

  /** A packet leaves timers of other keys alone or lets them go, and its own key is timed from now. */
  lemma TimersReceived(s: Defrag, x: Input, junk: nat -> byte)
    requires Ok(s)
    ensures forall t :: t in Receive(s, x.p, x.now, junk).0.timers ==>
              if t.key == KeyOf(x.p.hdr) then t.expires == x.now + 30000 else t in s.timers
  {
    hide Ok, Store, Expire, Relieve, DelTimer;
    var key := KeyOf(x.p.hdr);
    ExpireOk(s, x.now);
    ExpireTimers(s, x.now);
    RelieveOk(Expire(s, x.now), x.p.hdr.dst);
    RelieveTimers(Expire(s, x.now), x.p.hdr.dst);
    var s1 := Relieve(Expire(s, x.now), x.p.hdr.dst);
    if x.p.Fragment() {
      StoreTimers(s1, x.p, x.now, junk);
    } else {
      DelTimerOthers(s1.timers, key);
      TimerKnown(s1);
      if key in s1.queues {
        FreeQueueOk(s1, key);
        FreeTimers(s1, key);
      }
    }
  }

  lemma TimerKnown(s: Defrag)
    requires Ok(s)
    ensures forall t :: t in s.timers ==> t.key in s.queues
  {
    TimerKeyIn(s.timers);
  }

  lemma {:induction false} TimerKeyIn(timers: seq<Timer>)
    ensures forall t :: t in timers ==> t.key in TimerKeys(timers)
  {
    if timers != [] {
      TimerKeyIn(timers[1..]);
    }
  }

  lemma {:induction false} ExpireTimers(s: Defrag, now: int)
    ensures forall t :: t in Expire(s, now).timers ==> t in s.timers
    decreases |s.timers|
  {
    hide DelTimer;
    if s.timers != [] && s.timers[0].expires < now && s.timers[0].key in s.queues && s.timers[0].key.dst in s.hosts {
      DelTimerFacts(s.timers, s.timers[0].key);
      DelTimerOthers(s.timers, s.timers[0].key);
      ExpireTimers(FreeQueue(s, s.timers[0].key), now);
    }
  }

  lemma RelieveTimers(s: Defrag, dst: u32)
    ensures forall t :: t in Relieve(s, dst).timers ==> t in s.timers
  {
    hide InOrder, Evict;
    EvictTimers(s, dst);
  }

  lemma {:induction false} EvictTimers(s: Defrag, dst: u32)
    ensures forall t :: t in Evict(s, dst).timers ==> t in s.timers
    decreases if dst in s.hosts then |s.hosts[dst].keys| + 1 else 0
  {
    hide DelTimer;
    if dst in s.hosts && s.hosts[dst].mem > IPFRAG_LOW_THRESH && s.hosts[dst].keys != [] &&
       s.hosts[dst].keys[0] in s.queues && s.hosts[dst].keys[0].dst == dst {
      DelTimerOthers(s.timers, s.hosts[dst].keys[0]);
      EvictTimers(FreeQueue(s, s.hosts[dst].keys[0]), dst);
    }
  }

  lemma StoreTimers(s: Defrag, p: Packet, now: int, junk: nat -> byte)
    requires Ok(s)
    ensures forall t :: t in Store(s, p, now, junk).0.timers ==>
              if t.key == KeyOf(p.hdr) then t.expires == now + 30000 else t in s.timers
  {
    hide Ok, DelTimer, ChainOk, Done, Glue, AddFragment, Killed, Place, Truesize, Opened, Charge, Remove;
    var key := KeyOf(p.hdr);
    ChainsOk(s);
    DelTimerOthers(s.timers, key);
    DelTimerOthers(AddTimer(DelTimer(s.timers, key), key, now), key);
    EnqueueKnows(s, p, now);
  }

  // ----- Which queues a packet lets go -----

  lemma TimerFound(s: Defrag, key: Key)
    requires Ok(s) && key in s.queues
    ensures exists t :: t in s.timers && t.key == key
  {
    hide HostOk, QueueOk, NoRepeat;
    TimerAmong(s.timers, key);
  }

  lemma {:induction false} TimerAmong(timers: seq<Timer>, key: Key)
    requires key in TimerKeys(timers)
    ensures exists t :: t in timers && t.key == key
  {
    if timers[0].key == key {
      assert timers[0] in timers;
    } else {
      TimerAmong(timers[1..], key);
      var t :| t in timers[1..] && t.key == key;
      assert t in timers;
    }
  }

  lemma TimersInOrder(trace: seq<Input>, n: nat, junk: nat -> byte)
    requires n <= |trace| && ClockForward(trace)
    ensures InOrder(Run(trace[..n], junk).0.timers)
  {
    hide Ok, Receive;
    if n == 0 {
      assert trace[..n] == [];
    } else {
      RunOrdered(trace[..n], junk);
    }
  }

  /** Expiry over a capture: a queue goes once more than 30 seconds have passed since its latest packet. */
  lemma ExpiryInCapture(trace: seq<Input>, n: nat, now: int, key: Key, junk: nat -> byte)
    requires n <= |trace| && ClockForward(trace)
    ensures var s := Run(trace[..n], junk).0;
            key in Expire(s, now).queues
            <==> key in s.queues && LastSeen(trace, n, key) >= 0 && now <= trace[LastSeen(trace, n, key)].now + 30000
  {
    hide Ok, Receive, Expire, InOrder;
    var s := Run(trace[..n], junk).0;
    TimersInOrder(trace, n, junk);
    TimersOfLast(trace, n, junk);
    ExpireExact(s, now, key);
    if key in s.queues {
      TimerFound(s, key);
    }
  }

  /** The state that the eviction for packet `n` finds. */
  ghost function Unexpired(trace: seq<Input>, n: nat, junk: nat -> byte): (s: Defrag)
    requires n < |trace|
    ensures Ok(s)
  {
    ExpireOk(Run(trace[..n], junk).0, trace[n].now);
    Expire(Run(trace[..n], junk).0, trace[n].now)
  }

  lemma OtherStays(s: Defrag, p: Packet, now: int, junk: nat -> byte, key: Key)
    requires Ok(s) && key != KeyOf(p.hdr)
    ensures key in Receive(s, p, now, junk).0.queues <==> key in Prepared(s, Input(p, now)).queues
  {
    hide Ok, Store, FreeQueue, Expire, Relieve;
    var k, s1 := KeyOf(p.hdr), Prepared(s, Input(p, now));
    PreparedOk(s, Input(p, now));
    if p.Fragment() {
      ChainsOk(s1);
      StoreIsArrive(s1, p, now, junk);
      OtherKey(s1, Store(s1, p, now, junk).0, k, key);
    } else if k in s1.queues {
      FreeQueueOk(s1, k);
      FreeShrinksAll(s1, k);
    }
  }

  /** Over any capture with a forward clock, a packet of another datagram leaves a queue exactly if 30 seconds have
      not passed since the latest packet of the queue, and if either the packet goes to another host, or the host
      holds at most 262144, or the queue and the older ones of the host are together charged at most 196608. */
  lemma KeptExactly(trace: seq<Input>, key: Key, junk: nat -> byte)
    requires trace != [] && ClockForward(trace) && KeyOf(trace[|trace| - 1].p.hdr) != key
    ensures var n := |trace| - 1; var e := Unexpired(trace, n, junk); var l := LastSeen(trace, n, key);
            && (key in e.queues <==> key in Run(trace[..n], junk).0.queues && l >= 0 && trace[n].now <= trace[l].now + 30000)
            && (key in e.queues ==> key.dst in e.hosts && key in e.hosts[key.dst].keys)
            && (key in Run(trace, junk).0.queues
                <==> key in e.queues
                     && (key.dst != trace[n].p.hdr.dst || e.hosts[key.dst].mem <= 262144 || ChargeFrom(e, key) <= 196608))
  {
    hide Ok, Receive, Expire, Relieve, ChargeFrom;
    var n := |trace| - 1;
    var s := Run(trace[..n], junk).0;
    ExpiryInCapture(trace, n, trace[n].now, key, junk);
    OtherStays(s, trace[n].p, trace[n].now, junk, key);
    ExpireOk(s, trace[n].now);
    RelieveOk(Expire(s, trace[n].now), trace[n].p.hdr.dst);
    assert trace[n] == Input(trace[n].p, trace[n].now);
    var e := Unexpired(trace, n, junk);
    PreparedOk(s, trace[n]);
    if key in e.queues {
      RelieveExact(e, trace[n].p.hdr.dst, key);
    } else {
      RelieveAdds(e, trace[n].p.hdr.dst, key);
    }
  }

  lemma RelieveAdds(s: Defrag, dst: u32, key: Key)
    requires Ok(s) && key !in s.queues
    ensures key !in Relieve(s, dst).queues
  {
    hide Ok, Evict;
    EvictShrinks(s, dst);
  }

  // ----- Datagrams in traffic -----

  /** Packets of the key follow each other within 30 seconds. */
  predicate Timely(trace: seq<Input>, key: Key) {
    forall i: nat :: i < |trace| && KeyOf(trace[i].p.hdr) == key && LastSeen(trace, i, key) >= 0 ==>
      trace[i].now <= trace[LastSeen(trace, i, key)].now + 30000
  }

  /** Whenever a packet comes for the host, it holds at most 262144. */
  ghost predicate Light(trace: seq<Input>, dst: u32, junk: nat -> byte) {
    forall i: nat :: i < |trace| && trace[i].p.hdr.dst == dst && dst in Run(trace[..i], junk).0.hosts ==>
      Run(trace[..i], junk).0.hosts[dst].mem <= 262144
  }

  predicate OnlyFragments(trace: seq<Input>, key: Key) {
    forall i: nat :: i < |trace| && KeyOf(trace[i].p.hdr) == key ==> trace[i].p.Fragment()
  }

  /** Before the last packet of the key, time has not passed its queue. */
  lemma {:induction false} InTime(trace: seq<Input>, n: nat, key: Key)
    requires n < |trace| && ClockForward(trace) && Timely(trace, key)
    requires KeyOf(trace[|trace| - 1].p.hdr) == key && LastSeen(trace, n, key) >= 0
    ensures trace[n].now <= trace[LastSeen(trace, n, key)].now + 30000
    decreases |trace| - n
  {
    hide ClockForward, Timely;
    if KeyOf(trace[n].p.hdr) == key {
      TimelyAt(trace, n, key);
    } else {
      Forward(trace, n);
      InTime(trace, n + 1, key);
    }
  }

  lemma TimelyAt(trace: seq<Input>, i: nat, key: Key)
    requires i < |trace| && Timely(trace, key) && KeyOf(trace[i].p.hdr) == key && LastSeen(trace, i, key) >= 0
    ensures trace[i].now <= trace[LastSeen(trace, i, key)].now + 30000
  {
    hide LastSeen;
  }

  lemma Forward(trace: seq<Input>, n: nat)
    requires n + 1 < |trace| && ClockForward(trace)
    ensures trace[n].now <= trace[n + 1].now
  {
  }

  /** What was captured, and the charge of its host, leave the datagram undisturbed. */
  lemma {:induction false} InputUndisturbed(trace: seq<Input>, n: nat, key: Key, junk: nat -> byte)
    requires n <= |trace| && trace != [] && KeyOf(trace[|trace| - 1].p.hdr) == key
    requires ClockForward(trace) && Timely(trace, key) && OnlyFragments(trace, key) && Light(trace, key.dst, junk)
    ensures Undisturbed(trace[..n], key, junk)
    decreases n
  {
    hide Ok, Receive, Expire, Relieve, ChargeFrom, ClockForward, Timely;
    if n > 0 {
      var m := n - 1;
      InputUndisturbed(trace, m, key, junk);
      assert trace[..n][..m] == trace[..m];
      var s := Run(trace[..m], junk).0;
      if key in s.queues {
        QueueSeen(trace, m, key, junk);
        InTime(trace, m, key);
        ExpiryInCapture(trace, m, trace[m].now, key, junk);
        var e := Unexpired(trace, m, junk);
        RelieveExact(e, trace[m].p.hdr.dst, key);
        ExpireShrinks(s, trace[m].now);
      }
    }
  }

  lemma QueueSeen(trace: seq<Input>, n: nat, key: Key, junk: nat -> byte)
    requires n <= |trace| && key in Run(trace[..n], junk).0.queues
    ensures LastSeen(trace, n, key) >= 0
  {
    hide Ok, Receive;
    var s := Run(trace[..n], junk).0;
    TimersOfLast(trace, n, junk);
    TimerFound(s, key);
  }

  /** Round trip in traffic: a datagram cut at any boundaries, its pieces captured
      in any order with duplicates and mixed with any other traffic, each within 30
      seconds of the one before and while their host holds no more than 262144, is held
      until the last missing piece and then handed on exactly as it was sent. */
  lemma RoundTripInTraffic(trace: seq<Input>, cuts: seq<nat>, d: Whole, junk: nat -> byte)
    requires trace != [] && KeyOf(trace[|trace| - 1].p.hdr) == KeyOf(d.hdr) && ClockForward(trace)
    requires Timely(trace, KeyOf(d.hdr)) && OnlyFragments(trace, KeyOf(d.hdr)) && Light(trace, d.hdr.dst, junk)
    requires var ps := Fragments(trace, KeyOf(d.hdr));
             && d.Wf() && Cuts(cuts, d) && PiecesOf(ps, d) && CutAlong(ps, cuts)
             && ps != [] && !Complete(ps[..|ps| - 1], d)
    ensures Run(trace, junk).1 ==
            if Complete(Fragments(trace, KeyOf(d.hdr)), d)
            then HandedOn(Datagram(d.hdr, d.hdr.ihl + |d.payload|, d.payload)) else Held
  {
    hide Run, Feed, Complete, PiecesOf, CutAlong, Cuts, Undisturbed, Timely, OnlyFragments, Light, ClockForward;
    InputUndisturbed(trace, |trace|, KeyOf(d.hdr), junk);
    assert trace[..|trace|] == trace;
    RunIsFeed(trace, KeyOf(d.hdr), junk);
    RoundTrip(Fragments(trace, KeyOf(d.hdr)), cuts, d, junk);
  }

  // ----- The charge of a host from its packets -----

  /** All that the packets for a host can have cost it: each fragment its copy, rounded, its node and a queue. */
  function Load(trace: seq<Input>, dst: u32): nat {
    if trace == [] then 0
    else
      var n := |trace| - 1;
      var p := trace[n].p;
      Load(trace[..n], dst)
      + if p.hdr.dst == dst && p.Fragment() then (p.hdr.ihl + |p.payload| + 30) / 16 * 16 + 168 + 48 + 160 else 0
  }

  lemma {:induction false} LoadGrows(trace: seq<Input>, i: nat, dst: u32)
    requires i <= |trace|
    ensures Load(trace[..i], dst) <= Load(trace, dst)
    decreases |trace|
  {
    if i == |trace| {
      assert trace[..i] == trace;
    } else {
      LoadGrows(trace[..|trace| - 1], i, dst);
      assert trace[..|trace| - 1][..i] == trace[..i];
    }
  }

  /** What a host holds after a packet: a fragment of its own adds at most its cost. */
  lemma StoreCost(s: Defrag, p: Packet, now: int, junk: nat -> byte, dst: u32)
    requires Ok(s) && dst in Store(s, p, now, junk).0.hosts
    ensures var before := if dst in s.hosts then s.hosts[dst].mem else 0;
            Store(s, p, now, junk).0.hosts[dst].mem
            <= before + if p.hdr.dst == dst then (p.hdr.ihl + |p.payload| + 30) / 16 * 16 + 168 + 48 + 160 else 0
  {
    hide Ok, FreeQueue, Done, Glue, AddFragment, Killed, Place, DelTimer, Opened;
    var key := KeyOf(p.hdr);
    ChainsOk(s);
    EnqueueOk(s, p, now);
    EnqueueKnows(s, p, now);
    var s1 := Enqueue(s, p, now);
    if !p.Oversize() {
      KilledPositive(s1.queues[key].frags[Place(s1.queues[key].frags, p.Offset())..], p.End());
      InsertKeepsOk(s1, p);
      InsertKnows(s1, p);
      var s2 := IpDefrag.Insert(s1, p);
      FreeQueueOk(s2, key);
      FreeShrinksAll(s2, key);
    }
  }

  lemma {:induction false} HeldWithinLoad(trace: seq<Input>, junk: nat -> byte, dst: u32)
    requires dst in Run(trace, junk).0.hosts
    ensures Run(trace, junk).0.hosts[dst].mem <= Load(trace, dst)
    decreases |trace|
  {
    hide Ok, Store, FreeQueue, Expire, Relieve;
    if trace != [] {
      var n := |trace| - 1;
      var s, x := Run(trace[..n], junk).0, trace[n];
      if dst in s.hosts {
        HeldWithinLoad(trace[..n], junk, dst);
      }
      PreparedShrinks(s, x);
      var s1 := Prepared(s, x);
      if x.p.Fragment() {
        StoreCost(s1, x.p, x.now, junk, dst);
      } else if KeyOf(x.p.hdr) in s1.queues {
        FreeQueueOk(s1, KeyOf(x.p.hdr));
        FreeShrinksAll(s1, KeyOf(x.p.hdr));
      }
    }
  }

  lemma PreparedShrinks(s: Defrag, x: Input)
    requires Ok(s)
    ensures Ok(Prepared(s, x)) && Shrinks(s, Prepared(s, x))
  {
    hide Ok, Expire, Evict;
    ExpireOk(s, x.now);
    RelieveOk(Expire(s, x.now), x.p.hdr.dst);
    ExpireShrinks(s, x.now);
    EvictShrinks(Expire(s, x.now), x.p.hdr.dst);
  }

  /** Fragments for a host that cost it at most 262144 altogether never make it too heavy. */
  lemma LoadIsLight(trace: seq<Input>, dst: u32, junk: nat -> byte)
    requires Load(trace, dst) <= 262144
    ensures Light(trace, dst, junk)
  {
    hide Run, Load;
    forall i: nat | i < |trace| && trace[i].p.hdr.dst == dst && dst in Run(trace[..i], junk).0.hosts
      ensures Run(trace[..i], junk).0.hosts[dst].mem <= 262144 {
      HeldWithinLoad(trace[..i], junk, dst);
      LoadGrows(trace, i, dst);
    }
  }

  // ----- The newest queue is the first -----

  /** Index of the packet that has opened the queue of the key, which is there at the end. */
  ghost function Born(trace: seq<Input>, key: Key, junk: nat -> byte): (b: int)
    ensures -1 <= b < |trace| || trace == []
    ensures b < |trace|
    decreases |trace|
  {
    if trace == [] then -1
    else
      var n := |trace| - 1;
      if key in Prepared(Run(trace[..n], junk).0, trace[n]).queues then Born(trace[..n], key, junk) else n
  }

  /** Each host lists its queues from the latest opened to the earliest. */
  ghost predicate Falling(keys: seq<Key>, rank: Key -> int) {
    forall a, b :: 0 <= a < b < |keys| ==> rank(keys[a]) > rank(keys[b])
  }

  ghost predicate AllFalling(s: Defrag, rank: Key -> int) {
    forall dst :: dst in s.hosts ==> Falling(s.hosts[dst].keys, rank)
  }

  lemma {:induction false} RemoveFalls(keys: seq<Key>, key: Key, rank: Key -> int)
    requires Falling(keys, rank)
    ensures Falling(Remove(keys, key), rank) && forall k :: k in Remove(keys, key) ==> k in keys
  {
    if keys != [] && keys[0] != key {
      RemoveFalls(keys[1..], key, rank);
      forall k | k in keys[1..] ensures rank(keys[0]) > rank(k) {
        var b :| 0 <= b < |keys[1..]| && keys[1..][b] == k;
        assert keys[b + 1] == k;
      }
    }
  }

  lemma FreeFalls(s: Defrag, key: Key, rank: Key -> int)
    requires key in s.queues && key.dst in s.hosts && AllFalling(s, rank)
    ensures AllFalling(FreeQueue(s, key), rank)
  {
    hide Falling;
    RemoveFalls(s.hosts[key.dst].keys, key, rank);
  }

  lemma {:induction false} ExpireFalls(s: Defrag, now: int, rank: Key -> int)
    requires AllFalling(s, rank)
    ensures AllFalling(Expire(s, now), rank)
    decreases |s.timers|
  {
    hide AllFalling, FreeQueue;
    if s.timers != [] && s.timers[0].expires < now && s.timers[0].key in s.queues && s.timers[0].key.dst in s.hosts {
      DelTimerFacts(s.timers, s.timers[0].key);
      FreeTimers(s, s.timers[0].key);
      FreeFalls(s, s.timers[0].key, rank);
      ExpireFalls(FreeQueue(s, s.timers[0].key), now, rank);
    }
  }

  lemma {:induction false} EvictFalls(s: Defrag, dst: u32, rank: Key -> int)
    requires Ok(s) && AllFalling(s, rank)
    ensures AllFalling(Evict(s, dst), rank)
    decreases if dst in s.hosts then |s.hosts[dst].keys| + 1 else 0
  {
    hide Ok, AllFalling, FreeQueue, ChargeAll;
    if dst in s.hosts && s.hosts[dst].mem > IPFRAG_LOW_THRESH {
      FreeNewest(s, dst);
      FreeFalls(s, s.hosts[dst].keys[0], rank);
      EvictFalls(FreeQueue(s, s.hosts[dst].keys[0]), dst, rank);
    }
  }

  lemma PreparedFalls(s: Defrag, x: Input, rank: Key -> int)
    requires Ok(s) && AllFalling(s, rank)
    ensures AllFalling(Prepared(s, x), rank)
  {
    hide Ok, AllFalling, Expire, Evict;
    ExpireOk(s, x.now);
    ExpireFalls(s, x.now, rank);
    EvictFalls(Expire(s, x.now), x.p.hdr.dst, rank);
  }

  /** A queue that a fragment opens comes first. */
  lemma EnqueueFalls(s: Defrag, p: Packet, now: int, rank: Key -> int)
    requires Ok(s) && AllFalling(s, rank)
    requires KeyOf(p.hdr) !in s.queues ==> forall k :: k in s.queues ==> rank(KeyOf(p.hdr)) > rank(k)
    ensures AllFalling(Enqueue(s, p, now), rank)
  {
    hide NoRepeat, TimersOk, ChargeAll, QueueOk, DelTimer;
    if p.hdr.dst in s.hosts {
      assert HostOk(s, p.hdr.dst);
    }
  }

  lemma StoreFalls(s: Defrag, p: Packet, now: int, junk: nat -> byte, rank: Key -> int)
    requires Ok(s) && AllFalling(s, rank)
    requires KeyOf(p.hdr) !in s.queues ==> forall k :: k in s.queues ==> rank(KeyOf(p.hdr)) > rank(k)
    ensures AllFalling(Store(s, p, now, junk).0, rank)
  {
    hide Ok, Falling, Enqueue, FreeQueue, Done, Glue, AddFragment, Killed, Place, Truesize;
    ChainsOk(s);
    EnqueueFalls(s, p, now, rank);
    EnqueueOk(s, p, now);
    EnqueueKnows(s, p, now);
    var s1 := Enqueue(s, p, now);
    if !p.Oversize() {
      InsertKnows(s1, p);
      FreeFalls(IpDefrag.Insert(s1, p), KeyOf(p.hdr), rank);
    }
  }

  /** The same order under ranks that agree on the queues there are. */
  lemma FallsAlike(s: Defrag, rank: Key -> int, other: Key -> int)
    requires Ok(s) && AllFalling(s, rank) && forall k :: k in s.queues ==> rank(k) == other(k)
    ensures AllFalling(s, other)
  {
    hide NoRepeat, TimersOk, ChargeAll, QueueOk;
    forall dst | dst in s.hosts ensures Falling(s.hosts[dst].keys, other) {
      assert HostOk(s, dst);
    }
  }

  /** Over any capture the list of a host runs from the queue opened last to the one opened first,
      so the queues that eviction takes are the newest. */
  lemma {:induction false} NewestFirst(trace: seq<Input>, junk: nat -> byte)
    ensures var s := Run(trace, junk).0;
            forall dst, a, b :: dst in s.hosts && 0 <= a < b < |s.hosts[dst].keys| ==>
              Born(trace, s.hosts[dst].keys[a], junk) > Born(trace, s.hosts[dst].keys[b], junk)
    ensures AllFalling(Run(trace, junk).0, (k: Key) => Born(trace, k, junk))
    decreases |trace|
  {
    hide Ok, Store, FreeQueue, Expire, Relieve;
    var rank := (k: Key) => Born(trace, k, junk);
    if trace != [] {
      var n := |trace| - 1;
      var s, x := Run(trace[..n], junk).0, trace[n];
      NewestFirst(trace[..n], junk);
      PreparedFalls(s, x, (k: Key) => Born(trace[..n], k, junk));
      PreparedOk(s, x);
      var s1 := Prepared(s, x);
      FallsAlike(s1, (k: Key) => Born(trace[..n], k, junk), rank);
      if x.p.Fragment() {
        StoreFalls(s1, x.p, x.now, junk, rank);
      } else if KeyOf(x.p.hdr) in s1.queues {
        FreeQueueOk(s1, KeyOf(x.p.hdr));
        FreeFalls(s1, KeyOf(x.p.hdr), rank);
      }
      assert AllFalling(Run(trace, junk).0, rank);
    }
  }
}
