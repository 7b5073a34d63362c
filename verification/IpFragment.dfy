/** The defragmenter as the object the program runs (dpi/IpFragment.cc). Its
    methods update the hosts, the queues and the timer list in place, and each is
    proved against its function in IpDefrag; what IpRun proves about captures
    therefore holds of this object. */
module IpFragmenter {
  import opened SeqArith
  import opened IpChain
  import opened IpDefrag
  import opened IpRun

  class IpFragment {
    /** Hosts by destination address. */
    var fragtable: map<u32, Host>
    var queues: map<Key, Queue>
    /** Timers in list order, head first. */
    var timers: seq<Timer>
    /** The host the current packet belongs to, if it exists. */
    var thisHost: Option<u32>
    /** Packets processed so far. */
    ghost var trace: seq<Input>

    ghost function State(): Defrag
      reads this
    {
      Defrag(fragtable, queues, timers)
    }

    ghost predicate Valid(junk: nat -> byte)
      reads this
    {
      State() == Run(trace, junk).0
    }

    constructor (ghost junk: nat -> byte)
      ensures Valid(junk) && trace == []
    {
      fragtable, queues, timers, thisHost := map[], map[], [], None;
      trace := [];
    }

    /** Take a queue's timer out of the list. */
    method DelTimer(key: Key)
      modifies this`timers
      ensures timers == IpDefrag.DelTimer(old(timers), key)
    {
      var left, i := [], 0;
      while i < |timers|
        invariant i <= |timers| && timers == old(timers)
        invariant IpDefrag.DelTimer(timers, key) == left + IpDefrag.DelTimer(timers[i..], key)
      {
        if timers[i].key != key {
          left := left + [timers[i]];
        }
        i := i + 1;
      }
      timers := left;
    }

    /** Free a queue of the current host, and the host with its last queue. Memory
        is given back to the host only while it still exists. The queue's timer may
        have left the list already: `listed` is the list with it. */
    method IpFree(key: Key, ghost listed: seq<Timer>)
      requires Ok(State().(timers := listed)) && key in queues && thisHost == Some(key.dst)
      requires timers == listed || timers == IpDefrag.DelTimer(listed, key)
      modifies this`fragtable, this`queues, this`timers, this`thisHost
      ensures State() == FreeQueue(old(State()).(timers := listed), key) && Ok(State())
      ensures thisHost == if key.dst in fragtable then Some(key.dst) else None
    {
      hide QueueOk, NoRepeat, IpDefrag.TimersOk, ChargeAll, ChargeFrags, IpDefrag.DelTimer, Remove;
      FreeQueueOk(State().(timers := listed), key);
      DelTwice(listed, key);
      DelTimer(key);
      var h := fragtable[key.dst];
      h := h.(keys := Remove(h.keys, key));
      if h.keys == [] {
        fragtable := fragtable - {key.dst};
        thisHost := None;
      } else {
        fragtable := fragtable[key.dst := h];
      }
      var charged := ChargeFrags(queues[key].frags) + SIZEOF_IPQ + HEADER_ROOM;
      if thisHost.Some? {
        fragtable := fragtable[key.dst := h.(mem := h.mem - charged)];
      }
      queues := queues - {key};
    }

    /** Free the current host's queues until it is light enough. The test for a
        host without queues is the program's fatal exit; it is never true. */
    method IpEvictor()
      requires Ok(State()) && thisHost.Some? && thisHost.value in fragtable
      modifies this`fragtable, this`queues, this`timers, this`thisHost
      ensures State() == Evict(old(State()), old(thisHost.value)) && Ok(State())
      ensures thisHost == if old(thisHost.value) in fragtable then old(thisHost) else None
    {
      hide QueueOk, NoRepeat, IpDefrag.TimersOk, ChargeAll, FreeQueue;
      ghost var s0, dst := State(), thisHost.value;
      while thisHost.Some? && fragtable[thisHost.value].mem > IPFRAG_LOW_THRESH
        invariant Ok(State()) && Evict(State(), dst) == Evict(s0, dst)
        invariant thisHost == if dst in fragtable then Some(dst) else None
        decreases if dst in fragtable then |fragtable[dst].keys| + 1 else 0
      {
        assert HostOk(State(), dst);
        if fragtable[thisHost.value].keys == [] {
          assert false;
        }
        var key := fragtable[thisHost.value].keys[0];
        FreeQueueOk(State(), key);
        FreeShrinks(State(), key);
        IpFree(key, timers);
      }
    }

    /** Search the current host's queues for the packet's datagram. Its timer is
        taken out of the list, to be set again or freed with the queue. */
    method IpFind(p: Packet) returns (found: bool)
      requires Ok(State()) && thisHost == Some(p.hdr.dst) && p.hdr.dst in fragtable
      modifies this`timers
      ensures found <==> KeyOf(p.hdr) in queues
      ensures timers == if found then IpDefrag.DelTimer(old(timers), KeyOf(p.hdr)) else old(timers)
    {
      hide NoRepeat, IpDefrag.TimersOk, ChargeAll, ChainOk, IpDefrag.DelTimer;
      var keys, i := fragtable[p.hdr.dst].keys, 0;
      assert HostOk(State(), p.hdr.dst);
      found := false;
      while i < |keys|
        modifies {}
        invariant i <= |keys| && KeyOf(p.hdr) !in keys[..i]
        invariant !found
      {
        var q := queues[keys[i]];
        assert QueueOk(keys[i], q);
        if p.hdr.id == q.hdr.id && p.hdr.src == q.hdr.src && p.hdr.dst == q.hdr.dst && p.hdr.proto == q.hdr.proto {
          found := true;
          break;
        }
        i := i + 1;
      }
      if found {
        DelTimer(keys[i]);
      } else {
        assert keys[..i] == keys;
      }
    }

    /** Make room for a new queue at the front of the current host's list and
        start its timer. */
    method IpCreate(p: Packet, now: int)
      requires thisHost == Some(p.hdr.dst) && p.hdr.dst in fragtable && KeyOf(p.hdr) !in queues
      modifies this`fragtable, this`queues, this`timers
      ensures var key := KeyOf(p.hdr); var h := old(fragtable[p.hdr.dst]);
              && queues == old(queues)[key := Queue(p.hdr, 0, [])]
              && timers == AddTimer(old(timers), key, now)
              && fragtable == old(fragtable)[p.hdr.dst := Host([key] + h.keys, h.mem + SIZEOF_IPQ + HEADER_ROOM)]
    {
      var key := KeyOf(p.hdr);
      var h := fragtable[p.hdr.dst];
      h := h.(mem := h.mem + SIZEOF_IPQ);
      h := h.(mem := h.mem + HEADER_ROOM);
      queues := queues[key := Queue(p.hdr, 0, [])];
      timers := timers + [Timer(key, now + IP_FRAG_TIME)];
      fragtable := fragtable[p.hdr.dst := h.(keys := [key] + h.keys)];
    }

    /** Find the host of a fragment, creating it if need be, then its queue: an
        old queue gets its header refreshed and its timer restarted. */
    method Settle(p: Packet, now: int)
      requires Ok(State()) && thisHost == if p.hdr.dst in fragtable then Some(p.hdr.dst) else None
      modifies this`fragtable, this`queues, this`timers, this`thisHost
      ensures State() == Enqueue(old(State()), p, now) && thisHost == Some(p.hdr.dst)
    {
      hide NoRepeat, IpDefrag.TimersOk, ChargeAll, ChainOk, IpDefrag.DelTimer, QueueOk;
      var key := KeyOf(p.hdr);
      ghost var s0 := State();
      KnownHosts(s0, key);
      var found := false;
      if thisHost.Some? {
        found := IpFind(p);
      } else {
        fragtable := fragtable[p.hdr.dst := Host([], 0)];
        thisHost := Some(p.hdr.dst);
      }
      if found {
        var q := queues[key];
        if p.off == 0 {
          q := q.(hdr := p.hdr);
        }
        queues := queues[key := q];
        DelTwice(s0.timers, key);
        DelTimer(key);
        timers := timers + [Timer(key, now + IP_FRAG_TIME)];
        assert fragtable[p.hdr.dst := fragtable[p.hdr.dst]] == fragtable;
      } else {
        NoTimer(s0, key);
        IpCreate(p, now);
      }
    }

    /** Insert the fragment and settle the account of its host. */
    method Charged(p: Packet)
      requires KeyOf(p.hdr) in queues && p.hdr.dst in fragtable
      modifies this`fragtable, this`queues
      ensures State() == IpDefrag.Insert(old(State()), p)
    {
      hide Place, Killed, Truesize, AddFragment;
      var key := KeyOf(p.hdr);
      var q, h := queues[key], fragtable[p.hdr.dst];
      var freed := Killed(q.frags[Place(q.frags, p.Offset())..], p.End());
      h := h.(mem := h.mem - freed);
      queues := queues[key := AddFragment(q, p)];
      h := h.(mem := h.mem + SIZEOF_IPFRAG);
      h := h.(mem := h.mem + Truesize(p));
      fragtable := fragtable[p.hdr.dst := h];
    }

    /** Everything from the host lookup on. */
    method Defragment(p: Packet, now: int, junk: nat -> byte) returns (r: Result)
      requires Ok(State())
      modifies this`fragtable, this`queues, this`timers, this`thisHost
      ensures Handled(old(State()), p, now, junk, State(), r)
    {
      hide Ok, FreeQueue, Enqueue, IpDefrag.Insert, Evict, Done, Glue, IpDefrag.DelTimer;
      thisHost := if p.hdr.dst in fragtable then Some(p.hdr.dst) else None;
      RelieveOk(State(), p.hdr.dst);
      if thisHost.Some? && fragtable[thisHost.value].mem > IPFRAG_HIGH_THRESH {
        IpEvictor();
      }
      ghost var s1 := State();
      assert s1 == Relieve(old(State()), p.hdr.dst);
      var key := KeyOf(p.hdr);
      KnownHosts(s1, key);
      ChainsOk(s1);
      if !p.mf && p.off == 0 {
        if thisHost.Some? {
          var found := IpFind(p);
          if found {
            IpFree(key, s1.timers);
          }
        }
        return NotFragment;
      }
      EnqueueOk(s1, p, now);
      EnqueueKnows(s1, p, now);
      Settle(p, now);
      if p.hdr.ihl + |p.payload| + 8 * p.off > 65535 {
        return Held;
      }
      InsertKeepsOk(State(), p);
      InsertKnows(State(), p);
      Charged(p);
      r := Held;
      if Done(queues[key]) {
        ChainsOk(State());
        var skb := Glue(queues[key], junk);
        IpFree(key, timers);
        if skb.Some? {
          r := HandedOn(skb.value);
        }
      }
    }

    /** One packet: first let time pass, then defragment. */
    method IpDefragStub(p: Packet, now: int, junk: nat -> byte) returns (r: Result)
      requires Valid(junk)
      modifies this
      ensures Valid(junk) && trace == old(trace) + [Input(p, now)]
      ensures (State(), r) == Run(trace, junk)
    {
      hide Ok, FreeQueue, IpDefrag.DelTimer, Run, Handled;
      ghost var s0 := State();
      RunIsOk(trace, junk);
      while timers != [] && timers[0].expires < now
        invariant Ok(State()) && Expire(State(), now) == Expire(s0, now)
        invariant trace == old(trace)
        decreases |timers|
      {
        HeadKnown(State());
        var key := timers[0].key;
        DelTimerFacts(timers, key);
        FreeQueueOk(State(), key);
        FreeTimers(State(), key);
        thisHost := Some(key.dst);
        IpFree(key, timers);
      }
      ghost var s1 := State();
      ExpireDone(s1, now);
      r := Defragment(p, now, junk);
      RunStep(trace, s0, s1, p, now, junk, State(), r);
      trace := trace + [Input(p, now)];
    }
  }

  /** `Receive` without its expiry step, relating the states around it. */
  ghost predicate Handled(s: Defrag, p: Packet, now: int, junk: nat -> byte, t: Defrag, r: Result)
    requires Ok(s)
  {
    var s1 := Relieve(s, p.hdr.dst);
    var key := KeyOf(p.hdr);
    RelieveOk(s, p.hdr.dst);
    ChainsOk(s1);
    if !p.Fragment() then
      r == NotFragment && t == if key in s1.queues && key.dst in s1.hosts then FreeQueue(s1, key) else s1
    else (t, r) == Store(s1, p, now, junk)
  }

  lemma RunIsOk(trace: seq<Input>, junk: nat -> byte)
    ensures Ok(Run(trace, junk).0)
  {
  }

  lemma ExpireDone(s: Defrag, now: int)
    requires s.timers == [] || now <= s.timers[0].expires
    ensures Expire(s, now) == s
  {
  }

  lemma RunStep(trace: seq<Input>, s0: Defrag, s1: Defrag, p: Packet, now: int, junk: nat -> byte, t: Defrag, r: Result)
    requires s0 == Run(trace, junk).0 && Ok(s1) && s1 == Expire(s0, now) && Handled(s1, p, now, junk, t, r)
    ensures (t, r) == Run(trace + [Input(p, now)], junk)
  {
    hide Ok, FreeQueue, Store, Expire, Relieve;
    RelieveOk(s1, p.hdr.dst);
    assert (trace + [Input(p, now)])[..|trace|] == trace;
    KnownHosts(Relieve(s1, p.hdr.dst), KeyOf(p.hdr));
  }

  lemma {:induction false} DelTwice(timers: seq<Timer>, key: Key)
    ensures IpDefrag.DelTimer(IpDefrag.DelTimer(timers, key), key) == IpDefrag.DelTimer(timers, key)
  {
    if timers != [] {
      DelTwice(timers[1..], key);
      if timers[0].key != key {
        assert IpDefrag.DelTimer(timers, key)[1..] == IpDefrag.DelTimer(timers[1..], key);
      }
    }
  }

  /** A key without a queue has no timer. */
  lemma NoTimer(s: Defrag, key: Key)
    requires Ok(s) && key !in s.queues
    ensures IpDefrag.DelTimer(s.timers, key) == s.timers
  {
    DelAbsent(s.timers, key);
  }

  lemma {:induction false} DelAbsent(timers: seq<Timer>, key: Key)
    requires key !in TimerKeys(timers)
    ensures IpDefrag.DelTimer(timers, key) == timers
  {
    if timers != [] {
      DelAbsent(timers[1..], key);
    }
  }

  lemma KnownHosts(s: Defrag, key: Key)
    requires Ok(s)
    ensures key in s.queues ==> key.dst in s.hosts
  {
  }
}
