/** The defragmenter around the chains: queues per destination host, memory
    accounting with eviction, expiry timers (dpi/IpFragment.cc). */
module IpDefrag {
  import opened SeqArith
  import opened IpChain

  const IPFRAG_HIGH_THRESH: int := 262144
  const IPFRAG_LOW_THRESH: int := 196608
  const IP_FRAG_TIME: int := 30000

  // Sizes of the records charged to a host, on a 64-bit machine.
  const SIZEOF_IPQ: int := 88
  const SIZEOF_IPFRAG: int := 48
  const HEADER_ROOM: int := 72

  /** What `ipFind` compares. */
  datatype Key = Key(id: u16, src: u32, dst: u32, proto: byte)

  function KeyOf(h: Header): Key {
    Key(h.id, h.src, h.dst, h.proto)
  }

  /** A destination host: its queues, newest first, and the memory charged to it. */
  datatype Host = Host(keys: seq<Key>, mem: int)

  datatype Timer = Timer(key: Key, expires: int)

  datatype Defrag = Defrag(hosts: map<u32, Host>, queues: map<Key, Queue>, timers: seq<Timer>)

  /** Size charged for the copy of a fragment. */
  function Truesize(p: Packet): (n: int)
    ensures 168 < n <= 65535 + 30 + 168
  {
    (p.hdr.ihl + |p.payload| + 30) / 16 * 16 + 168
  }

  function ChargeFrags(frags: seq<Frag>): int {
    if frags == [] then 0 else SIZEOF_IPFRAG + Truesize(frags[0].skb) + ChargeFrags(frags[1..])
  }

  function Charge(q: Queue): int {
    SIZEOF_IPQ + HEADER_ROOM + ChargeFrags(q.frags)
  }

  /** What the nodes that `Trim` removes had been charged for. */
  function Killed(next: seq<Frag>, end: int): int {
    if next == [] || next[0].offset >= end || next[0].len > end - next[0].offset then 0
    else SIZEOF_IPFRAG + Truesize(next[0].skb) + Killed(next[1..], end)
  }

  function ChargeAll(queues: map<Key, Queue>, keys: seq<Key>): int {
    if keys == [] then 0
    else (if keys[0] in queues then Charge(queues[keys[0]]) else 0) + ChargeAll(queues, keys[1..])
  }

  // ----- Timers -----

  function DelTimer(timers: seq<Timer>, key: Key): seq<Timer> {
    if timers == [] then []
    else if timers[0].key == key then DelTimer(timers[1..], key)
    else [timers[0]] + DelTimer(timers[1..], key)
  }

  function AddTimer(timers: seq<Timer>, key: Key, now: int): seq<Timer> {
    timers + [Timer(key, now + IP_FRAG_TIME)]
  }

  // ----- Queues of a host -----

  function Remove(keys: seq<Key>, key: Key): seq<Key> {
    if keys == [] then []
    else if keys[0] == key then keys[1..]
    else [keys[0]] + Remove(keys[1..], key)
  }

  /** Free a queue. The host goes with its last queue; otherwise its memory is
      given back piece by piece. */
  function FreeQueue(s: Defrag, key: Key): Defrag
    requires key in s.queues && key.dst in s.hosts
  {
    var h := s.hosts[key.dst];
    var keys := Remove(h.keys, key);
    Defrag(if keys == [] then s.hosts - {key.dst}
           else s.hosts[key.dst := Host(keys, h.mem - Charge(s.queues[key]))],
           s.queues - {key}, DelTimer(s.timers, key))
  }

  /** Every host has queues, every queue its host and exactly one timer, and the
      memory of a host is what its queues are charged. */
  ghost predicate HostOk(s: Defrag, dst: u32)
    requires dst in s.hosts
  {
    var h := s.hosts[dst];
    && h.keys != [] && NoRepeat(h.keys)
    && (forall k :: k in h.keys ==> k in s.queues && k.dst == dst)
    && h.mem == ChargeAll(s.queues, h.keys)
  }

  ghost predicate NoRepeat(keys: seq<Key>) {
    keys == [] || (keys[0] !in keys[1..] && NoRepeat(keys[1..]))
  }

  ghost predicate QueueOk(key: Key, q: Queue) {
    KeyOf(q.hdr) == key && ChainOk(q.frags)
  }

  function TimerKeys(timers: seq<Timer>): (r: seq<Key>)
    ensures |r| == |timers|
  {
    if timers == [] then [] else [timers[0].key] + TimerKeys(timers[1..])
  }

  /** One timer for each queue. */
  ghost predicate TimersOk(timers: seq<Timer>, queues: map<Key, Queue>) {
    NoRepeat(TimerKeys(timers)) && forall k :: k in TimerKeys(timers) <==> k in queues
  }

  ghost predicate Ok(s: Defrag) {
    && (forall dst :: dst in s.hosts ==> HostOk(s, dst))
    && (forall k :: k in s.queues ==> QueueOk(k, s.queues[k]) && k.dst in s.hosts && k in s.hosts[k.dst].keys)
    && TimersOk(s.timers, s.queues)
  }

  lemma {:induction false} FragsPositive(frags: seq<Frag>)
    ensures ChargeFrags(frags) >= 0
  {
    if frags != [] {
      FragsPositive(frags[1..]);
    }
  }

  lemma {:induction false} RemoveFacts(keys: seq<Key>, key: Key)
    requires NoRepeat(keys) && key in keys
    ensures NoRepeat(Remove(keys, key)) && |Remove(keys, key)| == |keys| - 1
    ensures forall k :: k in Remove(keys, key) <==> k in keys && k != key
  {
    assert forall k :: k in keys <==> k == keys[0] || k in keys[1..];
    if keys[0] != key {
      RemoveFacts(keys[1..], key);
      assert Remove(keys, key)[1..] == Remove(keys[1..], key);
    }
  }

  /** Removing a queue from the list removes its charge from the sum. */
  lemma {:induction false} ChargeRemove(queues: map<Key, Queue>, keys: seq<Key>, key: Key)
    requires NoRepeat(keys) && key in keys && key in queues
    ensures ChargeAll(queues - {key}, Remove(keys, key)) == ChargeAll(queues, keys) - Charge(queues[key])
  {
    if keys[0] == key {
      ChargeSame(queues, queues - {key}, keys[1..]);
    } else {
      ChargeRemove(queues, keys[1..], key);
    }
  }

  lemma {:induction false} ChargeSame(a: map<Key, Queue>, b: map<Key, Queue>, keys: seq<Key>)
    requires forall k :: k in keys ==> (k in a <==> k in b) && (k in a ==> Charge(a[k]) == Charge(b[k]))
    ensures ChargeAll(a, keys) == ChargeAll(b, keys)
  {
    if keys != [] {
      ChargeSame(a, b, keys[1..]);
    }
  }

  lemma {:induction false} DelTimerFacts(timers: seq<Timer>, key: Key)
    ensures |DelTimer(timers, key)| <= |timers|
    ensures forall k :: k in TimerKeys(DelTimer(timers, key)) <==> k in TimerKeys(timers) && k != key
    ensures NoRepeat(TimerKeys(timers)) ==> NoRepeat(TimerKeys(DelTimer(timers, key)))
    ensures key in TimerKeys(timers) ==> |DelTimer(timers, key)| < |timers|
  {
    if timers != [] {
      DelTimerFacts(timers[1..], key);
      if timers[0].key != key {
        assert DelTimer(timers, key)[1..] == DelTimer(timers[1..], key);
        assert TimerKeys(DelTimer(timers, key)) == [timers[0].key] + TimerKeys(DelTimer(timers[1..], key));
      }
    }
  }

  lemma {:induction false} AddTimerFacts(timers: seq<Timer>, t: Timer)
    requires t.key !in TimerKeys(timers)
    ensures forall k :: k in TimerKeys(timers + [t]) <==> k in TimerKeys(timers) || k == t.key
    ensures NoRepeat(TimerKeys(timers)) ==> NoRepeat(TimerKeys(timers + [t]))
  {
    if timers != [] {
      AddTimerFacts(timers[1..], t);
      assert (timers + [t])[1..] == timers[1..] + [t];
      assert TimerKeys(timers + [t])[1..] == TimerKeys(timers[1..] + [t]);
    } else {
      assert timers + [t] == [t];
    }
  }

  // ----- Steps -----

  /** Free every queue at the head of the timer list whose time has passed. */
  function Expire(s: Defrag, now: int): Defrag
    decreases |s.timers|
  {
    if s.timers != [] && s.timers[0].expires < now && s.timers[0].key in s.queues && s.timers[0].key.dst in s.hosts then
      DelTimerFacts(s.timers, s.timers[0].key);
      Expire(FreeQueue(s, s.timers[0].key), now)
    else s
  }

  /** Free queues of a host, newest first, until it is below the low threshold or gone. */
  function Evict(s: Defrag, dst: u32): Defrag
    decreases if dst in s.hosts then |s.hosts[dst].keys| + 1 else 0
  {
    if dst in s.hosts && s.hosts[dst].mem > IPFRAG_LOW_THRESH && s.hosts[dst].keys != [] &&
       s.hosts[dst].keys[0] in s.queues && s.hosts[dst].keys[0].dst == dst
    then Evict(FreeQueue(s, s.hosts[dst].keys[0]), dst)
    else s
  }

  function Relieve(s: Defrag, dst: u32): Defrag {
    if dst in s.hosts && s.hosts[dst].mem > IPFRAG_HIGH_THRESH then Evict(s, dst) else s
  }

  datatype Result = NotFragment | Held | HandedOn(d: Datagram)

  function WaitingOf(s: Defrag, key: Key): Waiting {
    if key in s.queues then Present(s.queues[key]) else Absent
  }

  /** Find or create host and queue, refresh the header, restart the timer. */
  function Enqueue(s: Defrag, p: Packet, now: int): Defrag {
    var key := KeyOf(p.hdr);
    var h := if key.dst in s.hosts then s.hosts[key.dst] else Host([], 0);
    var found := key in s.queues;
    Defrag(s.hosts[key.dst := if found then h else Host([key] + h.keys, h.mem + SIZEOF_IPQ + HEADER_ROOM)],
           s.queues[key := Opened(WaitingOf(s, key), p)],
           AddTimer(DelTimer(s.timers, key), key, now))
  }

  /** Insert the fragment into its queue and charge it. */
  function Insert(s: Defrag, p: Packet): Defrag
    requires KeyOf(p.hdr) in s.queues && p.hdr.dst in s.hosts
  {
    var key := KeyOf(p.hdr);
    var q, h := s.queues[key], s.hosts[key.dst];
    var k := Place(q.frags, p.Offset());
    s.(queues := s.queues[key := AddFragment(q, p)],
       hosts := s.hosts[key.dst := h.(mem := h.mem - Killed(q.frags[k..], p.End()) + SIZEOF_IPFRAG + Truesize(p))])
  }

  function Store(s: Defrag, p: Packet, now: int, junk: nat -> byte): (Defrag, Result)
    requires forall k :: k in s.queues ==> ChainOk(s.queues[k].frags)
  {
    var key := KeyOf(p.hdr);
    var s1 := Enqueue(s, p, now);
    if p.Oversize() then (s1, Held)
    else
      var s2 := Insert(s1, p);
      var q := s2.queues[key];
      if Done(q) then
        InsertOk(s1.queues[key].frags, p);
        (FreeQueue(s2, key), match Glue(q, junk) case None => Held case Some(d) => HandedOn(d))
      else (s2, Held)
  }

  /** One IP packet. */
  function Receive(s: Defrag, p: Packet, now: int, junk: nat -> byte): (Defrag, Result)
    requires Ok(s)
  {
    ExpireOk(s, now);
    RelieveOk(Expire(s, now), p.hdr.dst);
    var s1 := Relieve(Expire(s, now), p.hdr.dst);
    var key := KeyOf(p.hdr);
    if !p.Fragment() then (if key in s1.queues then FreeQueue(s1, key) else s1, NotFragment)
    else Store(s1, p, now, junk)
  }

  // ----- Every step keeps the invariant -----

  lemma FreedHostOk(s: Defrag, key: Key, dst: u32)
    requires Ok(s) && key in s.queues && key.dst in s.hosts && dst in FreeQueue(s, key).hosts
    ensures HostOk(FreeQueue(s, key), dst)
  {
    var h := s.hosts[dst];
    assert HostOk(s, dst) && HostOk(s, key.dst);
    if dst == key.dst {
      RemoveFacts(h.keys, key);
      ChargeRemove(s.queues, h.keys, key);
    } else {
      assert key !in h.keys;
      ChargeSame(s.queues, s.queues - {key}, h.keys);
    }
  }

  lemma FreeQueueOk(s: Defrag, key: Key)
    requires Ok(s) && key in s.queues
    ensures key.dst in s.hosts && Ok(FreeQueue(s, key))
  {
    hide QueueOk, NoRepeat, TimerKeys, DelTimer, ChargeAll, Charge, Remove;
    var r := FreeQueue(s, key);
    assert HostOk(s, key.dst);
    RemoveFacts(s.hosts[key.dst].keys, key);
    DelTimerFacts(s.timers, key);
    forall dst | dst in r.hosts ensures HostOk(r, dst) {
      FreedHostOk(s, key, dst);
    }
    forall k | k in r.queues ensures k.dst in r.hosts && k in r.hosts[k.dst].keys {
      assert HostOk(s, k.dst);
    }
  }

  lemma {:induction false} ExpireOk(s: Defrag, now: int)
    requires Ok(s)
    ensures Ok(Expire(s, now))
    ensures Expire(s, now).timers != [] ==> now <= Expire(s, now).timers[0].expires
    decreases |s.timers|
  {
    hide Ok, FreeQueue;
    if s.timers != [] {
      HeadKnown(s);
      if s.timers[0].expires < now {
        FreeQueueOk(s, s.timers[0].key);
        DelTimerFacts(s.timers, s.timers[0].key);
        FreeTimers(s, s.timers[0].key);
        ExpireOk(FreeQueue(s, s.timers[0].key), now);
      }
    }
  }

  lemma FreeTimers(s: Defrag, key: Key)
    requires key in s.queues && key.dst in s.hosts
    ensures FreeQueue(s, key).timers == DelTimer(s.timers, key)
  {
  }

  lemma HeadKnown(s: Defrag)
    requires Ok(s) && s.timers != []
    ensures s.timers[0].key in s.queues && s.timers[0].key.dst in s.hosts && s.timers[0].key in TimerKeys(s.timers)
  {
  }

  /** The fatal branch of the evictor, a host over the threshold without queues,
      is never reached, and eviction ends below the low threshold or without the host. */
  lemma {:induction false} EvictOk(s: Defrag, dst: u32)
    requires Ok(s)
    ensures var r := Evict(s, dst);
            Ok(r) && (dst in r.hosts ==> r.hosts[dst].mem <= IPFRAG_LOW_THRESH && r.hosts[dst].keys != [])
    decreases if dst in s.hosts then |s.hosts[dst].keys| + 1 else 0
  {
    hide FreeQueue, QueueOk, NoRepeat, TimersOk, ChargeAll;
    if dst in s.hosts {
      assert HostOk(s, dst);
      if s.hosts[dst].mem > IPFRAG_LOW_THRESH {
        var key := s.hosts[dst].keys[0];
        FreeQueueOk(s, key);
        FreeShrinks(s, key);
        EvictOk(FreeQueue(s, key), dst);
      }
    }
  }

  lemma FreeShrinks(s: Defrag, key: Key)
    requires Ok(s) && key in s.queues && key.dst in s.hosts
    ensures var r := FreeQueue(s, key); key.dst in r.hosts ==> |r.hosts[key.dst].keys| < |s.hosts[key.dst].keys|
  {
    assert HostOk(s, key.dst);
    RemoveFacts(s.hosts[key.dst].keys, key);
  }

  lemma RelieveOk(s: Defrag, dst: u32)
    requires Ok(s)
    ensures Ok(Relieve(s, dst))
    ensures dst in Relieve(s, dst).hosts ==> Relieve(s, dst).hosts[dst].mem <= IPFRAG_HIGH_THRESH
  {
    hide Ok;
    EvictOk(s, dst);
  }

  lemma {:induction false} ChargeGrow(queues: map<Key, Queue>, keys: seq<Key>, key: Key, q: Queue)
    requires key !in keys
    ensures ChargeAll(queues[key := q], keys) == ChargeAll(queues, keys)
  {
    ChargeSame(queues, queues[key := q], keys);
  }

  lemma {:induction false} ChargeUpdate(queues: map<Key, Queue>, keys: seq<Key>, key: Key, q: Queue)
    requires NoRepeat(keys) && key in keys && key in queues
    ensures ChargeAll(queues[key := q], keys) == ChargeAll(queues, keys) - Charge(queues[key]) + Charge(q)
  {
    if keys[0] == key {
      ChargeGrow(queues, keys[1..], key, q);
    } else {
      ChargeUpdate(queues, keys[1..], key, q);
    }
  }

  /** The charge of a queue does not depend on its header. */
  lemma HeaderIsFree(w: Waiting, p: Packet)
    ensures w.Present? ==> Charge(Opened(w, p)) == Charge(w.q)
    ensures w.Absent? ==> Charge(Opened(w, p)) == SIZEOF_IPQ + HEADER_ROOM
  {
  }

  lemma EnqueueHostOk(s: Defrag, p: Packet, now: int, dst: u32)
    requires Ok(s) && dst in Enqueue(s, p, now).hosts
    ensures HostOk(Enqueue(s, p, now), dst)
  {
    hide NoRepeat, Charge, TimersOk, Opened, DelTimer, ChargeAll;
    var key := KeyOf(p.hdr);
    var q := Opened(WaitingOf(s, key), p);
    var keys := if dst in s.hosts then s.hosts[dst].keys else [];
    HeaderIsFree(WaitingOf(s, key), p);
    assert dst in s.hosts ==> HostOk(s, dst);
    NothingRepeats();
    if key in s.queues && dst == key.dst {
      assert HostOk(s, key.dst);
      ChargeUpdate(s.queues, keys, key, q);
    } else {
      ChargeGrow(s.queues, keys, key, q);
      FreshKey(keys, key);
      ChargeFirst(s.queues[key := q], keys, key);
      ChargeNothing(s.queues);
    }
  }

  lemma ChargeFirst(queues: map<Key, Queue>, keys: seq<Key>, key: Key)
    requires key in queues
    ensures ChargeAll(queues, [key] + keys) == Charge(queues[key]) + ChargeAll(queues, keys)
  {
    assert ([key] + keys)[1..] == keys;
  }

  lemma ChargeNothing(queues: map<Key, Queue>)
    ensures ChargeAll(queues, []) == 0
  {
  }

  lemma FreshKey(keys: seq<Key>, key: Key)
    requires key !in keys && NoRepeat(keys)
    ensures NoRepeat([key] + keys)
  {
    assert ([key] + keys)[1..] == keys;
  }

  lemma NothingRepeats()
    ensures NoRepeat([])
  {
  }

  lemma OpenedKey(s: Defrag, p: Packet)
    requires Ok(s)
    ensures QueueOk(KeyOf(p.hdr), Opened(WaitingOf(s, KeyOf(p.hdr)), p))
  {
  }

  lemma EnqueueTimersOk(s: Defrag, p: Packet, now: int)
    requires Ok(s)
    ensures TimersOk(Enqueue(s, p, now).timers, Enqueue(s, p, now).queues)
  {
    hide QueueOk, HostOk, NoRepeat, TimerKeys, DelTimer, Opened;
    var key := KeyOf(p.hdr);
    DelTimerFacts(s.timers, key);
    AddTimerFacts(DelTimer(s.timers, key), Timer(key, now + IP_FRAG_TIME));
  }

  lemma EnqueueOk(s: Defrag, p: Packet, now: int)
    requires Ok(s)
    ensures Ok(Enqueue(s, p, now))
  {
    hide QueueOk, NoRepeat, TimersOk, AddTimer, DelTimer, ChargeAll, Charge, Opened;
    var key := KeyOf(p.hdr);
    var r := Enqueue(s, p, now);
    EnqueueTimersOk(s, p, now);
    OpenedKey(s, p);
    forall dst | dst in r.hosts ensures HostOk(r, dst) {
      EnqueueHostOk(s, p, now, dst);
    }
    forall k | k in r.queues ensures k.dst in r.hosts && k in r.hosts[k.dst].keys {
      assert k in s.queues || k == key;
    }
  }

  lemma {:induction false} TrimCharge(next: seq<Frag>, end: int)
    ensures ChargeFrags(Trim(next, end)) == ChargeFrags(next) - Killed(next, end)
  {
    if next != [] && next[0].offset < end && next[0].len <= end - next[0].offset {
      TrimCharge(next[1..], end);
    }
  }

  lemma {:induction false} ChargeSplit(a: seq<Frag>, b: seq<Frag>)
    ensures ChargeFrags(a + b) == ChargeFrags(a) + ChargeFrags(b)
  {
    if a == [] {
      assert a + b == b;
    } else {
      assert (a + b)[1..] == a[1..] + b;
      ChargeSplit(a[1..], b);
    }
  }

  /** The bookkeeping of an insertion matches what the chain holds afterwards. */
  lemma InsertCharge(q: Queue, p: Packet)
    ensures var k := Place(q.frags, p.Offset());
            Charge(AddFragment(q, p)) == Charge(q) - Killed(q.frags[k..], p.End()) + SIZEOF_IPFRAG + Truesize(p)
  {
    hide Trim, Place, Killed, Truesize, ChargeFrags;
    var k := Place(q.frags, p.Offset());
    var t := Trim(q.frags[k..], p.End());
    var n := NewNode(q.frags, p);
    TrimCharge(q.frags[k..], p.End());
    ChargeSplit(q.frags[..k], q.frags[k..]);
    assert q.frags == q.frags[..k] + q.frags[k..];
    ChargeSplit(q.frags[..k] + [n], t);
    ChargeSplit(q.frags[..k], [n]);
    ChargeOne(n);
  }

  lemma ChargeOne(n: Frag)
    ensures ChargeFrags([n]) == SIZEOF_IPFRAG + Truesize(n.skb)
  {
  }

  lemma InsertHostOk(s: Defrag, p: Packet, dst: u32)
    requires Ok(s) && KeyOf(p.hdr) in s.queues && p.hdr.dst in s.hosts && dst in s.hosts
    ensures HostOk(Insert(s, p), dst)
  {
    hide NoRepeat, Charge, ChargeAll, TimersOk, QueueOk, AddFragment, Killed, Place, Truesize;
    var key := KeyOf(p.hdr);
    assert HostOk(s, dst) && HostOk(s, key.dst);
    InsertMember(s, key);
    if dst == key.dst {
      ChargeUpdate(s.queues, s.hosts[dst].keys, key, AddFragment(s.queues[key], p));
      InsertCharge(s.queues[key], p);
    } else {
      ChargeGrow(s.queues, s.hosts[dst].keys, key, AddFragment(s.queues[key], p));
    }
  }

  lemma InsertMember(s: Defrag, key: Key)
    requires Ok(s) && key in s.queues
    ensures key.dst in s.hosts && key in s.hosts[key.dst].keys
  {
  }

  lemma AddedOk(key: Key, q: Queue, p: Packet)
    requires QueueOk(key, q)
    ensures QueueOk(key, AddFragment(q, p))
  {
    IpChain.InsertOk(q.frags, p);
  }

  lemma InsertKeepsOk(s: Defrag, p: Packet)
    requires Ok(s) && KeyOf(p.hdr) in s.queues && p.hdr.dst in s.hosts
    ensures Ok(Insert(s, p))
  {
    hide QueueOk, NoRepeat, TimerKeys, ChargeAll, Charge, AddFragment, Killed, Place, Truesize;
    var r := Insert(s, p);
    AddedOk(KeyOf(p.hdr), s.queues[KeyOf(p.hdr)], p);
    forall dst | dst in r.hosts ensures HostOk(r, dst) {
      InsertHostOk(s, p, dst);
    }
  }

  lemma StoreOk(s: Defrag, p: Packet, now: int, junk: nat -> byte)
    requires Ok(s)
    ensures Ok(Store(s, p, now, junk).0)
  {
    hide Ok, Enqueue, Insert, FreeQueue, Done, Glue;
    var key := KeyOf(p.hdr);
    ChainsOk(s);
    var s1 := Enqueue(s, p, now);
    EnqueueOk(s, p, now);
    EnqueueKnows(s, p, now);
    if !p.Oversize() {
      InsertKeepsOk(s1, p);
      InsertKnows(s1, p);
      var s2 := Insert(s1, p);
      FreeQueueOk(s2, key);
    }
  }

  lemma ChainsOk(s: Defrag)
    requires Ok(s)
    ensures forall k :: k in s.queues ==> ChainOk(s.queues[k].frags)
  {
    hide ChainOk;
  }

  lemma EnqueueKnows(s: Defrag, p: Packet, now: int)
    ensures KeyOf(p.hdr) in Enqueue(s, p, now).queues && p.hdr.dst in Enqueue(s, p, now).hosts
  {
  }

  lemma InsertKnows(s: Defrag, p: Packet)
    requires KeyOf(p.hdr) in s.queues && p.hdr.dst in s.hosts
    ensures KeyOf(p.hdr) in Insert(s, p).queues && p.hdr.dst in Insert(s, p).hosts
  {
  }

  /** Every packet keeps the invariant. */
  lemma ReceiveOk(s: Defrag, p: Packet, now: int, junk: nat -> byte)
    requires Ok(s)
    ensures Ok(Receive(s, p, now, junk).0)
  {
    hide Ok, Store, FreeQueue, Expire, Relieve;
    ExpireOk(s, now);
    RelieveOk(Expire(s, now), p.hdr.dst);
    var s1 := Relieve(Expire(s, now), p.hdr.dst);
    if p.Fragment() {
      StoreOk(s1, p, now, junk);
    } else if KeyOf(p.hdr) in s1.queues {
      FreeQueueOk(s1, KeyOf(p.hdr));
    }
  }
}
