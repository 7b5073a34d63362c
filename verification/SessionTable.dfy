/** The wheel of buckets is a table of sessions with the tick at which each was
    last active. */
module SessionTable {
  import opened SeqArith
  import opened SessionWheel

  // ----- The plain table -----

  /** The packets of a session, and the tick of the latest. */
  datatype Line = Line(packets: seq<Packet>, last: nat)

  datatype Table = Table(lines: map<Key, Line>, time: nat, ticks: nat)

  /** What is known of a session is what its packets add up to. */
  function DataOf(packets: seq<Packet>): SessionData
    requires packets != []
  {
    var n := |packets| - 1;
    if n == 0 then Updated(NewData(packets[0].t4, packets[0].time), packets[0])
    else Updated(DataOf(packets[..n]), packets[n])
  }

  ghost predicate Filled(t: Table) {
    forall k :: k in t.lines ==> t.lines[k].packets != []
  }

  /** Silent for as many ticks as there are buckets. */
  predicate Silent(l: Line, ticks: nat, capacity: nat) {
    l.last + capacity <= ticks
  }

  function TableTick(t: Table, sec: nat, capacity: nat): (Table, set<SessionData>)
    requires Filled(t)
  {
    if t.time <= sec then
      (Table(map k | k in t.lines && !Silent(t.lines[k], t.ticks + 1, capacity) :: t.lines[k], sec + 1, t.ticks + 1),
       set k | k in t.lines && Silent(t.lines[k], t.ticks + 1, capacity) ::
         Expired(DataOf(t.lines[k].packets), sec + 1))
    else (t, {})
  }

  function TableHandle(t: Table, p: Packet): (Table, set<SessionData>)
    requires Filled(t)
  {
    var k := KeyOf(p.t4);
    if k !in t.lines then
      if p.syn then (t.(lines := t.lines[k := Line([p], t.ticks)]), {}) else (t, {})
    else if p.fin || p.rst then
      (t.(lines := t.lines - {k}), {DataOf(t.lines[k].packets + [p]).(end := p.time)})
    else (t.(lines := t.lines[k := Line(t.lines[k].packets + [p], t.ticks)]), {})
  }

  function TableReceive(t: Table, p: Packet, capacity: nat): (Table, set<SessionData>)
    requires Filled(t)
  {
    if p.len < TCPHDR_SIZE then (t, {})
    else
      var ticked := TableTick(t, p.time.sec, capacity);
      assert Filled(ticked.0);
      var handled := TableHandle(ticked.0, p);
      (handled.0, ticked.1 + handled.1)
  }

  // ----- The wheel keeps to it -----

  /** Live sessions have an entry of their own in some bucket; entries of sessions that are gone point to nothing. */
  ghost predicate WheelOk(w: Wheel, capacity: nat) {
    && capacity > 0
    && |w.buckets| == (if w.ticks < capacity then w.ticks else capacity)
    && (forall e: nat :: EntryAlive(w.buckets, e) ==> e < w.next && e in w.owners)
    && (forall e :: e in w.owners ==> e < w.next && w.owners[e] < w.next)
    && (forall k :: k in w.sessions ==> SessionOk(w, k))
    && (forall k, l :: k in w.sessions && l in w.sessions && w.sessions[k].id == w.sessions[l].id ==> k == l)
  }

  ghost predicate SessionOk(w: Wheel, k: Key)
    requires k in w.sessions
  {
    var s := w.sessions[k];
    && KeyOf(s.data.t4) == k && s.id < w.next
    && s.entry in w.owners && w.owners[s.entry] == s.id && EntryAlive(w.buckets, s.entry)
    && (forall e :: e in w.owners && w.owners[e] == s.id ==> e == s.entry)
  }

  /** The number of the tick that brought bucket `i`, when `ticks` is that of the newest. */
  function TickOf(buckets: seq<set<nat>>, ticks: nat, i: int): int {
    ticks - |buckets| + 1 + i
  }

  /** The entry is in the bucket of tick `last` and in none after it. */
  ghost predicate LastIn(buckets: seq<set<nat>>, ticks: nat, e: nat, last: nat) {
    exists i :: 0 <= i < |buckets| && TickOf(buckets, ticks, i) == last && e in buckets[i]
      && forall j :: i < j < |buckets| ==> e !in buckets[j]
  }

  ghost predicate Agrees(w: Wheel, t: Table) {
    && w.time == t.time && w.ticks == t.ticks && w.sessions.Keys == t.lines.Keys && Filled(t)
    && forall k :: k in w.sessions ==>
         w.sessions[k].data == DataOf(t.lines[k].packets) && LastIn(w.buckets, w.ticks, w.sessions[k].entry, t.lines[k].last)
  }

  function Shown(reports: set<Report>): set<SessionData> {
    set r | r in reports :: r.data
  }

  // ----- A tick -----

  lemma DyingIsOldest(buckets: seq<set<nat>>, ticks: nat, capacity: nat, e: nat, last: nat)
    requires capacity > 0 && |buckets| == (if ticks < capacity then ticks else capacity) && LastIn(buckets, ticks, e, last)
    ensures e in Dying(buckets, capacity) <==> last + capacity <= ticks + 1
    ensures last <= ticks && EntryAlive(buckets, e)
  {
    var i :| 0 <= i < |buckets| && TickOf(buckets, ticks, i) == last && e in buckets[i]
             && forall j :: i < j < |buckets| ==> e !in buckets[j];
    if last + capacity <= ticks + 1 {
      assert i == 0;
    }
  }

  lemma PushKeeps(buckets: seq<set<nat>>, ticks: nat, capacity: nat, e: nat, last: nat)
    requires capacity > 0 && |buckets| == (if ticks < capacity then ticks else capacity) && LastIn(buckets, ticks, e, last)
    requires e !in Dying(buckets, capacity)
    ensures LastIn(Pushed(buckets, capacity), ticks + 1, e, last)
  {
    var i :| 0 <= i < |buckets| && TickOf(buckets, ticks, i) == last && e in buckets[i]
             && forall j :: i < j < |buckets| ==> e !in buckets[j];
    var d := if |buckets| == capacity then 1 else 0;
    var after := Pushed(buckets, capacity);
    assert i >= d;
    assert after[i - d] == buckets[i] && TickOf(after, ticks + 1, i - d) == TickOf(buckets, ticks, i);
    forall j | i - d < j < |after| ensures e !in after[j] {
      if j < |after| - 1 {
        assert after[j] == buckets[j + d];
      }
    }
  }

  /** The bucket that goes takes with it exactly the sessions silent for a whole turn. */
  lemma TimedOutIsSilent(w: Wheel, t: Table, capacity: nat, k: Key)
    requires WheelOk(w, capacity) && Agrees(w, t) && k in w.sessions
    ensures TimedOut(w, capacity, k) <==> Silent(t.lines[k], t.ticks + 1, capacity)
    ensures TimedOut(w, capacity, k) <==> w.sessions[k].entry in Dying(w.buckets, capacity)
  {
    hide LastIn, Dying, EntryAlive;
    var s := w.sessions[k];
    assert SessionOk(w, k);
    DyingIsOldest(w.buckets, w.ticks, capacity, s.entry, t.lines[k].last);
    if TimedOut(w, capacity, k) {
      var e :| e in Dying(w.buckets, capacity) && e in w.owners && w.owners[e] == s.id;
      assert e == s.entry;
    }
  }

  lemma TickKeepsSession(w: Wheel, t: Table, capacity: nat, k: Key)
    requires WheelOk(w, capacity) && Agrees(w, t) && k in w.sessions && !TimedOut(w, capacity, k)
    ensures var v := Tick(w, capacity);
            k in v.sessions && SessionOk(v, k) && LastIn(v.buckets, v.ticks, v.sessions[k].entry, t.lines[k].last)
  {
    hide TimedOut, LastIn, Dying, Pushed, EntryAlive;
    assert SessionOk(w, k);
    TimedOutIsSilent(w, t, capacity, k);
    PushKeeps(w.buckets, w.ticks, capacity, w.sessions[k].entry, t.lines[k].last);
    var v := Tick(w, capacity);
    PushedLength(w.buckets, capacity);
    DyingIsOldest(v.buckets, v.ticks, capacity, w.sessions[k].entry, t.lines[k].last);
  }

  lemma PushedLength(buckets: seq<set<nat>>, capacity: nat)
    requires capacity > 0 && |buckets| <= capacity
    ensures |Pushed(buckets, capacity)| == if |buckets| < capacity then |buckets| + 1 else capacity
    ensures forall e: nat :: EntryAlive(Pushed(buckets, capacity), e) ==> EntryAlive(buckets, e)
  {
    var after := Pushed(buckets, capacity);
    var d := if |buckets| == capacity then 1 else 0;
    forall e: nat | EntryAlive(after, e) ensures EntryAlive(buckets, e) {
      var i :| 0 <= i < |after| && e in after[i];
      assert after[i] == buckets[i + d];
    }
  }

  lemma TickOk(w: Wheel, t: Table, capacity: nat)
    requires WheelOk(w, capacity) && Agrees(w, t)
    ensures WheelOk(Tick(w, capacity), capacity)
  {
    hide TimedOut, LastIn, Dying, Pushed, SessionOk, EntryAlive;
    var v := Tick(w, capacity);
    PushedLength(w.buckets, capacity);
    assert forall k :: k in v.sessions ==> SessionOk(v, k) by {
      forall k | k in v.sessions ensures SessionOk(v, k) {
        TickKeepsSession(w, t, capacity, k);
      }
    }
  }

  /** A tick ends the sessions that the table ends, and reports them alike. */
  lemma TickAgrees(w: Wheel, t: Table, sec: nat, capacity: nat)
    requires WheelOk(w, capacity) && Agrees(w, t) && (w.time > 0 ==> w.ticks > 0)
    ensures var c := CheckTime(w, sec, capacity);
            var d := TableTick(t, sec, capacity);
            WheelOk(c.0, capacity) && Agrees(c.0, d.0) && Shown(c.1) == d.1 && c.0.ticks > 0 && c.0.time > 0
  {
    hide TimedOut, Silent, LastIn, DataOf, SessionOk, Dying, Pushed, EntryAlive, Expired;
    if w.time <= sec {
      var v := w.(time := sec + 1);
      var u := t.(time := sec + 1);
      assert Agrees(v, u) && WheelOk(v, capacity) by {
        assert forall k :: k in w.sessions ==> SessionOk(v, k) by { OnlyTime(w, v); }
      }
      TickOk(v, u, capacity);
      forall k | k in v.sessions ensures TimedOut(v, capacity, k) <==> Silent(t.lines[k], t.ticks + 1, capacity) {
        TimedOutIsSilent(v, u, capacity, k);
      }
      forall k | k in v.sessions && !TimedOut(v, capacity, k)
        ensures LastIn(Tick(v, capacity).buckets, v.ticks + 1, v.sessions[k].entry, t.lines[k].last) {
        TickKeepsSession(v, u, capacity, k);
      }
      var d := TableTick(t, sec, capacity);
      assert Tick(v, capacity).sessions.Keys == d.0.lines.Keys;
      ShownAlike(v, u, capacity);
    }
  }

  lemma OnlyTime(w: Wheel, v: Wheel)
    requires v == w.(time := v.time)
    ensures forall k :: k in w.sessions && SessionOk(w, k) ==> SessionOk(v, k)
  {
  }

  lemma ShownAlike(w: Wheel, t: Table, capacity: nat)
    requires WheelOk(w, capacity) && Agrees(w, t)
    requires forall k :: k in w.sessions ==> (TimedOut(w, capacity, k) <==> Silent(t.lines[k], t.ticks + 1, capacity))
    ensures Shown(Timeouts(w, capacity)) ==
            set k | k in t.lines && Silent(t.lines[k], t.ticks + 1, capacity) :: Expired(DataOf(t.lines[k].packets), t.time)
  {
    hide TimedOut, Silent, LastIn, DataOf, SessionOk, Expired;
    var mine := Shown(Timeouts(w, capacity));
    var other := set k | k in t.lines && Silent(t.lines[k], t.ticks + 1, capacity) :: Expired(DataOf(t.lines[k].packets), t.time);
    forall d | d in mine ensures d in other {
      var r :| r in Timeouts(w, capacity) && r.data == d;
      var k :| k in w.sessions && TimedOut(w, capacity, k)
               && r == Report(w.sessions[k].id, Expired(w.sessions[k].data, w.time));
      assert k in t.lines && Silent(t.lines[k], t.ticks + 1, capacity);
    }
    forall d | d in other ensures d in mine {
      var k :| k in t.lines && Silent(t.lines[k], t.ticks + 1, capacity) && d == Expired(DataOf(t.lines[k].packets), t.time);
      var r := Report(w.sessions[k].id, Expired(w.sessions[k].data, w.time));
      assert r in Timeouts(w, capacity);
      assert r.data == d;
    }
  }

  // ----- A packet -----

  lemma InsertKeeps(buckets: seq<set<nat>>, ticks: nat, e: nat, other: nat, last: nat)
    requires LastIn(buckets, ticks, other, last) && other != e && last <= ticks
    ensures LastIn(Insert(buckets, e), ticks, other, last)
  {
    var i :| 0 <= i < |buckets| && TickOf(buckets, ticks, i) == last && other in buckets[i]
             && forall j :: i < j < |buckets| ==> other !in buckets[j];
    assert other in Insert(buckets, e)[i] && TickOf(Insert(buckets, e), ticks, i) == last;
  }

  lemma InsertNewest(buckets: seq<set<nat>>, ticks: nat, e: nat)
    requires buckets != []
    ensures LastIn(Insert(buckets, e), ticks, e, ticks) && EntryAlive(Insert(buckets, e), e)
    ensures forall x: nat :: x != e ==> (EntryAlive(Insert(buckets, e), x) <==> EntryAlive(buckets, x))
  {
    var n := |buckets| - 1;
    var after := Insert(buckets, e);
    assert e in after[n] && TickOf(after, ticks, n) == ticks;
    forall x: nat | x != e && EntryAlive(buckets, x) ensures EntryAlive(after, x) {
      var i :| 0 <= i < |buckets| && x in buckets[i];
      assert x in after[i];
    }
    forall x: nat | x != e && EntryAlive(after, x) ensures EntryAlive(buckets, x) {
      var i :| 0 <= i < |after| && x in after[i];
      assert x in buckets[i];
    }
  }

  lemma LastTick(buckets: seq<set<nat>>, ticks: nat, e: nat, last: nat)
    requires LastIn(buckets, ticks, e, last)
    ensures last <= ticks && EntryAlive(buckets, e)
  {
  }

  /** A new session: its entry is the newest. */
  lemma ConnectAgrees(w: Wheel, t: Table, p: Packet, capacity: nat)
    requires WheelOk(w, capacity) && Agrees(w, t) && w.ticks > 0 && KeyOf(p.t4) !in w.sessions
    ensures var k := KeyOf(p.t4);
            var v := Connect(w, k, w.next, Updated(NewData(p.t4, p.time), p));
            WheelOk(v, capacity) && Agrees(v, t.(lines := t.lines[k := Line([p], t.ticks)]))
  {
    hide LastIn, Insert, EntryAlive, Updated, NewData, SessionOk, Agrees, DataOf;
    var k := KeyOf(p.t4);
    var v := Connect(w, k, w.next, Updated(NewData(p.t4, p.time), p));
    assert v.sessions[k].data.t4 == p.t4 by { UpdatedKeeps(NewData(p.t4, p.time), p); }
    InsertNewest(w.buckets, w.ticks, w.next);
    InsertLength(w.buckets, w.next);
    forall l | l in w.sessions ensures SessionOk(v, l) && w.sessions[l].id < w.next {
      SessionOkAlso(w, v, l);
    }
    SessionOkNew(w, v, k);
    hide WheelOk;
    ConnectLasts(w, t, p, capacity);
  }

  lemma SessionOkAlso(w: Wheel, v: Wheel, l: Key)
    requires l in w.sessions && SessionOk(w, l) && l in v.sessions && v.sessions[l] == w.sessions[l]
    requires v.owners == w.owners[w.next := w.next] && v.next == w.next + 1
    requires forall e: nat :: e != w.next && EntryAlive(w.buckets, e) ==> EntryAlive(v.buckets, e)
    requires forall e :: e in w.owners ==> e < w.next
    ensures SessionOk(v, l) && w.sessions[l].id < w.next
  {
    hide EntryAlive;
  }

  lemma SessionOkNew(w: Wheel, v: Wheel, k: Key)
    requires k in v.sessions && KeyOf(v.sessions[k].data.t4) == k && EntryAlive(v.buckets, w.next)
    requires v.sessions[k].id == w.next && v.sessions[k].entry == w.next
    requires v.owners == w.owners[w.next := w.next] && v.next == w.next + 1
    requires forall e :: e in w.owners ==> e < w.next && w.owners[e] < w.next
    ensures SessionOk(v, k)
  {
    hide EntryAlive;
  }

  lemma ConnectLasts(w: Wheel, t: Table, p: Packet, capacity: nat)
    requires WheelOk(w, capacity) && Agrees(w, t) && w.ticks > 0 && KeyOf(p.t4) !in w.sessions
    ensures var k := KeyOf(p.t4);
            var v := Connect(w, k, w.next, Updated(NewData(p.t4, p.time), p));
            Agrees(v, t.(lines := t.lines[k := Line([p], t.ticks)]))
  {
    hide LastIn, Insert, EntryAlive, Updated, NewData;
    InsertNewest(w.buckets, w.ticks, w.next);
    forall l | l in w.sessions
      ensures LastIn(Insert(w.buckets, w.next), w.ticks, w.sessions[l].entry, t.lines[l].last) {
      assert SessionOk(w, l);
      LastTick(w.buckets, w.ticks, w.sessions[l].entry, t.lines[l].last);
      InsertKeeps(w.buckets, w.ticks, w.next, w.sessions[l].entry, t.lines[l].last);
    }
  }

  lemma UpdatedKeeps(d: SessionData, p: Packet)
    ensures Updated(d, p).t4 == d.t4 && Updated(d, p).start == d.start
    ensures NewData(p.t4, p.time).t4 == p.t4
  {
  }

  lemma InsertLength(buckets: seq<set<nat>>, e: nat)
    ensures |Insert(buckets, e)| == |buckets|
  {
  }

  /** A further packet: the entry of its session is in the newest bucket again. */
  lemma ActiveAgrees(w: Wheel, t: Table, p: Packet, capacity: nat)
    requires WheelOk(w, capacity) && Agrees(w, t) && w.ticks > 0 && KeyOf(p.t4) in w.sessions
    ensures var k := KeyOf(p.t4);
            var s := w.sessions[k];
            var v := w.(sessions := w.sessions[k := s.(data := Updated(s.data, p))], buckets := Insert(w.buckets, s.entry));
            WheelOk(v, capacity) && Agrees(v, t.(lines := t.lines[k := Line(t.lines[k].packets + [p], t.ticks)]))
  {
    hide LastIn, Insert, EntryAlive, Updated;
    var k := KeyOf(p.t4);
    var s := w.sessions[k];
    var v := w.(sessions := w.sessions[k := s.(data := Updated(s.data, p))], buckets := Insert(w.buckets, s.entry));
    UpdatedKeeps(s.data, p);
    InsertNewest(w.buckets, w.ticks, s.entry);
    InsertLength(w.buckets, s.entry);
    assert SessionOk(w, k);
    forall l | l in w.sessions && l != k
      ensures SessionOk(v, l) && LastIn(v.buckets, v.ticks, v.sessions[l].entry, t.lines[l].last) {
      assert SessionOk(w, l);
      LastTick(w.buckets, w.ticks, w.sessions[l].entry, t.lines[l].last);
      InsertKeeps(w.buckets, w.ticks, s.entry, w.sessions[l].entry, t.lines[l].last);
    }
    DataMore(t.lines[k].packets, p);
    assert SessionOk(v, k);
  }

  lemma DataMore(packets: seq<Packet>, p: Packet)
    requires packets != []
    ensures DataOf(packets + [p]) == Updated(DataOf(packets), p)
  {
    assert (packets + [p])[..|packets|] == packets;
  }

  lemma SameSession(w: Wheel, v: Wheel, l: Key)
    requires l in w.sessions && SessionOk(w, l) && l in v.sessions && v == w.(sessions := v.sessions)
    requires v.sessions[l] == w.sessions[l]
    ensures SessionOk(v, l)
  {
  }

  /** A session that ends leaves its entry behind, which from then on points to nothing. */
  lemma GoneAgrees(w: Wheel, t: Table, k: Key, capacity: nat)
    requires WheelOk(w, capacity) && Agrees(w, t)
    ensures var v := w.(sessions := w.sessions - {k});
            WheelOk(v, capacity) && Agrees(v, t.(lines := t.lines - {k}))
  {
    hide LastIn, EntryAlive, SessionOk;
    var v := w.(sessions := w.sessions - {k});
    forall l | l in v.sessions ensures SessionOk(v, l) {
      SameSession(w, v, l);
    }
  }

  /** The branch for a session whose entry is gone is never taken. */
  lemma NeverDead(w: Wheel, capacity: nat, k: Key)
    requires WheelOk(w, capacity) && k in w.sessions
    ensures EntryAlive(w.buckets, w.sessions[k].entry)
  {
    assert SessionOk(w, k);
  }

  lemma HandleAgrees(w: Wheel, t: Table, p: Packet, capacity: nat)
    requires WheelOk(w, capacity) && Agrees(w, t) && w.ticks > 0
    ensures var c := Handle(w, p);
            var d := TableHandle(t, p);
            WheelOk(c.0, capacity) && Agrees(c.0, d.0) && Shown(c.1) == d.1
            && c.0.ticks == w.ticks && c.0.time == w.time
  {
    hide WheelOk, LastIn, Insert, EntryAlive, Updated, KeyOf;
    var k := KeyOf(p.t4);
    if k !in w.sessions {
      if p.syn {
        ConnectAgrees(w, t, p, capacity);
      }
    } else {
      NeverDead(w, capacity, k);
      if p.fin || p.rst {
        GoneAgrees(w, t, k, capacity);
        DataMore(t.lines[k].packets, p);
        EndCommutes(w.sessions[k].data, p);
      } else {
        ActiveAgrees(w, t, p, capacity);
      }
    }
  }

  lemma EndCommutes(d: SessionData, p: Packet)
    ensures Updated(d.(end := p.time), p) == Updated(d, p).(end := p.time)
  {
  }

  /** The wheel and the table side by side. */
  ghost predicate Matched(w: Wheel, t: Table, capacity: nat) {
    WheelOk(w, capacity) && Agrees(w, t) && (w.time > 0 ==> w.ticks > 0)
  }

  lemma ReceiveAgrees(w: Wheel, t: Table, p: Packet, capacity: nat)
    requires Matched(w, t, capacity)
    ensures var c := Receive(w, p, capacity);
            var d := TableReceive(t, p, capacity);
            Matched(c.0, d.0, capacity) && Shown(c.1) == d.1
  {
    hide WheelOk, CheckTime, TableTick, Handle, TableHandle;
    if p.len >= TCPHDR_SIZE {
      TickAgrees(w, t, p.time.sec, capacity);
      var c := CheckTime(w, p.time.sec, capacity);
      var d := TableTick(t, p.time.sec, capacity);
      HandleAgrees(c.0, d.0, p, capacity);
      ShownUnion(c.1, Handle(c.0, p).1);
    }
  }

  lemma ShownUnion(a: set<Report>, b: set<Report>)
    ensures Shown(a + b) == Shown(a) + Shown(b)
  {
    forall d | d in Shown(a) + Shown(b) ensures d in Shown(a + b) {
      var r :| r in a + b && r.data == d;
    }
  }

  // ----- Whole runs -----

  /** What is reported at each packet. */
  function Run(trace: seq<Packet>, capacity: nat): (Wheel, seq<set<Report>>) {
    if trace == [] then (Start(), [])
    else
      var before := Run(trace[..|trace| - 1], capacity);
      var c := Receive(before.0, trace[|trace| - 1], capacity);
      (c.0, before.1 + [c.1])
  }

  /** The table after the same packets. */
  function TableRun(trace: seq<Packet>, capacity: nat): (r: (Table, seq<set<SessionData>>))
    ensures Filled(r.0)
  {
    if trace == [] then (Table(map[], 0, 0), [])
    else
      var before := TableRun(trace[..|trace| - 1], capacity);
      var d := TableReceive(before.0, trace[|trace| - 1], capacity);
      (d.0, before.1 + [d.1])
  }

  /** Over any capture the wheel reports what the table reports, packet by packet. */
  lemma {:induction false} RunAgrees(trace: seq<Packet>, capacity: nat)
    requires capacity > 0
    ensures var a := Run(trace, capacity);
            var b := TableRun(trace, capacity);
            && Matched(a.0, b.0, capacity)
            && |a.1| == |b.1| == |trace|
            && forall i :: 0 <= i < |trace| ==> Shown(a.1[i]) == b.1[i]
    decreases |trace|
  {
    hide Receive, TableReceive, Matched;
    if trace == [] {
      StartMatched(capacity);
    } else {
      var n := |trace| - 1;
      RunAgrees(trace[..n], capacity);
      ReceiveAgrees(Run(trace[..n], capacity).0, TableRun(trace[..n], capacity).0, trace[n], capacity);
    }
  }

  lemma StartMatched(capacity: nat)
    requires capacity > 0
    ensures Matched(Start(), Table(map[], 0, 0), capacity)
  {
  }

  // ----- When and how often -----

  /** No session in the table has been silent for a whole turn. */
  ghost predicate Lively(t: Table, capacity: nat) {
    forall k :: k in t.lines ==> t.lines[k].last <= t.ticks < t.lines[k].last + capacity
  }

  /** A session times out at the tick that makes its silence a whole turn, neither earlier nor later. */
  lemma TimeoutExact(t: Table, p: Packet, capacity: nat)
    requires Filled(t) && Lively(t, capacity) && capacity > 0
    ensures Lively(TableReceive(t, p, capacity).0, capacity)
    ensures forall k :: k in t.lines ==>
              (Silent(t.lines[k], t.ticks + 1, capacity) <==> t.lines[k].last + capacity == t.ticks + 1)
  {
    hide DataOf;
  }

  ghost predicate LiveId(w: Wheel, id: nat) {
    exists k :: k in w.sessions && w.sessions[k].id == id
  }

  predicate Reported(reports: set<Report>, id: nat) {
    exists r :: r in reports && r.id == id
  }

  /** Each session has at most one report. */
  predicate Single(reports: set<Report>) {
    forall r, q :: r in reports && q in reports && r.id == q.id ==> r == q
  }

  lemma TickOnce(w: Wheel, capacity: nat)
    requires WheelOk(w, capacity)
    ensures Single(Timeouts(w, capacity))
    ensures forall id: nat :: LiveId(w, id) <==> LiveId(Tick(w, capacity), id) || Reported(Timeouts(w, capacity), id)
    ensures forall id: nat :: !(LiveId(Tick(w, capacity), id) && Reported(Timeouts(w, capacity), id))
  {
    hide TimedOut, SessionOk, EntryAlive, Expired, Pushed;
    var v := Tick(w, capacity);
    var out := Timeouts(w, capacity);
    forall id: nat | LiveId(w, id) ensures LiveId(v, id) || Reported(out, id) {
      var k :| k in w.sessions && w.sessions[k].id == id;
      if TimedOut(w, capacity, k) {
        assert Report(id, Expired(w.sessions[k].data, w.time)) in out;
      } else {
        assert k in v.sessions && v.sessions[k].id == id;
      }
    }
    forall id: nat | Reported(out, id) ensures LiveId(w, id) && !LiveId(v, id) {
      var r :| r in out && r.id == id;
      var k :| k in w.sessions && TimedOut(w, capacity, k) && r == Report(w.sessions[k].id, Expired(w.sessions[k].data, w.time));
    }
  }

  lemma HandleOnce(w: Wheel, p: Packet, capacity: nat)
    requires WheelOk(w, capacity)
    ensures var c := Handle(w, p);
            && Single(c.1) && w.next <= c.0.next <= w.next + 1
            && (forall id: nat :: Reported(c.1, id) ==> LiveId(w, id) && !LiveId(c.0, id))
            && (forall id: nat :: LiveId(c.0, id) || Reported(c.1, id) <==> LiveId(w, id) || w.next <= id < c.0.next)
  {
    hide LastIn, EntryAlive, Insert, Updated, NewData;
    var c := Handle(w, p);
    var k := KeyOf(p.t4);
    if k in w.sessions {
      NeverDead(w, capacity, k);
    }
    forall id: nat | LiveId(w, id) ensures LiveId(c.0, id) || Reported(c.1, id) {
      var l :| l in w.sessions && w.sessions[l].id == id;
      if l in c.0.sessions {
        assert c.0.sessions[l].id == id;
      }
    }
    if c.0.next > w.next {
      assert k in c.0.sessions && c.0.sessions[k].id == w.next;
    }
  }

  lemma CheckOnce(w: Wheel, sec: nat, capacity: nat)
    requires WheelOk(w, capacity)
    ensures var a := CheckTime(w, sec, capacity);
            && Single(a.1) && a.0.next == w.next
            && (forall id: nat :: Reported(a.1, id) ==> LiveId(w, id) && !LiveId(a.0, id) && id < w.next)
            && (forall id: nat :: LiveId(w, id) <==> LiveId(a.0, id) || Reported(a.1, id))
  {
    hide Tick, Timeouts, WheelOk, Single, LiveId, Reported;
    if w.time <= sec {
      var v := w.(time := sec + 1);
      TimeKeepsOk(w, sec + 1, capacity);
      TickOnce(v, capacity);
      TimeKeepsLive(w, sec + 1);
      TickKeepsNext(v, capacity);
      LiveBelow(w, capacity);
      forall id: nat | Reported(Timeouts(v, capacity), id)
        ensures LiveId(w, id) && !LiveId(Tick(v, capacity), id) && id < w.next {
        assert LiveId(v, id);
      }
    } else {
      NoReports();
    }
  }

  lemma ReceiveOnce(w: Wheel, t: Table, p: Packet, capacity: nat)
    requires Matched(w, t, capacity)
    ensures var c := Receive(w, p, capacity);
            && Single(c.1) && w.next <= c.0.next
            && (forall id: nat :: Reported(c.1, id) ==> LiveId(w, id) && !LiveId(c.0, id))
            && (forall id: nat :: LiveId(c.0, id) || Reported(c.1, id) <==> LiveId(w, id) || w.next <= id < c.0.next)
  {
    hide CheckTime, Handle, WheelOk, Single, LiveId, Reported, Agrees;
    if p.len < TCPHDR_SIZE {
      NoReports();
      return;
    }
    var a := CheckTime(w, p.time.sec, capacity);
    TickAgrees(w, t, p.time.sec, capacity);
    CheckOnce(w, p.time.sec, capacity);
    HandleOnce(a.0, p, capacity);
    var b := Handle(a.0, p);
    SingleUnion(a.1, b.1);
    assert Receive(w, p, capacity) == (b.0, a.1 + b.1);
  }

  lemma LiveBelow(w: Wheel, capacity: nat)
    requires WheelOk(w, capacity)
    ensures forall id: nat :: LiveId(w, id) ==> id < w.next
  {
    forall id: nat | LiveId(w, id) ensures id < w.next {
      var k :| k in w.sessions && w.sessions[k].id == id;
      assert SessionOk(w, k);
    }
  }

  lemma NoReports()
    ensures Single({}) && forall id: nat :: !Reported({}, id)
  {
  }

  lemma TickKeepsNext(w: Wheel, capacity: nat)
    ensures Tick(w, capacity).next == w.next
  {
  }

  lemma TimeKeepsOk(w: Wheel, time: nat, capacity: nat)
    requires WheelOk(w, capacity)
    ensures WheelOk(w.(time := time), capacity)
  {
    OnlyTime(w, w.(time := time));
  }

  lemma TimeKeepsLive(w: Wheel, time: nat)
    ensures forall id: nat :: LiveId(w.(time := time), id) <==> LiveId(w, id)
  {
    var v := w.(time := time);
    assert v.sessions == w.sessions;
  }

  lemma SingleUnion(a: set<Report>, b: set<Report>)
    ensures forall id: nat :: Reported(a + b, id) <==> Reported(a, id) || Reported(b, id)
    ensures Single(a) && Single(b) && (forall id: nat :: !(Reported(a, id) && Reported(b, id))) ==> Single(a + b)
  {
    forall id: nat | Reported(a, id) || Reported(b, id) ensures Reported(a + b, id) {
      var r :| (r in a || r in b) && r.id == id;
      assert r in a + b;
    }
    if Single(a) && Single(b) && forall id: nat :: !(Reported(a, id) && Reported(b, id)) {
      forall r, q | r in a + b && q in a + b && r.id == q.id ensures r == q {
        assert (r in a ==> Reported(a, r.id)) && (r in b ==> Reported(b, r.id));
        assert (q in a ==> Reported(a, q.id)) && (q in b ==> Reported(b, q.id));
      }
    }
  }

  predicate Ever(outs: seq<set<Report>>, id: nat) {
    exists i :: 0 <= i < |outs| && Reported(outs[i], id)
  }

  /** No session is reported twice. */
  ghost predicate OnceEach(outs: seq<set<Report>>) {
    && (forall i :: 0 <= i < |outs| ==> Single(outs[i]))
    && (forall i, j, id: nat :: 0 <= i < j < |outs| ==> !(Reported(outs[i], id) && Reported(outs[j], id)))
  }

  lemma EverMore(outs: seq<set<Report>>, out: set<Report>)
    ensures forall id: nat :: Ever(outs + [out], id) <==> Ever(outs, id) || Reported(out, id)
    ensures OnceEach(outs) && Single(out) && (forall id: nat :: !(Ever(outs, id) && Reported(out, id)))
            ==> OnceEach(outs + [out])
  {
    hide Reported, Single;
    var all := outs + [out];
    forall id: nat | Ever(outs, id) || Reported(out, id) ensures Ever(all, id) {
      if Ever(outs, id) {
        var i :| 0 <= i < |outs| && Reported(outs[i], id);
        assert Reported(all[i], id);
      } else {
        assert Reported(all[|outs|], id);
      }
    }
  }

  /** Every session ever opened is still in the table or has been reported, exactly once. */
  lemma {:induction false} ReportedOnce(trace: seq<Packet>, capacity: nat)
    requires capacity > 0
    ensures var r := Run(trace, capacity);
            && OnceEach(r.1)
            && (forall id: nat :: id < r.0.next <==> LiveId(r.0, id) || Ever(r.1, id))
            && (forall id: nat :: !(LiveId(r.0, id) && Ever(r.1, id)))
    decreases |trace|
  {
    hide Receive, Matched, LiveId, Reported, Single, Ever, OnceEach;
    if trace == [] {
      NothingLive();
    } else {
      var n := |trace| - 1;
      ReportedOnce(trace[..n], capacity);
      RunAgrees(trace[..n], capacity);
      var before := Run(trace[..n], capacity);
      ReceiveOnce(before.0, TableRun(trace[..n], capacity).0, trace[n], capacity);
      EverMore(before.1, Receive(before.0, trace[n], capacity).1);
    }
  }

  lemma NothingLive()
    ensures forall id: nat :: !LiveId(Start(), id) && !Ever([], id)
    ensures OnceEach([]) && Start().next == 0
  {
  }
}
