/** The session table as it runs (app/header/TcpSession.cc) and its clock
    (util/Timer.cc). */
module SessionTracker {
  import opened SeqArith
  import opened SessionWheel
  import opened SessionTable

  class Timer {
    var time: nat

    constructor ()
      ensures time == 0
    {
      time := 0;
    }

    /** At most one timeout a second; a clock that goes back is not noticed. */
    method CheckTime(sec: nat) returns (timeout: bool)
      modifies this
      ensures timeout <==> old(time) <= sec
      ensures time == if timeout then sec + 1 else old(time)
    {
      timeout := false;
      if time <= sec {
        time := sec + 1;
        timeout := true;
      }
    }

    function LastCheckTime(): Time
      reads this
    {
      Time(if time > 0 then time - 1 else 0, 0)
    }
  }

  class TcpSession {
    const capacity: nat
    var sessionDataMap: map<Key, Session>
    const timer: Timer
    var sessionBuckets: seq<set<nat>>
    /** The sessions that entries point to, by number. */
    var owners: map<nat, nat>
    var next: nat

    ghost var ticks: nat
    ghost var trace: seq<Packet>
    /** What the callbacks are told about the packet at hand. */
    ghost var reports: set<Report>

    ghost function State(): Wheel
      reads this, timer
    {
      Wheel(sessionDataMap, sessionBuckets, owners, timer.time, next, ticks)
    }

    ghost predicate Valid()
      reads this, timer
    {
      capacity > 0 && State() == Run(trace, capacity).0
    }

    constructor (timeoutSeconds: nat)
      requires timeoutSeconds > 0
      ensures Valid() && trace == [] && capacity == timeoutSeconds && fresh(timer)
    {
      capacity := timeoutSeconds;
      sessionDataMap, sessionBuckets, owners, next := map[], [], map[], 0;
      timer := new Timer();
      ticks, trace, reports := 0, [], {};
    }

    method GetEntryPtr(s: Session) returns (alive: bool)
      ensures alive <==> EntryAlive(sessionBuckets, s.entry)
    {
      alive := false;
      var i := 0;
      while i < |sessionBuckets|
        invariant i <= |sessionBuckets|
        invariant alive <==> exists j :: 0 <= j < i && s.entry in sessionBuckets[j]
      {
        if s.entry in sessionBuckets[i] {
          alive := true;
        }
        i := i + 1;
      }
    }

    /** The session is reported as not closed and forgotten. */
    method OnTimeOut(k: Key)
      requires k in sessionDataMap
      modifies this`sessionDataMap, this`reports
      ensures sessionDataMap == old(sessionDataMap) - {k}
      ensures reports == old(reports)
                + {Report(old(sessionDataMap)[k].id, Expired(old(sessionDataMap)[k].data, timer.time))}
    {
      var data := sessionDataMap[k].data.(normallyClosed := false, end := timer.LastCheckTime());
      reports := reports + {Report(sessionDataMap[k].id, data)};
      sessionDataMap := sessionDataMap - {k};
    }

    /** The destructor of an entry: its session, if it is still there, has timed out. */
    method DestroyEntry(e: nat)
      requires DistinctIds(sessionDataMap)
      modifies this`sessionDataMap, this`reports
      ensures sessionDataMap == Kept(old(sessionDataMap), owners, {e})
      ensures reports == old(reports) + Told(old(sessionDataMap), owners, {e}, timer.time)
    {
      if k: Key :| k in sessionDataMap && Finds(owners, e, sessionDataMap[k].id) {
        OneFound(sessionDataMap, owners, e, k, timer.time);
        OnTimeOut(k);
      } else {
        NoneFound(sessionDataMap, owners, e, timer.time);
      }
    }

    /** A new bucket comes; once all buckets are there, the oldest goes. */
    method OnTimer()
      requires WheelOk(State(), capacity)
      modifies this`sessionBuckets, this`sessionDataMap, this`reports, this`ticks
      ensures State() == Tick(old(State()), capacity)
      ensures reports == old(reports) + Timeouts(old(State()), capacity)
    {
      hide Kept, Told, WheelOk, Dying, Tick, Timeouts, Unheld, DistinctIds;
      DroppedDie(sessionBuckets, capacity);
      IdsDistinct(State(), capacity);
      AllDead(State(), capacity);
      var dropped := {};
      if 0 < |sessionBuckets| == capacity {
        dropped := sessionBuckets[0];
        sessionBuckets := sessionBuckets[1..];
      }
      sessionBuckets := sessionBuckets + [{}];
      ticks := ticks + 1;
      DestroyAll(dropped);
    }

    /** The oldest bucket goes, and with it the entries that no other bucket holds. */
    method DestroyAll(dropped: set<nat>)
      requires DistinctIds(sessionDataMap)
      modifies this`sessionDataMap, this`reports
      ensures sessionDataMap == Kept(old(sessionDataMap), owners, Unheld(sessionBuckets, dropped))
      ensures reports == old(reports) + Told(old(sessionDataMap), owners, Unheld(sessionBuckets, dropped), timer.time)
    {
      hide Kept, Told, EntryAlive, DistinctIds;
      var left := dropped;
      NoneDead(sessionDataMap, owners, timer.time);
      assert Unheld(sessionBuckets, dropped - left) == {};
      while left != {}
        invariant left <= dropped
        invariant sessionDataMap == Kept(old(sessionDataMap), owners, Unheld(sessionBuckets, dropped - left))
        invariant reports == old(reports)
                    + Told(old(sessionDataMap), owners, Unheld(sessionBuckets, dropped - left), timer.time)
        decreases |left|
      {
        assert (forall e: nat :: e !in left) ==> left == {};
        var e: nat :| e in left;
        ghost var dead := Unheld(sessionBuckets, dropped - left);
        var held := IsHeld(e);
        KeptDistinct(old(sessionDataMap), owners, dead);
        left := left - {e};
        if !held {
          DestroyEntry(e);
          OneMoreDead(old(sessionDataMap), owners, dead, e, timer.time);
          assert Unheld(sessionBuckets, dropped - left) == dead + {e};
        } else {
          assert Unheld(sessionBuckets, dropped - left) == dead;
        }
      }
      assert dropped - left == dropped;
    }

    method IsHeld(e: nat) returns (held: bool)
      ensures held <==> EntryAlive(sessionBuckets, e)
    {
      held := exists i :: 0 <= i < |sessionBuckets| && e in sessionBuckets[i];
    }

    /** `onConnection`: the session gets an entry, and the newest bucket the entry. */
    method OnConnection(k: Key, id: nat, data: SessionData)
      modifies this`sessionDataMap, this`sessionBuckets, this`owners, this`next
      ensures State() == Connect(old(State()), k, id, data)
    {
      owners := owners[next := id];
      sessionDataMap := sessionDataMap[k := Session(id, data, next)];
      InsertIntoBack(next);
      next := next + 1;
    }

    method InsertIntoBack(e: nat)
      modifies this`sessionBuckets
      ensures sessionBuckets == Insert(old(sessionBuckets), e)
    {
      if |sessionBuckets| > 0 {
        var n := |sessionBuckets| - 1;
        sessionBuckets := sessionBuckets[n := sessionBuckets[n] + {e}];
      }
    }

    method UpdateSession(k: Key, p: Packet)
      requires k in sessionDataMap
      modifies this`sessionDataMap
      ensures sessionDataMap == old(sessionDataMap)[k := old(sessionDataMap)[k].(data := Updated(old(sessionDataMap)[k].data, p))]
    {
      var s := sessionDataMap[k];
      if p.t4 == s.data.t4 {
        s := s.(data := s.data.(up := Plus(s.data.up, p)));
      } else {
        s := s.(data := s.data.(down := Plus(s.data.down, p)));
      }
      sessionDataMap := sessionDataMap[k := s];
    }

    method OnTcpData(p: Packet)
      requires Valid()
      modifies this, timer
      ensures Valid() && trace == old(trace) + [p]
      ensures State() == Receive(old(State()), p, capacity).0 && reports == Receive(old(State()), p, capacity).1
    {
      hide Run, WheelOk, CheckTime, Handle;
      RunAgrees(trace, capacity);
      ghost var w := State();
      RunMore(trace, p, capacity);
      trace := trace + [p];
      reports := {};
      if p.len < TCPHDR_SIZE {
        return;
      }
      MatchedOk(w, TableRun(old(trace), capacity).0, capacity);
      Clock(p.time.sec);
      ghost var v := State();
      assert (v, reports) == CheckTime(w, p.time.sec, capacity);
      HandlePacket(p);
    }

    method Clock(sec: nat)
      requires WheelOk(State(), capacity) && reports == {}
      modifies this`sessionBuckets, this`sessionDataMap, this`reports, this`ticks, timer
      ensures (State(), reports) == CheckTime(old(State()), sec, capacity)
    {
      hide Tick, Timeouts, WheelOk;
      ghost var w := State();
      var timeout := timer.CheckTime(sec);
      if timeout {
        TimeKeepsOk(w, sec + 1, capacity);
        OnTimer();
        assert {} + Timeouts(w.(time := sec + 1), capacity) == Timeouts(w.(time := sec + 1), capacity);
      }
    }

    method HandlePacket(p: Packet)
      modifies this`sessionDataMap, this`sessionBuckets, this`owners, this`next, this`reports
      ensures State() == Handle(old(State()), p).0 && reports == old(reports) + Handle(old(State()), p).1
    {
      hide Updated, NewData, KeyOf, Insert, EntryAlive;
      var k := KeyOf(p.t4);
      if k !in sessionDataMap {
        if p.syn {
          OnConnection(k, next, NewData(p.t4, p.time));
          UpdateSession(k, p);
        }
        return;
      }
      var s := sessionDataMap[k];
      var alive := GetEntryPtr(s);
      if !alive {
        if p.syn {
          OnConnection(k, s.id, NewData(p.t4, p.time));
          UpdateSession(k, p);
        } else {
          sessionDataMap := sessionDataMap - {k};
        }
        return;
      }
      if p.fin || p.rst {
        sessionDataMap := sessionDataMap[k := s.(data := s.data.(end := p.time))];
        UpdateSession(k, p);
        reports := reports + {Report(s.id, sessionDataMap[k].data)};
        sessionDataMap := sessionDataMap - {k};
        return;
      }
      InsertIntoBack(s.entry);
      UpdateSession(k, p);
    }
  }

  // ----- Sessions whose entries are gone -----

  /** Entry `e` points to session `id`. */
  predicate Finds(owners: map<nat, nat>, e: nat, id: nat) {
    e in owners && owners[e] == id
  }

  predicate AnyFinds(owners: map<nat, nat>, entries: set<nat>, id: nat) {
    exists e :: e in entries && Finds(owners, e, id)
  }

  ghost function Kept(sessions: map<Key, Session>, owners: map<nat, nat>, dead: set<nat>): map<Key, Session> {
    map k | k in sessions && !AnyFinds(owners, dead, sessions[k].id) :: sessions[k]
  }

  ghost function Told(sessions: map<Key, Session>, owners: map<nat, nat>, dead: set<nat>, time: nat): set<Report> {
    set k | k in sessions && AnyFinds(owners, dead, sessions[k].id) ::
      Report(sessions[k].id, Expired(sessions[k].data, time))
  }

  ghost predicate DistinctIds(sessions: map<Key, Session>) {
    forall k, l :: k in sessions && l in sessions && sessions[k].id == sessions[l].id ==> k == l
  }

  lemma IdsDistinct(w: Wheel, capacity: nat)
    requires WheelOk(w, capacity)
    ensures DistinctIds(w.sessions)
  {
  }

  lemma KeptDistinct(sessions: map<Key, Session>, owners: map<nat, nat>, dead: set<nat>)
    requires DistinctIds(sessions)
    ensures DistinctIds(Kept(sessions, owners, dead))
  {
  }

  lemma NoneDead(sessions: map<Key, Session>, owners: map<nat, nat>, time: nat)
    ensures Kept(sessions, owners, {}) == sessions && Told(sessions, owners, {}, time) == {}
  {
  }

  lemma OneMoreDead(sessions: map<Key, Session>, owners: map<nat, nat>, dead: set<nat>, e: nat, time: nat)
    ensures Kept(Kept(sessions, owners, dead), owners, {e}) == Kept(sessions, owners, dead + {e})
    ensures Told(sessions, owners, dead, time) + Told(Kept(sessions, owners, dead), owners, {e}, time)
            == Told(sessions, owners, dead + {e}, time)
  {
    forall id: nat ensures AnyFinds(owners, dead + {e}, id) <==> AnyFinds(owners, dead, id) || AnyFinds(owners, {e}, id) {
      if AnyFinds(owners, dead, id) {
        var x :| x in dead && Finds(owners, x, id);
        assert x in dead + {e};
      }
      if AnyFinds(owners, {e}, id) {
        assert e in dead + {e};
      }
    }
    hide AnyFinds, Expired;
    var rest := Kept(sessions, owners, dead);
    forall r | r in Told(sessions, owners, dead + {e}, time)
      ensures r in Told(sessions, owners, dead, time) + Told(rest, owners, {e}, time) {
      var k :| k in sessions && AnyFinds(owners, dead + {e}, sessions[k].id)
               && r == Report(sessions[k].id, Expired(sessions[k].data, time));
      if !AnyFinds(owners, dead, sessions[k].id) {
        assert k in rest;
      }
    }
  }

  lemma OneFound(sessions: map<Key, Session>, owners: map<nat, nat>, e: nat, k: Key, time: nat)
    requires DistinctIds(sessions) && k in sessions && Finds(owners, e, sessions[k].id)
    ensures Kept(sessions, owners, {e}) == sessions - {k}
    ensures Told(sessions, owners, {e}, time) == {Report(sessions[k].id, Expired(sessions[k].data, time))}
  {
    assert e in {e};
    assert AnyFinds(owners, {e}, sessions[k].id);
    forall l | l in sessions && AnyFinds(owners, {e}, sessions[l].id) ensures l == k {
      assert sessions[l].id == sessions[k].id;
    }
  }

  lemma NoneFound(sessions: map<Key, Session>, owners: map<nat, nat>, e: nat, time: nat)
    requires forall k :: k in sessions ==> !Finds(owners, e, sessions[k].id)
    ensures Kept(sessions, owners, {e}) == sessions && Told(sessions, owners, {e}, time) == {}
  {
  }

  ghost function Unheld(buckets: seq<set<nat>>, entries: set<nat>): set<nat> {
    set e | e in entries && !EntryAlive(buckets, e)
  }

  /** What dies is what the oldest bucket alone has held. */
  lemma DroppedDie(buckets: seq<set<nat>>, capacity: nat)
    ensures Unheld(Pushed(buckets, capacity), if 0 < |buckets| == capacity then buckets[0] else {}) == Dying(buckets, capacity)
  {
    if 0 < |buckets| == capacity {
      var after := Pushed(buckets, capacity);
      forall e: nat | e in buckets[0] ensures EntryAlive(after, e) <==> e !in Dying(buckets, capacity) {
        if e !in Dying(buckets, capacity) {
          var i :| 1 <= i < |buckets| && e in buckets[i];
          assert after[i - 1] == buckets[i];
        }
        if EntryAlive(after, e) {
          var i :| 0 <= i < |after| && e in after[i];
          assert after[i] == buckets[i + 1];
        }
      }
    }
  }

  lemma AllDead(w: Wheel, capacity: nat)
    ensures Tick(w, capacity) == w.(sessions := Kept(w.sessions, w.owners, Dying(w.buckets, capacity)),
                                    buckets := Pushed(w.buckets, capacity), ticks := w.ticks + 1)
    ensures Timeouts(w, capacity) == Told(w.sessions, w.owners, Dying(w.buckets, capacity), w.time)
  {
    hide Dying, Expired;
    forall k | k in w.sessions
      ensures TimedOut(w, capacity, k) <==> AnyFinds(w.owners, Dying(w.buckets, capacity), w.sessions[k].id) {
    }
  }

  // ----- Runs -----

  lemma RunMore(trace: seq<Packet>, p: Packet, capacity: nat)
    ensures Run(trace + [p], capacity).0 == Receive(Run(trace, capacity).0, p, capacity).0
  {
    hide Receive;
    assert (trace + [p])[..|trace + [p]| - 1] == trace;
  }

  lemma MatchedOk(w: Wheel, t: Table, capacity: nat)
    requires Matched(w, t, capacity)
    ensures WheelOk(w, capacity)
  {
  }
}
