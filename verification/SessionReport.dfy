/** When a session of a capture is reported, and with what counts, told from the
    packets alone (app/header/TcpSession.cc, util/Timer.cc). */
module SessionReport {
  import opened SessionWheel
  import opened SessionTable

  // ----- The packets of a session -----

  /** The same two ends, in either direction. */
  predicate SameEnds(a: Tuple4, b: Tuple4) {
    || (a.saddr == b.saddr && a.source == b.source && a.daddr == b.daddr && a.dest == b.dest)
    || (a.saddr == b.daddr && a.source == b.dest && a.daddr == b.saddr && a.dest == b.source)
  }

  lemma EndsAreKeys(a: Tuple4, b: Tuple4)
    ensures SameEnds(a, b) <==> KeyOf(a) == KeyOf(b)
  {
    SameFlowIsKey(a, b);
  }

  /** Packet `j` has a whole TCP header and the ends of packet `a`. */
  predicate Own(trace: seq<Packet>, a: nat, j: nat)
    requires a < |trace| && j < |trace|
  {
    trace[j].len >= 20 && SameEnds(trace[a].t4, trace[j].t4)
  }

  /** The packets from `a` up to `b` that have the ends of packet `a`. */
  function OwnPackets(trace: seq<Packet>, a: nat, b: nat): seq<Packet>
    requires a < |trace| && b <= |trace|
  {
    if b <= a then []
    else OwnPackets(trace, a, b - 1) + if Own(trace, a, b - 1) then [trace[b - 1]] else []
  }

  // ----- The clock -----

  /** No packet before has shown this second or a later one. */
  ghost predicate NewSecond(trace: seq<Packet>, j: nat)
    requires j < |trace|
  {
    trace[j].len >= 20 && forall i :: 0 <= i < j && trace[i].len >= 20 ==> trace[i].time.sec < trace[j].time.sec
  }

  /** How many of the packets from `a` up to `b` have shown a new second. */
  ghost function Seconds(trace: seq<Packet>, a: nat, b: nat): nat
    requires b <= |trace|
  {
    if b <= a then 0 else Seconds(trace, a, b - 1) + if NewSecond(trace, b - 1) then 1 else 0
  }

  /** The latest packet before `j` with the ends of packet `a`. */
  function LastOwn(trace: seq<Packet>, a: nat, j: nat): (m: nat)
    requires a < j <= |trace|
    ensures a <= m < j
  {
    if j - 1 == a || Own(trace, a, j - 1) then j - 1 else LastOwn(trace, a, j - 1)
  }

  /** The new seconds since then, that of packet `j` included. */
  ghost function Silence(trace: seq<Packet>, a: nat, j: nat): nat
    requires a < j < |trace|
  {
    Seconds(trace, LastOwn(trace, a, j) + 1, j + 1)
  }

  // ----- Sessions -----

  /** From `a` up to `n` there is neither an end of the session nor a silence of `capacity` seconds. */
  ghost predicate Lasts(trace: seq<Packet>, a: nat, n: nat, capacity: nat)
    requires a < n <= |trace|
  {
    && (forall j: nat :: a < j < n && Own(trace, a, j) ==> !trace[j].fin && !trace[j].rst)
    && (forall j: nat :: a < j < n ==> Silence(trace, a, j) < capacity)
  }

  /** A session begins: a SYN where none is open between its ends. */
  ghost predicate Opens(trace: seq<Packet>, a: nat, capacity: nat)
    requires a < |trace|
    decreases a
  {
    && trace[a].len >= 20 && trace[a].syn
    && !exists b: nat :: b < a && Own(trace, b, a) && Opens(trace, b, capacity)
                         && Lasts(trace, b, a, capacity) && Silence(trace, b, a) < capacity
  }

  /** The session that began at `a` is open after the packets before `n`. */
  ghost predicate Open(trace: seq<Packet>, a: nat, n: nat, capacity: nat)
    requires n <= |trace|
  {
    a < n && Opens(trace, a, capacity) && Lasts(trace, a, n, capacity)
  }

  // ----- Reports -----

  predicate HasSyn(p: Packet) { p.syn }

  predicate HasFin(p: Packet) { p.fin }

  predicate HasPsh(p: Packet) { p.psh }

  predicate HasRst(p: Packet) { p.rst }

  predicate IsSmall(p: Packet) { p.len <= 64 }

  function Where(ps: seq<Packet>, f: Packet -> bool): seq<Packet> {
    if ps == [] then [] else Where(ps[..|ps| - 1], f) + if f(ps[|ps| - 1]) then [ps[|ps| - 1]] else []
  }

  function TotalLen(ps: seq<Packet>): int {
    if ps == [] then 0 else TotalLen(ps[..|ps| - 1]) + ps[|ps| - 1].len
  }

  predicate Counted(c: Counters, ps: seq<Packet>) {
    && c.size == TotalLen(ps) && c.packets == |ps|
    && c.syn == |Where(ps, HasSyn)| && c.fin == |Where(ps, HasFin)| && c.psh == |Where(ps, HasPsh)|
    && c.rst == |Where(ps, HasRst)| && c.small == |Where(ps, IsSmall)|
  }

  /** The packets that go the way of the first, or those that come back. */
  function Way(ps: seq<Packet>, t4: Tuple4, there: bool): seq<Packet> {
    if ps == [] then []
    else Way(ps[..|ps| - 1], t4, there) + if (ps[|ps| - 1].t4 == t4) == there then [ps[|ps| - 1]] else []
  }

  /** What a report tells of the session whose packets are `ps`. */
  predicate Tells(d: SessionData, ps: seq<Packet>) {
    && ps != [] && d.t4 == ps[0].t4 && d.start == ps[0].time
    && Counted(d.up, Way(ps, d.t4, true)) && Counted(d.down, Way(ps, d.t4, false))
  }

  /** Packet `i` ends the session of packet `a`, itself the last that is counted. */
  ghost predicate ClosedBy(trace: seq<Packet>, a: nat, i: nat, capacity: nat, d: SessionData)
    requires i < |trace|
  {
    && Open(trace, a, i, capacity) && Silence(trace, a, i) < capacity
    && Own(trace, a, i) && (trace[i].fin || trace[i].rst)
    && Tells(d, OwnPackets(trace, a, i + 1)) && d.normallyClosed && d.end == trace[i].time
  }

  /** The second that packet `i` begins completes the silence of the session of packet `a`. */
  ghost predicate TimedOutBy(trace: seq<Packet>, a: nat, i: nat, capacity: nat, d: SessionData)
    requires i < |trace|
  {
    && Open(trace, a, i, capacity) && Silence(trace, a, i) == capacity
    && Tells(d, OwnPackets(trace, a, i)) && !d.normallyClosed && d.end == Time(trace[i].time.sec, 0)
  }

  // ----- What the packets of a line add up to -----

  lemma CountedMore(c: Counters, ps: seq<Packet>, p: Packet)
    requires Counted(c, ps)
    ensures Counted(Plus(c, p), ps + [p])
  {
    assert (ps + [p])[..|ps|] == ps;
  }

  lemma WayMore(ps: seq<Packet>, p: Packet, t4: Tuple4, there: bool)
    ensures Way(ps + [p], t4, there) == Way(ps, t4, there) + if (p.t4 == t4) == there then [p] else []
  {
    assert (ps + [p])[..|ps|] == ps;
  }

  lemma TellsMore(d: SessionData, ps: seq<Packet>, p: Packet)
    requires Tells(d, ps)
    ensures Tells(Updated(d, p), ps + [p])
  {
    hide Counted, Plus, Way;
    WayMore(ps, p, d.t4, true);
    WayMore(ps, p, d.t4, false);
    assert Way(ps, d.t4, true) + [] == Way(ps, d.t4, true) && Way(ps, d.t4, false) + [] == Way(ps, d.t4, false);
    if p.t4 == d.t4 {
      CountedMore(d.up, Way(ps, d.t4, true), p);
    } else {
      CountedMore(d.down, Way(ps, d.t4, false), p);
    }
  }

  lemma NoneTold(p: Packet)
    ensures Tells(Updated(NewData(p.t4, p.time), p), [p])
  {
    var d := NewData(p.t4, p.time);
    assert Counted(d.up, []) && Counted(d.down, []);
    CountedMore(d.up, [], p);
    assert [] + [p] == [p];
    WayMore([], p, p.t4, true);
    WayMore([], p, p.t4, false);
    assert Way([], p.t4, true) == [] && Way([], p.t4, false) == [];
    assert Way([p], p.t4, true) == [p] && Way([p], p.t4, false) == [];
  }

  lemma {:induction false} DataTells(ps: seq<Packet>)
    requires ps != []
    ensures Tells(DataOf(ps), ps) && DataOf(ps).normallyClosed
  {
    hide Tells, Plus;
    var n := |ps| - 1;
    if n == 0 {
      NoneTold(ps[0]);
      assert ps == [ps[0]];
    } else {
      DataTells(ps[..n]);
      TellsMore(DataOf(ps[..n]), ps[..n], ps[n]);
      assert ps[..n] + [ps[n]] == ps;
    }
  }

  /** The counts of a session determine its report. */
  lemma TellsOnce(d: SessionData, e: SessionData, ps: seq<Packet>)
    requires Tells(d, ps) && Tells(e, ps) && d.normallyClosed == e.normallyClosed && d.end == e.end
    ensures d == e
  {
  }

  // ----- The clock and the silences -----

  /** The time of the timer after the packets before `n`. */
  ghost predicate ClockAt(trace: seq<Packet>, n: nat, time: nat)
    requires n <= |trace|
  {
    && (forall j :: 0 <= j < n && trace[j].len >= 20 ==> trace[j].time.sec < time)
    && (time == 0 || exists j :: 0 <= j < n && trace[j].len >= 20 && trace[j].time.sec + 1 == time)
  }

  /** The timer fires exactly at a new second. */
  lemma ClockStep(trace: seq<Packet>, n: nat, time: nat)
    requires n < |trace| && ClockAt(trace, n, time)
    ensures NewSecond(trace, n) <==> trace[n].len >= 20 && time <= trace[n].time.sec
    ensures ClockAt(trace, n + 1, if NewSecond(trace, n) then trace[n].time.sec + 1 else time)
  {
    if NewSecond(trace, n) {
      assert trace[n].len >= 20;
    }
  }

  lemma {:induction false} SecondsSplit(trace: seq<Packet>, a: nat, b: nat)
    requires a <= b <= |trace|
    ensures Seconds(trace, 0, b) == Seconds(trace, 0, a) + Seconds(trace, a, b)
    decreases b
  {
    hide NewSecond;
    if a < b {
      SecondsSplit(trace, a, b - 1);
    }
  }

  /** A session that has lasted is silent for too long only at a new second, and then by no more than that. */
  lemma SilenceStep(trace: seq<Packet>, a: nat, n: nat, capacity: nat)
    requires a < n < |trace| && Lasts(trace, a, n, capacity) && capacity > 0
    ensures Silence(trace, a, n) <= capacity
    ensures Silence(trace, a, n) == capacity ==> NewSecond(trace, n)
  {
    hide NewSecond, Own, SameEnds;
    if n - 1 == a || Own(trace, a, n - 1) {
      assert Seconds(trace, n, n) == 0;
    } else {
      assert Silence(trace, a, n - 1) < capacity;
    }
  }

  /** The session goes on as far as the clock is concerned. */
  ghost predicate Going(trace: seq<Packet>, a: nat, n: nat, capacity: nat)
    requires n < |trace|
  {
    Open(trace, a, n, capacity) && Silence(trace, a, n) < capacity
  }

  lemma OpenStep(trace: seq<Packet>, a: nat, n: nat, capacity: nat)
    requires a < n < |trace|
    ensures Open(trace, a, n + 1, capacity)
            <==> Going(trace, a, n, capacity) && (Own(trace, a, n) ==> !trace[n].fin && !trace[n].rst)
  {
    hide Own, Silence, Opens;
  }

  lemma OpensHere(trace: seq<Packet>, n: nat, capacity: nat)
    requires n < |trace|
    ensures Open(trace, n, n + 1, capacity) <==> Opens(trace, n, capacity)
  {
    hide Own, Silence, Opens;
  }

  lemma OpensIff(trace: seq<Packet>, n: nat, capacity: nat)
    requires n < |trace|
    ensures Opens(trace, n, capacity)
            <==> trace[n].len >= 20 && trace[n].syn
                 && forall b: nat :: b < n && Own(trace, b, n) ==> !Going(trace, b, n, capacity)
  {
    hide Own, Silence, Lasts;
  }

  /** Two open sessions never share their ends. */
  lemma Alone(trace: seq<Packet>, a: nat, b: nat, n: nat, capacity: nat)
    requires n <= |trace| && Open(trace, a, n, capacity) && Open(trace, b, n, capacity)
    requires KeyOf(trace[a].t4) == KeyOf(trace[b].t4)
    ensures a == b
  {
    hide Silence, KeyOf;
    if a != b {
      var x, y := if a < b then a else b, if a < b then b else a;
      EndsAreKeys(trace[x].t4, trace[y].t4);
      OpensIff(trace, x, capacity);
      OpensIff(trace, y, capacity);
      LastsLess(trace, x, y, n, capacity);
      assert false;
    }
  }

  lemma LastsLess(trace: seq<Packet>, x: nat, y: nat, n: nat, capacity: nat)
    requires x < y < n <= |trace| && Lasts(trace, x, n, capacity)
    ensures Lasts(trace, x, y, capacity) && Silence(trace, x, y) < capacity
  {
    hide Silence, Own;
  }

  // ----- The table holds the open sessions -----

  ghost predicate LineOf(trace: seq<Packet>, a: nat, n: nat, capacity: nat, k: Key, line: Line)
    requires n <= |trace|
  {
    && Open(trace, a, n, capacity) && KeyOf(trace[a].t4) == k
    && line.packets == OwnPackets(trace, a, n)
    && line.last == Seconds(trace, 0, LastOwn(trace, a, n) + 1)
  }

  ghost predicate HasLine(trace: seq<Packet>, n: nat, capacity: nat, k: Key, line: Line)
    requires n <= |trace|
  {
    exists a: nat :: a < n && LineOf(trace, a, n, capacity, k, line)
  }

  ghost predicate Holds(trace: seq<Packet>, n: nat, capacity: nat, t: Table)
    requires n <= |trace|
  {
    && t.ticks == Seconds(trace, 0, n) && ClockAt(trace, n, t.time)
    && (forall k :: k in t.lines ==> HasLine(trace, n, capacity, k, t.lines[k]))
    && (forall a: nat :: a < n && Open(trace, a, n, capacity) ==> KeyOf(trace[a].t4) in t.lines)
  }

  /** The same once the clock has been looked at for packet `n`. */
  ghost predicate HoldsGoing(trace: seq<Packet>, n: nat, capacity: nat, t: Table)
    requires n < |trace|
  {
    && t.ticks == Seconds(trace, 0, n + 1) && ClockAt(trace, n + 1, t.time)
    && (forall k :: k in t.lines ==> exists a: nat :: a < n && LineOf(trace, a, n, capacity, k, t.lines[k]) && Silence(trace, a, n) < capacity)
    && (forall a: nat :: a < n && Going(trace, a, n, capacity) ==> KeyOf(trace[a].t4) in t.lines)
  }

  lemma LineSilent(trace: seq<Packet>, a: nat, n: nat, capacity: nat, k: Key, line: Line)
    requires n < |trace| && capacity > 0 && LineOf(trace, a, n, capacity, k, line)
    ensures Silent(line, Seconds(trace, 0, n + 1), capacity) <==> Silence(trace, a, n) == capacity
    ensures Silence(trace, a, n) == capacity ==> NewSecond(trace, n)
    ensures Silence(trace, a, n) <= capacity
  {
    hide Own, Seconds, NewSecond, Opens;
    SecondsSplit(trace, LastOwn(trace, a, n) + 1, n + 1);
    SilenceStep(trace, a, n, capacity);
  }

  /** What a tick reports. */
  lemma Expires(trace: seq<Packet>, a: nat, i: nat, capacity: nat, k: Key, line: Line)
    requires i < |trace| && capacity > 0 && LineOf(trace, a, i, capacity, k, line) && Silence(trace, a, i) == capacity
    requires line.packets != []
    ensures TimedOutBy(trace, a, i, capacity, Expired(DataOf(line.packets), trace[i].time.sec + 1))
  {
    hide Opens, Lasts, Silence, Counted, Way;
    DataTells(line.packets);
  }

  lemma ExpiresOnce(trace: seq<Packet>, a: nat, i: nat, capacity: nat, d: SessionData, k: Key, line: Line)
    requires i < |trace| && capacity > 0 && LineOf(trace, a, i, capacity, k, line) && Silence(trace, a, i) == capacity
    requires line.packets != [] && TimedOutBy(trace, a, i, capacity, d)
    ensures d == Expired(DataOf(line.packets), trace[i].time.sec + 1)
  {
    hide Opens, Lasts, Silence, Counted, Way, Tells;
    Expires(trace, a, i, capacity, k, line);
    TellsOnce(d, Expired(DataOf(line.packets), trace[i].time.sec + 1), line.packets);
  }

  lemma TickHolds(trace: seq<Packet>, n: nat, capacity: nat, t: Table)
    requires n < |trace| && capacity > 0 && Holds(trace, n, capacity, t) && Filled(t)
    ensures trace[n].len < 20 ==> HoldsGoing(trace, n, capacity, t)
    ensures trace[n].len >= 20 ==> HoldsGoing(trace, n, capacity, TableTick(t, trace[n].time.sec, capacity).0)
  {
    hide ClockAt, LineOf, Open, Silence, Own, NewSecond, KeyOf, DataOf;
    ClockStep(trace, n, t.time);
    var u := if trace[n].len < 20 then t else TableTick(t, trace[n].time.sec, capacity).0;
    assert u.ticks == Seconds(trace, 0, n + 1);
    forall k | k in u.lines
      ensures exists a: nat :: a < n && LineOf(trace, a, n, capacity, k, u.lines[k]) && Silence(trace, a, n) < capacity {
      var a: nat :| a < n && LineOf(trace, a, n, capacity, k, t.lines[k]);
      LineSilent(trace, a, n, capacity, k, t.lines[k]);
    }
    forall a: nat | a < n && Going(trace, a, n, capacity) ensures KeyOf(trace[a].t4) in u.lines {
      FoundLine(trace, a, n, capacity, t);
      LineSilent(trace, a, n, capacity, KeyOf(trace[a].t4), t.lines[KeyOf(trace[a].t4)]);
    }
  }

  /** The line of an open session is its own. */
  lemma FoundLine(trace: seq<Packet>, a: nat, n: nat, capacity: nat, t: Table)
    requires n <= |trace| && Holds(trace, n, capacity, t) && Open(trace, a, n, capacity)
    ensures var k := KeyOf(trace[a].t4);
            k in t.lines && LineOf(trace, a, n, capacity, k, t.lines[k])
  {
    hide ClockAt, KeyOf, Opens, Lasts, OwnPackets, LastOwn, Seconds;
    var k := KeyOf(trace[a].t4);
    var b: nat :| b < n && LineOf(trace, b, n, capacity, k, t.lines[k]);
    Alone(trace, a, b, n, capacity);
  }

  // ----- A packet -----

  /** The line of a session after a packet: its own has been added, another changes nothing. */
  lemma LineStep(trace: seq<Packet>, a: nat, n: nat, capacity: nat, k: Key, line: Line)
    requires n < |trace| && LineOf(trace, a, n, capacity, k, line) && Silence(trace, a, n) < capacity
    requires Own(trace, a, n) ==> !trace[n].fin && !trace[n].rst
    ensures LineOf(trace, a, n + 1, capacity, k,
                   if Own(trace, a, n) then Line(line.packets + [trace[n]], Seconds(trace, 0, n + 1)) else line)
  {
    hide Own, Silence, Opens, Lasts, Seconds, KeyOf;
    OpenStep(trace, a, n, capacity);
    assert line.packets + [] == line.packets;
  }

  lemma FirstLine(trace: seq<Packet>, n: nat, capacity: nat)
    requires n < |trace| && Opens(trace, n, capacity)
    ensures LineOf(trace, n, n + 1, capacity, KeyOf(trace[n].t4), Line([trace[n]], Seconds(trace, 0, n + 1)))
  {
    hide Silence, Seconds, KeyOf, Opens;
    OpensHere(trace, n, capacity);
    OpensIff(trace, n, capacity);
    assert OwnPackets(trace, n, n) == [];
    assert OwnPackets(trace, n, n + 1) == [] + [trace[n]];
  }

  /** Packet `n` belongs to the session of packet `a` exactly when it finds its line. */
  lemma OwnIsKey(trace: seq<Packet>, a: nat, n: nat)
    requires a < |trace| && n < |trace| && trace[n].len >= 20
    ensures Own(trace, a, n) <==> KeyOf(trace[a].t4) == KeyOf(trace[n].t4)
  {
    EndsAreKeys(trace[a].t4, trace[n].t4);
  }

  /** A session opens exactly where the table has no line. */
  lemma OpensFree(trace: seq<Packet>, n: nat, capacity: nat, t: Table)
    requires n < |trace| && HoldsGoing(trace, n, capacity, t)
    ensures Opens(trace, n, capacity) <==> trace[n].len >= 20 && trace[n].syn && KeyOf(trace[n].t4) !in t.lines
  {
    hide ClockAt, KeyOf, Opens, Lasts, OwnPackets, LastOwn, Seconds, Silence, Own;
    OpensIff(trace, n, capacity);
    if trace[n].len >= 20 {
      var k := KeyOf(trace[n].t4);
      if k in t.lines {
        var a: nat :| a < n && LineOf(trace, a, n, capacity, k, t.lines[k]) && Silence(trace, a, n) < capacity;
        OwnIsKey(trace, a, n);
        assert Own(trace, a, n) && Going(trace, a, n, capacity);
      } else {
        forall b: nat | b < n && Own(trace, b, n) ensures !Going(trace, b, n, capacity) {
          OwnIsKey(trace, b, n);
        }
      }
    }
  }

  /** The line of a session that goes on is its own. */
  lemma GoingLine(trace: seq<Packet>, a: nat, n: nat, capacity: nat, t: Table)
    requires n < |trace| && HoldsGoing(trace, n, capacity, t) && Going(trace, a, n, capacity)
    ensures var k := KeyOf(trace[a].t4);
            k in t.lines && LineOf(trace, a, n, capacity, k, t.lines[k])
  {
    hide ClockAt, KeyOf, Opens, Lasts, OwnPackets, LastOwn, Seconds, Silence;
    var k := KeyOf(trace[a].t4);
    var b: nat :| b < n && LineOf(trace, b, n, capacity, k, t.lines[k]) && Silence(trace, b, n) < capacity;
    Alone(trace, a, b, n, capacity);
  }

  /** The table after packet `n`, which finds the table `t`. */
  function After(t: Table, p: Packet): Table
    requires Filled(t)
  {
    if p.len < 20 then t else TableHandle(t, p).0
  }

  lemma HandleHolds(trace: seq<Packet>, n: nat, capacity: nat, t: Table)
    requires n < |trace| && HoldsGoing(trace, n, capacity, t) && Filled(t)
    ensures Holds(trace, n + 1, capacity, After(t, trace[n]))
  {
    hide ClockAt, LineOf, Open, Opens, Silence, Own, Seconds, KeyOf, DataOf, Going;
    var u := After(t, trace[n]);
    OpensFree(trace, n, capacity, t);
    forall k | k in u.lines ensures HasLine(trace, n + 1, capacity, k, u.lines[k]) {
      LineAfter(trace, n, capacity, t, k);
    }
    forall a: nat | a < n + 1 && Open(trace, a, n + 1, capacity) ensures KeyOf(trace[a].t4) in u.lines {
      if a == n {
        OpensHere(trace, n, capacity);
      } else {
        OpenStep(trace, a, n, capacity);
        GoingLine(trace, a, n, capacity, t);
        if trace[n].len >= 20 {
          OwnIsKey(trace, a, n);
        }
      }
    }
  }

  lemma LineAfter(trace: seq<Packet>, n: nat, capacity: nat, t: Table, k: Key)
    requires n < |trace| && HoldsGoing(trace, n, capacity, t) && Filled(t) && k in After(t, trace[n]).lines
    ensures HasLine(trace, n + 1, capacity, k, After(t, trace[n]).lines[k])
  {
    hide ClockAt, LineOf, Open, Opens, Silence, Seconds, KeyOf, DataOf, Going, SameEnds;
    var u := After(t, trace[n]);
    if k in t.lines {
      var a: nat :| a < n && LineOf(trace, a, n, capacity, k, t.lines[k]) && Silence(trace, a, n) < capacity;
      LineKey(trace, a, n, capacity, k, t.lines[k]);
      if trace[n].len >= 20 {
        OwnIsKey(trace, a, n);
      }
      LineStep(trace, a, n, capacity, k, t.lines[k]);
      assert LineOf(trace, a, n + 1, capacity, k, u.lines[k]);
    } else {
      OpensFree(trace, n, capacity, t);
      FirstLine(trace, n, capacity);
      assert LineOf(trace, n, n + 1, capacity, k, u.lines[k]);
    }
  }

  lemma LineKey(trace: seq<Packet>, a: nat, n: nat, capacity: nat, k: Key, line: Line)
    requires n <= |trace| && LineOf(trace, a, n, capacity, k, line)
    ensures a < n && KeyOf(trace[a].t4) == k
  {
  }

  // ----- What is reported -----

  ghost predicate Reports(trace: seq<Packet>, i: nat, capacity: nat, d: SessionData)
    requires i < |trace|
  {
    exists a: nat :: ClosedBy(trace, a, i, capacity, d) || TimedOutBy(trace, a, i, capacity, d)
  }

  /** The tick of packet `i` reports the sessions whose silence it completes. */
  lemma TickReports(trace: seq<Packet>, i: nat, capacity: nat, t: Table, d: SessionData)
    requires i < |trace| && capacity > 0 && Holds(trace, i, capacity, t) && Filled(t) && trace[i].len >= 20
    ensures d in TableTick(t, trace[i].time.sec, capacity).1
            <==> exists a: nat :: TimedOutBy(trace, a, i, capacity, d)
  {
    hide ClockAt, LineOf, Own, NewSecond, KeyOf, DataOf, Expired, Tells, Opens, Lasts, Silence;
    ClockStep(trace, i, t.time);
    var out := TableTick(t, trace[i].time.sec, capacity).1;
    if d in out {
      var k :| k in t.lines && Silent(t.lines[k], t.ticks + 1, capacity)
               && d == Expired(DataOf(t.lines[k].packets), trace[i].time.sec + 1);
      var a: nat :| a < i && LineOf(trace, a, i, capacity, k, t.lines[k]);
      LineSilent(trace, a, i, capacity, k, t.lines[k]);
      Expires(trace, a, i, capacity, k, t.lines[k]);
    }
    if a: nat :| TimedOutBy(trace, a, i, capacity, d) {
      var k := KeyOf(trace[a].t4);
      FoundLine(trace, a, i, capacity, t);
      LineSilent(trace, a, i, capacity, k, t.lines[k]);
      ExpiresOnce(trace, a, i, capacity, d, k, t.lines[k]);
    }
  }

  lemma Closes(trace: seq<Packet>, a: nat, i: nat, capacity: nat, k: Key, line: Line, d: SessionData)
    requires i < |trace| && LineOf(trace, a, i, capacity, k, line) && Silence(trace, a, i) < capacity
    requires Own(trace, a, i) && (trace[i].fin || trace[i].rst)
    ensures ClosedBy(trace, a, i, capacity, d) <==> d == DataOf(line.packets + [trace[i]]).(end := trace[i].time)
  {
    hide Opens, Lasts, Silence, Own, Counted, Way;
    var ps := OwnPackets(trace, a, i + 1);
    assert ps == line.packets + [trace[i]];
    DataTells(ps);
    var e := DataOf(ps).(end := trace[i].time);
    assert ClosedBy(trace, a, i, capacity, e);
    if ClosedBy(trace, a, i, capacity, d) {
      TellsOnce(d, e, ps);
    }
  }

  /** Packet `i` reports the session that it ends. */
  lemma HandleReports(trace: seq<Packet>, i: nat, capacity: nat, t: Table, d: SessionData)
    requires i < |trace| && HoldsGoing(trace, i, capacity, t) && Filled(t) && trace[i].len >= 20
    ensures d in TableHandle(t, trace[i]).1 <==> exists a: nat :: ClosedBy(trace, a, i, capacity, d)
  {
    hide ClockAt, LineOf, Own, NewSecond, KeyOf, DataOf, Seconds, Tells, Opens, Lasts, Silence, Going;
    var k := KeyOf(trace[i].t4);
    if d in TableHandle(t, trace[i]).1 {
      var a: nat :| a < i && LineOf(trace, a, i, capacity, k, t.lines[k]) && Silence(trace, a, i) < capacity;
      LineKey(trace, a, i, capacity, k, t.lines[k]);
      OwnIsKey(trace, a, i);
      Closes(trace, a, i, capacity, k, t.lines[k], d);
    }
    if a: nat :| ClosedBy(trace, a, i, capacity, d) {
      IsGoing(trace, a, i, capacity);
      GoingLine(trace, a, i, capacity, t);
      OwnIsKey(trace, a, i);
      Closes(trace, a, i, capacity, k, t.lines[k], d);
    }
  }

  lemma IsGoing(trace: seq<Packet>, a: nat, i: nat, capacity: nat)
    requires a < i < |trace| && Open(trace, a, i, capacity) && Silence(trace, a, i) < capacity
    ensures Going(trace, a, i, capacity)
  {
  }

  /** A packet without a whole header neither ends a session nor lets one time out. */
  lemma ShortReportsNone(trace: seq<Packet>, i: nat, capacity: nat, d: SessionData)
    requires i < |trace| && trace[i].len < 20 && capacity > 0
    ensures !Reports(trace, i, capacity, d)
  {
    hide Opens, Tells, Seconds, Silence, OwnPackets;
    forall a: nat ensures !ClosedBy(trace, a, i, capacity, d) && !TimedOutBy(trace, a, i, capacity, d) {
      if TimedOutBy(trace, a, i, capacity, d) {
        SilenceStep(trace, a, i, capacity);
      }
    }
  }

  lemma {:induction false} RunHolds(trace: seq<Packet>, n: nat, capacity: nat)
    requires n <= |trace| && capacity > 0
    ensures Holds(trace, n, capacity, TableRun(trace[..n], capacity).0)
    decreases n
  {
    hide Holds, HoldsGoing, TableTick, TableHandle;
    if n == 0 {
      NoneHeld(trace, capacity);
    } else {
      RunHolds(trace, n - 1, capacity);
      var t := TableRun(trace[..n - 1], capacity).0;
      assert trace[..n][..n - 1] == trace[..n - 1];
      TickHolds(trace, n - 1, capacity, t);
      TickFilled(t, trace[n - 1].time.sec, capacity);
      HandleHolds(trace, n - 1, capacity,
                  if trace[n - 1].len < 20 then t else TableTick(t, trace[n - 1].time.sec, capacity).0);
    }
  }

  lemma NoneHeld(trace: seq<Packet>, capacity: nat)
    ensures Holds(trace, 0, capacity, Table(map[], 0, 0))
  {
  }

  lemma {:induction false} RunAt(trace: seq<Packet>, i: nat, capacity: nat)
    requires i < |trace| && capacity > 0
    ensures i < |TableRun(trace, capacity).1|
    ensures TableRun(trace, capacity).1[i] == TableReceive(TableRun(trace[..i], capacity).0, trace[i], capacity).1
    ensures |TableRun(trace, capacity).1| == |trace|
    decreases |trace|
  {
    hide TableReceive;
    var n := |trace| - 1;
    if i < n {
      RunAt(trace[..n], i, capacity);
      assert trace[..n][..i] == trace[..i];
    } else if n > 0 {
      RunAt(trace[..n], 0, capacity);
    }
  }

  /** Over any capture, a packet reports exactly the sessions that it closes and those whose silence it completes:
      when they began, how they ended and when, and what has gone each way. */
  lemma ReportsExact(trace: seq<Packet>, i: nat, capacity: nat, d: SessionData)
    requires i < |trace| && capacity > 0
    ensures i < |Run(trace, capacity).1|
    ensures d in Shown(Run(trace, capacity).1[i]) <==> Reports(trace, i, capacity, d)
  {
    hide Holds, HoldsGoing, TableTick, TableHandle, ClosedBy, TimedOutBy, Matched, Shown;
    RunAgrees(trace, capacity);
    RunAt(trace, i, capacity);
    RunHolds(trace, i, capacity);
    var t := TableRun(trace[..i], capacity).0;
    if trace[i].len < 20 {
      ShortReportsNone(trace, i, capacity, d);
    } else {
      TickHolds(trace, i, capacity, t);
      TickReports(trace, i, capacity, t, d);
      TickFilled(t, trace[i].time.sec, capacity);
      HandleReports(trace, i, capacity, TableTick(t, trace[i].time.sec, capacity).0, d);
    }
  }

  lemma TickFilled(t: Table, sec: nat, capacity: nat)
    requires Filled(t)
    ensures Filled(TableTick(t, sec, capacity).0)
  {
  }
}
