/** The limit on the bytes of a header: when a call runs into it, and how much
    the way the input is cut has to do with that (app/http/HttpParser.cc). */
module HttpLimit {
  import opened HttpTypes
  import opened HttpStep
  import opened HttpInvariant
  import opened HttpRun
  import opened HttpOrder
  import opened HttpSplit
  import opened HttpScan

  // ----- When a call runs into the limit -----

  /** The byte at which the loop over a field name or a value ends. */
  predicate EndsScan(s: State, c: byte) {
    if s == Headers(HeaderField) then TokenOf(c) == 0 else IsLineEnd(c)
  }

  /** The places where the count is compared with the limit: before every byte of a header that no
      loop passes over, and where such a loop ends, be it for want of input. */
  predicate Checked(b: Call, rest: seq<byte>) {
    if rest == [] then b.scanning else ParsingHeader(b.p.state) && (b.scanning ==> EndsScan(b.p.state, rest[0]))
  }

  /** At byte `k`, or at the end, the next byte would be one too many. */
  predicate Blocked(a: Call, data: seq<byte>, k: nat, answer: Answer)
    requires k <= |data|
  {
    var b := Feed(a, data[..k], answer);
    Going(b) && Checked(b, data[k..]) && b.nread >= HTTP_MAX_HEADER_SIZE
  }

  predicate Overflows(a: Call, data: seq<byte>, answer: Answer) {
    exists k: nat :: k <= |data| && Blocked(a, data, k, answer)
  }

  /** After an overflow nothing but the error counts. */
  function Refused(a: Call): Call {
    a.(p := a.p.(errno := HEADER_OVERFLOW), live := Unmarked)
  }

  /** `http_parser_execute`, with the limit on the header. */
  function Served(p: Parser, nread: nat, log: seq<Event>, data: seq<byte>, answer: Answer): Call {
    var a := Enter(p, nread, log);
    if p.errno.OK? && Overflows(a, data, answer) then Refused(a) else Execute(p, nread, log, data, answer)
  }

  function ServedCalls(a: Call, pieces: seq<seq<byte>>, answer: Answer): Call {
    if pieces == [] then a
    else
      var b := ServedCalls(a, pieces[..|pieces| - 1], answer);
      Served(b.p, b.nread, b.log, pieces[|pieces| - 1], answer)
  }

  // ----- The count within a call -----

  lemma {:induction false} FeedCount(a: Call, data: seq<byte>, answer: Answer)
    ensures Feed(a, data, answer).nread <= a.nread + |data|
    decreases |data|
  {
    hide Step, Perform;
    if data != [] {
      FeedCount(a, data[..|data| - 1], answer);
    }
  }

  /** A call adds at most one more than it has bytes to the count, and one that cannot
      reach the limit does not overflow. */
  lemma RoomLeft(p: Parser, nread: nat, log: seq<Event>, data: seq<byte>, answer: Answer)
    ensures Execute(p, nread, log, data, answer).nread <= nread + |data| + 1
    ensures nread + |data| < HTTP_MAX_HEADER_SIZE ==> !Overflows(Enter(p, nread, log), data, answer)
  {
    hide Feed;
    var a := Enter(p, nread, log);
    FeedCount(a, data, answer);
    forall k: nat | k <= |data| ensures Feed(a, data[..k], answer).nread <= nread + k {
      FeedCount(a, data[..k], answer);
    }
  }

  /** Header bytes since the count was last restarted, with `n` to begin with, byte by byte. */
  function Tally(s: Conn, n: nat, data: seq<byte>, answer: Answer): nat
    decreases |data|
  {
    if data == [] then n
    else
      var m := |data| - 1;
      var t := Serial(s, data[..m], answer);
      var before := Tally(s, n, data[..m], answer);
      if !Alive(t) then before
      else if Recount in Step(t.p, data[m], answer, false).acts then 0
      else Counted(before, t.p.state)
  }

  lemma {:induction false} TallyAppend(s: Conn, n: nat, x: seq<byte>, y: seq<byte>, answer: Answer)
    ensures Tally(s, n, x + y, answer) == Tally(Serial(s, x, answer), Tally(s, n, x, answer), y, answer)
    decreases |y|
  {
    hide Step, Serial;
    if y == [] {
      assert x + y == x;
    } else {
      var m := |y| - 1;
      TallyAppend(s, n, x, y[..m], answer);
      SerialAppend(s, x, y[..m], answer);
      assert (x + y)[..|x + y| - 1] == x + y[..m];
    }
  }

  /** A higher start is never forgotten before the count restarts, and never grows. */
  lemma {:induction false} TallyShift(s: Conn, n: nat, e: nat, data: seq<byte>, answer: Answer)
    ensures var t, u := Tally(s, n, data, answer), Tally(s, n + e, data, answer);
            t <= u <= t + e && (e <= n ==> u <= 2 * t)
    decreases |data|
  {
    hide Step, Serial;
    if data != [] {
      TallyShift(s, n, e, data[..|data| - 1], answer);
    }
  }

  /** Within a call the count is that tally. */
  lemma {:induction false} FeedTally(a: Call, s: Conn, data: seq<byte>, answer: Answer)
    requires Sim(a, s) && Going(a) && Sound(a.p) && (a.skipping ==> a.p.state == Headers(Value))
    requires Alive(Serial(s, data, answer))
    ensures Feed(a, data, answer).nread == Tally(s, a.nread, data, answer)
    decreases |data|
  {
    hide Step, Sound, Perform, Hear, IsHeaderChar, Sim;
    if data != [] {
      var n := |data| - 1;
      var t := Serial(s, data[..n], answer);
      assert data[..n] + [data[n]] == data;
      PrefixAlive(s, data[..n], [data[n]], answer);
      FeedTally(a, s, data[..n], answer);
      FeedSim(a, s, data[..n], answer);
      var b := Feed(a, data[..n], answer);
      SimState(b, t);
      SimAlive(b, t);
      AdvanceCount(b, t, data[n], answer);
    }
  }

  lemma AdvanceCount(b: Call, t: Conn, c: byte, answer: Answer)
    requires Going(b) && b.p == t.p && Alive(t) && Alive(Byte(t, c, answer)) && (b.skipping ==> b.p.state == Headers(Value))
    ensures Advance(b, c, answer).nread ==
            if Recount in Step(t.p, c, answer, false).acts then 0 else Counted(b.nread, t.p.state)
  {
    hide Step, Perform, Hear, IsHeaderChar;
    if b.skipping {
      if !b.p.lenient && !IsHeaderChar(c) {
        CheckRefuses(b.p, c, answer);
      }
      UncheckedSame(b.p, c, answer);
    }
  }

  /** A loop that goes on has counted its last byte. */
  lemma ScanCounts(a: Call, c: byte, answer: Answer)
    requires Going(a) && Advance(a, c, answer).scanning && Going(Advance(a, c, answer))
    ensures InScan(a.p.state) && Recount !in Step(a.p, c, answer, a.skipping).acts
    ensures Advance(a, c, answer).nread == a.nread + 1
  {
    hide Perform, TokenOf, FieldNext, ValueNext;
    var out := Step(a.p, c, answer, a.skipping);
    if a.p.state == Headers(Value) {
      ValueNextActs(a.p, c);
    }
  }

  lemma ValueNextActs(p: Parser, c: byte)
    ensures ValueNext(p, c).acts == []
  {
    hide ValueMatcher, ValueIndex, Settle;
  }

  // ----- Calls one after the other -----

  /** However the input is cut, the count exceeds the tally of its bytes by at most the number of calls,
      and by at most that tally again. */
  lemma {:induction false} CallsCount(a: Call, pieces: seq<seq<byte>>, answer: Answer)
    requires Sound(a.p) && Going(a) && LogOk(a.p, a.log)
    requires forall i :: 0 <= i < |pieces| ==> pieces[i] != []
    requires Alive(Serial(Conn(a.p, a.log, false), Flatten(pieces), answer))
    ensures var t := Tally(Conn(a.p, a.log, false), a.nread, Flatten(pieces), answer);
            var r := Calls(a, pieces, answer);
            t <= r.nread <= t + |pieces| && r.nread <= 2 * t
    decreases |pieces|
  {
    hide Sound, Execute, Serial, LogOk, Tally;
    var s := Conn(a.p, a.log, false);
    if pieces == [] {
      TallyNothing(s, a.nread, answer);
    } else {
      var n := |pieces| - 1;
      var x, y := Flatten(pieces[..n]), pieces[n];
      PrefixAlive(s, x, y, answer);
      CallsCount(a, pieces[..n], answer);
      CutIndependence(a, pieces[..n], answer);
      TallyAppend(s, a.nread, x, y, answer);
      var b := Calls(a, pieces[..n], answer);
      OneCallCounts(b, Tally(s, a.nread, x, answer), y, answer);
    }
  }

  lemma TallyNothing(s: Conn, n: nat, answer: Answer)
    ensures Tally(s, n, [], answer) == n
  {
  }

  lemma PrefixAlive(s: Conn, x: seq<byte>, y: seq<byte>, answer: Answer)
    requires Alive(Serial(s, x + y, answer))
    ensures Alive(Serial(s, x, answer)) && Alive(Serial(Serial(s, x, answer), y, answer))
  {
    hide Serial;
    SerialAppend(s, x, y, answer);
    if !Alive(Serial(s, x, answer)) {
      SerialDead(Serial(s, x, answer), y, answer);
    }
  }

  lemma OneCallCounts(b: Call, t: nat, y: seq<byte>, answer: Answer)
    requires Sound(b.p) && Going(b) && LogOk(b.p, b.log) && y != [] && t <= b.nread <= 2 * t
    requires Alive(Serial(Conn(b.p, b.log, false), y, answer))
    ensures var u := Tally(Conn(b.p, b.log, false), t, y, answer);
            var r := Execute(b.p, b.nread, b.log, y, answer);
            u <= r.nread <= u + (b.nread - t) + 1 && r.nread <= 2 * u
  {
    hide Sound, LogOk, Step, Perform, Serial, Tally;
    var s := Conn(b.p, b.log, false);
    var a := Enter(b.p, b.nread, b.log);
    EnterSim(b.p, b.nread, b.log);
    FeedTally(a, s, y, answer);
    FeedSim(a, s, y, answer);
    TallyShift(s, t, b.nread - t, y, answer);
    var n := |y| - 1;
    assert y == y[..n] + [y[n]];
    PrefixAlive(s, y[..n], [y[n]], answer);
    FeedTally(a, s, y[..n], answer);
    FeedSim(a, s, y[..n], answer);
    TallyShift(s, t, b.nread - t, y[..n], answer);
    var c := Feed(a, y[..n], answer);
    SimState(c, Serial(s, y[..n], answer));
    SimAlive(c, Serial(s, y[..n], answer));
    SimAlive(Feed(a, y, answer), Serial(s, y, answer));
    if Feed(a, y, answer).scanning {
      ScanCounts(c, y[n], answer);
      LastTally(s, t, y, answer);
    }
  }

  lemma LastTally(s: Conn, n: nat, data: seq<byte>, answer: Answer)
    requires data != [] && Alive(Serial(s, data[..|data| - 1], answer))
    ensures var t := Serial(s, data[..|data| - 1], answer);
            Tally(s, n, data, answer) ==
            if Recount in Step(t.p, data[|data| - 1], answer, false).acts then 0
            else Counted(Tally(s, n, data[..|data| - 1], answer), t.p.state)
  {
    hide Step, Serial;
  }

  /** At no point do the header bytes since the count was restarted, with one more for each of `calls` calls,
      exceed the limit; nor can they if the bytes alone stay below half of it. */
  ghost predicate Short(s: Conn, n: nat, data: seq<byte>, calls: nat, answer: Answer) {
    forall i {:trigger data[..i]} :: 0 <= i <= |data| ==>
      var t := Tally(s, n, data[..i], answer);
      t + calls <= HTTP_MAX_HEADER_SIZE || 2 * t < HTTP_MAX_HEADER_SIZE
  }

  /** Calls on a stream with short headers, cut in any way: none overflows, and together they do what the bytes
      do one by one. */
  lemma {:induction false} CutServed(a: Call, pieces: seq<seq<byte>>, calls: nat, answer: Answer)
    requires Sound(a.p) && Going(a) && LogOk(a.p, a.log)
    requires forall i :: 0 <= i < |pieces| ==> pieces[i] != []
    requires var s := Conn(a.p, a.log, false);
             && Alive(Serial(s, Flatten(pieces), answer))
             && |pieces| <= calls && Short(s, a.nread, Flatten(pieces), calls, answer)
    ensures var r := ServedCalls(a, pieces, answer);
            && r == Calls(a, pieces, answer)
            && Conn(r.p, r.log, r.exit) == Serial(Conn(a.p, a.log, false), Flatten(pieces), answer)
            && Sound(r.p) && LogOk(r.p, r.log)
    decreases |pieces|
  {
    hide Sound, Execute, Serial, LogOk, Tally, Overflows, Short;
    CutIndependence(a, pieces, answer);
    if pieces != [] {
      var s := Conn(a.p, a.log, false);
      var n := |pieces| - 1;
      var x, y := Flatten(pieces[..n]), pieces[n];
      PrefixAlive(s, x, y, answer);
      ShortPrefix(s, a.nread, x, y, calls, answer);
      CutServed(a, pieces[..n], calls, answer);
      CallsCount(a, pieces[..n], answer);
      NextFits(a, pieces[..n], y, calls, answer);
    }
  }

  lemma ShortPrefix(s: Conn, n: nat, x: seq<byte>, y: seq<byte>, calls: nat, answer: Answer)
    requires Short(s, n, x + y, calls, answer)
    ensures Short(s, n, x, calls, answer)
  {
    hide Tally;
    forall i | 0 <= i <= |x| ensures x[..i] == (x + y)[..i] {
    }
  }

  /** The call after some others has room. */
  lemma NextFits(a: Call, pieces: seq<seq<byte>>, y: seq<byte>, calls: nat, answer: Answer)
    requires Sound(a.p) && Going(a) && LogOk(a.p, a.log) && |pieces| < calls
    requires forall i :: 0 <= i < |pieces| ==> pieces[i] != []
    requires var s := Conn(a.p, a.log, false);
             && Alive(Serial(s, Flatten(pieces) + y, answer)) && Short(s, a.nread, Flatten(pieces) + y, calls, answer)
    ensures var b := Calls(a, pieces, answer); !Overflows(Enter(b.p, b.nread, b.log), y, answer)
  {
    hide Sound, Execute, Serial, LogOk, Tally, Feed, Checked, Sim;
    var s := Conn(a.p, a.log, false);
    var x := Flatten(pieces);
    var b := Calls(a, pieces, answer);
    var t := Tally(s, a.nread, x, answer);
    PrefixAlive(s, x, y, answer);
    CallsCount(a, pieces, answer);
    CutIndependence(a, pieces, answer);
    EnterSim(b.p, b.nread, b.log);
    forall k: nat | k <= |y| ensures Feed(Enter(b.p, b.nread, b.log), y[..k], answer).nread < HTTP_MAX_HEADER_SIZE {
      assert y == y[..k] + y[k..] && (x + y)[..|x| + k] == x + y[..k];
      PrefixAlive(Serial(s, x, answer), y[..k], y[k..], answer);
      FeedTally(Enter(b.p, b.nread, b.log), Serial(s, x, answer), y[..k], answer);
      TallyAppend(s, a.nread, x, y[..k], answer);
      TallyShift(Serial(s, x, answer), t, b.nread - t, y[..k], answer);
    }
  }

  // ----- Input cut in two -----

  /** Whether a loop is at work depends on the last two states only. */
  lemma ScanIs(a: Call, s: Conn, data: seq<byte>, answer: Answer)
    requires Sim(a, s) && Going(a) && Sound(a.p) && (a.skipping ==> a.p.state == Headers(Value)) && data != []
    requires Alive(Serial(s, data, answer))
    ensures var before := Serial(s, data[..|data| - 1], answer).p.state;
            Feed(a, data, answer).scanning <==> InScan(before) && Serial(s, data, answer).p.state == before
  {
    hide Step, Sound, Perform, Hear, IsHeaderChar, Sim, Serial;
    var n := |data| - 1;
    assert data == data[..n] + [data[n]];
    PrefixAlive(s, data[..n], [data[n]], answer);
    FeedSim(a, s, data[..n], answer);
    FeedSim(a, s, data, answer);
    SimState(Feed(a, data[..n], answer), Serial(s, data[..n], answer));
    SimAlive(Feed(a, data[..n], answer), Serial(s, data[..n], answer));
    SimState(Feed(a, data, answer), Serial(s, data, answer));
  }

  /** Point `k` of the second part, within one call and at the start of another. */
  lemma SamePoint(p: Parser, nread: nat, log: seq<Event>, x: seq<byte>, y: seq<byte>, k: nat, answer: Answer)
    requires Sound(p) && p.errno.OK? && LogOk(p, log) && x != [] && k <= |y|
    requires Alive(Serial(Conn(p, log, false), x + y, answer))
    ensures var a, b := Enter(p, nread, log), Leave(Feed(Enter(p, nread, log), x, answer));
            var c, d := Feed(a, (x + y)[..|x| + k], answer), Feed(Enter(b.p, b.nread, b.log), y[..k], answer);
            var s := Serial(Conn(p, log, false), x, answer);
            && Going(c) && Going(d) && c.p == d.p
            && (k > 0 ==> c.scanning == d.scanning) && (k == 0 ==> !d.scanning)
            && c.nread == Tally(s, Feed(a, x, answer).nread, y[..k], answer) && d.nread == Tally(s, b.nread, y[..k], answer)
  {
    hide Sound, LogOk, Serial, Tally, Feed, Sim;
    var s0 := Conn(p, log, false);
    var a := Enter(p, nread, log);
    var z := y[..k];
    assert (x + y)[..|x| + k] == x + z && x + y == x + z + y[k..];
    PrefixAlive(s0, x + z, y[k..], answer);
    PrefixAlive(s0, x, z, answer);
    EnterSim(p, nread, log);
    var s := Serial(s0, x, answer);
    ExecuteIsSerial(p, nread, log, x, answer);
    FeedSim(a, s0, x, answer);
    var f := Feed(a, x, answer);
    SimAlive(f, s);
    SimState(f, s);
    SimLogOk(f, s);
    var b := Leave(f);
    assert Conn(b.p, b.log, false) == s by { SimShows(f, s); }
    var e := Enter(b.p, b.nread, b.log);
    EnterSim(b.p, b.nread, b.log);
    SerialAppend(s0, x, z, answer);
    FeedAppend(a, x, z, answer);
    FeedSim(a, s0, x + z, answer);
    FeedSim(e, s, z, answer);
    SimState(Feed(a, x + z, answer), Serial(s, z, answer));
    SimState(Feed(e, z, answer), Serial(s, z, answer));
    SimAlive(Feed(a, x + z, answer), Serial(s, z, answer));
    SimAlive(Feed(e, z, answer), Serial(s, z, answer));
    FeedTally(f, s, z, answer);
    FeedTally(e, s, z, answer);
    if k > 0 {
      ScanIs(f, s, z, answer);
      ScanIs(e, s, z, answer);
    } else {
      FeedNothing(e, answer);
    }
  }

  lemma FeedNothing(a: Call, answer: Answer)
    ensures Feed(a, [], answer) == a
  {
  }

  lemma SimShows(a: Call, s: Conn)
    requires Sim(a, s)
    ensures a.p == s.p && a.exit == s.exit && View(a.log, a.live) == s.log
  {
  }

  /** The cut leaves room for both parts: unless it falls into a field name or a value it makes no difference;
      there the count is one higher from then until it restarts. */
  ghost predicate CutFits(p: Parser, nread: nat, log: seq<Event>, x: seq<byte>, y: seq<byte>, answer: Answer) {
    var a := Enter(p, nread, log);
    var b := Feed(a, x, answer);
    b.scanning ==>
      forall k {:trigger y[..k]} :: 0 <= k <= |y| && (k == 0 || Checked(Feed(a, (x + y)[..|x| + k], answer), y[k..])) ==>
        Tally(Serial(Conn(p, log, false), x, answer), b.nread + 1, y[..k], answer) < HTTP_MAX_HEADER_SIZE
  }

  /** The first part overflows only at its end, within a field name or a value. */
  lemma FirstPart(a: Call, x: seq<byte>, y: seq<byte>, answer: Answer)
    requires !Overflows(a, x + y, answer) && Going(Feed(a, x, answer))
    ensures var b := Feed(a, x, answer);
            Overflows(a, x, answer) <==> b.scanning && b.nread >= HTTP_MAX_HEADER_SIZE
  {
    hide Feed, Checked;
    assert x[..|x|] == x && x[|x|..] == [];
    assert Blocked(a, x, |x|, answer) <==> Feed(a, x, answer).scanning && Feed(a, x, answer).nread >= HTTP_MAX_HEADER_SIZE by {
      CheckedEnd(Feed(a, x, answer));
    }
    forall k: nat | k < |x| ensures !Blocked(a, x, k, answer) {
      assert (x + y)[..k] == x[..k] && !Blocked(a, x + y, k, answer);
      CheckedNext(Feed(a, x[..k], answer), x[k..], (x + y)[k..]);
    }
  }

  lemma CheckedEnd(b: Call)
    ensures Checked(b, []) == b.scanning
  {
  }

  /** Only the next byte counts. */
  lemma CheckedNext(b: Call, r: seq<byte>, q: seq<byte>)
    requires r != [] && q != [] && r[0] == q[0]
    ensures Checked(b, r) == Checked(b, q)
  {
  }

  lemma CheckedSame(b: Call, c: Call, r: seq<byte>)
    requires b.p == c.p && b.scanning == c.scanning
    ensures Checked(b, r) == Checked(c, r)
  {
  }

  lemma CheckedFirst(b: Call, r: seq<byte>)
    requires !b.scanning && InScan(b.p.state) && r != []
    ensures Checked(b, r)
  {
  }

  /** So does the second part, exactly if the cut leaves it no room. */
  lemma SecondPart(p: Parser, nread: nat, log: seq<Event>, x: seq<byte>, y: seq<byte>, answer: Answer)
    requires Sound(p) && p.errno.OK? && LogOk(p, log) && x != [] && y != []
    requires Alive(Serial(Conn(p, log, false), x + y, answer)) && !Overflows(Enter(p, nread, log), x + y, answer)
    requires Feed(Enter(p, nread, log), x, answer).scanning ==> InScan(Feed(Enter(p, nread, log), x, answer).p.state)
    ensures var b := Leave(Feed(Enter(p, nread, log), x, answer));
            !Overflows(Enter(b.p, b.nread, b.log), y, answer) <==> CutFits(p, nread, log, x, y, answer)
  {
    hide Sound, LogOk, Serial, Tally, Feed, Checked;
    var a := Enter(p, nread, log);
    var f := Feed(a, x, answer);
    var b := Leave(f);
    var e := Enter(b.p, b.nread, b.log);
    var s := Serial(Conn(p, log, false), x, answer);
    forall k: nat | k <= |y|
      ensures Blocked(e, y, k, answer) <==>
                f.scanning && (k == 0 || Checked(Feed(a, (x + y)[..|x| + k], answer), y[k..]))
                && Tally(s, f.nread + 1, y[..k], answer) >= HTTP_MAX_HEADER_SIZE
    {
      PointFits(p, nread, log, x, y, k, answer);
    }
  }

  lemma PointFits(p: Parser, nread: nat, log: seq<Event>, x: seq<byte>, y: seq<byte>, k: nat, answer: Answer)
    requires Sound(p) && p.errno.OK? && LogOk(p, log) && x != [] && y != [] && k <= |y|
    requires Alive(Serial(Conn(p, log, false), x + y, answer)) && !Overflows(Enter(p, nread, log), x + y, answer)
    requires Feed(Enter(p, nread, log), x, answer).scanning ==> InScan(Feed(Enter(p, nread, log), x, answer).p.state)
    ensures var a := Enter(p, nread, log);
            var f := Feed(a, x, answer);
            var b := Leave(f);
            Blocked(Enter(b.p, b.nread, b.log), y, k, answer) <==>
              f.scanning && (k == 0 || Checked(Feed(a, (x + y)[..|x| + k], answer), y[k..]))
              && Tally(Serial(Conn(p, log, false), x, answer), f.nread + 1, y[..k], answer) >= HTTP_MAX_HEADER_SIZE
  {
    hide Sound, LogOk, Serial, Tally, Feed, Checked;
    var a := Enter(p, nread, log);
    var f := Feed(a, x, answer);
    var b := Leave(f);
    var e := Enter(b.p, b.nread, b.log);
    var c, d := Feed(a, (x + y)[..|x| + k], answer), Feed(e, y[..k], answer);
    SamePoint(p, nread, log, x, y, 0, answer);
    assert (x + y)[..|x|] == x;
    SamePoint(p, nread, log, x, y, k, answer);
    assert (x + y)[|x| + k..] == y[k..] && !Blocked(a, x + y, |x| + k, answer);
    if k == 0 {
      FeedNothing(e, answer);
      assert y[..0] == [] && y[0..] == y;
      if f.scanning {
        CheckedFirst(d, y);
      } else {
        CheckedSame(c, d, y);
      }
    } else {
      CheckedSame(c, d, y[k..]);
    }
  }

  /** A call that neither overflows nor lets anything slip through is alive byte by byte, and conversely. */
  lemma ServedAlive(p: Parser, nread: nat, log: seq<Event>, data: seq<byte>, answer: Answer)
    requires Sound(p) && p.errno.OK? && LogOk(p, log) && data != []
    ensures var r := Served(p, nread, log, data, answer);
            && (Going(r) <==> !Overflows(Enter(p, nread, log), data, answer) && Going(Execute(p, nread, log, data, answer)))
            && (Going(r) ==> r == Execute(p, nread, log, data, answer))
  {
    hide Execute, Overflows;
  }

  /** A call against its bytes, in both directions: it goes on, and nothing has slipped past the check of header
      characters, exactly if every byte is accepted and the count has room; and then it has done what they do. */
  lemma ServedIsSerial(p: Parser, nread: nat, log: seq<Event>, data: seq<byte>, answer: Answer)
    requires Sound(p) && p.errno.OK? && LogOk(p, log) && data != []
    ensures var r := Served(p, nread, log, data, answer);
            var a := Enter(p, nread, log);
            var s := Serial(Conn(p, log, false), data, answer);
            && (Going(r) && NothingSlips(a, data, answer) <==> Alive(s) && !Overflows(a, data, answer))
            && (Going(r) && NothingSlips(a, data, answer) ==>
                  r.p == s.p && r.log == s.log && r.used == |data| && r.nread <= nread + |data| + 1)
  {
    hide Sound, Serial, LogOk, NothingSlips, Overflows, Served, Execute;
    ServedAlive(p, nread, log, data, answer);
    ExecuteIsSerial(p, nread, log, data, answer);
    RoomLeft(p, nread, log, data, answer);
  }

  /** Input that one call accepts, cut in two: both calls accept it if and only if the cut leaves room, and
      then they end in the same parser and, with adjacent data joined, have made the same callbacks. */
  lemma SplitExact(p: Parser, nread: nat, log: seq<Event>, x: seq<byte>, y: seq<byte>, answer: Answer)
    requires Sound(p) && p.errno.OK? && LogOk(p, log) && x != [] && y != []
    requires Going(Served(p, nread, log, x + y, answer)) && NothingSlips(Enter(p, nread, log), x + y, answer)
    ensures var whole := Served(p, nread, log, x + y, answer);
            var first := Served(p, nread, log, x, answer);
            var second := Served(first.p, first.nread, first.log, y, answer);
            && (Going(first) && Going(second) <==> CutFits(p, nread, log, x, y, answer))
            && (Going(first) && Going(second) ==>
                  first.used == |x| && second.used == |y| && second.p == whole.p && second.log == whole.log)
  {
    hide Sound, Serial, LogOk, NothingSlips, Overflows, Feed, CutFits, Served, Execute;
    ServedAlive(p, nread, log, x + y, answer);
    SplitIndependence(p, nread, log, x, y, answer);
    ExecuteIsSerial(p, nread, log, x + y, answer);
    ServedAlive(p, nread, log, x, answer);
    PartsFit(p, nread, log, x, y, answer);
    var first := Execute(p, nread, log, x, answer);
    PrefixAlive(Conn(p, log, false), x, y, answer);
    ExecuteIsSerial(p, nread, log, x, answer);
    ServedAlive(first.p, first.nread, first.log, y, answer);
  }

  lemma PartsFit(p: Parser, nread: nat, log: seq<Event>, x: seq<byte>, y: seq<byte>, answer: Answer)
    requires Sound(p) && p.errno.OK? && LogOk(p, log) && x != [] && y != []
    requires Alive(Serial(Conn(p, log, false), x + y, answer)) && !Overflows(Enter(p, nread, log), x + y, answer)
    requires Going(Execute(p, nread, log, x, answer))
    ensures var a := Enter(p, nread, log);
            var b := Execute(p, nread, log, x, answer);
            !Overflows(a, x, answer) && !Overflows(Enter(b.p, b.nread, b.log), y, answer)
            <==> CutFits(p, nread, log, x, y, answer)
  {
    hide Sound, Serial, LogOk, Overflows, Feed, Tally, Checked;
    var a := Enter(p, nread, log);
    var f := Feed(a, x, answer);
    assert Execute(p, nread, log, x, answer) == Leave(f);
    SamePoint(p, nread, log, x, y, 0, answer);
    assert (x + y)[..|x|] == x;
    if f.scanning {
      ScanningIn(p, nread, log, x, y, answer);
    }
    FirstPart(a, x, y, answer);
    SecondPart(p, nread, log, x, y, answer);
    assert y[..0] == [];
    TallyNothing(Serial(Conn(p, log, false), x, answer), f.nread + 1, answer);
  }

  lemma ScanningIn(p: Parser, nread: nat, log: seq<Event>, x: seq<byte>, y: seq<byte>, answer: Answer)
    requires Sound(p) && p.errno.OK? && LogOk(p, log) && x != []
    requires Alive(Serial(Conn(p, log, false), x + y, answer)) && Feed(Enter(p, nread, log), x, answer).scanning
    ensures InScan(Feed(Enter(p, nread, log), x, answer).p.state)
  {
    hide Sound, Serial, LogOk, Feed, Sim;
    var s := Conn(p, log, false);
    PrefixAlive(s, x, y, answer);
    EnterSim(p, nread, log);
    FeedSim(Enter(p, nread, log), s, x, answer);
    SimState(Feed(Enter(p, nread, log), x, answer), Serial(s, x, answer));
    ScanIs(Enter(p, nread, log), s, x, answer);
  }

  /** The limit makes cuts count: two bytes of a value that one call takes overflow in two calls. */
  lemma LimitShows(p: Parser, log: seq<Event>, c: byte, d: byte, answer: Answer)
    requires p.errno.OK? && p.state == Headers(Value) && p.headerState.General? && !p.lenient
    requires NoLineEnd([c, d]) && IsHeaderChar(c) && IsHeaderChar(d)
    ensures var n := HTTP_MAX_HEADER_SIZE - 3;
            var first := Served(p, n, log, [c], answer);
            && Going(Served(p, n, log, [c, d], answer)) && NothingSlips(Enter(p, n, log), [c, d], answer)
            && Going(first) && Served(first.p, first.nread, first.log, [d], answer).p.errno == HEADER_OVERFLOW
  {
    hide Feed, Overflows, IsHeaderChar, Emit, Perform, Step;
    var n := HTTP_MAX_HEADER_SIZE - 3;
    var a := Enter(p, n, log);
    RoomLeft(p, n, log, [c, d], answer);
    RoomLeft(p, n, log, [c], answer);
    GeneralRun(a, [c, d], answer);
    GeneralRun(a, [c], answer);
    NothingBad(a, c, d, answer);
    var first := Execute(p, n, log, [c], answer);
    assert first == Leave(Feed(a, [c], answer));
    var e := Enter(first.p, first.nread, first.log);
    GeneralRun(e, [d], answer);
    assert [d][..1] == [d] && [d][1..] == [];
    assert Blocked(e, [d], 1, answer);
    BlockedOverflows(e, [d], 1, answer);
  }

  lemma BlockedOverflows(a: Call, data: seq<byte>, k: nat, answer: Answer)
    requires k <= |data| && Blocked(a, data, k, answer)
    ensures Overflows(a, data, answer)
  {
    hide Blocked;
  }

  lemma NothingBad(a: Call, c: byte, d: byte, answer: Answer)
    requires IsHeaderChar(c) && IsHeaderChar(d)
    ensures NothingSlips(a, [c, d], answer)
  {
    hide Feed, IsHeaderChar;
    assert [c, d][..1] == [c] && [c][..0] == [];
    assert NothingSlips(a, [c], answer);
  }
}
