/** How the input is cut into calls does not matter to the application. */
module HttpSplit {
  import opened HttpTypes
  import opened HttpStep
  import opened HttpInvariant
  import opened HttpRun
  import opened HttpOrder

  // ----- The log -----

  predicate LastIs(log: seq<Event>, kind: DataKind) {
    log != [] && log[|log| - 1].Data? && log[|log| - 1].kind == kind
  }

  lemma EmitAppend(log: seq<Event>, kind: DataKind, a: seq<byte>, b: seq<byte>)
    ensures Emit(Emit(log, kind, a), kind, b) == Emit(log, kind, a + b)
    ensures LastIs(Emit(log, kind, a), kind)
  {
    var n := |log| - 1;
    if LastIs(log, kind) {
      var d := Data(kind, log[n].bytes + a);
      assert (log[..n] + [d])[..n] == log[..n];
      assert log[n].bytes + a + b == log[n].bytes + (a + b);
    } else {
      assert (log + [Data(kind, a)])[..|log|] == log;
    }
  }

  lemma EmitNothing(log: seq<Event>, kind: DataKind)
    requires LastIs(log, kind)
    ensures Emit(log, kind, []) == log
  {
    var n := |log| - 1;
    assert log[n].bytes + [] == log[n].bytes;
    assert Data(kind, log[n].bytes) == log[n];
  }

  /** A notification never comes while bytes are marked, and no second mark is set. */
  predicate Allowed(m: Mark, act: Action) {
    (act.Notify? ==> m.NoMark?) && (act.SetMark? ==> m.NoMark? || m == On(act.kind))
  }

  predicate Disciplined(m: Mark, acts: seq<Action>)
    decreases |acts|
  {
    acts != [] ==> Allowed(m, acts[0]) && Disciplined(NextMark(m, acts[0]), acts[1..])
  }

  lemma ActionHears(log: seq<Event>, live: Live, act: Action, c: byte)
    requires Allowed(MarkOf(live), act)
    ensures var done := PerformAction(log, live, act, c);
            var heard := HearAction(View(log, live), MarkOf(live), act, c);
            View(done.0, done.1) == heard.0 && MarkOf(done.1) == heard.1 == NextMark(MarkOf(live), act)
  {
    if act.FlushThrough? && MarkOf(live) == On(act.kind) {
      EmitAppend(log, act.kind, live.bytes, [c]);
    }
  }

  /** Marks only delay data: with what is marked handed out, both ways of keeping the log agree. */
  lemma {:induction false} PerformHears(log: seq<Event>, live: Live, acts: seq<Action>, c: byte)
    requires Disciplined(MarkOf(live), acts)
    ensures var done := Perform(log, live, acts, c);
            var heard := Heard(View(log, live), MarkOf(live), acts, c);
            View(done.0, done.1) == heard.0 && MarkOf(done.1) == heard.1
    decreases |acts|
  {
    hide PerformAction, HearAction, View;
    if acts != [] {
      ActionHears(log, live, acts[0], c);
      var first := PerformAction(log, live, acts[0], c);
      PerformHears(first.0, first.1, acts[1..], c);
    }
  }

  lemma CoverHears(log: seq<Event>, live: Live, acts: seq<Action>, c: byte)
    requires Disciplined(MarkOf(live), acts)
    ensures var done := Perform(log, live, acts, c);
            View(done.0, Cover(done.1, c)) == Hear(View(log, live), MarkOf(live), acts, c)
    ensures MarkOf(Perform(log, live, acts, c).1) == Heard(View(log, live), MarkOf(live), acts, c).1
  {
    PerformHears(log, live, acts, c);
    var done := Perform(log, live, acts, c);
    if done.1.Marked? {
      EmitAppend(done.0, done.1.kind, done.1.bytes, [c]);
    }
  }

  // ----- At most one mark -----

  /** The mark belongs to the state; at most one is ever set. */
  predicate MarkFits(m: Mark, s: State) {
    m == MarkIn(s) || (m == On(BODY) && BodyMark(s))
  }

  lemma HeardOne(log: seq<Event>, m: Mark, a: Action, c: byte)
    ensures Heard(log, m, [a], c) == HearAction(log, m, a, c)
    ensures Disciplined(m, [a]) <==> Allowed(m, a)
  {
    assert [a][1..] == [];
  }

  lemma HeardMore(log: seq<Event>, m: Mark, a: Action, rest: seq<Action>, c: byte)
    ensures var first := HearAction(log, m, a, c);
            && Heard(log, m, [a] + rest, c) == Heard(first.0, first.1, rest, c)
            && (Disciplined(m, [a] + rest) <==> Allowed(m, a) && Disciplined(first.1, rest))
  {
    assert ([a] + rest)[1..] == rest;
  }

  lemma HeardTwo(log: seq<Event>, m: Mark, a: Action, b: Action, c: byte)
    ensures var first := HearAction(log, m, a, c);
            && Heard(log, m, [a, b], c) == HearAction(first.0, first.1, b, c)
            && (Disciplined(m, [a, b]) <==> Allowed(m, a) && Allowed(first.1, b))
  {
    var first := HearAction(log, m, a, c);
    HeardMore(log, m, a, [b], c);
    assert [a] + [b] == [a, b];
    HeardOne(first.0, first.1, b, c);
  }

  /** The actions are disciplined and leave a mark that fits the new state. */
  predicate KeepsMarks(q: Parser, acts: seq<Action>, m: Mark, log: seq<Event>, c: byte) {
    Disciplined(m, acts) && MarkFits(Heard(log, m, acts, c).1, q.state)
  }

  lemma EndsHeadersMarks(p: Parser, q: Parser, acts: seq<Action>, exit: bool, answer: Answer, log: seq<Event>, c: byte)
    requires EndsHeaders(p, q, acts, exit, answer)
    ensures KeepsMarks(q, acts, NoMark, log, c)
  {
    hide BodyPhase, Bodiless, PhaseOf;
    if |acts| == 2 {
      assert acts == [acts[0], acts[1]];
      HeardTwo(log, NoMark, acts[0], acts[1], c);
    } else {
      assert acts == [acts[0]] + [acts[1], acts[2]];
      HeardMore(log, NoMark, acts[0], [acts[1], acts[2]], c);
      var first := HearAction(log, NoMark, acts[0], c);
      HeardTwo(first.0, NoMark, acts[1], acts[2], c);
    }
  }

  lemma SingleMarks(p: Parser, q: Parser, acts: seq<Action>, log: seq<Event>, c: byte)
    requires Quiet(p, q, acts) || Begins(p, q, acts) || SetsMark(p, q, acts) || Flushes(p, q, acts)
    ensures KeepsMarks(q, acts, MarkIn(p.state), log, c)
  {
    hide PhaseOf;
    if |acts| == 1 {
      assert acts == [acts[0]];
      HeardOne(log, MarkIn(p.state), acts[0], c);
    }
  }

  lemma EmptyValueMarks(p: Parser, q: Parser, acts: seq<Action>, exit: bool, answer: Answer, log: seq<Event>, c: byte)
    requires EmptyValue(p, q, acts, exit, answer)
    ensures KeepsMarks(q, acts, NoMark, log, c)
  {
    hide EndsHeaders, Quiet, SetsMark;
    var rest := acts[2..];
    var first := HearAction(log, NoMark, SetMark(VALUE), c);
    assert acts == [SetMark(VALUE)] + ([Flush(VALUE)] + rest);
    HeardMore(log, NoMark, SetMark(VALUE), [Flush(VALUE)] + rest, c);
    HeardMore(first.0, first.1, Flush(VALUE), rest, c);
    if EndsHeaders(p, q, rest, exit, answer) {
      EndsHeadersMarks(p, q, rest, exit, answer, first.0, c);
    } else {
      SingleMarks(p, q, rest, first.0, c);
    }
  }

  lemma OutsideMarks(p: Parser, out: Out, answer: Answer, log: seq<Event>, c: byte)
    requires OutsideOrderly(p, out, answer)
    ensures KeepsMarks(out.p, out.acts, MarkIn(p.state), log, c)
  {
    hide EndsHeaders, EmptyValue, Quiet, Begins, SetsMark, Flushes, PhaseOf, KeepsMarks;
    if EndsHeaders(p, out.p, out.acts, out.exit, answer) {
      EndsHeadersMarks(p, out.p, out.acts, out.exit, answer, log, c);
      EndsHeadersUnmarked(p, out.p, out.acts, out.exit, answer);
    } else if EmptyValue(p, out.p, out.acts, out.exit, answer) {
      EmptyValueMarks(p, out.p, out.acts, out.exit, answer, log, c);
      EmptyValueUnmarked(p, out.p, out.acts, out.exit, answer);
    } else if TellsSize(p, out.p, out.acts) {
      TellsSizeMarks(p, out.p, out.acts, log, c);
    } else {
      SingleMarks(p, out.p, out.acts, log, c);
    }
  }

  lemma EndsHeadersUnmarked(p: Parser, q: Parser, acts: seq<Action>, exit: bool, answer: Answer)
    requires EndsHeaders(p, q, acts, exit, answer)
    ensures MarkIn(p.state).NoMark?
  {
  }

  lemma EmptyValueUnmarked(p: Parser, q: Parser, acts: seq<Action>, exit: bool, answer: Answer)
    requires EmptyValue(p, q, acts, exit, answer)
    ensures MarkIn(p.state).NoMark?
  {
  }

  lemma TellsSizeMarks(p: Parser, q: Parser, acts: seq<Action>, log: seq<Event>, c: byte)
    requires TellsSize(p, q, acts)
    ensures KeepsMarks(q, acts, MarkIn(p.state), log, c)
  {
    HeardTwo(log, NoMark, acts[0], acts[1], c);
  }

  /** In a body it does not matter whether the bytes before this one are still marked. */
  lemma BodyMarks(p: Parser, out: Out, m: Mark, log: seq<Event>, c: byte)
    requires InBodyOrderly(p, out) && p.state.Body? && MarkFits(m, p.state)
    ensures KeepsMarks(out.p, out.acts, m, log, c)
    ensures m == On(BODY) && LastIs(log, BODY) ==> Hear(log, m, out.acts, c) == Hear(log, NoMark, out.acts, c)
  {
    hide PhaseOf;
    if |out.acts| == 1 {
      HeardOne(log, m, out.acts[0], c);
      HeardOne(log, NoMark, out.acts[0], c);
    } else if |out.acts| == 2 {
      HeardTwo(log, m, out.acts[0], out.acts[1], c);
    } else {
      assert out.acts == [SetMark(BODY)] + [FlushThrough(BODY), out.acts[2]];
      HeardMore(log, m, SetMark(BODY), [FlushThrough(BODY), out.acts[2]], c);
      HeardMore(log, NoMark, SetMark(BODY), [FlushThrough(BODY), out.acts[2]], c);
      var first := HearAction(log, m, SetMark(BODY), c);
      HeardTwo(first.0, On(BODY), FlushThrough(BODY), out.acts[2], c);
      var other := HearAction(log, NoMark, SetMark(BODY), c);
      HeardTwo(other.0, On(BODY), FlushThrough(BODY), out.acts[2], c);
    }
    if m == On(BODY) && LastIs(log, BODY) {
      EmitNothing(log, BODY);
    }
  }

  /** At most one mark is set, it is the one that belongs to the state, and no notification comes under it. */
  lemma StepMarks(p: Parser, out: Out, answer: Answer, m: Mark, log: seq<Event>, c: byte)
    requires Orderly(p, out, answer) && MarkFits(m, p.state)
    ensures KeepsMarks(out.p, out.acts, m, log, c)
    ensures m == On(BODY) && LastIs(log, BODY) ==> Hear(log, m, out.acts, c) == Hear(log, NoMark, out.acts, c)
  {
    hide InBodyOrderly, OutsideOrderly, KeepsMarks, Hear;
    if p.state.Body? {
      BodyMarks(p, out, m, log, c);
    } else {
      OutsideMarks(p, out, answer, log, c);
    }
  }

  // ----- A call against its bytes -----

  /** A call in progress and a parser fed byte by byte have the same state, and with
      what is marked handed out the same has been heard. */
  predicate Sim(a: Call, s: Conn) {
    a.p == s.p && a.exit == s.exit && View(a.log, a.live) == s.log && MarkFits(MarkOf(a.live), a.p.state)
  }

  /** Where a call would begin with a mark, data of that kind came last. */
  predicate LogOk(p: Parser, log: seq<Event>) {
    MarkIn(p.state).On? ==> LastIs(log, MarkIn(p.state).kind)
  }

  lemma EnterSim(p: Parser, nread: nat, log: seq<Event>)
    requires LogOk(p, log)
    ensures Sim(Enter(p, nread, log), Conn(p, log, false))
  {
    if Opening(p.state).Marked? {
      EmitNothing(log, Opening(p.state).kind);
    }
  }

  lemma SimLogOk(a: Call, s: Conn)
    requires Sim(a, s)
    ensures LogOk(s.p, s.log)
  {
    if a.live.Marked? {
      EmitAppend(a.log, a.live.kind, a.live.bytes, []);
    }
  }

  /** Skipping the check of a byte changes nothing if the check succeeds. */
  lemma UncheckedSame(p: Parser, c: byte, answer: Answer)
    requires p.state != Headers(Value) || p.lenient || IsHeaderChar(c)
    ensures Step(p, c, answer, true) == Step(p, c, answer, false)
  {
    hide StartStep, StatusLineStep, MethodStep, UrlStep, VersionStep, HeadersAlmostDoneStep, HeadersDoneStep,
         ChunkHeaderStep, BodyStep, HeaderFieldStartStep, HeaderFieldStep, ValueStartStep, ValueNext, IsHeaderChar,
         ValueLwsStep, DiscardLwsStep;
  }

  lemma SimStep(a: Call, s: Conn, c: byte, answer: Answer)
    requires Sim(a, s) && Going(a) && Sound(a.p)
    requires a.skipping ==> a.p.state != Headers(Value) || a.p.lenient || IsHeaderChar(c)
    requires Advance(a, c, answer).p.errno.OK? || Byte(s, c, answer).p.errno.OK?
    ensures Sim(Advance(a, c, answer), Byte(s, c, answer)) && Sound(Advance(a, c, answer).p)
  {
    hide Step, Orderly, Sound, Perform, Hear, IsHeaderChar, Emit, MarkFits;
    if a.skipping {
      UncheckedSame(a.p, c, answer);
    }
    var out := Step(a.p, c, answer, false);
    StepSound(a.p, c, answer, false);
    StepOrder(a.p, c, answer, false);
    var m := MarkOf(a.live);
    StepMarks(a.p, out, answer, m, s.log, c);
    CoverHears(a.log, a.live, out.acts, c);
    SimBody(a, s, out, c);
  }

  /** The mark byte by byte is the one a call begins with. */
  lemma SimBody(a: Call, s: Conn, out: Out, c: byte)
    requires Sim(a, s)
    requires MarkOf(a.live) == On(BODY) && LastIs(s.log, BODY) ==>
               Hear(s.log, On(BODY), out.acts, c) == Hear(s.log, NoMark, out.acts, c)
    ensures Hear(s.log, MarkOf(a.live), out.acts, c) == Hear(s.log, MarkIn(s.p.state), out.acts, c)
  {
    hide Hear;
    if a.live.Marked? {
      EmitAppend(a.log, a.live.kind, a.live.bytes, []);
    }
  }

  /** The search for line ends passes over a byte that the check of header characters would have refused. */
  predicate Slips(a: Call, c: byte) {
    Going(a) && a.skipping && !a.p.lenient && !IsHeaderChar(c)
  }

  predicate NothingSlips(a: Call, data: seq<byte>, answer: Answer)
    decreases |data|
  {
    data != [] ==>
      var n := |data| - 1;
      NothingSlips(a, data[..n], answer) && !Slips(Feed(a, data[..n], answer), data[n])
  }

  lemma CheckRefuses(p: Parser, c: byte, answer: Answer)
    requires p.state == Headers(Value) && !p.lenient && !IsHeaderChar(c)
    ensures !Step(p, c, answer, false).p.errno.OK?
  {
    hide IsHeaderChar;
    assert c != CR && c != LF by { LineEndsPass(c); }
  }

  lemma LineEndsPass(c: byte)
    requires !IsHeaderChar(c)
    ensures c != CR && c != LF
  {
  }

  lemma SkippingValue(a: Call, c: byte, answer: Answer)
    requires a.skipping ==> a.p.state == Headers(Value)
    ensures Advance(a, c, answer).skipping ==> Advance(a, c, answer).p.state == Headers(Value)
  {
    hide Step, Perform;
  }

  /** The bytes of one call, from any point of it: marks and scans make a difference
      exactly where a byte slips through unchecked. */
  lemma {:induction false} FeedSim(a: Call, s: Conn, data: seq<byte>, answer: Answer)
    requires Sim(a, s) && Going(a) && Sound(a.p) && (a.skipping ==> a.p.state == Headers(Value))
    ensures Going(Feed(a, data, answer)) && NothingSlips(a, data, answer) <==> Alive(Serial(s, data, answer))
    ensures var b := Feed(a, data, answer);
            Alive(Serial(s, data, answer)) ==> Sim(b, Serial(s, data, answer)) && Sound(b.p) && b.used == a.used + |data|
    ensures var b := Feed(a, data, answer); b.skipping ==> b.p.state == Headers(Value)
    decreases |data|
  {
    hide Step, Sound, Perform, Hear, IsHeaderChar, Sim;
    if data == [] {
      SimAlive(a, s);
    } else {
      var n := |data| - 1;
      FeedSim(a, s, data[..n], answer);
      var b := Feed(a, data[..n], answer);
      var t := Serial(s, data[..n], answer);
      SkippingValue(b, data[n], answer);
      if Alive(t) {
        SimAlive(b, t);
        if Slips(b, data[n]) {
          CheckRefuses(b.p, data[n], answer);
          SimState(b, t);
        } else if Going(Advance(b, data[n], answer)) || Alive(Byte(t, data[n], answer)) {
          SimStep(b, t, data[n], answer);
          SimAlive(Advance(b, data[n], answer), Byte(t, data[n], answer));
        }
      }
    }
  }

  lemma SimAlive(a: Call, s: Conn)
    requires Sim(a, s)
    ensures Going(a) == Alive(s)
  {
  }

  lemma SimState(a: Call, s: Conn)
    requires Sim(a, s)
    ensures a.p == s.p
  {
  }

  // ----- Calls -----

  /** A call does what its bytes do one by one, as long as nothing errs, leaves or slips through. */
  lemma ExecuteIsSerial(p: Parser, nread: nat, log: seq<Event>, data: seq<byte>, answer: Answer)
    requires Sound(p) && p.errno.OK? && LogOk(p, log) && data != []
    ensures var r := Execute(p, nread, log, data, answer);
            var s := Serial(Conn(p, log, false), data, answer);
            && (Going(r) && NothingSlips(Enter(p, nread, log), data, answer) <==> Alive(s))
            && (Alive(s) ==> r.p == s.p && r.log == s.log && r.used == |data| && Sound(r.p) && LogOk(r.p, r.log))
  {
    hide Sound, Feed, Serial, LogOk, NothingSlips;
    var a := Enter(p, nread, log);
    var s := Conn(p, log, false);
    EnterSim(p, nread, log);
    FeedSim(a, s, data, answer);
    if Alive(Serial(s, data, answer)) {
      SimLogOk(Feed(a, data, answer), Serial(s, data, answer));
    }
  }

  lemma {:induction false} SerialAppend(s: Conn, x: seq<byte>, y: seq<byte>, answer: Answer)
    ensures Serial(s, x + y, answer) == Serial(Serial(s, x, answer), y, answer)
    decreases |y|
  {
    hide Byte;
    if y == [] {
      assert x + y == x;
    } else {
      var n := |y| - 1;
      SerialAppend(s, x, y[..n], answer);
      assert (x + y)[..|x + y| - 1] == x + y[..n];
    }
  }

  lemma {:induction false} SerialDead(s: Conn, data: seq<byte>, answer: Answer)
    requires !Alive(s)
    ensures Serial(s, data, answer) == s
    decreases |data|
  {
    if data != [] {
      SerialDead(s, data[..|data| - 1], answer);
    }
  }

  /** Input cut in two: same parser and, with adjacent data joined, the same callbacks as in one call. */
  lemma SplitIndependence(p: Parser, nread: nat, log: seq<Event>, x: seq<byte>, y: seq<byte>, answer: Answer)
    requires Sound(p) && p.errno.OK? && LogOk(p, log) && x != [] && y != []
    requires Going(Execute(p, nread, log, x + y, answer)) && NothingSlips(Enter(p, nread, log), x + y, answer)
    ensures var whole := Execute(p, nread, log, x + y, answer);
            var first := Execute(p, nread, log, x, answer);
            var second := Execute(first.p, first.nread, first.log, y, answer);
            && Going(first) && first.used == |x| && Going(second) && second.used == |y|
            && second.p == whole.p && second.log == whole.log
  {
    hide Sound, Execute, Serial, LogOk, NothingSlips;
    var s := Conn(p, log, false);
    ExecuteIsSerial(p, nread, log, x + y, answer);
    SerialAppend(s, x, y, answer);
    var t := Serial(s, x, answer);
    if !Alive(t) {
      SerialDead(t, y, answer);
    }
    ExecuteIsSerial(p, nread, log, x, answer);
    var first := Execute(p, nread, log, x, answer);
    assert t == Conn(first.p, first.log, false);
    ExecuteIsSerial(first.p, first.nread, first.log, y, answer);
  }

  function Calls(a: Call, pieces: seq<seq<byte>>, answer: Answer): Call {
    if pieces == [] then a
    else
      var b := Calls(a, pieces[..|pieces| - 1], answer);
      Execute(b.p, b.nread, b.log, pieces[|pieces| - 1], answer)
  }

  function Flatten(pieces: seq<seq<byte>>): seq<byte> {
    if pieces == [] then [] else Flatten(pieces[..|pieces| - 1]) + pieces[|pieces| - 1]
  }

  /** However the stream is cut, the calls together do what its bytes do one by one. */
  lemma {:induction false} CutIndependence(a: Call, pieces: seq<seq<byte>>, answer: Answer)
    requires Sound(a.p) && Going(a) && LogOk(a.p, a.log)
    requires forall i :: 0 <= i < |pieces| ==> pieces[i] != []
    requires Alive(Serial(Conn(a.p, a.log, false), Flatten(pieces), answer))
    ensures var r := Calls(a, pieces, answer);
            Conn(r.p, r.log, r.exit) == Serial(Conn(a.p, a.log, false), Flatten(pieces), answer)
            && Sound(r.p) && LogOk(r.p, r.log)
    decreases |pieces|
  {
    hide Sound, Execute, Serial, LogOk, NothingSlips;
    var s := Conn(a.p, a.log, false);
    if pieces == [] {
      SerialNothing(s, answer);
    } else {
      var n := |pieces| - 1;
      SerialAppend(s, Flatten(pieces[..n]), pieces[n], answer);
      if !Alive(Serial(s, Flatten(pieces[..n]), answer)) {
        SerialDead(Serial(s, Flatten(pieces[..n]), answer), pieces[n], answer);
      }
      CutIndependence(a, pieces[..n], answer);
      var b := Calls(a, pieces[..n], answer);
      ExecuteIsSerial(b.p, b.nread, b.log, pieces[n], answer);
    }
  }

  lemma SerialNothing(s: Conn, answer: Answer)
    ensures Serial(s, [], answer) == s
  {
  }

  // ----- Where a cut shows -----

  /** Within a header value a cut decides whether a control character is refused: in one
      call with the byte before it, it slips through; at the start of a call it is an error. */
  lemma CutShows(p: Parser, nread: nat, log: seq<Event>, c: byte, bad: byte, answer: Answer)
    requires p.errno.OK? && p.state == Headers(Value) && p.headerState.General? && !p.lenient
    requires IsHeaderChar(c) && c != CR && c != LF && !IsHeaderChar(bad)
    ensures Going(Execute(p, nread, log, [c, bad], answer))
    ensures var first := Execute(p, nread, log, [c], answer);
            && Going(first) && first.p == p
            && Execute(first.p, first.nread, first.log, [bad], answer).p.errno == INVALID_HEADER_TOKEN
  {
    hide IsHeaderChar, Execute, Advance;
    LineEndsPass(bad);
    ExecuteShort(p, nread, log, c, bad, answer);
    GeneralAdvance(Enter(p, nread, log), c, answer);
    GeneralAdvance(Advance(Enter(p, nread, log), c, answer), bad, answer);
    var first := Execute(p, nread, log, [c], answer);
    ExecuteShort(first.p, first.nread, first.log, bad, bad, answer);
    GeneralAdvance(Enter(first.p, first.nread, first.log), bad, answer);
  }

  lemma ExecuteShort(p: Parser, nread: nat, log: seq<Event>, c: byte, d: byte, answer: Answer)
    requires p.errno.OK?
    ensures var a := Enter(p, nread, log);
            && Execute(p, nread, log, [c], answer) == Leave(Advance(a, c, answer))
            && Execute(p, nread, log, [c, d], answer) == Leave(Advance(Advance(a, c, answer), d, answer))
  {
    hide Advance;
    var a := Enter(p, nread, log);
    assert [c][..0] == [] && [c, d][..1] == [c];
    assert Feed(a, [c], answer) == Advance(a, c, answer);
  }

  lemma GeneralAdvance(a: Call, c: byte, answer: Answer)
    requires Going(a) && a.p.state == Headers(Value) && a.p.headerState.General? && !a.p.lenient && c != CR && c != LF
    ensures var b := Advance(a, c, answer);
            && (a.skipping || IsHeaderChar(c) ==> Going(b) && b.p == a.p && b.skipping)
            && (!a.skipping && !IsHeaderChar(c) ==> b.p.errno == INVALID_HEADER_TOKEN)
  {
    hide Step, Perform, IsHeaderChar;
    GeneralStep(a.p, c, answer);
  }

  lemma GeneralStep(p: Parser, c: byte, answer: Answer)
    requires p.errno.OK? && p.state == Headers(Value) && p.headerState.General? && !p.lenient && c != CR && c != LF
    ensures Step(p, c, answer, false) == if IsHeaderChar(c) then Stay(p) else Fail(p, INVALID_HEADER_TOKEN)
    ensures Step(p, c, answer, true) == Stay(p)
  {
  }
}
