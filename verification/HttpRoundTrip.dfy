/** Messages written out and parsed again: their parts come back as they were. */
module HttpRoundTrip {
  import opened HttpTypes
  import opened HttpStep
  import opened HttpInvariant
  import opened HttpRun
  import opened HttpOrder
  import opened HttpSplit
  import opened HttpLength
  import opened HttpWords

  // ----- One byte and the log -----

  lemma SerialOne(s: Conn, c: byte, answer: Answer)
    ensures Serial(s, [c], answer) == Byte(s, c, answer)
  {
    hide Byte;
    assert [c][..0] == [];
    SerialNothing(s, answer);
  }

  lemma SerialMore(s: Conn, c: byte, rest: seq<byte>, answer: Answer)
    ensures Serial(s, [c] + rest, answer) == Serial(Byte(s, c, answer), rest, answer)
  {
    hide Byte, Serial;
    SerialOne(s, c, answer);
    SerialAppend(s, [c], rest, answer);
  }

  /** What the log becomes, by the shape of the actions. */
  lemma HearShapes(log: seq<Event>, m: Mark, acts: seq<Action>, c: byte)
    ensures acts == [] ==> Hear(log, m, acts, c) == if m.On? then Emit(log, m.kind, [c]) else log
    ensures |acts| == 1 && acts[0].SetMark? && m.NoMark? ==> Hear(log, m, acts, c) == Emit(log, acts[0].kind, [c])
    ensures |acts| == 1 && acts[0].Flush? && m == On(acts[0].kind) ==> Hear(log, m, acts, c) == log
    ensures |acts| == 1 && acts[0].Notify? && m.NoMark? ==> Hear(log, m, acts, c) == log + [Notice(acts[0].note)]
  {
    if |acts| == 1 {
      assert acts == [acts[0]];
      HeardOne(log, m, acts[0], c);
      if acts[0].SetMark? {
        EmitAppend(log, acts[0].kind, [], [c]);
        assert [] + [c] == [c];
      }
    }
  }

  lemma EmitNew(log: seq<Event>, kind: DataKind, bytes: seq<byte>)
    requires !LastIs(log, kind)
    ensures Emit(log, kind, bytes) == log + [Data(kind, bytes)]
  {
  }

  // ----- Where a parser is -----

  /** What counts of a parser between two parts of a message. */
  ghost predicate At(s: Conn, line: FirstLine, flags: set<Flag>, length: nat, state: State, log: seq<Event>) {
    Alive(s) && s.p.line == line && s.p.flags == flags && s.p.contentLength == length && s.p.state == state && s.log == log
  }

  /** A byte that is read without telling anyone. */
  predicate Silently(s: Conn, c: byte, answer: Answer, q: Parser) {
    Step(s.p, c, answer, false) == Stay(q) && MarkIn(s.p.state).NoMark?
  }

  lemma SilentByte(s: Conn, c: byte, answer: Answer, q: Parser)
    requires Alive(s) && Silently(s, c, answer, q)
    ensures Byte(s, c, answer) == Conn(q, s.log, false)
  {
    hide Step, Opening;
    HearShapes(s.log, MarkIn(s.p.state), [], c);
  }

  // ----- The request line -----

  /** Letters of the method only move the guess. */
  lemma MethodFrame(s: Conn, c: byte, answer: Answer)
    requires Alive(s) && s.p.state.Method?
    ensures var t := Byte(s, c, answer);
            && t.log == s.log && t.exit == s.exit
            && (Alive(t) ==> t.p == s.p.(line := s.p.line.(meth := t.p.line.meth), index := t.p.index, state := t.p.state)
                             && (t.p.state.Method? || t.p.state == Url(ReqSpacesBeforeUrl)))
  {
    hide MethodNext, MethodChar;
    HearShapes(s.log, NoMark, [], c);
  }

  lemma FirstFrame(s: Conn, c: byte, answer: Answer)
    requires Alive(s) && s.p.state == Start(StartReq) && !IsLineEnd(c)
    ensures var t := Byte(s, c, answer);
            Alive(t) ==>
              At(t, s.p.line.(meth := t.p.line.meth), {}, ULLONG_MAX, Method, s.log + [Notice(MessageBegin)])
  {
    hide FirstMethod, IsAlpha;
    HearShapes(s.log, NoMark, [Notify(MessageBegin)], c);
  }

  lemma {:induction false} MethodFramed(s: Conn, w: seq<byte>, answer: Answer)
    requires Alive(s) && s.p.state == Start(StartReq) && OneWord(w)
    ensures var t := Serial(s, w, answer);
            Alive(t) ==>
              At(t, s.p.line.(meth := t.p.line.meth), {}, ULLONG_MAX, Method, s.log + [Notice(MessageBegin)])
    decreases |w|
  {
    hide Byte;
    var n := |w| - 1;
    if n == 0 {
      assert w[..0] == [] && w == [w[0]];
      SerialOne(s, w[0], answer);
      FirstFrame(s, w[0], answer);
    } else {
      MethodFramed(s, w[..n], answer);
      var t := Serial(s, w[..n], answer);
      if Alive(t) {
        MethodFrame(t, w[n], answer);
        MethodSpelled(s, w, answer);
      } else {
        DeadByte(t, w[n], answer);
      }
    }
  }

  /** The method and the blank after it. */
  lemma MethodRead(s: Conn, m: nat, w: seq<byte>, answer: Answer)
    requires Alive(s) && s.p.state == Start(StartReq) && OneWord(w) && m < METHOD_COUNT && Equals(w, MethodName(m))
    ensures At(Serial(s, w + [SP], answer), s.p.line.(meth := m), {}, ULLONG_MAX, Url(ReqSpacesBeforeUrl),
               s.log + [Notice(MessageBegin)])
  {
    hide Byte, MethodName, Guess, Serial;
    MethodGuessed(s, m, w, answer);
    GuessEnds(m);
    MethodFramed(s, w, answer);
    var t := Serial(s, w, answer);
    InMethodAlive(t, w);
    MethodEnds(t, w, answer);
    MethodFrame(t, SP, answer);
    SerialAppend(s, w, [SP], answer);
    SerialOne(t, SP, answer);
  }

  /** A silent byte, then the rest. */
  lemma Then(s: Conn, c: byte, q: Parser, rest: seq<byte>, answer: Answer)
    requires Alive(s) && Silently(s, c, answer, q)
    ensures Serial(s, [c] + rest, answer) == Serial(Conn(q, s.log, false), rest, answer)
  {
    hide Byte, Serial, Silently;
    SilentByte(s, c, answer, q);
    SerialMore(s, c, rest, answer);
  }

  /** "HTTP/", a digit, a point, a digit and the end of the line. */
  function VersionBytes(major: nat, minor: nat): seq<byte>
    requires 1 <= major <= 9 && minor <= 9
  {
    [72] + ([84] + ([84] + ([80] + ([47] + ([48 + major] + ([46] + ([48 + minor] + ([CR] + ([LF] + [])))))))))
  }

  lemma VersionByte(p: Parser, log: seq<Event>, c: byte, rest: seq<byte>, answer: Answer, v: VersionState, q: Parser)
    requires p.errno.OK? && p.state == Version(v) && VersionStep(p, v, c) == Stay(q)
    ensures Serial(Conn(p, log, false), [c] + rest, answer) == Serial(Conn(q, log, false), rest, answer)
  {
    hide VersionStep, Byte, Serial;
    Then(Conn(p, log, false), c, q, rest, answer);
  }

  lemma VersionName(p: Parser, log: seq<Event>, rest: seq<byte>, answer: Answer)
    requires p.errno.OK? && p.state == Version(ReqHttpStart)
    ensures Serial(Conn(p, log, false), [72] + ([84] + ([84] + ([80] + ([47] + rest)))), answer)
            == Serial(Conn(p.(state := Version(ReqFirstMajor)), log, false), rest, answer)
  {
    hide Serial;
    var r4 := [47] + rest;
    var r3 := [80] + r4;
    var r2 := [84] + r3;
    var r1 := [84] + r2;
    VersionByte(p, log, 72, r1, answer, ReqHttpStart, p.(state := Version(ReqH)));
    VersionByte(p.(state := Version(ReqH)), log, 84, r2, answer, ReqH, p.(state := Version(ReqHT)));
    VersionByte(p.(state := Version(ReqHT)), log, 84, r3, answer, ReqHT, p.(state := Version(ReqHTT)));
    VersionByte(p.(state := Version(ReqHTT)), log, 80, r4, answer, ReqHTT, p.(state := Version(ReqHTTP)));
    VersionByte(p.(state := Version(ReqHTTP)), log, 47, rest, answer, ReqHTTP, p.(state := Version(ReqFirstMajor)));
  }

  lemma VersionNumbers(p: Parser, log: seq<Event>, major: nat, minor: nat, rest: seq<byte>, answer: Answer)
    requires p.errno.OK? && p.state == Version(ReqFirstMajor) && 1 <= major <= 9 && minor <= 9
    ensures Serial(Conn(p, log, false), [48 + major] + ([46] + ([48 + minor] + rest)), answer)
            == Serial(Conn(WithVersion(p, major, minor).(state := Version(ReqMinor)), log, false), rest, answer)
  {
    hide Serial;
    var r2 := [48 + minor] + rest;
    var r1 := [46] + r2;
    var p1 := WithVersion(p, major, p.line.minor);
    VersionByte(p, log, 48 + major, r1, answer, ReqFirstMajor, p1.(state := Version(ReqMajor)));
    VersionByte(p1.(state := Version(ReqMajor)), log, 46, r2, answer, ReqMajor, p1.(state := Version(ReqFirstMinor)));
    VersionByte(p1.(state := Version(ReqFirstMinor)), log, 48 + minor, rest, answer, ReqFirstMinor,
                WithVersion(p, major, minor).(state := Version(ReqMinor)));
  }

  lemma VersionLineEnds(p: Parser, log: seq<Event>, answer: Answer)
    requires p.errno.OK? && p.state == Version(ReqMinor)
    ensures Serial(Conn(p, log, false), [CR] + ([LF] + []), answer)
            == Conn(p.(state := Headers(HeaderFieldStart)), log, false)
  {
    hide Serial;
    VersionByte(p, log, CR, [LF] + [], answer, ReqMinor, p.(state := Version(ReqLineAlmostDone)));
    VersionByte(p.(state := Version(ReqLineAlmostDone)), log, LF, [], answer, ReqLineAlmostDone,
                p.(state := Headers(HeaderFieldStart)));
    SerialNothing(Conn(p.(state := Headers(HeaderFieldStart)), log, false), answer);
  }

  lemma VersionRead(s: Conn, major: nat, minor: nat, answer: Answer)
    requires Alive(s) && s.p.state == Version(ReqHttpStart) && 1 <= major <= 9 && minor <= 9
    ensures Serial(s, VersionBytes(major, minor), answer)
            == Conn(WithVersion(s.p, major, minor).(state := Headers(HeaderFieldStart)), s.log, false)
  {
    hide Serial;
    var end: seq<byte> := [CR] + ([LF] + []);
    VersionName(s.p, s.log, [48 + major] + ([46] + ([48 + minor] + end)), answer);
    VersionNumbers(s.p.(state := Version(ReqFirstMajor)), s.log, major, minor, end, answer);
    VersionLineEnds(WithVersion(s.p, major, minor).(state := Version(ReqMinor)), s.log, answer);
  }

  // ----- Header lines -----

  /** Between two lines: the first is over, but for what it may still turn out to have said. */
  predicate LineStart(s: Conn) {
    Alive(s) && (s.p.state == Headers(HeaderFieldStart) || s.p.state == Headers(ValueLws))
  }

  /** The same with the line before settled. */
  function Settled(s: Conn): Conn {
    if s.p.state == Headers(ValueLws) then Conn(SettleLine(s.p).(state := Headers(HeaderFieldStart)), s.log, s.exit) else s
  }

  lemma LineBegins(s: Conn, c: byte, rest: seq<byte>, answer: Answer)
    requires LineStart(s) && !IsBlank(c)
    ensures Serial(s, [c] + rest, answer) == Serial(Settled(s), [c] + rest, answer)
  {
    hide Byte, Serial;
    assert Byte(s, c, answer) == Byte(Settled(s), c, answer) by { SameFirst(s, c, answer); }
    SerialMore(s, c, rest, answer);
    SerialMore(Settled(s), c, rest, answer);
  }

  lemma SameFirst(s: Conn, c: byte, answer: Answer)
    requires LineStart(s) && !IsBlank(c)
    ensures Byte(s, c, answer) == Byte(Settled(s), c, answer)
  {
    hide HeaderFieldStartStep, SettleLine, Hear;
    SettledAlive(s);
  }

  lemma SettledAlive(s: Conn)
    requires LineStart(s)
    ensures Alive(Settled(s)) && Settled(s).p.state == Headers(HeaderFieldStart) && Settled(s).log == s.log
    ensures MarkIn(s.p.state).NoMark?
  {
    hide Settle;
  }

  lemma NameStarts(s: Conn, c: byte, answer: Answer)
    requires Alive(s) && s.p.state == Headers(HeaderFieldStart) && TokenOf(c) != 0
    ensures var t := Byte(s, c, answer);
            t == Conn(s.p.(state := Headers(HeaderField), headerState := t.p.headerState, index := t.p.index),
                      Emit(s.log, FIELD, [c]), false)
  {
    hide Emit, TokenOf;
    LineEndsNoToken();
    var h := Step(s.p, c, answer, false).p.headerState;
    HearShapes(s.log, NoMark, [SetMark(FIELD)], c);
  }

  lemma NameGoesOn(s: Conn, c: byte, answer: Answer)
    requires Alive(s) && s.p.state == Headers(HeaderField) && TokenOf(c) != 0
    ensures var t := Byte(s, c, answer);
            t == Conn(s.p.(headerState := t.p.headerState, index := t.p.index), Emit(s.log, FIELD, [c]), false)
  {
    hide Emit, TokenOf, FieldNext;
    HearShapes(s.log, On(FIELD), [], c);
  }

  lemma {:induction false} NameFramed(s: Conn, name: seq<byte>, answer: Answer)
    requires Alive(s) && s.p.state == Headers(HeaderFieldStart) && IsName(name)
    ensures var t := Serial(s, name, answer);
            t == Conn(s.p.(state := Headers(HeaderField), headerState := t.p.headerState, index := t.p.index),
                      Emit(s.log, FIELD, name), false)
    decreases |name|
  {
    hide Byte, Emit, TokenOf;
    var n := |name| - 1;
    if n == 0 {
      assert name[..0] == [] && name == [name[0]];
      SerialOne(s, name[0], answer);
      NameStarts(s, name[0], answer);
    } else {
      NameFramed(s, name[..n], answer);
      NameGoesOn(Serial(s, name[..n], answer), name[n], answer);
      EmitAppend(s.log, FIELD, name[..n], [name[n]]);
      assert name[..n] + [name[n]] == name;
    }
  }

  /** The colon and the blank after a name. */
  const COLON: seq<byte> := [58, SP]

  lemma ColonRead(s: Conn, answer: Answer)
    requires Alive(s) && s.p.state == Headers(HeaderField)
    ensures Serial(s, COLON, answer) == Conn(s.p.(state := Headers(ValueDiscardWs)), s.log, false)
  {
    hide Serial;
    var t := Conn(s.p.(state := Headers(ValueDiscardWs)), s.log, false);
    assert Byte(s, 58, answer) == t by {
      NoTokenColon();
      HearShapes(s.log, On(FIELD), [Flush(FIELD)], 58);
    }
    assert COLON == [58] + ([SP] + []);
    SerialMore(s, 58, [SP] + [], answer);
    Then(t, SP, t.p, [], answer);
    SerialNothing(t, answer);
  }

  lemma NoTokenColon()
    ensures TokenOf(58) == 0
  {
  }

  /** A name up to its value: the matcher has seen the name. */
  lemma NameRead(s: Conn, name: seq<byte>, answer: Answer)
    requires Alive(s) && s.p.state == Headers(HeaderFieldStart) && IsName(name)
    ensures var t := Serial(s, name + COLON, answer);
            && t == Conn(s.p.(state := Headers(ValueDiscardWs), headerState := Expected(Lowered(name)), index := t.p.index),
                         Emit(s.log, FIELD, name), false)
  {
    hide Byte, Serial, Emit, Expected, Lowered, TokenOf;
    NameFramed(s, name, answer);
    NameMatched(s, name, answer);
    NameIs(Serial(s, name, answer), Lowered(name));
    SerialAppend(s, name, COLON, answer);
    ColonRead(Serial(s, name, answer), answer);
  }

  lemma NameIs(s: Conn, w: seq<byte>)
    requires InName(s, w)
    ensures w != [] && s.p.headerState == Expected(w)
  {
  }

  const CRLF: seq<byte> := [CR, LF]

  /** The end of a value. */
  lemma ValueEnd(s: Conn, answer: Answer)
    requires Alive(s) && s.p.state == Headers(Value)
    ensures Serial(s, CRLF, answer) == Conn(s.p.(state := Headers(ValueLws)), s.log, false)
  {
    hide Serial;
    var t := Conn(s.p.(state := Headers(HeaderAlmostDone)), s.log, false);
    assert Byte(s, CR, answer) == t by {
      HearShapes(s.log, On(VALUE), [Flush(VALUE)], CR);
    }
    assert CRLF == [CR] + ([LF] + []);
    SerialMore(s, CR, [LF] + [], answer);
    Then(t, LF, t.p.(state := Headers(ValueLws)), [], answer);
    SerialNothing(Conn(t.p.(state := Headers(ValueLws)), s.log, false), answer);
  }

  /** The matchers that only a transfer coding or nothing at all starts. */
  predicate Plain(h: HeaderState) {
    h.General? || h.MatchingChunked? || h.Chunked?
  }

  /** Such a value leaves everything but matcher and position alone. */
  lemma {:induction false} ValueFramed(s: Conn, v: seq<byte>, answer: Answer)
    requires Alive(s) && s.p.state == Headers(ValueDiscardWs) && IsValue(v)
    requires StartMatcher(s.p.headerState, Lower(v[0])).General? || StartMatcher(s.p.headerState, Lower(v[0])).MatchingChunked?
    requires !s.p.headerState.ContentLength? && !s.p.headerState.Upgrade?
    ensures var t := Serial(s, v, answer);
            && t == Conn(s.p.(state := Headers(Value), headerState := t.p.headerState, index := t.p.index),
                         Emit(s.log, VALUE, v), false)
            && Plain(t.p.headerState)
            && (StartMatcher(s.p.headerState, Lower(v[0])).General? ==> t.p.headerState.General?)
    decreases |v|
  {
    hide Byte, Emit, IsHeaderChar, StartMatcher, Lower;
    var n := |v| - 1;
    if n == 0 {
      assert v[..0] == [] && v == [v[0]];
      SerialOne(s, v[0], answer);
      FirstPlain(s, v[0], answer);
    } else {
      assert v[..n][0] == v[0];
      ValueFramed(s, v[..n], answer);
      PlainNext(Serial(s, v[..n], answer), v[n], answer);
      EmitAppend(s.log, VALUE, v[..n], [v[n]]);
      assert v[..n] + [v[n]] == v;
    }
  }

  lemma FirstPlain(s: Conn, c: byte, answer: Answer)
    requires Alive(s) && s.p.state == Headers(ValueDiscardWs) && !IsBlank(c) && !IsLineEnd(c)
    requires !s.p.headerState.ContentLength? && !s.p.headerState.Upgrade?
    ensures Byte(s, c, answer) ==
            Conn(s.p.(state := Headers(Value), headerState := StartMatcher(s.p.headerState, Lower(c)), index := 0),
                 Emit(s.log, VALUE, [c]), false)
  {
    hide Emit, StartMatcher, Lower;
    HearShapes(s.log, NoMark, [SetMark(VALUE)], c);
  }

  lemma PlainNext(s: Conn, c: byte, answer: Answer)
    requires Alive(s) && s.p.state == Headers(Value) && Plain(s.p.headerState) && !IsLineEnd(c) && IsHeaderChar(c)
    ensures var t := Byte(s, c, answer);
            && t == Conn(s.p.(headerState := t.p.headerState, index := t.p.index), Emit(s.log, VALUE, [c]), false)
            && Plain(t.p.headerState) && (s.p.headerState.General? ==> t.p.headerState.General?)
  {
    hide Emit, IsHeaderChar;
    HearShapes(s.log, On(VALUE), [], c);
  }

  // ----- Numbers -----

  function DigitsOf(n: nat): (ds: seq<byte>)
    ensures ds != []
  {
    if n < 10 then [48 + n] else DigitsOf(n / 10) + [48 + n % 10]
  }

  lemma {:induction false} DigitsSpell(n: nat)
    ensures Decimal(DigitsOf(n)) == n && forall i :: 0 <= i < |DigitsOf(n)| ==> IsNum(DigitsOf(n)[i])
  {
    if n < 10 {
      assert [48 + n][..0] == [];
    } else {
      DigitsSpell(n / 10);
      var ds := DigitsOf(n);
      assert ds[..|ds| - 1] == DigitsOf(n / 10);
    }
  }

  function HexDigit(n: nat): byte
    requires n < 16
  {
    if n < 10 then 48 + n else 87 + n
  }

  function HexOf(n: nat): (ds: seq<byte>)
    ensures ds != []
  {
    if n < 16 then [HexDigit(n)] else HexOf(n / 16) + [HexDigit(n % 16)]
  }

  lemma {:induction false} HexSpells(n: nat)
    ensures Hex(HexOf(n)) == n && IsSize(HexOf(n))
  {
    if n < 16 {
      assert [HexDigit(n)][..0] == [];
    } else {
      HexSpells(n / 16);
      var ds := HexOf(n);
      assert ds[..|ds| - 1] == HexOf(n / 16);
    }
  }

  lemma LengthStarts(s: Conn, c: byte, answer: Answer)
    requires AtLength(s) && IsNum(c)
    ensures var t := Byte(s, c, answer);
            t == Conn(s.p.(state := Headers(Value), index := 0, flags := s.p.flags + {F_CONTENTLENGTH},
                           contentLength := t.p.contentLength), Emit(s.log, VALUE, [c]), false)
  {
    hide Emit;
    HearShapes(s.log, NoMark, [SetMark(VALUE)], c);
  }

  lemma LengthGoesOn(s: Conn, c: byte, answer: Answer)
    requires InLength(s) && IsNum(c)
    ensures var t := Byte(s, c, answer);
            Alive(t) ==> t == Conn(s.p.(contentLength := t.p.contentLength), Emit(s.log, VALUE, [c]), false)
  {
    hide Emit;
    HearShapes(s.log, On(VALUE), [], c);
  }

  lemma {:induction false} LengthFramed(s: Conn, ds: seq<byte>, answer: Answer)
    requires AtLength(s) && ds != [] && forall i :: 0 <= i < |ds| ==> IsNum(ds[i])
    ensures var t := Serial(s, ds, answer);
            Alive(t) ==> t == Conn(s.p.(state := Headers(Value), index := 0, flags := s.p.flags + {F_CONTENTLENGTH},
                                        contentLength := t.p.contentLength), Emit(s.log, VALUE, ds), false)
    decreases |ds|
  {
    hide Byte, Emit, IsNum, AtLength;
    var n := |ds| - 1;
    if n == 0 {
      assert ds[..0] == [] && ds == [ds[0]];
      SerialOne(s, ds[0], answer);
      LengthStarts(s, ds[0], answer);
    } else {
      LengthFramed(s, ds[..n], answer);
      var t := Serial(s, ds[..n], answer);
      if Alive(t) {
        AtLengthHas(s);
        LengthGoesOn(t, ds[n], answer);
        EmitAppend(s.log, VALUE, ds[..n], [ds[n]]);
        assert ds[..n] + [ds[n]] == ds;
      } else {
        DeadByte(t, ds[n], answer);
      }
    }
  }

  lemma AtLengthHas(s: Conn)
    requires AtLength(s)
    ensures s.p.headerState.ContentLength?
  {
  }

  // ----- Whole header lines -----

  datatype Header = Header(name: seq<byte>, value: seq<byte>)

  /** A header that does not steer the parse. */
  predicate HeaderOk(h: Header) {
    && IsName(h.name) && IsValue(h.value)
    && var w := Lowered(h.name);
       !(Equals(w, CONNECTION) || Equals(w, PROXY_CONNECTION) || Equals(w, CONTENT_LENGTH)
         || Equals(w, TRANSFER_ENCODING) || Equals(w, UPGRADE))
  }

  function Line(name: seq<byte>, value: seq<byte>): seq<byte> {
    name + COLON + value + CRLF
  }

  /** What the application hears of a header line. */
  function LineLog(log: seq<Event>, name: seq<byte>, value: seq<byte>): seq<Event> {
    Emit(Emit(log, FIELD, name), VALUE, value)
  }

  /** The four parts of a line, one after the other. */
  lemma LineParts(s: Conn, name: seq<byte>, value: seq<byte>, a: Conn, b: Conn, answer: Answer)
    requires LineStart(s) && IsName(name)
    requires a == Serial(Settled(s), name + COLON, answer) && b == Serial(a, value, answer)
    ensures Serial(s, Line(name, value), answer) == Serial(b, CRLF, answer)
  {
    hide Serial, Byte, TokenOf;
    var c := name[0];
    assert !IsBlank(c) by { BlankNoToken(c); }
    var tail := name[1..] + COLON + value + CRLF;
    assert Line(name, value) == [c] + tail;
    LineBegins(s, c, tail, answer);
    assert Line(name, value) == (name + COLON) + (value + CRLF);
    SerialAppend(Settled(s), name + COLON, value + CRLF, answer);
    SerialAppend(a, value, CRLF, answer);
  }

  lemma BlankNoToken(c: byte)
    ensures TokenOf(c) != 0 ==> !IsBlank(c)
  {
  }

  lemma PlainHeader(h: Header)
    requires HeaderOk(h)
    ensures var e := Expected(Lowered(h.name));
            !(e.Connection? || e.ContentLength? || e.TransferEncoding? || e.Upgrade?) && IsFieldMatch(e)
  {
    hide Equals, TokenOf;
    ExpectedWords(Lowered(h.name));
  }

  predicate IsFieldMatch(h: HeaderState) {
    h.General? || Counting(h) || h.Connection? || h.ContentLength? || h.TransferEncoding? || h.Upgrade?
  }

  lemma HeaderRead(s: Conn, h: Header, answer: Answer)
    requires LineStart(s) && HeaderOk(h)
    ensures var t := Serial(s, Line(h.name, h.value), answer);
            && t == Conn(Settled(s).p.(state := Headers(ValueLws), headerState := General, index := t.p.index),
                         LineLog(s.log, h.name, h.value), false)
  {
    hide Serial, Byte, Emit, TokenOf, IsHeaderChar, Expected, Equals, SettleLine;
    SettledAlive(s);
    var s0 := Settled(s);
    NameRead(s0, h.name, answer);
    var a := Serial(s0, h.name + COLON, answer);
    PlainHeader(h);
    StartsGeneral(Expected(Lowered(h.name)), Lower(h.value[0]));
    ValueFramed(a, h.value, answer);
    var b := Serial(a, h.value, answer);
    ValueEnd(b, answer);
    LineParts(s, h.name, h.value, a, b, answer);
  }

  lemma StartsGeneral(h: HeaderState, l: byte)
    requires IsFieldMatch(h) && !(h.Connection? || h.ContentLength? || h.TransferEncoding? || h.Upgrade?)
    ensures StartMatcher(h, l).General?
  {
  }

  lemma LengthRead(s: Conn, name: seq<byte>, n: nat, answer: Answer)
    requires LineStart(s) && IsName(name) && Equals(Lowered(name), CONTENT_LENGTH)
    requires F_CONTENTLENGTH !in Settled(s).p.flags && n <= MAX_DECIMAL
    ensures var t := Serial(s, Line(name, DigitsOf(n)), answer);
            && t == Conn(Settled(s).p.(state := Headers(ValueLws), headerState := ContentLength, index := 0,
                                       flags := Settled(s).p.flags + {F_CONTENTLENGTH}, contentLength := n),
                         LineLog(s.log, name, DigitsOf(n)), false)
  {
    hide Serial, Byte, Emit, TokenOf, Expected, Equals, SettleLine, DigitsOf, Decimal;
    SettledAlive(s);
    var s0 := Settled(s);
    NameRead(s0, name, answer);
    var a := Serial(s0, name + COLON, answer);
    ExpectedWords(Lowered(name));
    DigitsSpell(n);
    LengthExact(a, DigitsOf(n), answer);
    LengthFramed(a, DigitsOf(n), answer);
    var b := Serial(a, DigitsOf(n), answer);
    ValueEnd(b, answer);
    LineParts(s, name, DigitsOf(n), a, b, answer);
  }

  lemma CodingRead(s: Conn, name: seq<byte>, v: seq<byte>, answer: Answer)
    requires LineStart(s) && IsName(name) && Equals(Lowered(name), TRANSFER_ENCODING) && IsValue(v) && SaysChunked(v)
    ensures var t := Serial(s, Line(name, v), answer);
            && t == Conn(Settled(s).p.(state := Headers(ValueLws), headerState := Chunked, index := t.p.index),
                         LineLog(s.log, name, v), false)
  {
    hide Serial, Byte, Emit, TokenOf, IsHeaderChar, Expected, Equals, SettleLine, SaysChunked;
    SettledAlive(s);
    var s0 := Settled(s);
    NameRead(s0, name, answer);
    var a := Serial(s0, name + COLON, answer);
    ExpectedWords(Lowered(name));
    ChunkedRecognised(a, v, answer);
    StartsCoding(Lower(v[0]));
    ValueFramed(a, v, answer);
    var b := Serial(a, v, answer);
    ValueEnd(b, answer);
    LineParts(s, name, v, a, b, answer);
  }

  lemma StartsCoding(l: byte)
    ensures StartMatcher(TransferEncoding, l).General? || StartMatcher(TransferEncoding, l).MatchingChunked?
  {
  }

  /** What counts of a parser between two lines. */
  function Frame(s: Conn): Parser {
    Settled(s).p.(headerState := General, index := 0)
  }

  lemma SettledGeneral(s: Conn)
    requires s.p.state == Headers(ValueLws) && (s.p.headerState.General? || s.p.headerState.ContentLength?)
    ensures Settled(s) == Conn(s.p.(state := Headers(HeaderFieldStart)), s.log, s.exit)
  {
  }

  lemma SettledChunked(s: Conn)
    requires s.p.state == Headers(ValueLws) && s.p.headerState.Chunked?
    ensures Settled(s) == Conn(s.p.(state := Headers(HeaderFieldStart), flags := s.p.flags + {F_CHUNKED}), s.log, s.exit)
  {
  }

  // ----- The end of the headers -----

  lemma HearThree(log: seq<Event>, n: Note, k: Note, c: byte)
    ensures Hear(log, NoMark, [Notify(n), Recount], c) == log + [Notice(n)]
    ensures Hear(log, NoMark, [Notify(n), Recount, Notify(k)], c) == log + [Notice(n), Notice(k)]
    ensures Hear(log, NoMark, [Notify(n), Notify(k)], c) == log + [Notice(n), Notice(k)]
    ensures Hear(log, NoMark, [Recount, Notify(n)], c) == log + [Notice(n)]
  {
    HeardTwo(log, NoMark, Notify(n), Recount, c);
    HeardTwo(log, NoMark, Notify(n), Notify(k), c);
    HeardTwo(log, NoMark, Recount, Notify(n), c);
    assert [Notify(n), Recount, Notify(k)] == [Notify(n)] + [Recount, Notify(k)];
    HeardMore(log, NoMark, Notify(n), [Recount, Notify(k)], c);
    HeardTwo(log + [Notice(n)], NoMark, Recount, Notify(k), c);
    assert log + [Notice(n)] + [Notice(k)] == log + [Notice(n), Notice(k)];
  }

  /** The blank line. */
  lemma BlankLine(s: Conn, answer: Answer)
    requires LineStart(s)
    ensures Serial(s, CRLF, answer) == Byte(Conn(Settled(s).p.(state := HeadersAlmostDone), s.log, false), LF, answer)
  {
    hide Serial, Byte;
    assert CRLF == [CR] + ([LF] + []);
    LineBegins(s, CR, [LF] + [], answer);
    SettledAlive(s);
    var s0 := Settled(s);
    Then(s0, CR, s0.p.(state := HeadersAlmostDone), [LF] + [], answer);
    assert [LF] + [] == [LF];
    SerialOne(Conn(s0.p.(state := HeadersAlmostDone), s0.log, false), LF, answer);
  }

  // ----- Bodies -----

  lemma BodyByte(s: Conn, c: byte, answer: Answer)
    requires Alive(s) && (s.p.state == Body(BodyIdentity) || s.p.state == Body(ChunkData))
    requires s.p.contentLength > if s.p.state == Body(BodyIdentity) then 1 else 0
    ensures var n := s.p.contentLength - 1;
            Byte(s, c, answer) ==
            Conn(s.p.(contentLength := n,
                      state := if n == 0 then Body(ChunkDataAlmostDone) else s.p.state), Emit(s.log, BODY, [c]), false)
  {
    hide Complete, Emit;
    HearShapes(s.log, NoMark, [SetMark(BODY)], c);
  }

  /** Bytes of a body, not the last one of a body of known length. */
  lemma {:induction false} BytesRead(s: Conn, b: seq<byte>, answer: Answer)
    requires Alive(s) && (s.p.state == Body(BodyIdentity) || s.p.state == Body(ChunkData)) && b != []
    requires |b| <= s.p.contentLength && (s.p.state == Body(BodyIdentity) ==> |b| < s.p.contentLength)
    ensures var n := s.p.contentLength - |b|;
            Serial(s, b, answer) ==
            Conn(s.p.(contentLength := n, state := if n == 0 then Body(ChunkDataAlmostDone) else s.p.state),
                 Emit(s.log, BODY, b), false)
    decreases |b|
  {
    hide Byte, Emit;
    var n := |b| - 1;
    if n == 0 {
      assert b[..0] == [] && b == [b[0]];
      SerialOne(s, b[0], answer);
      BodyByte(s, b[0], answer);
    } else {
      BytesRead(s, b[..n], answer);
      BodyByte(Serial(s, b[..n], answer), b[n], answer);
      EmitAppend(s.log, BODY, b[..n], [b[n]]);
      assert b[..n] + [b[n]] == b;
    }
  }

  // ----- Chunks -----

  lemma HexByte(s: Conn, c: byte, answer: Answer)
    requires Alive(s) && s.p.state.ChunkHead? && Unhex(c) >= 0
    requires s.p.state.chunk.ChunkSizeStart? || s.p.state.chunk.ChunkSize?
    ensures var t := Byte(s, c, answer);
            Alive(t) ==> t == Conn(s.p.(state := ChunkHead(ChunkSize), contentLength := t.p.contentLength), s.log, false)
  {
    hide Unhex;
    assert Unhex(CR) < 0 by { NoHex(); }
    HearShapes(s.log, NoMark, [], c);
  }

  lemma NoHex()
    ensures Unhex(CR) == -1
  {
  }

  lemma {:induction false} SizeFramed(s: Conn, ds: seq<byte>, answer: Answer)
    requires AtSize(s) && IsSize(ds)
    ensures var t := Serial(s, ds, answer);
            Alive(t) ==> t == Conn(s.p.(state := ChunkHead(ChunkSize), contentLength := t.p.contentLength), s.log, false)
    decreases |ds|
  {
    hide Byte, Unhex;
    var n := |ds| - 1;
    if n == 0 {
      assert ds[..0] == [] && ds == [ds[0]];
      SerialOne(s, ds[0], answer);
      HexByte(s, ds[0], answer);
    } else {
      SizeFramed(s, ds[..n], answer);
      var t := Serial(s, ds[..n], answer);
      if Alive(t) {
        HexByte(t, ds[n], answer);
      } else {
        DeadByte(t, ds[n], answer);
      }
    }
  }

  /** A size and the end of its line. */
  lemma SizeRead(s: Conn, n: nat, answer: Answer)
    requires AtSize(s) && n <= MAX_HEX
    ensures Serial(s, HexOf(n) + CRLF, answer) ==
            Conn(if n == 0 then s.p.(contentLength := 0, state := Headers(HeaderFieldStart), flags := s.p.flags + {F_TRAILING})
                 else s.p.(contentLength := n, state := Body(ChunkData)),
                 s.log + [Notice(ChunkHeader(n))], false)
  {
    hide Serial, Byte, Hex, HexOf;
    HexSpells(n);
    SizeExact(s, HexOf(n), answer);
    SizeFramed(s, HexOf(n), answer);
    var t := Serial(s, HexOf(n), answer);
    SerialAppend(s, HexOf(n), CRLF, answer);
    SizeLineEnds(t, answer);
  }

  lemma SizeLineEnds(s: Conn, answer: Answer)
    requires InSize(s)
    ensures var n := s.p.contentLength;
            Serial(s, CRLF, answer) ==
            Conn(if n == 0 then s.p.(state := Headers(HeaderFieldStart), flags := s.p.flags + {F_TRAILING})
                 else s.p.(state := Body(ChunkData)),
                 s.log + [Notice(ChunkHeader(n))], false)
  {
    hide Serial, Hear;
    var t := Conn(s.p.(state := ChunkHead(ChunkSizeAlmostDone)), s.log, false);
    assert CRLF == [CR] + ([LF] + []);
    Then(s, CR, t.p, [LF] + [], answer);
    assert [LF] + [] == [LF];
    SerialOne(t, LF, answer);
    HearThree(s.log, ChunkHeader(s.p.contentLength), MessageComplete, LF);
  }

  /** The line end after the data of a chunk. */
  lemma DataLineEnds(s: Conn, answer: Answer)
    requires Alive(s) && s.p.state == Body(ChunkDataAlmostDone)
    ensures Serial(s, CRLF, answer) == Conn(s.p.(state := ChunkHead(ChunkSizeStart)), s.log + [Notice(ChunkComplete)], false)
  {
    hide Serial, Hear;
    var t := Conn(s.p.(state := Body(ChunkDataDone)), s.log, false);
    assert Byte(s, CR, answer) == t by { FlushNothing(s.log); }
    assert CRLF == [CR] + [LF];
    SerialMore(s, CR, [LF], answer);
    SerialOne(t, LF, answer);
    HearThree(s.log, ChunkComplete, MessageComplete, LF);
  }

  lemma FlushNothing(log: seq<Event>)
    ensures Hear(log, NoMark, [Flush(BODY)], CR) == log
  {
    HeardOne(log, NoMark, Flush(BODY), CR);
  }

  function ChunkBytes(data: seq<byte>): seq<byte> {
    HexOf(|data|) + CRLF + data + CRLF
  }

  function ChunkLog(log: seq<Event>, data: seq<byte>): seq<Event> {
    Emit(log + [Notice(ChunkHeader(|data|))], BODY, data) + [Notice(ChunkComplete)]
  }

  lemma ChunkRead(s: Conn, data: seq<byte>, answer: Answer)
    requires AtSize(s) && 0 < |data| <= MAX_HEX
    ensures Serial(s, ChunkBytes(data), answer) == Conn(s.p.(contentLength := 0), ChunkLog(s.log, data), false)
  {
    hide Serial, HexOf, Emit;
    var head := HexOf(|data|) + CRLF;
    SizeRead(s, |data|, answer);
    var t := Serial(s, head, answer);
    BytesRead(t, data, answer);
    var u := Serial(t, data, answer);
    DataLineEnds(u, answer);
    assert ChunkBytes(data) == head + (data + CRLF);
    SerialAppend(s, head, data + CRLF, answer);
    SerialAppend(t, data, CRLF, answer);
  }

  predicate ChunksOk(chunks: seq<seq<byte>>) {
    forall i :: 0 <= i < |chunks| ==> 0 < |chunks[i]| <= MAX_HEX
  }

  function ChunksBytes(chunks: seq<seq<byte>>): seq<byte> {
    if chunks == [] then [] else ChunksBytes(chunks[..|chunks| - 1]) + ChunkBytes(chunks[|chunks| - 1])
  }

  function ChunksLog(log: seq<Event>, chunks: seq<seq<byte>>): seq<Event> {
    if chunks == [] then log else ChunkLog(ChunksLog(log, chunks[..|chunks| - 1]), chunks[|chunks| - 1])
  }

  lemma {:induction false} ChunksRead(s: Conn, chunks: seq<seq<byte>>, answer: Answer)
    requires AtSize(s) && ChunksOk(chunks)
    ensures var t := Serial(s, ChunksBytes(chunks), answer);
            t == Conn(s.p.(contentLength := t.p.contentLength), ChunksLog(s.log, chunks), false)
    decreases |chunks|
  {
    hide Serial, ChunkBytes, ChunkLog;
    if chunks == [] {
      SerialNothing(s, answer);
    } else {
      var n := |chunks| - 1;
      ChunksRead(s, chunks[..n], answer);
      var t := Serial(s, ChunksBytes(chunks[..n]), answer);
      ChunkRead(t, chunks[n], answer);
      SerialAppend(s, ChunksBytes(chunks[..n]), ChunkBytes(chunks[n]), answer);
    }
  }

  // ----- Status lines -----

  lemma StatusByte(p: Parser, log: seq<Event>, c: byte, rest: seq<byte>, answer: Answer, v: StatusState, q: Parser)
    requires p.errno.OK? && p.state == StatusLine(v) && !v.ResStatus? && StatusLineStep(p, v, c) == Stay(q)
    ensures Serial(Conn(p, log, false), [c] + rest, answer) == Serial(Conn(q, log, false), rest, answer)
  {
    hide StatusLineStep, Byte, Serial;
    Then(Conn(p, log, false), c, q, rest, answer);
  }

  lemma StatusName(p: Parser, log: seq<Event>, rest: seq<byte>, answer: Answer)
    requires p.errno.OK? && p.state == StatusLine(ResH)
    ensures Serial(Conn(p, log, false), [84] + ([84] + ([80] + ([47] + rest))), answer)
            == Serial(Conn(p.(state := StatusLine(ResFirstMajor)), log, false), rest, answer)
  {
    hide Serial;
    var r3 := [47] + rest;
    var r2 := [80] + r3;
    var r1 := [84] + r2;
    StatusByte(p, log, 84, r1, answer, ResH, p.(state := StatusLine(ResHT)));
    StatusByte(p.(state := StatusLine(ResHT)), log, 84, r2, answer, ResHT, p.(state := StatusLine(ResHTT)));
    StatusByte(p.(state := StatusLine(ResHTT)), log, 80, r3, answer, ResHTT, p.(state := StatusLine(ResHTTP)));
    StatusByte(p.(state := StatusLine(ResHTTP)), log, 47, rest, answer, ResHTTP, p.(state := StatusLine(ResFirstMajor)));
  }

  lemma StatusVersion(p: Parser, log: seq<Event>, major: nat, minor: nat, rest: seq<byte>, answer: Answer)
    requires p.errno.OK? && p.state == StatusLine(ResFirstMajor) && major <= 9 && minor <= 9
    ensures Serial(Conn(p, log, false), [48 + major] + ([46] + ([48 + minor] + ([SP] + rest))), answer)
            == Serial(Conn(WithVersion(p, major, minor).(state := StatusLine(ResFirstStatusCode)), log, false), rest, answer)
  {
    hide Serial;
    var r3 := [SP] + rest;
    var r2 := [48 + minor] + r3;
    var r1 := [46] + r2;
    var p1 := WithVersion(p, major, p.line.minor);
    var p2 := WithVersion(p, major, minor);
    StatusByte(p, log, 48 + major, r1, answer, ResFirstMajor, p1.(state := StatusLine(ResMajor)));
    StatusByte(p1.(state := StatusLine(ResMajor)), log, 46, r2, answer, ResMajor, p1.(state := StatusLine(ResFirstMinor)));
    StatusByte(p1.(state := StatusLine(ResFirstMinor)), log, 48 + minor, r3, answer, ResFirstMinor,
               p2.(state := StatusLine(ResMinor)));
    StatusByte(p2.(state := StatusLine(ResMinor)), log, SP, rest, answer, ResMinor,
               p2.(state := StatusLine(ResFirstStatusCode)));
  }

  function CodeBytes(code: nat): seq<byte>
    requires code <= 999
  {
    [48 + code / 100] + ([48 + code / 10 % 10] + ([48 + code % 10] + ([SP] + [])))
  }

  /** Three digits and the blank after them. */
  lemma CodeDigitsRead(p: Parser, log: seq<Event>, a: nat, b: nat, c: nat, answer: Answer)
    requires p.errno.OK? && p.state == StatusLine(ResFirstStatusCode) && a <= 9 && b <= 9 && c <= 9
    ensures Serial(Conn(p, log, false), [48 + a] + ([48 + b] + ([48 + c] + ([SP] + []))), answer)
            == Conn(WithStatus(p, 100 * a + 10 * b + c).(state := StatusLine(ResStatusStart)), log, false)
  {
    hide Serial;
    var r3: seq<byte> := [SP] + [];
    var r2 := [48 + c] + r3;
    var r1 := [48 + b] + r2;
    var p1 := WithStatus(p, a).(state := StatusLine(ResStatusCode));
    var p2 := WithStatus(p, 10 * a + b).(state := StatusLine(ResStatusCode));
    var p3 := WithStatus(p, 100 * a + 10 * b + c).(state := StatusLine(ResStatusCode));
    StatusByte(p, log, 48 + a, r1, answer, ResFirstStatusCode, p1);
    StatusByte(p1, log, 48 + b, r2, answer, ResStatusCode, p2);
    StatusByte(p2, log, 48 + c, r3, answer, ResStatusCode, p3);
    CodeEnds(p3, log, answer);
  }

  lemma CodeEnds(p: Parser, log: seq<Event>, answer: Answer)
    requires p.errno.OK? && p.state == StatusLine(ResStatusCode)
    ensures Serial(Conn(p, log, false), [SP] + [], answer) == Conn(p.(state := StatusLine(ResStatusStart)), log, false)
  {
    hide Serial;
    StatusByte(p, log, SP, [], answer, ResStatusCode, p.(state := StatusLine(ResStatusStart)));
    SerialNothing(Conn(p.(state := StatusLine(ResStatusStart)), log, false), answer);
  }

  lemma StatusCodeRead(s: Conn, code: nat, answer: Answer)
    requires Alive(s) && s.p.state == StatusLine(ResFirstStatusCode) && code <= 999
    ensures Serial(s, CodeBytes(code), answer)
            == Conn(WithStatus(s.p, code).(state := StatusLine(ResStatusStart)), s.log, false)
  {
    hide Serial, CodeBytes;
    var a, b, c := CodeDigits(code);
    CodeDigitsRead(s.p, s.log, a, b, c, answer);
  }

  lemma CodeDigits(code: nat) returns (a: nat, b: nat, c: nat)
    requires code <= 999
    ensures a <= 9 && b <= 9 && c <= 9 && 100 * a + 10 * b + c == code
    ensures CodeBytes(code) == [48 + a] + ([48 + b] + ([48 + c] + ([SP] + [])))
  {
    a, b, c := code / 100, code / 10 % 10, code % 10;
  }

  predicate IsReason(reason: seq<byte>) {
    forall i :: 0 <= i < |reason| ==> !IsLineEnd(reason[i])
  }

  lemma ReasonByte(s: Conn, c: byte, answer: Answer)
    requires Alive(s) && (s.p.state == StatusLine(ResStatusStart) || s.p.state == StatusLine(ResStatus)) && !IsLineEnd(c)
    ensures var t := Byte(s, c, answer);
            t == Conn(s.p.(state := StatusLine(ResStatus), index := t.p.index), Emit(s.log, STATUS, [c]), false)
  {
    hide Emit;
    HearShapes(s.log, MarkIn(s.p.state), if s.p.state == StatusLine(ResStatus) then [] else [SetMark(STATUS)], c);
  }

  lemma {:induction false} ReasonRead(s: Conn, reason: seq<byte>, answer: Answer)
    requires Alive(s) && s.p.state == StatusLine(ResStatusStart) && IsReason(reason) && reason != []
    ensures var t := Serial(s, reason, answer);
            t == Conn(s.p.(state := StatusLine(ResStatus), index := t.p.index), Emit(s.log, STATUS, reason), false)
    decreases |reason|
  {
    hide Byte, Emit;
    var n := |reason| - 1;
    if n == 0 {
      assert reason[..0] == [] && reason == [reason[0]];
      SerialOne(s, reason[0], answer);
      ReasonByte(s, reason[0], answer);
    } else {
      ReasonRead(s, reason[..n], answer);
      ReasonByte(Serial(s, reason[..n], answer), reason[n], answer);
      EmitAppend(s.log, STATUS, reason[..n], [reason[n]]);
      assert reason[..n] + [reason[n]] == reason;
    }
  }

  lemma StatusLineEnds(s: Conn, answer: Answer)
    requires Alive(s) && (s.p.state == StatusLine(ResStatusStart) || s.p.state == StatusLine(ResStatus))
    ensures Serial(s, CRLF, answer) == Conn(s.p.(state := Headers(HeaderFieldStart)), s.log, false)
  {
    hide Serial;
    var t := Conn(s.p.(state := StatusLine(ResLineAlmostDone)), s.log, false);
    assert Byte(s, CR, answer) == t by {
      HearShapes(s.log, MarkIn(s.p.state), if s.p.state == StatusLine(ResStatus) then [Flush(STATUS)] else [], CR);
    }
    assert CRLF == [CR] + ([LF] + []);
    SerialMore(s, CR, [LF] + [], answer);
    Then(t, LF, t.p.(state := Headers(HeaderFieldStart)), [], answer);
    SerialNothing(Conn(t.p.(state := Headers(HeaderFieldStart)), s.log, false), answer);
  }
}
