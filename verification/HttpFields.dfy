/** Header lines that steer the connection, or go on over several lines, written
    out and parsed again (app/http/HttpParser.cc). */
module HttpFields {
  import opened HttpTypes
  import opened HttpStep
  import opened HttpRun
  import opened HttpOrder
  import opened HttpSplit
  import opened HttpWords
  import opened HttpOptions
  import opened HttpRoundTrip

  /** A header that does not steer the parse, on one line or on several; a list of connection options; an Upgrade
      header. */
  datatype Field =
    | Other(header: Header)
    | Folded(header: Header, more: seq<seq<byte>>)
    | Connecting(name: seq<byte>, options: seq<Element>)
    | Upgrading(header: Header)

  /** A line that continues a value: it begins with a blank (section 4.2 of RFC 2616). */
  predicate IsMore(w: seq<byte>) {
    w != [] && IsBlank(w[0]) && forall i :: 0 <= i < |w| ==> !IsLineEnd(w[i]) && IsHeaderChar(w[i])
  }

  predicate FieldOk(f: Field) {
    match f
    case Other(h) => HeaderOk(h)
    case Folded(h, more) => HeaderOk(h) && forall i :: 0 <= i < |more| ==> IsMore(more[i])
    case Connecting(name, es) =>
      IsName(name) && (Equals(Lowered(name), CONNECTION) || Equals(Lowered(name), PROXY_CONNECTION)) && ListOk(es)
    case Upgrading(h) => IsName(h.name) && IsValue(h.value) && Equals(Lowered(h.name), UPGRADE)
  }

  function NameOf(f: Field): seq<byte> {
    if f.Connecting? then f.name else f.header.name
  }

  function MoreBytes(more: seq<seq<byte>>): seq<byte> {
    if more == [] then [] else MoreBytes(more[..|more| - 1]) + (more[|more| - 1] + CRLF)
  }

  function Joined(more: seq<seq<byte>>): seq<byte> {
    if more == [] then [] else Joined(more[..|more| - 1]) + more[|more| - 1]
  }

  /** What is written. */
  function FieldBytes(f: Field): seq<byte>
    requires FieldOk(f)
  {
    match f
    case Other(h) => Line(h.name, h.value)
    case Folded(h, more) => Line(h.name, h.value) + MoreBytes(more)
    case Connecting(name, es) => Line(name, ListBytes(es))
    case Upgrading(h) => Line(h.name, h.value)
  }

  /** What is heard of the value: its lines without their ends. */
  function ValueOf(f: Field): seq<byte>
    requires FieldOk(f)
  {
    match f
    case Other(h) => h.value
    case Folded(h, more) => h.value + Joined(more)
    case Connecting(_, es) => ListBytes(es)
    case Upgrading(h) => h.value
  }

  /** What it says of the connection. */
  function FieldFlags(f: Field): set<Flag>
    requires FieldOk(f)
  {
    match f
    case Connecting(_, es) => Heeded(es).0
    case Upgrading(_) => {F_UPGRADE}
    case _ => {}
  }

  // ----- One line -----

  /** Any byte of a value but that of a length. */
  lemma ValueGoesOn(s: Conn, c: byte, answer: Answer)
    requires Alive(s) && s.p.state == Headers(Value) && !s.p.headerState.ContentLength? && !IsLineEnd(c) && IsHeaderChar(c)
    ensures var t := Byte(s, c, answer);
            && t == Conn(s.p.(headerState := t.p.headerState, index := t.p.index, flags := t.p.flags), Emit(s.log, VALUE, [c]), false)
            && !t.p.headerState.ContentLength?
  {
    hide Emit, IsHeaderChar, ValueMatcher, ValueIndex, Settle;
    MatchesNoLength(s.p.headerState, s.p.index + 1, c);
    HearShapes(s.log, On(VALUE), [], c);
  }

  lemma ValueStarts(s: Conn, c: byte, answer: Answer)
    requires Alive(s) && s.p.state == Headers(ValueDiscardWs) && !IsBlank(c) && !IsLineEnd(c)
    requires s.p.headerState.Connection? || s.p.headerState.Upgrade?
    ensures var t := Byte(s, c, answer);
            && t == Conn(s.p.(state := Headers(Value), headerState := t.p.headerState, index := 0, flags := t.p.flags),
                         Emit(s.log, VALUE, [c]), false)
            && !t.p.headerState.ContentLength?
            && (s.p.headerState.Upgrade? ==> t.p.headerState.General? && t.p.flags == s.p.flags + {F_UPGRADE})
  {
    hide Emit, Lower;
    HearShapes(s.log, NoMark, [SetMark(VALUE)], c);
  }

  lemma {:induction false} ValueWhole(s: Conn, v: seq<byte>, answer: Answer)
    requires Alive(s) && s.p.state == Headers(ValueDiscardWs) && IsValue(v)
    requires s.p.headerState.Connection? || s.p.headerState.Upgrade?
    ensures var t := Serial(s, v, answer);
            && t == Conn(s.p.(state := Headers(Value), headerState := t.p.headerState, index := t.p.index, flags := t.p.flags),
                         Emit(s.log, VALUE, v), false)
            && !t.p.headerState.ContentLength?
    decreases |v|
  {
    hide Byte, Emit, IsHeaderChar;
    var n := |v| - 1;
    if n == 0 {
      assert v[..0] == [] && v == [v[0]];
      SerialOne(s, v[0], answer);
      ValueStarts(s, v[0], answer);
    } else {
      assert v[..n][0] == v[0];
      ValueWhole(s, v[..n], answer);
      ValueGoesOn(Serial(s, v[..n], answer), v[n], answer);
      EmitAppend(s.log, VALUE, v[..n], [v[n]]);
      assert v[..n] + [v[n]] == v;
    }
  }

  lemma {:induction false} UpgradeWhole(s: Conn, v: seq<byte>, answer: Answer)
    requires Alive(s) && s.p.state == Headers(ValueDiscardWs) && IsValue(v) && s.p.headerState.Upgrade?
    ensures var t := Serial(s, v, answer);
            t == Conn(s.p.(state := Headers(Value), headerState := General, index := t.p.index, flags := s.p.flags + {F_UPGRADE}),
                      Emit(s.log, VALUE, v), false)
    decreases |v|
  {
    hide Byte, Emit, IsHeaderChar;
    var n := |v| - 1;
    if n == 0 {
      assert v[..0] == [] && v == [v[0]];
      SerialOne(s, v[0], answer);
      ValueStarts(s, v[0], answer);
    } else {
      assert v[..n][0] == v[0];
      UpgradeWhole(s, v[..n], answer);
      PlainNext(Serial(s, v[..n], answer), v[n], answer);
      EmitAppend(s.log, VALUE, v[..n], [v[n]]);
      assert v[..n] + [v[n]] == v;
    }
  }

  lemma ListIsValue(es: seq<Element>)
    requires ListOk(es)
    ensures IsValue(ListBytes(es))
  {
    hide IsHeaderChar, TokenOf, Lower;
    ListValue(es);
    ListStarts(es);
    StartsNoBlank(es[0]);
  }

  lemma OptionsRead(s: Conn, name: seq<byte>, es: seq<Element>, answer: Answer)
    requires LineStart(s) && FieldOk(Connecting(name, es))
    ensures var t := Serial(s, Line(name, ListBytes(es)), answer);
            && LineStart(t) && Frame(t) == Frame(s).(flags := Frame(s).flags + Heeded(es).0)
            && t.log == LineLog(s.log, name, ListBytes(es))
  {
    var v := ListBytes(es);
    hide Serial, Byte, Emit, TokenOf, Expected, Equals, Lowered, SettleLine, ListOk, Heeded, ListBytes, IsValue;
    SettledAlive(s);
    var s0 := Settled(s);
    NameRead(s0, name, answer);
    var a := Serial(s0, name + COLON, answer);
    ExpectedWords(Lowered(name));
    ListIsValue(es);
    OptionsRecognised(a, es, answer);
    ValueWhole(a, v, answer);
    var b := Serial(a, v, answer);
    ValueEnd(b, answer);
    LineParts(s, name, v, a, b, answer);
    SettleOnly(b.p);
  }

  lemma SettleOnly(p: Parser)
    ensures SettleLine(p.(state := Headers(ValueLws))).flags == SettleLine(p).flags
    ensures SettleLine(p.(state := Headers(ValueLws)))
            == p.(state := Headers(ValueLws), flags := SettleLine(p).flags)
  {
  }

  lemma UpgradeRead(s: Conn, h: Header, answer: Answer)
    requires LineStart(s) && FieldOk(Upgrading(h))
    ensures var t := Serial(s, Line(h.name, h.value), answer);
            && LineStart(t) && Frame(t) == Frame(s).(flags := Frame(s).flags + {F_UPGRADE})
            && t.log == LineLog(s.log, h.name, h.value)
  {
    hide Serial, Byte, Emit, TokenOf, Expected, Equals, Lowered, SettleLine, IsValue;
    SettledAlive(s);
    var s0 := Settled(s);
    NameRead(s0, h.name, answer);
    var a := Serial(s0, h.name + COLON, answer);
    ExpectedWords(Lowered(h.name));
    UpgradeWhole(a, h.value, answer);
    var b := Serial(a, h.value, answer);
    ValueEnd(b, answer);
    LineParts(s, h.name, h.value, a, b, answer);
    SettledGeneral(Serial(s, Line(h.name, h.value), answer));
  }

  // ----- Values over several lines -----

  lemma MoreStarts(s: Conn, c: byte, answer: Answer)
    requires Alive(s) && s.p.state == Headers(ValueLws) && s.p.headerState.General? && IsBlank(c)
    ensures Byte(s, c, answer) == Conn(s.p.(state := Headers(Value), index := 0), Emit(s.log, VALUE, [c]), false)
  {
    hide Emit, Lower;
    HearShapes(s.log, NoMark, [SetMark(VALUE)], c);
  }

  lemma {:induction false} MoreFramed(s: Conn, w: seq<byte>, answer: Answer)
    requires Alive(s) && s.p.state == Headers(ValueLws) && s.p.headerState.General? && IsMore(w)
    ensures var t := Serial(s, w, answer);
            t == Conn(s.p.(state := Headers(Value), index := t.p.index), Emit(s.log, VALUE, w), false)
    decreases |w|
  {
    hide Byte, Emit, IsHeaderChar;
    var n := |w| - 1;
    if n == 0 {
      assert w[..0] == [] && w == [w[0]];
      SerialOne(s, w[0], answer);
      MoreStarts(s, w[0], answer);
    } else {
      assert w[..n][0] == w[0];
      MoreFramed(s, w[..n], answer);
      PlainNext(Serial(s, w[..n], answer), w[n], answer);
      EmitAppend(s.log, VALUE, w[..n], [w[n]]);
      assert w[..n] + [w[n]] == w;
    }
  }

  /** The lines after the first join the value, each with the blank it begins with. */
  lemma {:induction false} MoreRead(s: Conn, v: seq<byte>, log: seq<Event>, more: seq<seq<byte>>, answer: Answer)
    requires Alive(s) && s.p.state == Headers(ValueLws) && s.p.headerState.General? && s.log == Emit(log, VALUE, v)
    requires forall i :: 0 <= i < |more| ==> IsMore(more[i])
    ensures var t := Serial(s, MoreBytes(more), answer);
            t == Conn(s.p.(index := t.p.index), Emit(log, VALUE, v + Joined(more)), false)
    decreases |more|
  {
    hide Serial, Byte, Emit, IsMore;
    if more == [] {
      SerialNothing(s, answer);
      assert v + Joined(more) == v;
    } else {
      var n := |more| - 1;
      MoreRead(s, v, log, more[..n], answer);
      var t := Serial(s, MoreBytes(more[..n]), answer);
      MoreFramed(t, more[n], answer);
      var u := Serial(t, more[n], answer);
      ValueEnd(u, answer);
      SerialAppend(t, more[n], CRLF, answer);
      SerialAppend(s, MoreBytes(more[..n]), more[n] + CRLF, answer);
      EmitAppend(log, VALUE, v + Joined(more[..n]), more[n]);
      assert v + Joined(more[..n]) + more[n] == v + Joined(more);
    }
  }

  lemma FoldedRead(s: Conn, h: Header, more: seq<seq<byte>>, answer: Answer)
    requires LineStart(s) && FieldOk(Folded(h, more))
    ensures var t := Serial(s, Line(h.name, h.value) + MoreBytes(more), answer);
            LineStart(t) && Frame(t) == Frame(s) && t.log == LineLog(s.log, h.name, h.value + Joined(more))
  {
    hide Serial, Byte, Emit, SettleLine, HeaderOk, IsMore, Line;
    SettledAlive(s);
    HeaderRead(s, h, answer);
    var a := Serial(s, Line(h.name, h.value), answer);
    MoreRead(a, h.value, Emit(s.log, FIELD, h.name), more, answer);
    SerialAppend(s, Line(h.name, h.value), MoreBytes(more), answer);
    SettledGeneral(Serial(s, Line(h.name, h.value) + MoreBytes(more), answer));
  }

  // ----- All header lines -----

  lemma FieldRead(s: Conn, f: Field, answer: Answer)
    requires LineStart(s) && FieldOk(f)
    ensures var t := Serial(s, FieldBytes(f), answer);
            && LineStart(t) && Frame(t) == Frame(s).(flags := Frame(s).flags + FieldFlags(f))
            && t.log == LineLog(s.log, NameOf(f), ValueOf(f))
  {
    hide Serial, Emit, SettleLine, HeaderOk, IsMore, Line, IsValue, IsName, Equals, Heeded, ListBytes, ListOk, LineLog;
    match f {
      case Other(h) =>
        HeaderRead(s, h, answer);
        SettledAlive(s);
        SettledGeneral(Serial(s, Line(h.name, h.value), answer));
      case Folded(h, more) => FoldedRead(s, h, more, answer);
      case Connecting(name, es) => OptionsRead(s, name, es, answer);
      case Upgrading(h) => UpgradeRead(s, h, answer);
    }
  }

  predicate FieldsOk(fs: seq<Field>) {
    forall i :: 0 <= i < |fs| ==> FieldOk(fs[i])
  }

  function FieldsBytes(fs: seq<Field>): seq<byte>
    requires FieldsOk(fs)
  {
    if fs == [] then [] else FieldsBytes(fs[..|fs| - 1]) + FieldBytes(fs[|fs| - 1])
  }

  function FieldsFlags(fs: seq<Field>): set<Flag>
    requires FieldsOk(fs)
  {
    if fs == [] then {} else FieldsFlags(fs[..|fs| - 1]) + FieldFlags(fs[|fs| - 1])
  }

  /** What is heard of them. */
  function FieldsEvents(fs: seq<Field>): seq<Event>
    requires FieldsOk(fs)
  {
    if fs == [] then []
    else FieldsEvents(fs[..|fs| - 1]) + [Data(FIELD, NameOf(fs[|fs| - 1])), Data(VALUE, ValueOf(fs[|fs| - 1]))]
  }

  lemma LineLogEvents(log: seq<Event>, name: seq<byte>, value: seq<byte>)
    requires !LastIs(log, FIELD)
    ensures LineLog(log, name, value) == log + [Data(FIELD, name), Data(VALUE, value)]
    ensures !LastIs(log + [Data(FIELD, name), Data(VALUE, value)], FIELD)
  {
  }

  /** Any header lines come back, and the flags gain what the connection options and Upgrade headers say. */
  lemma {:induction false} FieldsRead(s: Conn, fs: seq<Field>, answer: Answer)
    requires LineStart(s) && FieldsOk(fs) && !LastIs(s.log, FIELD)
    ensures var t := Serial(s, FieldsBytes(fs), answer);
            && LineStart(t) && Frame(t) == Frame(s).(flags := Frame(s).flags + FieldsFlags(fs))
            && t.log == s.log + FieldsEvents(fs) && !LastIs(t.log, FIELD)
    decreases |fs|
  {
    hide Serial, LineLog, Settled, Frame, FieldBytes, FieldOk, LineStart, FieldFlags, ValueOf;
    if fs == [] {
      SerialNothing(s, answer);
      assert s.log + [] == s.log;
      assert Frame(s).flags + {} == Frame(s).flags;
    } else {
      var n := |fs| - 1;
      FieldsRead(s, fs[..n], answer);
      var t := Serial(s, FieldsBytes(fs[..n]), answer);
      FieldRead(t, fs[n], answer);
      SerialAppend(s, FieldsBytes(fs[..n]), FieldBytes(fs[n]), answer);
      LineLogEvents(t.log, NameOf(fs[n]), ValueOf(fs[n]));
      assert Frame(s).flags + FieldsFlags(fs[..n]) + FieldFlags(fs[n]) == Frame(s).flags + FieldsFlags(fs);
      assert s.log + FieldsEvents(fs[..n]) + [Data(FIELD, NameOf(fs[n])), Data(VALUE, ValueOf(fs[n]))]
             == s.log + FieldsEvents(fs);
    }
  }
}
