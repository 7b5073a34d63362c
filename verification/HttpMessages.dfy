/** Whole messages written out and parsed again: all their parts come back, and
    where the parser then stands follows from what is written: at the next
    message, at the end of the connection, in a body that lasts to the end of
    the stream, or out of HTTP (app/http/HttpParser.cc). */
module HttpMessages {
  import opened HttpTypes
  import opened HttpStep
  import opened HttpInvariant
  import opened HttpRun
  import opened HttpOrder
  import opened HttpSplit
  import opened HttpLength
  import opened HttpWords
  import opened HttpOptions
  import opened HttpRoundTrip
  import opened HttpFields
  import opened HttpTarget

  // ----- Messages -----

  /** The first line of a message: a method as it is written and its target, or a status code. */
  datatype Opener =
    | Request(meth: nat, word: seq<byte>, target: Target)
    | Response(code: nat, reason: seq<byte>)

  /** How a message tells the length of its body, with the header field name that says so, in any letter case. */
  datatype Payload =
    | Nothing
    | Sized(name: seq<byte>, bytes: seq<byte>)
    | Chunks(name: seq<byte>, coding: seq<byte>, chunks: seq<seq<byte>>, trailers: seq<Field>)

  datatype Message = Message(
    opener: Opener, major: nat, minor: nat, before: seq<Field>, payload: Payload, after: seq<Field>)

  predicate OpenerOk(o: Opener) {
    match o
    case Request(m, w, target) =>
      m < METHOD_COUNT && OneWord(w) && Equals(w, MethodName(m)) && TargetOk(target) && (target.front.Only? <==> m == CONNECT)
    case Response(code, reason) => code <= 999 && IsReason(reason)
  }

  /** Trailers do not steer the connection. */
  predicate TrailersOk(fs: seq<Field>) {
    FieldsOk(fs) && forall i :: 0 <= i < |fs| ==> fs[i].Other? || fs[i].Folded?
  }

  predicate PayloadOk(payload: Payload) {
    match payload
    case Nothing => true
    case Sized(name, b) => IsName(name) && Equals(Lowered(name), CONTENT_LENGTH) && |b| <= MAX_DECIMAL
    case Chunks(name, coding, chunks, trailers) =>
      IsName(name) && Equals(Lowered(name), TRANSFER_ENCODING) && IsValue(coding) && SaysChunked(coding) && ChunksOk(chunks)
      && TrailersOk(trailers)
  }

  predicate MessageOk(m: Message) {
    && OpenerOk(m.opener) && 1 <= m.major <= 9 && m.minor <= 9
    && FieldsOk(m.before) && FieldsOk(m.after) && PayloadOk(m.payload)
  }

  function KindOf(o: Opener): Kind {
    if o.Request? then REQUEST else RESPONSE
  }

  // What is written.

  function OpenerBytes(o: Opener, major: nat, minor: nat): seq<byte>
    requires OpenerOk(o) && 1 <= major <= 9 && minor <= 9
  {
    match o
    case Request(_, w, target) => (w + [SP]) + ((TargetBytes(target) + [SP]) + VersionBytes(major, minor))
    case Response(code, reason) => StatusBytes(major, minor) + (CodeBytes(code) + (reason + CRLF))
  }

  /** "HTTP/", a digit, a point, a digit and a blank. */
  function StatusBytes(major: nat, minor: nat): seq<byte>
    requires major <= 9 && minor <= 9
  {
    [72] + ([84] + ([84] + ([80] + ([47] + ([48 + major] + ([46] + ([48 + minor] + ([SP] + []))))))))
  }

  function FramingLine(payload: Payload): seq<byte> {
    match payload
    case Nothing => []
    case Sized(name, b) => Line(name, DigitsOf(|b|))
    case Chunks(name, coding, _, _) => Line(name, coding)
  }

  function PayloadBytes(payload: Payload): seq<byte>
    requires PayloadOk(payload)
  {
    match payload
    case Nothing => []
    case Sized(_, b) => b
    case Chunks(_, _, chunks, trailers) => ChunksBytes(chunks) + (HexOf(0) + CRLF + (FieldsBytes(trailers) + CRLF))
  }

  function HeaderBytes(m: Message): seq<byte>
    requires MessageOk(m)
  {
    FieldsBytes(m.before) + (FramingLine(m.payload) + FieldsBytes(m.after))
  }

  /** An answer other than to go on says that no body follows. */
  function BodyBytes(m: Message, answer: Answer): seq<byte>
    requires MessageOk(m)
  {
    if answer.Continue? then PayloadBytes(m.payload) else []
  }

  function Write(m: Message, answer: Answer): seq<byte>
    requires MessageOk(m)
  {
    OpenerBytes(m.opener, m.major, m.minor) + (HeaderBytes(m) + (CRLF + BodyBytes(m, answer)))
  }

  // What it means.

  /** What its headers say of the connection. */
  function Said(m: Message): set<Flag>
    requires MessageOk(m)
  {
    FieldsFlags(m.before) + FieldsFlags(m.after)
  }

  /** The message asks for another protocol: an Upgrade header and the connection option, or a CONNECT. */
  predicate Changes(m: Message)
    requires MessageOk(m)
  {
    (F_UPGRADE in Said(m) && F_CONNECTION_UPGRADE in Said(m)) || (m.opener.Request? && m.opener.meth == 5)
  }

  /** It ends with its headers: the application says so, or it leaves HTTP and has no body to read first. */
  predicate HeadOnly(m: Message, answer: Answer)
    requires MessageOk(m)
  {
    || !answer.Continue?
    || (Changes(m) && ((m.opener.Request? && m.opener.meth == 5)
                       || m.payload.Nothing? || (m.payload.Sized? && m.payload.bytes == [])))
  }

  /** A response without a length or chunks has a body up to the end of the stream, but for the statuses 1xx, 204 and
      304 (section 4.4 of RFC 2616). */
  predicate Lasting(m: Message, answer: Answer) {
    && answer.Continue? && m.opener.Response? && m.payload.Nothing?
    && !(100 <= m.opener.code <= 199 || m.opener.code == 204 || m.opener.code == 304)
  }

  /** Another message may follow: from version 1.1 on unless the connection is to be closed, before that only if it is
      to be kept, and never after a body without an end of its own. */
  predicate StaysOpen(m: Message, answer: Answer)
    requires MessageOk(m)
  {
    !Lasting(m, answer) && if m.minor > 0 then F_CONNECTION_CLOSE !in Said(m) else F_CONNECTION_KEEP_ALIVE in Said(m)
  }

  /** Where the parser stands after it. */
  function EndState(m: Message, answer: Answer): State
    requires MessageOk(m)
  {
    if Lasting(m, answer) && !Changes(m) then Body(BodyIdentityEof)
    else if StaysOpen(m, answer) then Home(KindOf(m.opener))
    else Start(Dead)
  }

  function Home(kind: Kind): State {
    Start(if kind.REQUEST? then StartReq else StartRes)
  }

  // What is heard.

  function OpenerEvents(o: Opener): seq<Event> {
    [Notice(MessageBegin)]
    + match o
      case Request(_, _, target) => [Data(URL, TargetBytes(target))]
      case Response(_, reason) => if reason == [] then [] else [Data(STATUS, reason)]
  }

  function LineEvents(name: seq<byte>, value: seq<byte>): seq<Event> {
    [Data(FIELD, name), Data(VALUE, value)]
  }

  function FramingEvents(payload: Payload): seq<Event> {
    match payload
    case Nothing => []
    case Sized(name, b) => LineEvents(name, DigitsOf(|b|))
    case Chunks(name, coding, _, _) => LineEvents(name, coding)
  }

  function ChunkEvents(chunks: seq<seq<byte>>): seq<Event> {
    if chunks == [] then []
    else
      var data := chunks[|chunks| - 1];
      ChunkEvents(chunks[..|chunks| - 1]) + [Notice(ChunkHeader(|data|)), Data(BODY, data), Notice(ChunkComplete)]
  }

  /** What the callback for the end of the headers can read. */
  function HeadNote(m: Message): Note
    requires MessageOk(m)
  {
    HeadersComplete(m.payload.Chunks?, if m.payload.Sized? then |m.payload.bytes| else ULLONG_MAX, Changes(m))
  }

  function BodyEvents(m: Message, answer: Answer): seq<Event>
    requires MessageOk(m)
  {
    if HeadOnly(m, answer) then [Notice(MessageComplete)]
    else match m.payload
      case Nothing => if Lasting(m, answer) then [] else [Notice(MessageComplete)]
      case Sized(_, b) => (if b == [] then [] else [Data(BODY, b)]) + [Notice(MessageComplete)]
      case Chunks(_, _, chunks, trailers) =>
        ChunkEvents(chunks) + [Notice(ChunkHeader(0))] + FieldsEvents(trailers)
        + [Notice(ChunkComplete), Notice(MessageComplete)]
  }

  function HeadEvents(m: Message): seq<Event>
    requires MessageOk(m)
  {
    OpenerEvents(m.opener) + (FieldsEvents(m.before) + FramingEvents(m.payload) + FieldsEvents(m.after))
  }

  function Events(m: Message, answer: Answer): seq<Event>
    requires MessageOk(m)
  {
    HeadEvents(m) + ([Notice(HeadNote(m))] + BodyEvents(m, answer))
  }

  // ----- The first line -----

  /** Between two messages. */
  predicate Ready(s: Conn, kind: Kind) {
    Alive(s) && !kind.BOTH? && s.p.line.kind == kind && s.p.state == Home(kind) && (kind.RESPONSE? ==> s.p.line.meth != CONNECT)
  }

  /** What the parser has of the first line. */
  predicate Has(line: FirstLine, m: Message) {
    && line.kind == KindOf(m.opener) && line.major == m.major && line.minor == m.minor
    && match m.opener
       case Request(meth, _, _) => line.meth == meth
       case Response(code, _) => line.statusCode == code && line.meth != CONNECT
  }

  lemma RequestRead(s: Conn, m: Message, answer: Answer)
    requires MessageOk(m) && m.opener.Request? && Ready(s, REQUEST)
    ensures var t := Serial(s, OpenerBytes(m.opener, m.major, m.minor), answer);
            && Alive(t) && t.p.state == Headers(HeaderFieldStart) && Has(t.p.line, m)
            && t.p.flags == {} && t.p.contentLength == ULLONG_MAX && t.log == s.log + OpenerEvents(m.opener)
  {
    hide Serial, Byte, VersionBytes, TargetBytes, TargetOk, OneWord, Equals, MethodName, FieldsOk, PayloadOk;
    var o := m.opener;
    var url := TargetBytes(o.target) + [SP];
    MethodRead(s, o.meth, o.word, answer);
    var a := Serial(s, o.word + [SP], answer);
    TargetRead(a, o.target, answer);
    var b := Serial(a, url, answer);
    VersionRead(b, m.major, m.minor, answer);
    SerialAppend(a, url, VersionBytes(m.major, m.minor), answer);
    SerialAppend(s, o.word + [SP], url + VersionBytes(m.major, m.minor), answer);
    EmitNew(a.log, URL, TargetBytes(o.target));
    assert s.log + [Notice(MessageBegin)] + [Data(URL, TargetBytes(o.target))] == s.log + OpenerEvents(o);
  }

  lemma ResponseBegins(s: Conn, answer: Answer)
    requires Ready(s, RESPONSE)
    ensures Byte(s, 72, answer) == Conn(Fresh(s.p).(state := StatusLine(ResH)), s.log + [Notice(MessageBegin)], false)
  {
    HearShapes(s.log, NoMark, [Notify(MessageBegin)], 72);
  }

  lemma StatusBegins(s: Conn, major: nat, minor: nat, answer: Answer)
    requires Ready(s, RESPONSE) && major <= 9 && minor <= 9
    ensures Serial(s, StatusBytes(major, minor), answer)
            == Conn(WithVersion(Fresh(s.p), major, minor).(state := StatusLine(ResFirstStatusCode)),
                    s.log + [Notice(MessageBegin)], false)
  {
    hide Serial, Byte;
    var log := s.log + [Notice(MessageBegin)];
    var p := Fresh(s.p).(state := StatusLine(ResH));
    var rest := [48 + major] + ([46] + ([48 + minor] + ([SP] + [])));
    ResponseBegins(s, answer);
    SerialMore(s, 72, [84] + ([84] + ([80] + ([47] + rest))), answer);
    StatusName(p, log, rest, answer);
    StatusVersion(p.(state := StatusLine(ResFirstMajor)), log, major, minor, [], answer);
    SerialNothing(Conn(WithVersion(p, major, minor).(state := StatusLine(ResFirstStatusCode)), log, false), answer);
  }

  lemma ReasonLineRead(s: Conn, reason: seq<byte>, answer: Answer)
    requires Alive(s) && s.p.state == StatusLine(ResStatusStart) && IsReason(reason) && !LastIs(s.log, STATUS)
    ensures var t := Serial(s, reason + CRLF, answer);
            t == Conn(s.p.(state := Headers(HeaderFieldStart), index := t.p.index),
                      s.log + if reason == [] then [] else [Data(STATUS, reason)], false)
  {
    hide Serial, Byte;
    if reason == [] {
      assert reason + CRLF == CRLF;
      StatusLineEnds(s, answer);
    } else {
      ReasonRead(s, reason, answer);
      StatusLineEnds(Serial(s, reason, answer), answer);
      SerialAppend(s, reason, CRLF, answer);
      EmitNew(s.log, STATUS, reason);
    }
  }

  lemma ResponseRead(s: Conn, m: Message, answer: Answer)
    requires MessageOk(m) && m.opener.Response? && Ready(s, RESPONSE)
    ensures var t := Serial(s, OpenerBytes(m.opener, m.major, m.minor), answer);
            && Alive(t) && t.p.state == Headers(HeaderFieldStart) && Has(t.p.line, m)
            && t.p.flags == {} && t.p.contentLength == ULLONG_MAX && t.log == s.log + OpenerEvents(m.opener)
  {
    hide Serial, Byte, StatusBytes, CodeBytes, FieldsOk, PayloadOk;
    var o := m.opener;
    StatusBegins(s, m.major, m.minor, answer);
    var a := Serial(s, StatusBytes(m.major, m.minor), answer);
    StatusCodeRead(a, o.code, answer);
    var b := Serial(a, CodeBytes(o.code), answer);
    ReasonLineRead(b, o.reason, answer);
    SerialAppend(a, CodeBytes(o.code), o.reason + CRLF, answer);
    SerialAppend(s, StatusBytes(m.major, m.minor), CodeBytes(o.code) + (o.reason + CRLF), answer);
  }

  lemma OpenerRead(s: Conn, m: Message, answer: Answer)
    requires MessageOk(m) && Ready(s, KindOf(m.opener))
    ensures var t := Serial(s, OpenerBytes(m.opener, m.major, m.minor), answer);
            && LineStart(t) && Settled(t) == t && Has(t.p.line, m)
            && t.p.flags == {} && t.p.contentLength == ULLONG_MAX
            && t.log == s.log + OpenerEvents(m.opener) && !LastIs(t.log, FIELD)
  {
    hide Serial, OpenerBytes, MessageOk, TargetBytes;
    if m.opener.Request? {
      RequestRead(s, m, answer);
    } else {
      ResponseRead(s, m, answer);
    }
  }

  // ----- The headers -----

  function FramingFlags(payload: Payload): set<Flag> {
    match payload case Nothing => {} case Sized(_, _) => {F_CONTENTLENGTH} case Chunks(_, _, _, _) => {F_CHUNKED}
  }

  function FramingLength(payload: Payload): nat {
    if payload.Sized? then |payload.bytes| else ULLONG_MAX
  }

  /** The flags that only the headers of a connection set. */
  const CONNECTION_FLAGS: set<Flag> := {F_CONNECTION_KEEP_ALIVE, F_CONNECTION_CLOSE, F_CONNECTION_UPGRADE, F_UPGRADE}

  lemma {:induction false} HeededFlags(es: seq<Element>)
    requires es != []
    ensures Heeded(es).0 <= CONNECTION_FLAGS
    decreases |es|
  {
    hide Says, BreaksOff;
    if |es| > 1 {
      HeededFlags(es[..|es| - 1]);
    }
  }

  lemma {:induction false} SaidFlags(fs: seq<Field>)
    requires FieldsOk(fs)
    ensures FieldsFlags(fs) <= CONNECTION_FLAGS
    ensures TrailersOk(fs) ==> FieldsFlags(fs) == {}
    decreases |fs|
  {
    hide FieldOk;
    if fs != [] {
      var n := |fs| - 1;
      SaidFlags(fs[..n]);
      OneSaid(fs[n]);
    }
  }

  lemma OneSaid(f: Field)
    requires FieldOk(f)
    ensures FieldFlags(f) <= CONNECTION_FLAGS && (f.Other? || f.Folded? ==> FieldFlags(f) == {})
  {
    hide Heeded;
    if f.Connecting? {
      HeededFlags(f.options);
    }
  }

  /** The line that tells the length, if there is one. */
  lemma FramingRead(s: Conn, payload: Payload, answer: Answer)
    requires LineStart(s) && PayloadOk(payload) && F_CONTENTLENGTH !in Frame(s).flags && Frame(s).contentLength == ULLONG_MAX
    requires !LastIs(s.log, FIELD)
    ensures var t := Serial(s, FramingLine(payload), answer);
            && LineStart(t) && t.log == s.log + FramingEvents(payload) && !LastIs(t.log, FIELD)
            && Frame(t) == Frame(s).(flags := Frame(s).flags + FramingFlags(payload), contentLength := FramingLength(payload))
  {
    hide Serial, Line, SettleLine, LineLog, DigitsOf, Lowered, TokenOf, IsHeaderChar, SaysChunked, Equals, TrailersOk;
    SettledAlive(s);
    match payload {
      case Nothing =>
        SerialNothing(s, answer);
        assert Frame(s).flags + {} == Frame(s).flags;
      case Sized(name, b) =>
        LengthRead(s, name, |b|, answer);
        SettledGeneral(Serial(s, Line(name, DigitsOf(|b|)), answer));
        LineLogEvents(s.log, name, DigitsOf(|b|));
      case Chunks(name, coding, _, _) =>
        CodingRead(s, name, coding, answer);
        SettledChunked(Serial(s, Line(name, coding), answer));
        LineLogEvents(s.log, name, coding);
    }
  }

  /** What the parser knows of a message at the end of its headers. */
  predicate Knows(p: Parser, m: Message)
    requires MessageOk(m)
  {
    Has(p.line, m) && p.flags == FramingFlags(m.payload) + Said(m) && p.contentLength == FramingLength(m.payload)
  }

  lemma HeadersRead(s: Conn, m: Message, answer: Answer)
    requires LineStart(s) && MessageOk(m) && Has(Frame(s).line, m) && Frame(s).flags == {} && Frame(s).contentLength == ULLONG_MAX
    requires !LastIs(s.log, FIELD)
    ensures var t := Serial(s, HeaderBytes(m), answer);
            && LineStart(t) && Knows(Settled(t).p, m)
            && t.log == s.log + (FieldsEvents(m.before) + FramingEvents(m.payload) + FieldsEvents(m.after))
  {
    hide Serial, Settled, LineStart, PayloadOk, FieldOk, OpenerOk, FieldsBytes, FramingLine, FramingEvents, FieldsFlags, FieldsEvents;
    FieldsRead(s, m.before, answer);
    SaidFlags(m.before);
    var a := Serial(s, FieldsBytes(m.before), answer);
    FramingRead(a, m.payload, answer);
    var b := Serial(a, FramingLine(m.payload), answer);
    FieldsRead(b, m.after, answer);
    SerialAppend(a, FramingLine(m.payload), FieldsBytes(m.after), answer);
    SerialAppend(s, FieldsBytes(m.before), FramingLine(m.payload) + FieldsBytes(m.after), answer);
    assert s.log + FieldsEvents(m.before) + FramingEvents(m.payload) + FieldsEvents(m.after)
           == s.log + (FieldsEvents(m.before) + FramingEvents(m.payload) + FieldsEvents(m.after));
    assert {} + FieldsFlags(m.before) + FramingFlags(m.payload) + FieldsFlags(m.after) == FramingFlags(m.payload) + Said(m);
  }

  /** The parser after the first line and the headers. */
  lemma HeadRead(s: Conn, m: Message, answer: Answer) returns (t: Conn)
    requires MessageOk(m) && Ready(s, KindOf(m.opener))
    ensures t == Serial(s, OpenerBytes(m.opener, m.major, m.minor) + HeaderBytes(m), answer)
    ensures LineStart(t) && Knows(Settled(t).p, m) && t.log == s.log + HeadEvents(m)
  {
    hide Serial, OpenerBytes, OpenerEvents, HeaderBytes, OpenerOk, FieldsOk, PayloadOk, FieldsEvents, FramingEvents, Knows;
    OpenerRead(s, m, answer);
    var a := Serial(s, OpenerBytes(m.opener, m.major, m.minor), answer);
    HeadersRead(a, m, answer);
    t := Serial(a, HeaderBytes(m), answer);
    SerialAppend(s, OpenerBytes(m.opener, m.major, m.minor), HeaderBytes(m), answer);
    assert s.log + OpenerEvents(m.opener) + (FieldsEvents(m.before) + FramingEvents(m.payload) + FieldsEvents(m.after))
           == s.log + HeadEvents(m);
  }

  // ----- The blank line -----

  /** Where a message that ends leaves the parser. */
  lemma NewMessageIs(p: Parser, m: Message, answer: Answer)
    requires MessageOk(m) && Has(p.line, m) && (answer.Continue? <==> F_SKIPBODY !in p.flags)
    requires p.flags - {F_TRAILING, F_SKIPBODY} == FramingFlags(m.payload) + Said(m)
    requires m.payload.Nothing? <==> F_CHUNKED !in p.flags && p.contentLength == ULLONG_MAX
    ensures NewMessage(p) == if StaysOpen(m, answer) then Home(KindOf(m.opener)) else Start(Dead)
  {
    hide FieldsFlags, OpenerOk, PayloadOk, FieldsOk;
    var known := p.flags - {F_TRAILING, F_SKIPBODY};
    assert F_CONNECTION_CLOSE in p.flags <==> F_CONNECTION_CLOSE in known;
    assert F_CONNECTION_KEEP_ALIVE in p.flags <==> F_CONNECTION_KEEP_ALIVE in known;
  }

  /** What the flags say once the headers have ended. */
  lemma FlagsSay(f: set<Flag>, m: Message)
    requires MessageOk(m) && f == FramingFlags(m.payload) + Said(m)
    ensures F_TRAILING !in f && F_SKIPBODY !in f && (F_CHUNKED in f <==> m.payload.Chunks?)
    ensures F_CONTENTLENGTH in f <==> m.payload.Sized?
    ensures (F_UPGRADE in f <==> F_UPGRADE in Said(m)) && (F_CONNECTION_UPGRADE in f <==> F_CONNECTION_UPGRADE in Said(m))
  {
    hide FieldsFlags, OpenerOk, PayloadOk, FieldOk;
    SaidFlags(m.before);
    SaidFlags(m.after);
  }

  /** The message ends with its blank line. */
  predicate Finishes(m: Message, answer: Answer)
    requires MessageOk(m)
  {
    HeadOnly(m, answer) || (m.payload.Nothing? && !Lasting(m, answer)) || (m.payload.Sized? && m.payload.bytes == [])
  }

  /** Where the blank line leads. */
  function BlankState(m: Message, answer: Answer): State
    requires MessageOk(m)
  {
    if Finishes(m, answer) then if StaysOpen(m, answer) then Home(KindOf(m.opener)) else Start(Dead)
    else if m.payload.Chunks? then ChunkHead(ChunkSizeStart)
    else if m.payload.Sized? then Body(BodyIdentity)
    else Body(BodyIdentityEof)
  }

  /** What follows the notification of the headers. */
  function BlankActs(m: Message, answer: Answer): seq<Action>
    requires MessageOk(m)
  {
    if Finishes(m, answer) then [Recount, Notify(MessageComplete)] else [Recount]
  }

  /** The step that decides how the message goes on, `p` being the parser with the answer of the application. */
  lemma DoneStep(p: Parser, m: Message, answer: Answer)
    requires MessageOk(m) && p.state.HeadersDone? && Has(p.line, m) && p.contentLength == FramingLength(m.payload)
    requires p.flags == FramingFlags(m.payload) + Said(m) + Skipped(answer)
    requires p.upgrade <==> Changes(m) || answer.NoBodyUpgrade?
    ensures HeadersDoneStep(p, LF)
            == Out(p.(state := BlankState(m, answer)), BlankActs(m, answer), Finishes(m, answer) && p.upgrade)
  {
    FlagsSay(FramingFlags(m.payload) + Said(m), m);
    SizedIsSmall(m.payload);
    assert p.flags - {F_TRAILING, F_SKIPBODY} == FramingFlags(m.payload) + Said(m);
    NewMessageIs(p, m, answer);
    hide FieldsFlags, OpenerOk, FieldsOk, PayloadOk, NewMessage, Said, StaysOpen, FramingFlags;
    assert [Recount] + [Notify(MessageComplete)] == [Recount, Notify(MessageComplete)];
    assert [Recount] + [] == [Recount];
  }

  /** The flag for an answer that says that no body follows. */
  function Skipped(answer: Answer): set<Flag> {
    if answer.Continue? then {} else {F_SKIPBODY}
  }

  /** What the line feed of the blank line does. */
  lemma BlankStep(p: Parser, m: Message, answer: Answer)
    requires MessageOk(m) && p.state.HeadersAlmostDone? && Knows(p, m)
    ensures var q := p.(upgrade := Changes(m) || answer.NoBodyUpgrade?, flags := p.flags + Skipped(answer));
            HeadersAlmostDoneStep(p, LF, answer)
            == Out(q.(state := BlankState(m, answer)), [Notify(HeadNote(m))] + BlankActs(m, answer),
                   Finishes(m, answer) && q.upgrade)
  {
    FlagsSay(p.flags, m);
    ChangesIs(p, m);
    hide FieldsFlags, OpenerOk, FieldsOk, PayloadOk, Said, FramingFlags, HeadersDoneStep, Changes, BlankState, BlankActs, Finishes;
    var q := p.(state := HeadersDone, upgrade := Changes(m));
    var a := Answered(q, answer);
    assert p.flags + {} == p.flags;
    DoneStep(a, m, answer);
    assert HeadersAlmostDoneStep(p, LF, answer) == After([Notify(HeadNote(m))], HeadersDoneStep(a, LF));
  }

  lemma ChangesIs(p: Parser, m: Message)
    requires MessageOk(m) && Knows(p, m)
    ensures Changes(m) <==> {F_UPGRADE, F_CONNECTION_UPGRADE} <= p.flags || p.line.meth == CONNECT
  {
    FlagsSay(p.flags, m);
    hide FieldsFlags, OpenerOk, FieldsOk, PayloadOk, Said, FramingFlags;
  }

  lemma SizedIsSmall(payload: Payload)
    requires PayloadOk(payload)
    ensures payload.Sized? ==> |payload.bytes| < ULLONG_MAX
  {
  }

  /** The parser leaves HTTP after the message. */
  predicate Leaves(m: Message, answer: Answer)
    requires MessageOk(m)
  {
    Changes(m) || answer.NoBodyUpgrade?
  }

  /** The blank line. */
  lemma BlankRead(s: Conn, m: Message, answer: Answer)
    requires MessageOk(m) && LineStart(s) && Knows(Settled(s).p, m)
    ensures var p := Settled(s).p;
            Serial(s, CRLF, answer)
            == Conn(p.(upgrade := Leaves(m, answer), flags := p.flags + Skipped(answer), state := BlankState(m, answer)),
                    s.log + [Notice(HeadNote(m))] + if Finishes(m, answer) then [Notice(MessageComplete)] else [],
                    Finishes(m, answer) && Leaves(m, answer))
  {
    hide Serial, Settled, Hear, HeadersAlmostDoneStep, MessageOk, Knows, BlankState, Finishes, Changes, HeadNote;
    BlankLine(s, answer);
    SettledAlive(s);
    var p := Settled(s).p.(state := HeadersAlmostDone);
    KnowsSame(Settled(s).p, p, m);
    BlankStep(p, m, answer);
    HearThree(s.log, HeadNote(m), MessageComplete, LF);
    assert [Notify(HeadNote(m))] + [Recount, Notify(MessageComplete)] == [Notify(HeadNote(m)), Recount, Notify(MessageComplete)];
    assert [Notify(HeadNote(m))] + [Recount] == [Notify(HeadNote(m)), Recount];
    assert s.log + [Notice(HeadNote(m)), Notice(MessageComplete)] == s.log + [Notice(HeadNote(m))] + [Notice(MessageComplete)];
    assert s.log + [Notice(HeadNote(m))] + [] == s.log + [Notice(HeadNote(m))];
  }

  lemma KnowsSame(p: Parser, q: Parser, m: Message)
    requires MessageOk(m) && Knows(p, m) && q == p.(state := q.state)
    ensures Knows(q, m)
  {
  }

  // ----- Bodies -----

  /** A parser in the body of a message. */
  predicate Within(p: Parser, m: Message)
    requires MessageOk(m)
  {
    Has(p.line, m) && p.flags == FramingFlags(m.payload) + Said(m) && (p.upgrade <==> Changes(m))
  }

  lemma LastBodyByte(s: Conn, c: byte, m: Message)
    requires MessageOk(m) && Alive(s) && s.p.state == Body(BodyIdentity) && s.p.contentLength == 1 && Within(s.p, m)
    requires m.payload.Sized?
    ensures Byte(s, c, Continue) ==
            Conn(s.p.(contentLength := 0, state := EndState(m, Continue)), Emit(s.log, BODY, [c]) + [Notice(MessageComplete)],
                 Changes(m))
  {
    hide Emit, Heard, Said;
    var q := s.p.(contentLength := 0, state := Body(MessageDone));
    FlagsSay(s.p.flags, m);
    assert q.flags - {F_TRAILING, F_SKIPBODY} == FramingFlags(m.payload) + Said(m);
    NewMessageIs(q, m, Continue);
    hide NewMessage, MessageOk, FramingFlags, Changes, StaysOpen, Has;
    var acts := [SetMark(BODY), FlushThrough(BODY)] + [Notify(MessageComplete)];
    assert acts == [SetMark(BODY)] + [FlushThrough(BODY), Notify(MessageComplete)];
    HeardMore(s.log, NoMark, SetMark(BODY), [FlushThrough(BODY), Notify(MessageComplete)], c);
    HeardTwo(Emit(s.log, BODY, []), On(BODY), FlushThrough(BODY), Notify(MessageComplete), c);
    EmitAppend(s.log, BODY, [], [c]);
    assert [] + [c] == [c];
  }

  /** A body of known length. */
  lemma BodyRead(s: Conn, b: seq<byte>, m: Message)
    requires MessageOk(m) && Alive(s) && s.p.state == Body(BodyIdentity) && s.p.contentLength == |b| > 0 && Within(s.p, m)
    requires m.payload.Sized?
    ensures Serial(s, b, Continue) ==
            Conn(s.p.(contentLength := 0, state := EndState(m, Continue)), Emit(s.log, BODY, b) + [Notice(MessageComplete)],
                 Changes(m))
  {
    hide Byte, Emit, Serial, MessageOk, EndState, Changes, Has, FramingFlags, Said;
    var n := |b| - 1;
    assert b == b[..n] + [b[n]];
    if n == 0 {
      assert b == [b[0]];
      SerialOne(s, b[0], Continue);
      LastBodyByte(s, b[0], m);
    } else {
      BytesRead(s, b[..n], Continue);
      var t := Serial(s, b[..n], Continue);
      LastBodyByte(t, b[n], m);
      SerialAppend(s, b[..n], [b[n]], Continue);
      SerialOne(t, b[n], Continue);
      EmitAppend(s.log, BODY, b[..n], [b[n]]);
    }
  }

  lemma TrailerEnds(p: Parser, m: Message)
    requires MessageOk(m) && m.payload.Chunks? && p.state.HeadersAlmostDone? && Has(p.line, m) && (p.upgrade <==> Changes(m))
    requires p.flags == FramingFlags(m.payload) + Said(m) + {F_TRAILING}
    ensures HeadersAlmostDoneStep(p, LF, Continue) ==
            Out(p.(state := EndState(m, Continue)), [Notify(ChunkComplete), Notify(MessageComplete)], Changes(m))
  {
    hide Said;
    FlagsSay(FramingFlags(m.payload) + Said(m), m);
    var q := p.(state := Body(MessageDone));
    assert q.flags - {F_TRAILING, F_SKIPBODY} == FramingFlags(m.payload) + Said(m);
    NewMessageIs(q, m, Continue);
    hide NewMessage, MessageOk, FramingFlags, Changes, StaysOpen, Has;
    assert [Notify(ChunkComplete)] + [Notify(MessageComplete)] == [Notify(ChunkComplete), Notify(MessageComplete)];
  }

  /** The last chunk, which is empty, the trailers, and the end of the message. */
  lemma LastChunkRead(s: Conn, m: Message, trailers: seq<Field>)
    requires MessageOk(m) && m.payload.Chunks? && AtSize(s) && Within(s.p, m) && TrailersOk(trailers)
    ensures var t := Serial(s, HexOf(0) + CRLF + (FieldsBytes(trailers) + CRLF), Continue);
            && t.p.errno.OK? && t.exit == Changes(m) && t.p.state == EndState(m, Continue) && t.p.line == s.p.line
            && t.log == s.log + [Notice(ChunkHeader(0))] + FieldsEvents(trailers) + [Notice(ChunkComplete), Notice(MessageComplete)]
  {
    hide Serial, HexOf, Hear, MessageOk, FieldsBytes, FieldsEvents, EndState, Changes, FramingFlags, Said, Has, FieldsFlags,
      HeadersAlmostDoneStep, FieldOk;
    var head := HexOf(0) + CRLF;
    SizeRead(s, 0, Continue);
    var t := Serial(s, head, Continue);
    SerialAppend(s, head, FieldsBytes(trailers) + CRLF, Continue);
    FieldsRead(t, trailers, Continue);
    SaidFlags(trailers);
    var u := Serial(t, FieldsBytes(trailers), Continue);
    SerialAppend(t, FieldsBytes(trailers), CRLF, Continue);
    BlankLine(u, Continue);
    SettledAlive(u);
    assert Frame(t).flags + {} == Frame(t).flags;
    var p := Settled(u).p.(state := HeadersAlmostDone);
    TrailerEnds(p, m);
    HearThree(u.log, ChunkComplete, MessageComplete, LF);
  }

  /** What a message that ends with its blank line still has to be read: nothing, unless the parser has left. */
  lemma NothingLeft(m: Message, answer: Answer)
    requires MessageOk(m) && Finishes(m, answer) && !Leaves(m, answer)
    ensures BodyBytes(m, answer) == []
  {
    hide FieldsFlags, OpenerOk, FieldsOk, Said;
  }

  /** Where the parser is after a message. */
  predicate Past(t: Conn, m: Message, answer: Answer)
    requires MessageOk(m)
  {
    t.p.errno.OK? && t.exit == Leaves(m, answer) && Has(t.p.line, m) && t.p.state == EndState(m, answer)
  }

  lemma FinishedRead(s: Conn, a: Conn, m: Message, answer: Answer)
    requires MessageOk(m) && Finishes(m, answer) && Has(a.p.line, m) && a.p.errno.OK?
    requires a.p.state == BlankState(m, answer) && a.exit == Leaves(m, answer)
    requires a.log == s.log + [Notice(HeadNote(m))] + [Notice(MessageComplete)]
    ensures var t := Serial(a, BodyBytes(m, answer), answer);
            Past(t, m, answer) && t.log == s.log + ([Notice(HeadNote(m))] + BodyEvents(m, answer))
  {
    hide Serial, OpenerOk, FieldsOk, PayloadOk, Said, FieldsEvents, PayloadBytes;
    if Leaves(m, answer) {
      SerialDead(a, BodyBytes(m, answer), answer);
    } else {
      NothingLeft(m, answer);
      SerialNothing(a, answer);
    }
  }

  lemma SizedRead(s: Conn, a: Conn, m: Message)
    requires MessageOk(m) && m.payload.Sized? && m.payload.bytes != [] && !HeadOnly(m, Continue)
    requires Alive(a) && a.p.state == Body(BodyIdentity) && a.p.contentLength == |m.payload.bytes| && Within(a.p, m)
    requires a.log == s.log + [Notice(HeadNote(m))]
    ensures var t := Serial(a, BodyBytes(m, Continue), Continue);
            Past(t, m, Continue) && t.log == s.log + ([Notice(HeadNote(m))] + BodyEvents(m, Continue))
  {
    hide Serial, Emit, OpenerOk, FieldsOk, Said, FramingFlags, EndState;
    BodyRead(a, m.payload.bytes, m);
    EmitNew(a.log, BODY, m.payload.bytes);
    assert a.log + [Data(BODY, m.payload.bytes)] + [Notice(MessageComplete)]
           == s.log + ([Notice(HeadNote(m))] + BodyEvents(m, Continue));
  }

  lemma {:induction false} ChunksLogNew(log: seq<Event>, chunks: seq<seq<byte>>)
    ensures ChunksLog(log, chunks) == log + ChunkEvents(chunks)
    decreases |chunks|
  {
    if chunks != [] {
      var n := |chunks| - 1;
      ChunksLogNew(log, chunks[..n]);
      var before := log + ChunkEvents(chunks[..n]);
      var head := before + [Notice(ChunkHeader(|chunks[n]|))];
      EmitNew(head, BODY, chunks[n]);
      assert ChunksLog(log, chunks) == head + [Data(BODY, chunks[n])] + [Notice(ChunkComplete)];
      assert log + ChunkEvents(chunks) == ChunksLog(log, chunks);
    }
  }

  lemma ChunkedRead(s: Conn, a: Conn, m: Message)
    requires MessageOk(m) && m.payload.Chunks? && !HeadOnly(m, Continue)
    requires AtSize(a) && Within(a.p, m) && a.log == s.log + [Notice(HeadNote(m))]
    ensures var t := Serial(a, BodyBytes(m, Continue), Continue);
            Past(t, m, Continue) && t.log == s.log + ([Notice(HeadNote(m))] + BodyEvents(m, Continue))
  {
    hide Serial, Emit, OpenerOk, Said, FramingFlags, EndState, ChunksBytes, ChunkLog, ChunksLog, HexOf, Lowered, TokenOf,
      Equals, SaysChunked, IsHeaderChar, ChunkEvents, FieldsEvents, FieldsBytes, Changes, Has, FieldOk;
    var chunks, trailers := m.payload.chunks, m.payload.trailers;
    ChunksRead(a, chunks, Continue);
    ChunksLogNew(a.log, chunks);
    var b := Serial(a, ChunksBytes(chunks), Continue);
    assert TrailersOk(trailers);
    LastChunkRead(b, m, trailers);
    SerialAppend(a, ChunksBytes(chunks), HexOf(0) + CRLF + (FieldsBytes(trailers) + CRLF), Continue);
    assert a.log + ChunkEvents(chunks) + [Notice(ChunkHeader(0))] + FieldsEvents(trailers)
           + [Notice(ChunkComplete), Notice(MessageComplete)]
           == s.log + ([Notice(HeadNote(m))] + BodyEvents(m, Continue));
  }

  /** The blank line and the body. */
  lemma PayloadRead(s: Conn, m: Message, answer: Answer)
    requires MessageOk(m) && LineStart(s) && Knows(Settled(s).p, m)
    ensures var t := Serial(s, CRLF + BodyBytes(m, answer), answer);
            Past(t, m, answer) && t.log == s.log + ([Notice(HeadNote(m))] + BodyEvents(m, answer))
  {
    hide Serial, Settled, OpenerOk, FieldsOk, PayloadOk, Said, FieldsEvents, PayloadBytes, ChunkEvents, HeadNote, FramingFlags,
      Changes;
    SettledAlive(s);
    BlankRead(s, m, answer);
    var a := Serial(s, CRLF, answer);
    SerialAppend(s, CRLF, BodyBytes(m, answer), answer);
    if Finishes(m, answer) {
      FinishedRead(s, a, m, answer);
    } else {
      assert s.log + [Notice(HeadNote(m))] + [] == s.log + [Notice(HeadNote(m))];
      assert Settled(s).p.flags + {} == Settled(s).p.flags;
      if m.payload.Sized? {
        SizedRead(s, a, m);
      } else if m.payload.Chunks? {
        ChunkedRead(s, a, m);
      } else {
        NothingFollows(m);
        SerialNothing(a, answer);
        assert [Notice(HeadNote(m))] + [] == [Notice(HeadNote(m))];
      }
    }
  }

  lemma NothingFollows(m: Message)
    requires MessageOk(m) && m.payload.Nothing?
    ensures BodyBytes(m, Continue) == []
  {
  }

  /** Whatever a message says, it comes back in all its parts, and the parser goes where the message says: out of HTTP,
      to the next message, to the end of the connection, or into a body that lasts to the end of the stream. */
  lemma MessageRoundTrip(s: Conn, m: Message, answer: Answer)
    requires MessageOk(m) && Ready(s, KindOf(m.opener))
    ensures var t := Serial(s, Write(m, answer), answer);
            Past(t, m, answer) && t.log == s.log + Events(m, answer)
  {
    hide Serial, OpenerOk, OpenerBytes, HeaderBytes, BodyBytes, PayloadOk, FieldsOk, HeadEvents, BodyEvents, HeadNote, Past, Knows;
    var head, body := OpenerBytes(m.opener, m.major, m.minor) + HeaderBytes(m), CRLF + BodyBytes(m, answer);
    var t := HeadRead(s, m, answer);
    PayloadRead(t, m, answer);
    SerialAppend(s, head, body, answer);
    assert Write(m, answer) == head + body;
    assert s.log + HeadEvents(m) + ([Notice(HeadNote(m))] + BodyEvents(m, answer)) == s.log + Events(m, answer);
  }

  // ----- Bodies that last to the end of the stream -----

  lemma TailByte(s: Conn, c: byte, answer: Answer)
    requires Alive(s) && s.p.state == Body(BodyIdentityEof)
    ensures Byte(s, c, answer) == Conn(s.p, Emit(s.log, BODY, [c]), false)
  {
    hide Emit;
    HearShapes(s.log, NoMark, [SetMark(BODY)], c);
  }

  /** Every later byte is a byte of the body. */
  lemma {:induction false} TailRead(s: Conn, b: seq<byte>, answer: Answer)
    requires Alive(s) && s.p.state == Body(BodyIdentityEof) && b != []
    ensures Serial(s, b, answer) == Conn(s.p, Emit(s.log, BODY, b), false)
    decreases |b|
  {
    hide Byte, Emit;
    var n := |b| - 1;
    if n == 0 {
      assert b[..0] == [] && b == [b[0]];
      SerialOne(s, b[0], answer);
      TailByte(s, b[0], answer);
    } else {
      TailRead(s, b[..n], answer);
      TailByte(Serial(s, b[..n], answer), b[n], answer);
      EmitAppend(s.log, BODY, b[..n], [b[n]]);
      assert b[..n] + [b[n]] == b;
    }
  }

  /** A response that tells no length lasts to the end of the stream, exactly unless its status is 1xx, 204 or 304: then
      all that comes is its body, and the end of the stream completes it. */
  lemma LastsToTheEnd(s: Conn, m: Message, b: seq<byte>, nread: nat)
    requires MessageOk(m) && Ready(s, RESPONSE) && m.opener.Response? && m.payload.Nothing? && !Changes(m)
    ensures var t := Serial(s, Write(m, Continue) + b, Continue);
            var code := m.opener.code;
            var headers := s.log + HeadEvents(m) + [Notice(HeadersComplete(false, ULLONG_MAX, false))];
            if code / 100 == 1 || code == 204 || code == 304 then
              Serial(s, Write(m, Continue), Continue).log == headers + [Notice(MessageComplete)]
            else
              && Alive(t) && t.p.state == Body(BodyIdentityEof)
              && t.log == headers + (if b == [] then [] else [Data(BODY, b)])
              && Execute(t.p, nread, t.log, [], Continue).p == t.p
              && Execute(t.p, nread, t.log, [], Continue).log == t.log + [Notice(MessageComplete)]
  {
    hide Serial, Write, OpenerOk, PayloadOk, FieldsOk, HeadEvents, Said;
    MessageRoundTrip(s, m, Continue);
    var a := Serial(s, Write(m, Continue), Continue);
    SerialAppend(s, Write(m, Continue), b, Continue);
    if Lasting(m, Continue) {
      if b == [] {
        SerialNothing(a, Continue);
      } else {
        TailRead(a, b, Continue);
        EmitNew(a.log, BODY, b);
      }
    }
  }

  /** After a message that leaves HTTP nothing more is read. */
  lemma LeavesTheRest(s: Conn, m: Message, rest: seq<byte>, answer: Answer)
    requires MessageOk(m) && Ready(s, KindOf(m.opener)) && Leaves(m, answer)
    ensures Serial(s, Write(m, answer) + rest, answer) == Serial(s, Write(m, answer), answer)
  {
    hide Serial, Write, OpenerOk, PayloadOk, FieldsOk, Events, Leaves, Has;
    MessageRoundTrip(s, m, answer);
    SerialAppend(s, Write(m, answer), rest, answer);
    SerialDead(Serial(s, Write(m, answer), answer), rest, answer);
  }

  // ----- Messages one after the other -----

  /** Another message can follow. */
  predicate GoesOn(m: Message, answer: Answer)
    requires MessageOk(m)
  {
    !Leaves(m, answer) && StaysOpen(m, answer)
  }

  lemma ReadyAgain(t: Conn, m: Message, answer: Answer)
    requires MessageOk(m) && Past(t, m, answer) && GoesOn(m, answer)
    ensures Ready(t, KindOf(m.opener))
  {
    hide OpenerOk, PayloadOk, FieldsOk, Said, Changes;
  }

  predicate MessagesOk(ms: seq<Message>, kind: Kind, answer: Answer) {
    forall i :: 0 <= i < |ms| ==> MessageOk(ms[i]) && KindOf(ms[i].opener) == kind && GoesOn(ms[i], answer)
  }

  function WriteAll(ms: seq<Message>, kind: Kind, answer: Answer): seq<byte>
    requires MessagesOk(ms, kind, answer)
  {
    if ms == [] then [] else WriteAll(ms[..|ms| - 1], kind, answer) + Write(ms[|ms| - 1], answer)
  }

  function AllEvents(ms: seq<Message>, kind: Kind, answer: Answer): seq<Event>
    requires MessagesOk(ms, kind, answer)
  {
    if ms == [] then [] else AllEvents(ms[..|ms| - 1], kind, answer) + Events(ms[|ms| - 1], answer)
  }

  lemma {:induction false} PipelineRoundTrip(s: Conn, ms: seq<Message>, kind: Kind, answer: Answer)
    requires MessagesOk(ms, kind, answer) && Ready(s, kind)
    ensures var t := Serial(s, WriteAll(ms, kind, answer), answer);
            Ready(t, kind) && t.log == s.log + AllEvents(ms, kind, answer)
    decreases |ms|
  {
    hide Serial, Write, Events, MessageOk, Ready, Past, GoesOn;
    if ms == [] {
      SerialNothing(s, answer);
    } else {
      var n := |ms| - 1;
      PipelineRoundTrip(s, ms[..n], kind, answer);
      var t := Serial(s, WriteAll(ms[..n], kind, answer), answer);
      MessageRoundTrip(t, ms[n], answer);
      ReadyAgain(Serial(t, Write(ms[n], answer), answer), ms[n], answer);
      SerialAppend(s, WriteAll(ms[..n], kind, answer), Write(ms[n], answer), answer);
    }
  }
}
