/** One byte through `http_parser_execute` in strict mode
    (app/http/HttpParser.cc). A state that hands the same byte on to another
    state calls that state's function. */
module HttpStep {
  import opened HttpTypes

  function Stay(p: Parser): Out {
    Out(p, [], false)
  }

  function Goto(p: Parser, s: State): Out {
    Out(p.(state := s), [], false)
  }

  function Fail(p: Parser, e: Errno): Out {
    Out(p.(errno := e), [], false)
  }

  function Do(p: Parser, acts: seq<Action>): Out {
    Out(p, acts, false)
  }

  /** `acts` come before what `out` does. */
  function After(acts: seq<Action>, out: Out): Out {
    out.(acts := acts + out.acts)
  }

  function Expect(p: Parser, c: byte, want: char, next: State): Out {
    if Is(c, want) then Goto(p, next) else Fail(p, STRICT)
  }

  predicate IsLineEnd(c: byte) {
    c == CR || c == LF
  }

  /** A message starts: nothing is known about it yet. */
  function Fresh(p: Parser): Parser {
    p.(flags := {}, contentLength := ULLONG_MAX)
  }

  function WithKind(p: Parser, kind: Kind): Parser {
    p.(line := p.line.(kind := kind))
  }

  function WithMethod(p: Parser, meth: nat): Parser {
    p.(line := p.line.(meth := meth))
  }

  function WithVersion(p: Parser, major: nat, minor: nat): Parser {
    p.(line := p.line.(major := major, minor := minor))
  }

  function WithStatus(p: Parser, statusCode: nat): Parser {
    p.(line := p.line.(statusCode := statusCode))
  }

  // ----- Start of a message -----

  function StartReqStep(p: Parser, c: byte): Out {
    if IsLineEnd(c) then Stay(p)
    else if !IsAlpha(c) then Fail(Fresh(p), INVALID_METHOD)
    else if FirstMethod(c) < 0 then Fail(WithMethod(Fresh(p), 0).(index := 1), INVALID_METHOD)
    else Do(WithMethod(Fresh(p), FirstMethod(c)).(index := 1, state := Method), [Notify(MessageBegin)])
  }

  function StartReqOrResStep(p: Parser, c: byte): Out {
    if IsLineEnd(c) then Stay(p)
    else if Is(c, 'H') then Do(Fresh(p).(state := Start(ResOrRespH)), [Notify(MessageBegin)])
    else StartReqStep(WithKind(Fresh(p), REQUEST).(state := Start(StartReq)), c)
  }

  function ResOrRespHStep(p: Parser, c: byte): Out {
    if Is(c, 'T') then Goto(WithKind(p, RESPONSE), StatusLine(ResHT))
    else if Is(c, 'E') then Goto(WithMethod(WithKind(p, REQUEST), HEAD).(index := 2), Method)
    else Fail(p, INVALID_CONSTANT)
  }

  function StartResStep(p: Parser, c: byte): Out {
    if Is(c, 'H') then Do(Fresh(p).(state := StatusLine(ResH)), [Notify(MessageBegin)])
    else if IsLineEnd(c) then Do(Fresh(p), [Notify(MessageBegin)])
    else Fail(Fresh(p), INVALID_CONSTANT)
  }

  function StartStep(p: Parser, s: StartState, c: byte): Out {
    if s.Dead? then if IsLineEnd(c) then Stay(p) else Fail(p, CLOSED_CONNECTION)
    else if s.StartReqOrRes? then StartReqOrResStep(p, c)
    else if s.ResOrRespH? then ResOrRespHStep(p, c)
    else if s.StartRes? then StartResStep(p, c)
    else StartReqStep(p, c)
  }

  // ----- Status line -----

  function Digit(c: byte): int {
    c - '0' as int
  }

  /** A further digit of a number of at most three. */
  function Longer(n: nat, c: byte): nat
    requires IsNum(c)
  {
    10 * n + Digit(c)
  }

  function MajorStep(p: Parser, c: byte, dot: State): Out {
    if Is(c, '.') then Goto(p, dot)
    else if !IsNum(c) then Fail(p, INVALID_VERSION)
    else
      var q := WithVersion(p, Longer(p.line.major, c), p.line.minor);
      if q.line.major > 999 then Fail(q, INVALID_VERSION) else Stay(q)
  }

  function FirstMinorStep(p: Parser, c: byte, next: State): Out {
    if IsNum(c) then Goto(WithVersion(p, p.line.major, Digit(c)), next) else Fail(p, INVALID_VERSION)
  }

  function MinorStep(p: Parser, c: byte): Out {
    if !IsNum(c) then Fail(p, INVALID_VERSION)
    else
      var q := WithVersion(p, p.line.major, Longer(p.line.minor, c));
      if q.line.minor > 999 then Fail(q, INVALID_VERSION) else Stay(q)
  }

  function StatusCodeStep(p: Parser, c: byte): Out {
    if IsNum(c) then
      var q := WithStatus(p, Longer(p.line.statusCode, c));
      if q.line.statusCode > 999 then Fail(q, INVALID_STATUS) else Stay(q)
    else if c == SP then Goto(p, StatusLine(ResStatusStart))
    else if c == CR then Goto(p, StatusLine(ResLineAlmostDone))
    else if c == LF then Goto(p, Headers(HeaderFieldStart))
    else Fail(p, INVALID_STATUS)
  }

  function StatusLineStep(p: Parser, s: StatusState, c: byte): Out {
    match s
    case ResH => Expect(p, c, 'T', StatusLine(ResHT))
    case ResHT => Expect(p, c, 'T', StatusLine(ResHTT))
    case ResHTT => Expect(p, c, 'P', StatusLine(ResHTTP))
    case ResHTTP => Expect(p, c, '/', StatusLine(ResFirstMajor))
    case ResFirstMajor =>
      if IsNum(c) then Goto(WithVersion(p, Digit(c), p.line.minor), StatusLine(ResMajor)) else Fail(p, INVALID_VERSION)
    case ResMajor => MajorStep(p, c, StatusLine(ResFirstMinor))
    case ResFirstMinor => FirstMinorStep(p, c, StatusLine(ResMinor))
    case ResMinor => if c == SP then Goto(p, StatusLine(ResFirstStatusCode)) else MinorStep(p, c)
    case ResFirstStatusCode =>
      if IsNum(c) then Goto(WithStatus(p, Digit(c)), StatusLine(ResStatusCode))
      else if c == SP then Stay(p)
      else Fail(p, INVALID_STATUS)
    case ResStatusCode => StatusCodeStep(p, c)
    case ResStatusStart =>
      if c == CR then Goto(p, StatusLine(ResLineAlmostDone))
      else if c == LF then Goto(p, Headers(HeaderFieldStart))
      else Do(p.(state := StatusLine(ResStatus), index := 0), [SetMark(STATUS)])
    case ResStatus =>
      if c == CR then Do(p.(state := StatusLine(ResLineAlmostDone)), [Flush(STATUS)])
      else if c == LF then Do(p.(state := Headers(HeaderFieldStart)), [Flush(STATUS)])
      else Stay(p)
    case _ => if c == LF then Goto(p, Headers(HeaderFieldStart)) else Fail(p, STRICT)
  }

  // ----- Request line -----

  /** The method guessed after one more letter `c` at position `i`; -1 if no method is spelled so. */
  function MethodNext(meth: nat, i: nat, c: byte): int {
    if c == 0 then -1
    else if c == MethodChar(meth, i) then meth
    else if IsAlpha(c) then OtherMethod(meth, i, c)
    else if Is(c, '-') && i == 1 && meth == MKCOL then MSEARCH
    else -1
  }

  function MethodStep(p: Parser, c: byte): Out {
    if c == SP && MethodChar(p.line.meth, p.index) == 0 then
      Goto(p.(index := p.index + 1), Url(ReqSpacesBeforeUrl))
    else
      var meth := MethodNext(p.line.meth, p.index, c);
      if meth < 0 then Fail(p, INVALID_METHOD) else Stay(WithMethod(p, meth).(index := p.index + 1))
  }

  /** `parse_url_char`: `Dead` where the byte cannot continue the URL. */
  function ParseUrlChar(s: UrlState, c: byte): State {
    if IsLineEnd(c) || IsBlank(c) || c == 12 then Start(Dead)
    else match s
      case ReqSpacesBeforeUrl =>
        if Is(c, '/') || Is(c, '*') then Url(ReqPath) else if IsAlpha(c) then Url(ReqSchema) else Start(Dead)
      case ReqSchema => if IsAlpha(c) then Url(s) else if Is(c, ':') then Url(ReqSchemaSlash) else Start(Dead)
      case ReqSchemaSlash => if Is(c, '/') then Url(ReqSchemaSlashSlash) else Start(Dead)
      case ReqSchemaSlashSlash => if Is(c, '/') then Url(ReqServerStart) else Start(Dead)
      case ReqServerWithAt => if Is(c, '@') then Start(Dead) else ParseServerChar(c)
      case ReqServerStart => ParseServerChar(c)
      case ReqServer => ParseServerChar(c)
      case ReqPath =>
        if IsUrlChar(c) then Url(s)
        else if Is(c, '?') then Url(ReqQueryStringStart)
        else if Is(c, '#') then Url(ReqFragmentStart)
        else Start(Dead)
      case ReqQueryStringStart => ParseQueryChar(c)
      case ReqQueryString => ParseQueryChar(c)
      case ReqFragmentStart =>
        if IsUrlChar(c) || Is(c, '?') then Url(ReqFragment) else if Is(c, '#') then Url(s) else Start(Dead)
      case ReqFragment => if IsUrlChar(c) || Is(c, '?') || Is(c, '#') then Url(s) else Start(Dead)
  }

  function ParseServerChar(c: byte): State {
    if Is(c, '/') then Url(ReqPath)
    else if Is(c, '?') then Url(ReqQueryStringStart)
    else if Is(c, '@') then Url(ReqServerWithAt)
    else if IsUserinfoChar(c) || Is(c, '[') || Is(c, ']') then Url(ReqServer)
    else Start(Dead)
  }

  function ParseQueryChar(c: byte): State {
    if IsUrlChar(c) || Is(c, '?') then Url(ReqQueryString)
    else if Is(c, '#') then Url(ReqFragmentStart)
    else Start(Dead)
  }

  function UrlNext(p: Parser, s: UrlState, c: byte, acts: seq<Action>): Out {
    var next := ParseUrlChar(s, c);
    if next.Url? then Do(p.(state := next), acts) else Fail(p.(state := next), INVALID_URL)
  }

  function UrlStep(p: Parser, s: UrlState, c: byte): Out {
    if s.ReqSpacesBeforeUrl? then
      if c == SP then Stay(p)
      else UrlNext(p, if p.line.meth == CONNECT then ReqServerStart else s, c, [SetMark(URL)])
    else if s.ReqSchema? || s.ReqSchemaSlash? || s.ReqSchemaSlashSlash? || s.ReqServerStart? then
      if c == SP || IsLineEnd(c) then Fail(p, INVALID_URL) else UrlNext(p, s, c, [])
    else if c == SP then Do(p.(state := Version(ReqHttpStart)), [Flush(URL)])
    else if IsLineEnd(c) then
      Do(WithVersion(p, 0, 9).(state := if c == CR then Version(ReqLineAlmostDone) else Headers(HeaderFieldStart)),
         [Flush(URL)])
    else UrlNext(p, s, c, [])
  }

  function VersionStep(p: Parser, s: VersionState, c: byte): Out {
    match s
    case ReqHttpStart =>
      if Is(c, 'H') then Goto(p, Version(ReqH)) else if c == SP then Stay(p) else Fail(p, INVALID_CONSTANT)
    case ReqH => Expect(p, c, 'T', Version(ReqHT))
    case ReqHT => Expect(p, c, 'T', Version(ReqHTT))
    case ReqHTT => Expect(p, c, 'P', Version(ReqHTTP))
    case ReqHTTP => Expect(p, c, '/', Version(ReqFirstMajor))
    case ReqFirstMajor =>
      if IsNum(c) && !Is(c, '0') then Goto(WithVersion(p, Digit(c), p.line.minor), Version(ReqMajor)) else Fail(p, INVALID_VERSION)
    case ReqMajor => MajorStep(p, c, Version(ReqFirstMinor))
    case ReqFirstMinor => FirstMinorStep(p, c, Version(ReqMinor))
    case ReqMinor =>
      if c == CR then Goto(p, Version(ReqLineAlmostDone))
      else if c == LF then Goto(p, Headers(HeaderFieldStart))
      else MinorStep(p, c)
    case _ => if c == LF then Goto(p, Headers(HeaderFieldStart)) else Fail(p, LF_EXPECTED)
  }

  // ----- Header fields -----

  const PROXY_CONNECTION := "proxy-connection"
  const CONNECTION := "connection"
  const CONTENT_LENGTH := "content-length"
  const TRANSFER_ENCODING := "transfer-encoding"
  const UPGRADE := "upgrade"
  const CHUNKED := "chunked"
  const KEEP_ALIVE := "keep-alive"
  const CLOSE := "close"

  function HeaderFieldStartStep(p: Parser, c: byte, answer: Answer): Out {
    if c == CR then Goto(p, HeadersAlmostDone)
    else if c == LF then HeadersAlmostDoneStep(p.(state := HeadersAlmostDone), c, answer)
    else
      var t := TokenOf(c);
      if t == 0 then Fail(p, INVALID_HEADER_TOKEN)
      else
        var h := if Is(t, 'c') then HC else if Is(t, 'p') then MatchingProxyConnection
                 else if Is(t, 't') then MatchingTransferEncoding else if Is(t, 'u') then MatchingUpgrade else General;
        Do(p.(index := 0, state := Headers(HeaderField), headerState := h), [SetMark(FIELD)])
  }

  /** Byte `i` of `word` has been reached: a mismatch, the last byte, or one in between. */
  function Match(word: string, i: nat, c: byte, miss: HeaderState, hit: HeaderState, more: HeaderState): HeaderState {
    if i > |word| || c != CharAt(word, i) then miss else if i == |word| - 1 then hit else more
  }

  /** The matcher after one more byte `t` of a field name; `i` counts that byte. */
  function FieldNext(h: HeaderState, i: nat, t: byte): HeaderState {
    match h
    case HC => if Is(t, 'o') then HCO else General
    case HCO => if Is(t, 'n') then HCON else General
    case HCON => if Is(t, 'n') then MatchingConnection else if Is(t, 't') then MatchingContentLength else General
    case MatchingConnection => Match(CONNECTION, i, t, General, Connection, h)
    case MatchingProxyConnection => Match(PROXY_CONNECTION, i, t, General, Connection, h)
    case MatchingContentLength => Match(CONTENT_LENGTH, i, t, General, ContentLength, h)
    case MatchingTransferEncoding => Match(TRANSFER_ENCODING, i, t, General, TransferEncoding, h)
    case MatchingUpgrade => Match(UPGRADE, i, t, General, Upgrade, h)
    case _ => General
  }

  /** The matchers that count the bytes they have seen. */
  predicate Counting(h: HeaderState) {
    h.HC? || h.HCO? || h.HCON? || h.MatchingConnection? || h.MatchingProxyConnection? || h.MatchingContentLength?
    || h.MatchingTransferEncoding? || h.MatchingUpgrade?
  }

  function HeaderFieldStep(p: Parser, c: byte): Out {
    var t := TokenOf(c);
    if t != 0 then
      var i := if Counting(p.headerState) then p.index + 1 else p.index;
      Stay(p.(headerState := FieldNext(p.headerState, i, t), index := i))
    else if Is(c, ':') then Do(p.(state := Headers(ValueDiscardWs)), [Flush(FIELD)])
    else Fail(p, INVALID_HEADER_TOKEN)
  }

  // ----- Header values -----

  /** The matcher that the first letter of a connection option starts. */
  function OptionMatcher(l: byte, other: HeaderState): HeaderState {
    if Is(l, 'k') then MatchingKeepAlive else if Is(l, 'c') then MatchingClose
    else if Is(l, 'u') then MatchingConnUpgrade else other
  }

  function StartMatcher(h: HeaderState, l: byte): HeaderState {
    match h
    case TransferEncoding => if Is(l, 'c') then MatchingChunked else General
    case ContentLength => h
    case Connection => OptionMatcher(l, Token)
    case TokenStart => h
    case _ => General
  }

  function ValueStartStep(p: Parser, c: byte): Out {
    var q := p.(state := Headers(Value), index := 0);
    if p.headerState.ContentLength? && !IsNum(c) then Fail(q, INVALID_CONTENT_LENGTH)
    else if p.headerState.ContentLength? && F_CONTENTLENGTH in p.flags then Fail(q, UNEXPECTED_CONTENT_LENGTH)
    else if p.headerState.ContentLength? then
      Do(q.(flags := q.flags + {F_CONTENTLENGTH}, contentLength := Digit(c)), [SetMark(VALUE)])
    else
      Do(q.(headerState := StartMatcher(p.headerState, Lower(c)),
            flags := if p.headerState.Upgrade? then p.flags + {F_UPGRADE} else p.flags), [SetMark(VALUE)])
  }

  /** What a header value that ends, or is followed by a comma, has said. */
  function Settle(f: set<Flag>, h: HeaderState): set<Flag> {
    if h.KeepAlive? then f + {F_CONNECTION_KEEP_ALIVE}
    else if h.Close? then f + {F_CONNECTION_CLOSE}
    else if h.ConnUpgrade? then f + {F_CONNECTION_UPGRADE}
    else f
  }

  /** The same at the end of the line, where the transfer coding counts too. */
  function SettleLine(p: Parser): Parser {
    p.(flags := if p.headerState.Chunked? then p.flags + {F_CHUNKED} else Settle(p.flags, p.headerState))
  }

  /** A further byte of a Content-Length. */
  function ContentLengthStep(p: Parser, c: byte): Out {
    if c == SP then Stay(p)
    else if !IsNum(c) then Fail(p, INVALID_CONTENT_LENGTH)
    else if (ULLONG_MAX - 10) / 10 < p.contentLength then Fail(p, INVALID_CONTENT_LENGTH)
    else Stay(p.(contentLength := Longer(p.contentLength, c)))
  }

  predicate MatchingValue(h: HeaderState) {
    h.MatchingChunked? || h.MatchingKeepAlive? || h.MatchingClose? || h.MatchingConnUpgrade?
  }

  /** A connection option that has been recognised, not counting what may follow it. */
  predicate IsOption(h: HeaderState) {
    h.KeepAlive? || h.Close? || h.ConnUpgrade?
  }

  /** The matcher after one more byte of a value; `i` counts the bytes of an option or coding, this one included. */
  function ValueMatcher(h: HeaderState, i: nat, c: byte): HeaderState {
    var l := Lower(c);
    match h
    case MatchingChunked => Match(CHUNKED, i, l, General, Chunked, h)
    case TokenStart => OptionMatcher(l, if TokenOf(l) != 0 then Token else if IsBlank(l) then h else General)
    case MatchingKeepAlive => Match(KEEP_ALIVE, i, l, Token, KeepAlive, h)
    case MatchingClose => Match(CLOSE, i, l, Token, Close, h)
    case MatchingConnUpgrade => Match(UPGRADE, i, l, Token, ConnUpgrade, h)
    case Token => if Is(c, ',') then TokenStart else h
    case Chunked => if c == SP then h else General
    case _ => if !IsOption(h) then General else if Is(c, ',') then TokenStart else if c == SP then h else Token
  }

  function ValueIndex(h: HeaderState, i: nat, c: byte): nat {
    if MatchingValue(h) then i + 1 else if Is(c, ',') && (h.Token? || IsOption(h)) then 0 else i
  }

  function ValueNext(p: Parser, c: byte): Out {
    var h := p.headerState;
    if h.ContentLength? then ContentLengthStep(p, c)
    else Stay(p.(headerState := ValueMatcher(h, p.index + 1, c), index := ValueIndex(h, p.index, c),
                 flags := if Is(c, ',') then Settle(p.flags, h) else p.flags))
  }

  /** `unchecked` holds for the bytes that the search for the end of the line passes over. */
  function ValueStep(p: Parser, c: byte, unchecked: bool): Out {
    if c == CR then Do(p.(state := Headers(HeaderAlmostDone)), [Flush(VALUE)])
    else if c == LF then Do(p.(state := Headers(ValueLws)), [Flush(VALUE)])
    else if !p.lenient && !unchecked && !IsHeaderChar(c) then Fail(p, INVALID_HEADER_TOKEN)
    else ValueNext(p, c)
  }

  function ValueLwsStep(p: Parser, c: byte, answer: Answer): Out {
    if IsBlank(c) then ValueStartStep(p.(state := Headers(ValueStart)), c)
    else HeaderFieldStartStep(SettleLine(p).(state := Headers(HeaderFieldStart)), c, answer)
  }

  function DiscardLwsStep(p: Parser, c: byte, answer: Answer): Out {
    if IsBlank(c) then Goto(p, Headers(ValueDiscardWs))
    else After([SetMark(VALUE), Flush(VALUE)],
               HeaderFieldStartStep(SettleLine(p).(state := Headers(HeaderFieldStart)), c, answer))
  }

  function HeaderStep(p: Parser, s: FieldState, c: byte, answer: Answer, unchecked: bool): Out {
    match s
    case HeaderFieldStart => HeaderFieldStartStep(p, c, answer)
    case HeaderField => HeaderFieldStep(p, c)
    case ValueDiscardWs =>
      if IsBlank(c) then Stay(p)
      else if c == CR then Goto(p, Headers(ValueDiscardWsAlmostDone))
      else if c == LF then Goto(p, Headers(ValueDiscardLws))
      else ValueStartStep(p, c)
    case ValueDiscardWsAlmostDone => if c == LF then Goto(p, Headers(ValueDiscardLws)) else Fail(p, STRICT)
    case ValueDiscardLws => DiscardLwsStep(p, c, answer)
    case ValueStart => ValueStartStep(p, c)
    case Value => ValueStep(p, c, unchecked)
    case HeaderAlmostDone => if c == LF then Goto(p, Headers(ValueLws)) else Fail(p, LF_EXPECTED)
    case _ => ValueLwsStep(p, c, answer)
  }

  // ----- End of the headers, end of the message -----

  /** `http_message_needs_eof` (section 4.4 of RFC 2616). */
  predicate NeedsEof(p: Parser) {
    && !p.line.kind.REQUEST?
    && !(p.line.statusCode / 100 == 1 || p.line.statusCode == 204 || p.line.statusCode == 304 || F_SKIPBODY in p.flags)
    && F_CHUNKED !in p.flags
    && p.contentLength == ULLONG_MAX
  }

  /** `http_should_keep_alive`. */
  predicate KeepsAlive(p: Parser) {
    && (if p.line.major > 0 && p.line.minor > 0 then F_CONNECTION_CLOSE !in p.flags else F_CONNECTION_KEEP_ALIVE in p.flags)
    && !NeedsEof(p)
  }

  function NewMessage(p: Parser): State {
    if !KeepsAlive(p) then Start(Dead) else if p.line.kind.REQUEST? then Start(StartReq) else Start(StartRes)
  }

  function Complete(p: Parser, exit: bool): Out {
    Out(p.(state := NewMessage(p)), [Notify(MessageComplete)], exit)
  }

  /** The application's answer to the headers-complete callback: 1 and 2 say that no body follows. */
  function Answered(p: Parser, answer: Answer): Parser {
    match answer
    case Continue => p
    case NoBody => p.(flags := p.flags + {F_SKIPBODY})
    case NoBodyUpgrade => p.(upgrade := true, flags := p.flags + {F_SKIPBODY})
  }

  function HeadersAlmostDoneStep(p: Parser, c: byte, answer: Answer): Out {
    if c != LF then Fail(p, STRICT)
    else if F_TRAILING in p.flags then
      After([Notify(ChunkComplete)], Complete(p.(state := Body(MessageDone)), p.upgrade))
    else if F_CHUNKED in p.flags && F_CONTENTLENGTH in p.flags then Fail(p, UNEXPECTED_CONTENT_LENGTH)
    else
      var q := p.(state := HeadersDone,
                  upgrade := {F_UPGRADE, F_CONNECTION_UPGRADE} <= p.flags || p.line.meth == CONNECT);
      After([Notify(HeadersComplete(F_CHUNKED in q.flags, q.contentLength, q.upgrade))],
            HeadersDoneStep(Answered(q, answer), c))
  }

  predicate HasBody(p: Parser) {
    F_CHUNKED in p.flags || 0 < p.contentLength != ULLONG_MAX
  }

  function HeadersDoneStep(p: Parser, c: byte): Out {
    if c != LF then Fail(p, STRICT)
    else
      After([Recount],
            if p.upgrade && (p.line.meth == CONNECT || F_SKIPBODY in p.flags || !HasBody(p)) then Complete(p, true)
            else if F_SKIPBODY in p.flags then Complete(p, false)
            else if F_CHUNKED in p.flags then Goto(p, ChunkHead(ChunkSizeStart))
            else if p.contentLength == 0 then Complete(p, false)
            else if p.contentLength != ULLONG_MAX then Goto(p, Body(BodyIdentity))
            else if !NeedsEof(p) then Complete(p, false)
            else Goto(p, Body(BodyIdentityEof)))
  }

  // ----- Chunk sizes -----

  function ChunkSizeStep(p: Parser, c: byte): Out {
    if c == CR then Goto(p, ChunkHead(ChunkSizeAlmostDone))
    else if Unhex(c) < 0 then
      if Is(c, ';') || c == SP then Goto(p, ChunkHead(ChunkParameters)) else Fail(p, INVALID_CHUNK_SIZE)
    else if (ULLONG_MAX - 16) / 16 < p.contentLength then Fail(p, INVALID_CONTENT_LENGTH)
    else Stay(p.(contentLength := 16 * p.contentLength + Unhex(c)))
  }

  function ChunkHeaderStep(p: Parser, s: ChunkState, c: byte): Out {
    match s
    case ChunkSizeStart =>
      if Unhex(c) < 0 then Fail(p, INVALID_CHUNK_SIZE) else Goto(p.(contentLength := Unhex(c)), ChunkHead(ChunkSize))
    case ChunkSize => ChunkSizeStep(p, c)
    case ChunkParameters => if c == CR then Goto(p, ChunkHead(ChunkSizeAlmostDone)) else Stay(p)
    case ChunkSizeAlmostDone =>
      if c != LF then Fail(p, STRICT)
      else
        Do(if p.contentLength == 0 then p.(flags := p.flags + {F_TRAILING}, state := Headers(HeaderFieldStart))
           else p.(state := Body(ChunkData)), [Recount, Notify(ChunkHeader(p.contentLength))])
  }

  // ----- Bodies -----

  /** The parser asserts that a body being read has bytes left. */
  function OneLess(p: Parser): Parser {
    p.(contentLength := if p.contentLength > 0 then p.contentLength - 1 else 0)
  }

  function BodyStep(p: Parser, s: BodyState, c: byte): Out {
    match s
    case BodyIdentity =>
      var q := OneLess(p);
      if q.contentLength == 0
      then After([SetMark(BODY), FlushThrough(BODY)], Complete(q.(state := Body(MessageDone)), q.upgrade))
      else Do(q, [SetMark(BODY)])
    case BodyIdentityEof => Do(p, [SetMark(BODY)])
    case ChunkData =>
      var q := OneLess(p);
      Do(if q.contentLength == 0 then q.(state := Body(ChunkDataAlmostDone)) else q, [SetMark(BODY)])
    case ChunkDataAlmostDone => if c == CR then Do(p.(state := Body(ChunkDataDone)), [Flush(BODY)]) else Fail(p, STRICT)
    case ChunkDataDone =>
      if c == LF then Do(p.(state := ChunkHead(ChunkSizeStart)), [Recount, Notify(ChunkComplete)]) else Fail(p, STRICT)
    case _ => Complete(p, p.upgrade)
  }

  // ----- All states -----

  function Step(p: Parser, c: byte, answer: Answer, unchecked: bool): Out {
    match p.state
    case Start(s) => StartStep(p, s, c)
    case StatusLine(s) => StatusLineStep(p, s, c)
    case Method => MethodStep(p, c)
    case Url(s) => UrlStep(p, s, c)
    case Version(s) => VersionStep(p, s, c)
    case Headers(s) => HeaderStep(p, s, c, answer, unchecked)
    case HeadersAlmostDone => HeadersAlmostDoneStep(p, c, answer)
    case HeadersDone => HeadersDoneStep(p, c)
    case ChunkHead(s) => ChunkHeaderStep(p, s, c)
    case Body(s) => BodyStep(p, s, c)
  }
}
