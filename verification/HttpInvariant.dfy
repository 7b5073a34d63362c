/** What holds of the parser between any two bytes; the assertions of
    `http_parser_execute` follow from it. */
module HttpInvariant {
  import opened HttpTypes
  import opened HttpStep

  /** The request or status line has begun and the headers have not ended. */
  predicate BeforeBody(s: State) {
    s.StatusLine? || s.Method? || s.Url? || s.Version? || s.Headers? || s.HeadersAlmostDone? || s == Start(ResOrRespH)
  }

  predicate InChunks(s: State) {
    s.ChunkHead? || s == Body(ChunkData) || s == Body(ChunkDataAlmostDone) || s == Body(ChunkDataDone)
  }

  /** The matchers that can be at work while a field name is read. */
  predicate IsFieldMatcher(h: HeaderState) {
    h.General? || Counting(h) || h.Connection? || h.ContentLength? || h.TransferEncoding? || h.Upgrade?
  }

  /** Those for a value; `Connection` and `TransferEncoding` are not among them. */
  predicate IsValueMatcher(h: HeaderState) {
    !(Counting(h) || h.Connection? || h.TransferEncoding? || h.Upgrade?)
  }

  /** The length of the word a counting matcher compares with. */
  function WordLength(h: HeaderState): nat {
    if h.MatchingProxyConnection? then |PROXY_CONNECTION|
    else if h.MatchingContentLength? then |CONTENT_LENGTH|
    else if h.MatchingTransferEncoding? then |TRANSFER_ENCODING|
    else if h.MatchingUpgrade? || h.MatchingConnUpgrade? then |UPGRADE|
    else if h.MatchingChunked? then |CHUNKED|
    else if h.MatchingKeepAlive? then |KEEP_ALIVE|
    else if h.MatchingClose? then |CLOSE|
    else |CONNECTION|
  }

  /** How far a matcher of field names has come after `i + 1` bytes: not to the last byte of its word. */
  predicate CountOk(h: HeaderState, i: nat) {
    match h
    case HC => i == 0
    case HCO => i == 1
    case HCON => i == 2
    case _ => Counting(h) ==> i + 1 < WordLength(h)
  }

  /** Which matchers can be at work where. */
  predicate MatcherOk(p: Parser) {
    && p.index <= 20
    && (p.state.Headers? ==>
          match p.state.field
          case HeaderFieldStart => true
          case HeaderField =>
            IsFieldMatcher(p.headerState) && CountOk(p.headerState, p.index)
          case Value =>
            && IsValueMatcher(p.headerState)
            && (MatchingValue(p.headerState) ==> p.index + 1 < WordLength(p.headerState))
            && (p.headerState.TokenStart? ==> p.index == 0)
          case ValueLws => IsValueMatcher(p.headerState)
          case HeaderAlmostDone => IsValueMatcher(p.headerState)
          case _ => IsFieldMatcher(p.headerState))
  }

  predicate MethodOk(p: Parser) {
    && p.line.meth < METHOD_COUNT
    && (p.state.Method? ==> p.index <= |MethodName(p.line.meth)|)
  }

  predicate LengthOk(p: Parser) {
    && p.contentLength <= ULLONG_MAX
    && (BeforeBody(p.state) && F_TRAILING !in p.flags ==> (F_CONTENTLENGTH in p.flags <==> p.contentLength < ULLONG_MAX))
    && (BeforeBody(p.state) && F_CONTENTLENGTH in p.flags ==> p.contentLength < ULLONG_MAX)
    && (p.state == Headers(Value) && p.headerState.ContentLength? ==> F_CONTENTLENGTH in p.flags)
    && (p.state == Body(BodyIdentity) || p.state == Body(ChunkData) ==> 0 < p.contentLength < ULLONG_MAX)
    && (p.state.ChunkHead? && !p.state.chunk.ChunkSizeStart? ==> p.contentLength < ULLONG_MAX)
    && (p.state == Body(ChunkDataAlmostDone) ==> p.contentLength == 0)
  }

  predicate ChunkedOk(p: Parser) {
    && (InChunks(p.state) ==> F_CHUNKED in p.flags && F_TRAILING !in p.flags)
    && (BeforeBody(p.state) && F_TRAILING in p.flags ==>
          F_CHUNKED in p.flags && (p.state.Headers? || p.state.HeadersAlmostDone?))
    && (BeforeBody(p.state) || InChunks(p.state) ==> F_SKIPBODY !in p.flags)
  }

  predicate NumbersOk(p: Parser) {
    p.line.major <= 999 && p.line.minor <= 999 && p.line.statusCode <= 999
  }

  /** States that only pass a byte on are never left between two bytes. */
  predicate Resting(s: State) {
    s != Headers(ValueStart) && !s.HeadersDone? && s != Body(MessageDone)
  }

  predicate Sound(p: Parser) {
    && Resting(p.state)
    && (p.line.kind.BOTH? ==> p.state == Start(StartReqOrRes) || p.state == Start(ResOrRespH))
    && MatcherOk(p) && MethodOk(p) && LengthOk(p) && ChunkedOk(p) && NumbersOk(p)
  }

  lemma InitSound(kind: Kind)
    ensures Sound(Init(kind))
  {
  }

  // ----- Every byte keeps it -----

  /** The states of the first line, which only the numbers in it concern. */
  predicate InLine(s: State) {
    s.StatusLine? || s.Version? || s == Headers(HeaderFieldStart)
  }

  /** A step of the first line has erred or leads on, changing only numbers, which stay in range. */
  predicate LineStep(p: Parser, out: Out) {
    out.p.errno.OK? ==>
      && InLine(out.p.state)
      && NumbersOk(out.p) && out.p.index <= 20
      && out.p == p.(state := out.p.state, line := out.p.line, index := out.p.index)
      && out.p.line.kind == p.line.kind && out.p.line.meth == p.line.meth
  }

  lemma LineSound(p: Parser, out: Out)
    requires Sound(p) && (p.state.StatusLine? || p.state.Version? || p.state.Url?)
    requires LineStep(p, out) && out.p.errno.OK?
    ensures Sound(out.p)
  {
    hide MethodName;
  }

  lemma NumberSteps(p: Parser, c: byte, next: State)
    requires NumbersOk(p) && p.index <= 20 && InLine(p.state) && InLine(next)
    ensures LineStep(p, MajorStep(p, c, next))
    ensures LineStep(p, MinorStep(p, c))
    ensures LineStep(p, FirstMinorStep(p, c, next))
  {
  }

  lemma StatusCodeSteps(p: Parser, c: byte)
    requires NumbersOk(p) && p.index <= 20 && InLine(p.state)
    ensures LineStep(p, StatusCodeStep(p, c))
  {
  }

  lemma StatusLineSteps(p: Parser, s: StatusState, c: byte)
    requires NumbersOk(p) && p.index <= 20 && p.state == StatusLine(s)
    ensures LineStep(p, StatusLineStep(p, s, c))
  {
    hide MajorStep, MinorStep, FirstMinorStep, StatusCodeStep;
    if s.ResStatusCode? {
      StatusCodeSteps(p, c);
    } else {
      NumberSteps(p, c, StatusLine(ResMinor));
      NumberSteps(p, c, StatusLine(ResFirstMinor));
    }
  }

  lemma VersionSteps(p: Parser, s: VersionState, c: byte)
    requires NumbersOk(p) && p.index <= 20 && p.state == Version(s)
    ensures LineStep(p, VersionStep(p, s, c))
  {
    hide MajorStep, MinorStep, FirstMinorStep;
    NumberSteps(p, c, Version(ReqMinor));
    NumberSteps(p, c, Version(ReqFirstMinor));
  }

  lemma OtherMethodFits(meth: nat, i: nat, c: byte)
    requires OtherMethod(meth, i, c) >= 0
    ensures OtherMethod(meth, i, c) < METHOD_COUNT && i < |MethodName(OtherMethod(meth, i, c))|
  {
  }

  lemma MethodLength(meth: nat)
    ensures |MethodName(meth)| <= 11
    ensures meth == MSEARCH || meth == HEAD ==> 2 <= |MethodName(meth)|
  {
  }

  lemma StartReqSound(p: Parser, c: byte)
    requires Sound(p) && p.state == Start(StartReq) && StartReqStep(p, c).p.errno.OK?
    ensures Sound(StartReqStep(p, c).p)
  {
    hide IsAlpha, FirstMethod;
    if FirstMethod(c) >= 0 {
      FirstMethodFits(c);
    }
  }

  lemma FirstMethodFits(c: byte)
    requires FirstMethod(c) >= 0
    ensures FirstMethod(c) < METHOD_COUNT && 1 <= |MethodName(FirstMethod(c))|
  {
  }

  lemma StartSound(p: Parser, s: StartState, c: byte)
    requires Sound(p) && p.state == Start(s) && StartStep(p, s, c).p.errno.OK?
    ensures Sound(StartStep(p, s, c).p)
  {
    hide StartReqStep;
    var q := WithKind(Fresh(p), REQUEST).(state := Start(StartReq));
    match s
    case StartReq => StartReqSound(p, c);
    case StartReqOrRes =>
      if StartStep(p, s, c) == StartReqStep(q, c) {
        assert Sound(q);
        StartReqSound(q, c);
      }
    case ResOrRespH => MethodLength(HEAD);
    case _ =>
  }

  lemma MethodNextFits(meth: nat, i: nat, c: byte)
    requires meth < METHOD_COUNT && i <= |MethodName(meth)| && MethodNext(meth, i, c) >= 0
    ensures var m := MethodNext(meth, i, c); m < METHOD_COUNT && i < |MethodName(m)| <= 11
  {
    hide OtherMethod, IsAlpha, MethodName;
    if OtherMethod(meth, i, c) >= 0 {
      OtherMethodFits(meth, i, c);
      MethodLength(OtherMethod(meth, i, c));
    }
    MethodLength(meth);
    MethodLength(MSEARCH);
  }

  lemma MethodSound(p: Parser, c: byte)
    requires Sound(p) && p.state.Method? && MethodStep(p, c).p.errno.OK?
    ensures Sound(MethodStep(p, c).p)
  {
    hide MethodNext, MethodName, LengthOk, ChunkedOk;
    var q := MethodStep(p, c).p;
    if MethodNext(p.line.meth, p.index, c) >= 0 {
      MethodNextFits(p.line.meth, p.index, c);
    }
    MethodLength(p.line.meth);
    assert LengthOk(q) && ChunkedOk(q) by { SameLength(p, q); }
  }

  /** Only these fields count for the body. */
  lemma SameLength(p: Parser, q: Parser)
    requires LengthOk(p) && ChunkedOk(p) && p.state.Method? && (q.state.Method? || q.state.Url?)
    requires q.flags == p.flags && q.contentLength == p.contentLength
    ensures LengthOk(q) && ChunkedOk(q)
  {
  }

  lemma UrlSound(p: Parser, s: UrlState, c: byte)
    requires Sound(p) && p.state == Url(s) && UrlStep(p, s, c).p.errno.OK?
    ensures Sound(UrlStep(p, s, c).p)
  {
    hide ParseUrlChar, MethodName;
  }

  /** What the fields have to satisfy where a message ends. */
  predicate EndOk(p: Parser) {
    !p.line.kind.BOTH? && p.index <= 20 && p.line.meth < METHOD_COUNT && p.contentLength <= ULLONG_MAX && NumbersOk(p)
  }

  lemma CompleteSound(p: Parser, exit: bool)
    requires EndOk(p)
    ensures Sound(Complete(p, exit).p)
  {
    hide KeepsAlive, MethodName;
  }

  /** The line between headers and body: a new message, a first chunk, or a body of known or unknown length. */
  lemma HeadersDoneSound(p: Parser, c: byte)
    requires p.state.HeadersDone? && HeadersDoneStep(p, c).p.errno.OK?
    requires EndOk(p) && F_TRAILING !in p.flags
    ensures Sound(HeadersDoneStep(p, c).p)
  {
    hide MethodName, Complete, NeedsEof, HasBody;
    CompleteSound(p, true);
    CompleteSound(p, false);
  }

  lemma HeadersAlmostDoneSound(p: Parser, c: byte, answer: Answer)
    requires Sound(p) && p.state.HeadersAlmostDone? && HeadersAlmostDoneStep(p, c, answer).p.errno.OK?
    ensures Sound(HeadersAlmostDoneStep(p, c, answer).p)
  {
    hide MethodName, Complete, HeadersDoneStep;
    CompleteSound(p.(state := Body(MessageDone)), p.upgrade);
    if F_TRAILING !in p.flags && c == LF && !(F_CHUNKED in p.flags && F_CONTENTLENGTH in p.flags) {
      var q := p.(state := HeadersDone, upgrade := {F_UPGRADE, F_CONNECTION_UPGRADE} <= p.flags || p.line.meth == CONNECT);
      var r := Answered(q, answer);
      HeadersDoneSound(r, c);
    }
  }

  lemma HeadersEnd(p: Parser)
    requires Sound(p) && p.state == Headers(HeaderFieldStart)
    ensures Sound(p.(state := HeadersAlmostDone))
  {
    hide MethodName;
  }

  lemma FieldStartSound(p: Parser, c: byte, answer: Answer)
    requires Sound(p) && p.state == Headers(HeaderFieldStart) && HeaderFieldStartStep(p, c, answer).p.errno.OK?
    ensures Sound(HeaderFieldStartStep(p, c, answer).p)
  {
    hide HeadersAlmostDoneStep, TokenOf, MethodName;
    var q := p.(state := HeadersAlmostDone);
    HeadersEnd(p);
    if c == LF {
      HeadersAlmostDoneSound(q, c, answer);
    }
  }

  lemma FieldNextFits(h: HeaderState, i: nat, t: byte)
    requires t != 0 && IsFieldMatcher(h) && CountOk(h, i) && i <= 20
    ensures var j := if Counting(h) then i + 1 else i;
            IsFieldMatcher(FieldNext(h, j, t)) && CountOk(FieldNext(h, j, t), j) && j <= 20
  {
  }

  lemma SameLengthInHeaders(p: Parser, q: Parser)
    requires LengthOk(p) && ChunkedOk(p) && p.state == Headers(HeaderField)
    requires q.state == Headers(HeaderField) || q.state == Headers(ValueDiscardWs)
    requires q.flags == p.flags && q.contentLength == p.contentLength
    ensures LengthOk(q) && ChunkedOk(q)
  {
  }

  lemma FieldSound(p: Parser, c: byte)
    requires Sound(p) && p.state == Headers(HeaderField) && HeaderFieldStep(p, c).p.errno.OK?
    ensures Sound(HeaderFieldStep(p, c).p)
  {
    hide TokenOf, MethodName, LengthOk, ChunkedOk, FieldNext;
    var t := TokenOf(c);
    if t != 0 {
      FieldNextFits(p.headerState, p.index, t);
    }
    SameLengthInHeaders(p, HeaderFieldStep(p, c).p);
  }

  /** What reading a byte of a value can change: flags are only added, and a length only with its flag. */
  predicate ValueChange(p: Parser, q: Parser) {
    && q == p.(state := Headers(Value), headerState := q.headerState, index := q.index, flags := q.flags,
               contentLength := q.contentLength)
    && p.flags <= q.flags && q.index <= 20
    && (F_TRAILING in q.flags <==> F_TRAILING in p.flags) && (F_CHUNKED in q.flags <==> F_CHUNKED in p.flags)
    && (F_SKIPBODY in q.flags <==> F_SKIPBODY in p.flags)
    && IsValueMatcher(q.headerState)
    && (MatchingValue(q.headerState) ==> q.index + 1 < WordLength(q.headerState))
    && (q.headerState.TokenStart? ==> q.index == 0)
    && (q.headerState.ContentLength? ==> F_CONTENTLENGTH in q.flags)
    && (|| (q.contentLength == p.contentLength && (F_CONTENTLENGTH in q.flags <==> F_CONTENTLENGTH in p.flags))
        || (q.contentLength < ULLONG_MAX && F_CONTENTLENGTH in q.flags))
  }

  lemma ValueChangeSound(p: Parser, s: FieldState, q: Parser)
    requires Sound(p) && p.state == Headers(s) && !s.HeaderFieldStart? && ValueChange(p, q)
    ensures Sound(q)
  {
    hide MethodName;
  }

  lemma ValueStartChange(p: Parser, c: byte)
    requires ValueStartStep(p, c).p.errno.OK?
    ensures ValueChange(p, ValueStartStep(p, c).p)
  {
    hide StartMatcher;
    StartMatcherFits(p.headerState, Lower(c));
  }

  lemma StartMatcherFits(h: HeaderState, l: byte)
    ensures IsValueMatcher(StartMatcher(h, l)) && (MatchingValue(StartMatcher(h, l)) ==> 1 < WordLength(StartMatcher(h, l)))
    ensures StartMatcher(h, l).ContentLength? ==> h.ContentLength?
  {
  }

  lemma ContentLengthChange(p: Parser, c: byte)
    requires p.state == Headers(Value) && p.headerState.ContentLength? && F_CONTENTLENGTH in p.flags && p.index <= 20
    requires ContentLengthStep(p, c).p.errno.OK?
    ensures ValueChange(p, ContentLengthStep(p, c).p)
  {
  }

  lemma ValueMatcherFits(h: HeaderState, i: nat, c: byte)
    requires IsValueMatcher(h) && (MatchingValue(h) ==> i + 1 < WordLength(h)) && (h.TokenStart? ==> i == 0)
    ensures var g := ValueMatcher(h, i + 1, c);
            var j := ValueIndex(h, i, c);
            && IsValueMatcher(g) && (MatchingValue(g) ==> j + 1 < WordLength(g))
            && (g.TokenStart? ==> j == 0) && (g.ContentLength? ==> h.ContentLength?)
  {
    hide TokenOf;
    if MatchingValue(h) {
      LowerPositive(c);
    }
  }

  lemma LowerPositive(c: byte)
    ensures Lower(c) != 0
  {
  }

  lemma ValueNextChange(p: Parser, c: byte)
    requires MatcherOk(p) && p.state == Headers(Value) && ValueNext(p, c).p.errno.OK?
    requires p.headerState.ContentLength? ==> F_CONTENTLENGTH in p.flags
    ensures ValueChange(p, ValueNext(p, c).p)
  {
    hide ContentLengthStep, ValueMatcher;
    if p.headerState.ContentLength? {
      ContentLengthChange(p, c);
    } else {
      ValueMatcherFits(p.headerState, p.index, c);
    }
  }

  lemma ValueSound(p: Parser, c: byte, unchecked: bool)
    requires Sound(p) && p.state == Headers(Value) && ValueStep(p, c, unchecked).p.errno.OK?
    ensures Sound(ValueStep(p, c, unchecked).p)
  {
    hide ValueNext, IsHeaderChar, MethodName, ValueChange;
    if ValueStep(p, c, unchecked) == ValueNext(p, c) && ValueNext(p, c).p.errno.OK? {
      ValueNextChange(p, c);
      ValueChangeSound(p, Value, ValueNext(p, c).p);
    }
  }

  lemma SettleLineKeeps(p: Parser)
    ensures var q := SettleLine(p);
            && q == p.(flags := q.flags)
            && (F_CONTENTLENGTH in q.flags <==> F_CONTENTLENGTH in p.flags)
            && (F_TRAILING in q.flags <==> F_TRAILING in p.flags) && (F_SKIPBODY in q.flags <==> F_SKIPBODY in p.flags)
            && (F_CHUNKED in p.flags ==> F_CHUNKED in q.flags)
  {
  }

  lemma LineSettled(p: Parser)
    requires Sound(p) && (p.state == Headers(ValueLws) || p.state == Headers(ValueDiscardLws))
    ensures Sound(SettleLine(p).(state := Headers(HeaderFieldStart)))
  {
    hide MethodName, SettleLine;
    SettleLineKeeps(p);
  }

  lemma HeaderSound(p: Parser, s: FieldState, c: byte, answer: Answer, unchecked: bool)
    requires Sound(p) && p.state == Headers(s) && HeaderStep(p, s, c, answer, unchecked).p.errno.OK?
    ensures Sound(HeaderStep(p, s, c, answer, unchecked).p)
  {
    hide HeaderFieldStartStep, HeaderFieldStep, ValueStartStep, ValueStep, SettleLine, MethodName;
    match s
    case HeaderFieldStart => FieldStartSound(p, c, answer);
    case HeaderField => FieldSound(p, c);
    case Value => ValueSound(p, c, unchecked);
    case ValueDiscardWs =>
      if !IsBlank(c) && !IsLineEnd(c) {
        ValueStartChange(p, c);
        ValueChangeSound(p, s, ValueStartStep(p, c).p);
      }
    case ValueLws =>
      if IsBlank(c) {
        var q := p.(state := Headers(ValueStart));
        ValueStartChange(q, c);
        assert ValueChange(p, ValueStartStep(q, c).p);
        ValueChangeSound(p, s, ValueStartStep(q, c).p);
      } else {
        LineSettled(p);
        FieldStartSound(SettleLine(p).(state := Headers(HeaderFieldStart)), c, answer);
      }
    case ValueDiscardLws =>
      if !IsBlank(c) {
        LineSettled(p);
        FieldStartSound(SettleLine(p).(state := Headers(HeaderFieldStart)), c, answer);
      }
    case _ =>
  }

  lemma UnhexRange(c: byte)
    ensures -1 <= Unhex(c) <= 15
  {
  }

  lemma ChunkHeadSound(p: Parser, s: ChunkState, c: byte)
    requires Sound(p) && p.state == ChunkHead(s) && ChunkHeaderStep(p, s, c).p.errno.OK?
    ensures Sound(ChunkHeaderStep(p, s, c).p)
  {
    hide Unhex, MethodName;
    UnhexRange(c);
  }

  lemma BodySound(p: Parser, s: BodyState, c: byte)
    requires Sound(p) && p.state == Body(s) && BodyStep(p, s, c).p.errno.OK?
    ensures Sound(BodyStep(p, s, c).p)
  {
    hide Complete, MethodName;
    CompleteSound(OneLess(p).(state := Body(MessageDone)), p.upgrade);
  }

  /** Whatever the byte, a parser without an error is left sound. */
  lemma StepSound(p: Parser, c: byte, answer: Answer, unchecked: bool)
    requires Sound(p) && Step(p, c, answer, unchecked).p.errno.OK?
    ensures Sound(Step(p, c, answer, unchecked).p)
  {
    hide StartStep, StatusLineStep, MethodStep, UrlStep, VersionStep, HeaderStep, HeadersAlmostDoneStep,
         HeadersDoneStep, ChunkHeaderStep, BodyStep, MatcherOk, MethodOk, LengthOk, ChunkedOk, LineStep;
    assert NumbersOk(p) && p.index <= 20 by { SoundIndex(p); }
    match p.state
    case Start(s) => StartSound(p, s, c);
    case StatusLine(s) =>
      StatusLineSteps(p, s, c);
      LineSound(p, StatusLineStep(p, s, c));
    case Method => MethodSound(p, c);
    case Url(s) => UrlSound(p, s, c);
    case Version(s) =>
      VersionSteps(p, s, c);
      LineSound(p, VersionStep(p, s, c));
    case Headers(s) => HeaderSound(p, s, c, answer, unchecked);
    case HeadersAlmostDone => HeadersAlmostDoneSound(p, c, answer);
    case HeadersDone => assert false;
    case ChunkHead(s) => ChunkHeadSound(p, s, c);
    case Body(s) => BodySound(p, s, c);
  }

  lemma SoundIndex(p: Parser)
    requires Sound(p)
    ensures p.index <= 20
  {
    hide MethodOk, LengthOk, ChunkedOk;
  }
}
