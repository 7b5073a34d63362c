/** In which order marks, data and notifications can come, and what the parser
    owes of a body (section 4.4 of RFC 2616). */
module HttpOrder {
  import opened HttpTypes
  import opened HttpStep
  import opened HttpInvariant
  import opened HttpRun

  /** Where in a message the parser is, and how many bytes of body it still expects. */
  datatype Phase = Idle | Head | Trailer | Sizing | InChunk(left: nat) | InBody(left: nat) | ToEof

  function PhaseOf(p: Parser): Phase {
    match p.state
    case Start(s) => if s.ResOrRespH? then Head else Idle
    case ChunkHead(s) => Sizing
    case Body(s) =>
      (match s
       case BodyIdentity => InBody(p.contentLength)
       case BodyIdentityEof => ToEof
       case ChunkData => InChunk(p.contentLength)
       case MessageDone => Idle
       case _ => InChunk(0))
    case _ => if F_TRAILING in p.flags then Trailer else Head
  }

  function MarkIn(s: State): Mark {
    MarkOf(Opening(s))
  }

  /** Body bytes are marked when they come, not when a call begins. */
  predicate BodyMark(s: State) {
    s.Body? && (s.body.BodyIdentity? || s.body.BodyIdentityEof? || s.body.ChunkData? || s.body.ChunkDataAlmostDone?)
  }

  // ----- The shapes of a step without an error -----

  predicate Quiet(p: Parser, q: Parser, acts: seq<Action>) {
    acts == [] && PhaseOf(q) == PhaseOf(p) && MarkIn(q.state) == MarkIn(p.state)
  }

  predicate Begins(p: Parser, q: Parser, acts: seq<Action>) {
    && acts == [Notify(MessageBegin)] && PhaseOf(p).Idle? && (PhaseOf(q).Idle? || PhaseOf(q).Head?)
    && MarkIn(p.state).NoMark? && MarkIn(q.state).NoMark?
  }

  predicate SetsMark(p: Parser, q: Parser, acts: seq<Action>) {
    && |acts| == 1 && acts[0].SetMark? && !acts[0].kind.BODY?
    && PhaseOf(q) == PhaseOf(p) && (PhaseOf(p).Head? || PhaseOf(p).Trailer?)
    && MarkIn(p.state).NoMark? && MarkIn(q.state) == On(acts[0].kind)
  }

  predicate Flushes(p: Parser, q: Parser, acts: seq<Action>) {
    && |acts| == 1 && acts[0].Flush? && !acts[0].kind.BODY?
    && PhaseOf(q) == PhaseOf(p) && (PhaseOf(p).Head? || PhaseOf(p).Trailer?)
    && MarkIn(p.state) == On(acts[0].kind) && MarkIn(q.state).NoMark?
  }

  /** May a message end right after the headers have told this? */
  predicate Bodiless(n: Note, answer: Answer) {
    n.HeadersComplete? && (!answer.Continue? || n.upgrade || (!n.chunked && (n.length == 0 || n.length == ULLONG_MAX)))
  }

  /** The phase that headers with a body lead to. */
  function BodyPhase(n: Note): Phase
    requires n.HeadersComplete?
  {
    if n.chunked then Sizing else if n.length == ULLONG_MAX then ToEof else InBody(n.length)
  }

  /** The headers end, or the trailer does. */
  predicate EndsHeaders(p: Parser, q: Parser, acts: seq<Action>, exit: bool, answer: Answer) {
    && MarkIn(p.state).NoMark? && MarkIn(q.state).NoMark?
    && (|| (PhaseOf(p).Trailer? && acts == [Notify(ChunkComplete), Notify(MessageComplete)] && PhaseOf(q).Idle?)
        || (&& PhaseOf(p).Head? && |acts| >= 2 && acts[0].Notify? && acts[0].note.HeadersComplete? && acts[1] == Recount
            && (|| (|acts| == 2 && !exit && PhaseOf(q) == BodyPhase(acts[0].note)
                    && (acts[0].note.length > 0 || acts[0].note.chunked))
                || (|acts| == 3 && acts[2] == Notify(MessageComplete) && PhaseOf(q).Idle?
                    && Bodiless(acts[0].note, answer)))))
  }

  /** What can follow in the byte that shows an empty header value to have ended. */
  predicate AfterEmptyValue(p: Parser, q: Parser, acts: seq<Action>, exit: bool, answer: Answer) {
    || (Quiet(p, q, acts) && !exit)
    || (SetsMark(p, q, acts) && !exit)
    || EndsHeaders(p, q, acts, exit, answer)
  }

  const EMPTY_VALUE: seq<Action> := [SetMark(VALUE), Flush(VALUE)]

  predicate EmptyValue(p: Parser, q: Parser, acts: seq<Action>, exit: bool, answer: Answer) {
    && |acts| >= 2 && acts[0] == SetMark(VALUE) && acts[1] == Flush(VALUE)
    && AfterEmptyValue(p, q, acts[2..], exit, answer)
    && MarkIn(p.state).NoMark? && (PhaseOf(p).Head? || PhaseOf(p).Trailer?)
  }

  predicate TellsSize(p: Parser, q: Parser, acts: seq<Action>) {
    && PhaseOf(p).Sizing? && acts == [Recount, Notify(ChunkHeader(p.contentLength))]
    && PhaseOf(q) == (if p.contentLength == 0 then Trailer else InChunk(p.contentLength))
    && MarkIn(p.state).NoMark? && MarkIn(q.state).NoMark?
  }

  /** One byte of a body, which is not the last of a body of known length. */
  predicate TakesBodyByte(p: Parser, q: Parser, acts: seq<Action>) {
    && acts == [SetMark(BODY)] && BodyMark(p.state) && BodyMark(q.state)
    && (|| (PhaseOf(p).ToEof? && PhaseOf(q).ToEof?)
        || (PhaseOf(p).InChunk? && PhaseOf(p).left > 0 && PhaseOf(q) == InChunk(PhaseOf(p).left - 1))
        || (PhaseOf(p).InBody? && PhaseOf(p).left > 1 && PhaseOf(q) == InBody(PhaseOf(p).left - 1)))
  }

  predicate TakesLastByte(p: Parser, q: Parser, acts: seq<Action>) {
    && acts == [SetMark(BODY), FlushThrough(BODY), Notify(MessageComplete)]
    && PhaseOf(p) == InBody(1) && PhaseOf(q).Idle? && BodyMark(p.state) && !BodyMark(q.state) && MarkIn(q.state).NoMark?
  }

  /** The line end after the data of a chunk. */
  predicate EndsChunk(p: Parser, q: Parser, acts: seq<Action>) {
    && PhaseOf(p) == InChunk(0) && !BodyMark(q.state) && MarkIn(q.state).NoMark?
    && (|| (acts == [Flush(BODY)] && PhaseOf(q) == InChunk(0) && BodyMark(p.state))
        || (acts == [Recount, Notify(ChunkComplete)] && PhaseOf(q).Sizing? && !BodyMark(p.state)))
  }

  predicate InBodyOrderly(p: Parser, out: Out) {
    || (TakesBodyByte(p, out.p, out.acts) && !out.exit)
    || TakesLastByte(p, out.p, out.acts)
    || (EndsChunk(p, out.p, out.acts) && !out.exit)
  }

  predicate OutsideOrderly(p: Parser, out: Out, answer: Answer) {
    || (Quiet(p, out.p, out.acts) && !out.exit)
    || (Begins(p, out.p, out.acts) && !out.exit)
    || (SetsMark(p, out.p, out.acts) && !out.exit)
    || (Flushes(p, out.p, out.acts) && !out.exit)
    || (TellsSize(p, out.p, out.acts) && !out.exit)
    || EndsHeaders(p, out.p, out.acts, out.exit, answer)
    || EmptyValue(p, out.p, out.acts, out.exit, answer)
  }

  predicate Orderly(p: Parser, out: Out, answer: Answer) {
    if p.state.Body? then InBodyOrderly(p, out) else OutsideOrderly(p, out, answer)
  }

  /** The limit on header bytes is not the business of a step. */
  predicate Errs(out: Out) {
    out.acts == [] && !out.p.errno.HEADER_OVERFLOW?
  }

  /** A step that errs has handed out an empty value at most. */
  predicate ErrsOrderly(p: Parser, out: Out) {
    Errs(out) || (!out.p.errno.HEADER_OVERFLOW? && out.acts == EMPTY_VALUE && p.state == Headers(ValueDiscardLws))
  }

  predicate Outcome(p: Parser, out: Out, answer: Answer) {
    if out.p.errno.OK? then Orderly(p, out, answer) else ErrsOrderly(p, out)
  }

  // ----- Every step has one of them -----

  lemma StartReqOrder(p: Parser, c: byte)
    requires p.errno.OK?
    ensures var out := StartReqStep(p, c);
            if out.p.errno.OK? then
              && !out.exit
              && (|| (IsLineEnd(c) && out.p == p && out.acts == [])
                  || (out.acts == [Notify(MessageBegin)] && out.p.state.Method? && F_TRAILING !in out.p.flags))
            else Errs(out)
  {
    hide IsAlpha, FirstMethod;
  }

  lemma StartOrder(p: Parser, s: StartState, c: byte, answer: Answer)
    requires Sound(p) && p.errno.OK? && p.state == Start(s)
    ensures Outcome(p, StartStep(p, s, c), answer)
  {
    hide IsAlpha, FirstMethod, EndsHeaders, EmptyValue, StartReqStep, MatcherOk, MethodOk, LengthOk, NumbersOk;
    StartReqOrder(p, c);
    StartReqOrder(WithKind(Fresh(p), REQUEST).(state := Start(StartReq)), c);
  }

  /** In the first line the body is out of sight. */
  lemma InLineOrder(p: Parser, out: Out, answer: Answer)
    requires p.errno.OK? && (p.state.StatusLine? || p.state.Method? || p.state.Version? || p.state.Url?)
    requires if out.p.errno.OK? then
               && !out.exit && out.p.flags == p.flags
               && (out.p.state.StatusLine? || out.p.state.Method? || out.p.state.Version? || out.p.state.Url?
                   || out.p.state == Headers(HeaderFieldStart))
               && (|| (out.acts == [] && MarkIn(out.p.state) == MarkIn(p.state))
                   || (|out.acts| == 1 && out.acts[0].SetMark? && !out.acts[0].kind.BODY? && MarkIn(p.state).NoMark?
                       && MarkIn(out.p.state) == On(out.acts[0].kind))
                   || (|out.acts| == 1 && out.acts[0].Flush? && !out.acts[0].kind.BODY? && MarkIn(out.p.state).NoMark?
                       && MarkIn(p.state) == On(out.acts[0].kind)))
             else Errs(out)
    ensures Outcome(p, out, answer)
  {
    hide EndsHeaders, EmptyValue;
  }

  /** A step that only reads a number or a fixed byte: it stays or goes to `next`. */
  predicate Moves(p: Parser, out: Out, next: State) {
    && Errs(out) && !out.exit
    && (out.p.errno.OK? ==> out.p.flags == p.flags && (out.p.state == p.state || out.p.state == next))
  }

  lemma NumberMoves(p: Parser, c: byte, next: State)
    requires p.errno.OK?
    ensures Moves(p, MajorStep(p, c, next), next)
    ensures Moves(p, FirstMinorStep(p, c, next), next)
    ensures Moves(p, MinorStep(p, c), next)
  {
  }

  lemma StatusCodeMoves(p: Parser, c: byte)
    requires p.errno.OK?
    ensures Moves(p, StatusCodeStep(p, c), StatusLine(ResStatusStart))
            || Moves(p, StatusCodeStep(p, c), StatusLine(ResLineAlmostDone))
            || Moves(p, StatusCodeStep(p, c), Headers(HeaderFieldStart))
  {
  }

  lemma StatusLineOrder(p: Parser, s: StatusState, c: byte, answer: Answer)
    requires p.errno.OK? && p.state == StatusLine(s)
    ensures Outcome(p, StatusLineStep(p, s, c), answer)
  {
    hide Outcome, MajorStep, MinorStep, FirstMinorStep, StatusCodeStep;
    NumberMoves(p, c, StatusLine(ResMinor));
    NumberMoves(p, c, StatusLine(ResFirstMinor));
    StatusCodeMoves(p, c);
    InLineOrder(p, StatusLineStep(p, s, c), answer);
  }

  lemma MethodOrder(p: Parser, c: byte, answer: Answer)
    requires p.errno.OK? && p.state.Method?
    ensures Outcome(p, MethodStep(p, c), answer)
  {
    hide Outcome, MethodNext, MethodChar;
    InLineOrder(p, MethodStep(p, c), answer);
  }

  lemma UrlOrder(p: Parser, s: UrlState, c: byte, answer: Answer)
    requires p.errno.OK? && p.state == Url(s)
    ensures Outcome(p, UrlStep(p, s, c), answer)
  {
    hide Outcome, ParseUrlChar;
    UrlGoesOn(s, c);
    UrlGoesOn(ReqServerStart, c);
    InLineOrder(p, UrlStep(p, s, c), answer);
  }

  /** A URL never goes back to the spaces before it. */
  lemma UrlGoesOn(s: UrlState, c: byte)
    ensures ParseUrlChar(s, c).Url? ==> !ParseUrlChar(s, c).url.ReqSpacesBeforeUrl?
    ensures ParseUrlChar(s, c).Url? || ParseUrlChar(s, c) == Start(Dead)
  {
  }

  lemma VersionOrder(p: Parser, s: VersionState, c: byte, answer: Answer)
    requires p.errno.OK? && p.state == Version(s)
    ensures Outcome(p, VersionStep(p, s, c), answer)
  {
    hide Outcome, MajorStep, MinorStep, FirstMinorStep;
    NumberMoves(p, c, Version(ReqMinor));
    NumberMoves(p, c, Version(ReqFirstMinor));
    InLineOrder(p, VersionStep(p, s, c), answer);
  }

  lemma CompleteOrder(p: Parser, exit: bool)
    ensures var out := Complete(p, exit);
            && out.acts == [Notify(MessageComplete)] && out.exit == exit && out.p.errno == p.errno
            && PhaseOf(out.p).Idle? && MarkIn(out.p.state).NoMark? && !BodyMark(out.p.state)
  {
    hide KeepsAlive;
  }

  /** After the headers: either the message is complete or a body follows. */
  lemma HeadersDoneOrder(p: Parser, c: byte)
    requires p.errno.OK? && p.state.HeadersDone? && c == LF
    ensures var out := HeadersDoneStep(p, c);
            && out.p.errno.OK? && |out.acts| >= 1 && out.acts[0] == Recount
            && MarkIn(out.p.state).NoMark?
            && (|| (&& out.acts == [Recount, Notify(MessageComplete)] && PhaseOf(out.p).Idle?
                    && (p.upgrade || F_SKIPBODY in p.flags || (F_CHUNKED !in p.flags && p.contentLength in {0, ULLONG_MAX})))
                || (&& out.acts == [Recount] && !out.exit && (p.contentLength > 0 || F_CHUNKED in p.flags)
                    && PhaseOf(out.p) == BodyPhase(HeadersComplete(F_CHUNKED in p.flags, p.contentLength, p.upgrade))))
  {
    hide Complete, NeedsEof, HasBody;
    CompleteOrder(p, true);
    CompleteOrder(p, false);
  }

  lemma HeadersAlmostDoneOrder(p: Parser, c: byte, answer: Answer)
    requires Sound(p) && p.errno.OK? && p.state.HeadersAlmostDone?
    ensures var out := HeadersAlmostDoneStep(p, c, answer);
            if out.p.errno.OK? then EndsHeaders(p, out.p, out.acts, out.exit, answer) else Errs(out)
  {
    hide Complete, HeadersDoneStep, MatcherOk, MethodOk, NumbersOk, LengthOk;
    CompleteOrder(p.(state := Body(MessageDone)), p.upgrade);
    if c == LF && F_TRAILING !in p.flags {
      var q := p.(state := HeadersDone,
                  upgrade := {F_UPGRADE, F_CONNECTION_UPGRADE} <= p.flags || p.line.meth == CONNECT);
      HeadersDoneOrder(Answered(q, answer), c);
    }
  }

  lemma FieldStartOrder(p: Parser, c: byte, answer: Answer)
    requires Sound(p) && p.errno.OK? && p.state == Headers(HeaderFieldStart)
    ensures var out := HeaderFieldStartStep(p, c, answer);
            if out.p.errno.OK? then AfterEmptyValue(p, out.p, out.acts, out.exit, answer) else Errs(out)
  {
    hide HeadersAlmostDoneStep, TokenOf, Sound;
    HeadersEnd(p);
    if c == LF {
      HeadersAlmostDoneOrder(p.(state := HeadersAlmostDone), c, answer);
    }
  }

  /** Within a header line the phase cannot change. */
  predicate InHeader(p: Parser, out: Out) {
    if out.p.errno.OK? then
      && out.p.state.Headers? && (F_TRAILING in out.p.flags <==> F_TRAILING in p.flags) && !out.exit
      && (|| (out.acts == [] && MarkIn(out.p.state) == MarkIn(p.state))
          || (out.acts == [SetMark(VALUE)] && MarkIn(p.state).NoMark? && out.p.state == Headers(Value))
          || (out.acts == [Flush(VALUE)] && p.state == Headers(Value) && MarkIn(out.p.state).NoMark?)
          || (out.acts == [Flush(FIELD)] && p.state == Headers(HeaderField) && MarkIn(out.p.state).NoMark?))
    else Errs(out)
  }

  lemma InHeaderOrder(p: Parser, out: Out, answer: Answer)
    requires p.errno.OK? && p.state.Headers? && InHeader(p, out)
    ensures Outcome(p, out, answer)
  {
    hide EndsHeaders, EmptyValue;
  }

  lemma FieldOrder(p: Parser, c: byte)
    requires p.errno.OK? && p.state == Headers(HeaderField)
    ensures InHeader(p, HeaderFieldStep(p, c))
  {
    hide TokenOf, FieldNext;
  }

  lemma ValueStartOrder(p: Parser, q: Parser, c: byte)
    requires p.errno.OK? && p.state.Headers? && MarkIn(p.state).NoMark? && q == p.(state := q.state)
    ensures InHeader(p, ValueStartStep(q, c))
  {
    hide StartMatcher;
  }

  lemma ValueOrder(p: Parser, c: byte, unchecked: bool)
    requires p.errno.OK? && p.state == Headers(Value)
    ensures InHeader(p, ValueStep(p, c, unchecked))
  {
    hide ValueMatcher, ValueIndex, IsHeaderChar;
  }

  /** The end of a line, and what comes after it. */
  lemma SettledOrder(p: Parser, c: byte, answer: Answer)
    requires Sound(p) && p.errno.OK? && (p.state == Headers(ValueLws) || p.state == Headers(ValueDiscardLws))
    ensures var out := HeaderFieldStartStep(SettleLine(p).(state := Headers(HeaderFieldStart)), c, answer);
            if out.p.errno.OK? then AfterEmptyValue(p, out.p, out.acts, out.exit, answer) else Errs(out)
  {
    hide HeaderFieldStartStep, SettleLine, Sound;
    SettleLineKeeps(p);
    LineSettled(p);
    FieldStartOrder(SettleLine(p).(state := Headers(HeaderFieldStart)), c, answer);
  }

  lemma HeaderOrder(p: Parser, s: FieldState, c: byte, answer: Answer, unchecked: bool)
    requires Sound(p) && p.errno.OK? && p.state == Headers(s)
    ensures Outcome(p, HeaderStep(p, s, c, answer, unchecked), answer)
  {
    hide HeaderFieldStartStep, HeaderFieldStep, ValueStartStep, ValueStep, SettleLine, Sound, EndsHeaders;
    var out := HeaderStep(p, s, c, answer, unchecked);
    match s
    case HeaderFieldStart => FieldStartOrder(p, c, answer);
    case HeaderField =>
      FieldOrder(p, c);
      InHeaderOrder(p, out, answer);
    case Value =>
      ValueOrder(p, c, unchecked);
      InHeaderOrder(p, out, answer);
    case ValueDiscardWs =>
      ValueStartOrder(p, p, c);
      InHeaderOrder(p, out, answer);
    case ValueLws =>
      if IsBlank(c) {
        ValueStartOrder(p, p.(state := Headers(ValueStart)), c);
        InHeaderOrder(p, out, answer);
      } else {
        SettledOrder(p, c, answer);
      }
    case ValueDiscardLws =>
      if IsBlank(c) {
        InHeaderOrder(p, out, answer);
      } else {
        SettledOrder(p, c, answer);
        EmptyValueOrder(p, HeaderFieldStartStep(SettleLine(p).(state := Headers(HeaderFieldStart)), c, answer), answer);
      }
    case ValueStart =>
      ValueStartOrder(p, p, c);
      InHeaderOrder(p, out, answer);
    case _ => InHeaderOrder(p, out, answer);
  }

  lemma EmptyValueOrder(p: Parser, rest: Out, answer: Answer)
    requires p.state == Headers(ValueDiscardLws)
    requires if rest.p.errno.OK? then AfterEmptyValue(p, rest.p, rest.acts, rest.exit, answer) else Errs(rest)
    ensures Outcome(p, After([SetMark(VALUE), Flush(VALUE)], rest), answer)
  {
    hide AfterEmptyValue;
    var acts := [SetMark(VALUE), Flush(VALUE)] + rest.acts;
    assert acts[2..] == rest.acts;
    if !rest.p.errno.OK? {
      assert acts == EMPTY_VALUE;
    }
  }

  lemma ChunkHeadOrder(p: Parser, s: ChunkState, c: byte, answer: Answer)
    requires p.errno.OK? && p.state == ChunkHead(s) && F_TRAILING !in p.flags
    ensures Outcome(p, ChunkHeaderStep(p, s, c), answer)
  {
    hide Unhex, EndsHeaders, EmptyValue;
  }

  lemma BodyOrder(p: Parser, s: BodyState, c: byte, answer: Answer)
    requires Sound(p) && p.errno.OK? && p.state == Body(s)
    ensures Outcome(p, BodyStep(p, s, c), answer)
  {
    hide Complete, MatcherOk, MethodOk, NumbersOk, ChunkedOk;
    CompleteOrder(OneLess(p).(state := Body(MessageDone)), p.upgrade);
  }

  /** Every step of a sound parser has one of the shapes above. */
  lemma StepOrder(p: Parser, c: byte, answer: Answer, unchecked: bool)
    requires Sound(p) && p.errno.OK?
    ensures Outcome(p, Step(p, c, answer, unchecked), answer)
  {
    hide StartStep, StatusLineStep, MethodStep, UrlStep, VersionStep, HeaderStep, HeadersAlmostDoneStep, Outcome,
         HeadersDoneStep, ChunkHeaderStep, BodyStep, MatcherOk, MethodOk, LengthOk, NumbersOk, EndsHeaders;
    match p.state
    case Start(s) => StartOrder(p, s, c, answer);
    case StatusLine(s) => StatusLineOrder(p, s, c, answer);
    case Method => MethodOrder(p, c, answer);
    case Url(s) => UrlOrder(p, s, c, answer);
    case Version(s) => VersionOrder(p, s, c, answer);
    case Headers(s) => HeaderOrder(p, s, c, answer, unchecked);
    case HeadersAlmostDone =>
      HeadersAlmostDoneOrder(p, c, answer);
      EndsHeadersOutcome(p, HeadersAlmostDoneStep(p, c, answer), answer);
    case HeadersDone => assert false;
    case ChunkHead(s) => ChunkHeadOrder(p, s, c, answer);
    case Body(s) => BodyOrder(p, s, c, answer);
  }

  lemma EndsHeadersOutcome(p: Parser, out: Out, answer: Answer)
    requires p.state.HeadersAlmostDone?
    requires if out.p.errno.OK? then EndsHeaders(p, out.p, out.acts, out.exit, answer) else Errs(out)
    ensures Outcome(p, out, answer)
  {
  }
}
