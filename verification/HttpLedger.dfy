/** The bytes of a body that the application gets are those the headers or the
    chunk sizes have announced (section 4.4 of RFC 2616). */
module HttpLedger {
  import opened HttpTypes
  import opened HttpStep
  import opened HttpInvariant
  import opened HttpRun
  import opened HttpOrder
  import opened HttpSplit

  /** What an account kept from the callbacks alone says is to come. */
  datatype Ledger =
    | Between
    | Told(note: Note)
    | Owing(left: nat)
    | Unending
    | AwaitSize
    | ChunkOwing(left: nat)
    | InTrailer
    | TrailerOver
    | Broken

  /** `n` bytes of body, taken off what is owed. */
  function Pay(l: Ledger, n: nat): Ledger {
    match l
    case Told(note) =>
      if !note.HeadersComplete? || note.chunked then Broken
      else if note.length == ULLONG_MAX then Unending
      else if n <= note.length then Owing(note.length - n) else Broken
    case Owing(left) => if n <= left then Owing(left - n) else Broken
    case ChunkOwing(left) => if n <= left then ChunkOwing(left - n) else Broken
    case Unending => Unending
    case _ => Broken
  }

  function TakeSize(n: nat): Ledger {
    if n == 0 then InTrailer else ChunkOwing(n)
  }

  function AfterNote(l: Ledger, note: Note, answer: Answer): Ledger {
    match note
    case MessageBegin => if l.Between? then l else Broken
    case HeadersComplete(_, _, _) => if l.Between? then Told(note) else Broken
    case ChunkHeader(n) =>
      if l.AwaitSize? || (l.Told? && l.note.HeadersComplete? && l.note.chunked) then TakeSize(n) else Broken
    case ChunkComplete =>
      if l == ChunkOwing(0) then AwaitSize else if l.InTrailer? then TrailerOver else Broken
    case MessageComplete =>
      if l == Owing(0) || l.Unending? || l.TrailerOver? || (l.Told? && Bodiless(l.note, answer)) then Between else Broken
  }

  function Post(l: Ledger, e: Event, answer: Answer): Ledger {
    match e
    case Notice(note) => AfterNote(l, note, answer)
    case Data(kind, bytes) => if kind.BODY? then Pay(l, |bytes|) else if l.Between? || l.InTrailer? then l else Broken
  }

  function Track(log: seq<Event>, answer: Answer): Ledger {
    if log == [] then Between else Post(Track(log[..|log| - 1], answer), log[|log| - 1], answer)
  }

  lemma PostJoin(l: Ledger, kind: DataKind, a: seq<byte>, b: seq<byte>, answer: Answer)
    ensures Post(Post(l, Data(kind, a), answer), Data(kind, b), answer) == Post(l, Data(kind, a + b), answer)
  {
  }

  lemma TrackSnoc(log: seq<Event>, e: Event, answer: Answer)
    ensures Track(log + [e], answer) == Post(Track(log, answer), e, answer)
  {
    assert (log + [e])[..|log + [e]| - 1] == log;
  }

  /** Joining adjacent data does not show in the account. */
  lemma TrackEmit(log: seq<Event>, kind: DataKind, bytes: seq<byte>, answer: Answer)
    ensures Track(Emit(log, kind, bytes), answer) == Post(Track(log, answer), Data(kind, bytes), answer)
  {
    hide Post;
    var n := |log| - 1;
    if LastIs(log, kind) {
      TrackSnoc(log[..n], Data(kind, log[n].bytes + bytes), answer);
      PostJoin(Track(log[..n], answer), kind, log[n].bytes, bytes, answer);
      assert Data(kind, log[n].bytes) == log[n];
    } else {
      TrackSnoc(log, Data(kind, bytes), answer);
    }
  }

  /** The account agrees with what the parser expects. */
  predicate Agree(l: Ledger, phase: Phase) {
    match phase
    case Idle => l.Between?
    case Head => l.Between?
    case Trailer => l.InTrailer?
    case Sizing => l.AwaitSize? || (l.Told? && l.note.HeadersComplete? && l.note.chunked)
    case InChunk(left) => l == ChunkOwing(left)
    case InBody(left) =>
      l == Owing(left)
      || (l.Told? && l.note.HeadersComplete? && !l.note.chunked && l.note.length == left && left != ULLONG_MAX)
    case ToEof =>
      l.Unending? || (l.Told? && l.note.HeadersComplete? && !l.note.chunked && l.note.length == ULLONG_MAX)
  }

  lemma SingleBooks(p: Parser, q: Parser, acts: seq<Action>, log: seq<Event>, c: byte, answer: Answer)
    requires Quiet(p, q, acts) || Begins(p, q, acts) || SetsMark(p, q, acts) || Flushes(p, q, acts)
    requires !p.state.Body? && (MarkIn(p.state).On? ==> PhaseOf(p).Head? || PhaseOf(p).Trailer?)
    requires Agree(Track(log, answer), PhaseOf(p))
    ensures Agree(Track(Hear(log, MarkIn(p.state), acts, c), answer), PhaseOf(q))
  {
    hide PhaseOf, Opening, Track;
    var m := MarkIn(p.state);
    if |acts| == 1 {
      assert acts == [acts[0]];
      HeardOne(log, m, acts[0], c);
      if acts[0].Notify? {
        TrackSnoc(log, Notice(acts[0].note), answer);
      } else if acts[0].SetMark? {
        EmitAppend(log, acts[0].kind, [], [c]);
        TrackEmit(log, acts[0].kind, [] + [c], answer);
      }
    } else if m.On? {
      assert m.kind != BODY by { MarksNoBody(p.state); }
      TrackEmit(log, m.kind, [c], answer);
    }
  }

  lemma MarksNoBody(s: State)
    ensures MarkIn(s) != On(BODY)
  {
  }

  lemma EndsHeadersBooks(p: Parser, q: Parser, acts: seq<Action>, exit: bool, log: seq<Event>, c: byte, answer: Answer)
    requires EndsHeaders(p, q, acts, exit, answer) && Agree(Track(log, answer), PhaseOf(p))
    ensures Agree(Track(Hear(log, NoMark, acts, c), answer), PhaseOf(q))
  {
    hide PhaseOf, Opening, Track, Bodiless;
    var note := acts[0].note;
    TrackSnoc(log, Notice(note), answer);
    if |acts| == 2 {
      assert acts == [acts[0], acts[1]];
      HeardTwo(log, NoMark, acts[0], acts[1], c);
      if acts[1].Notify? {
        TrackSnoc(log + [Notice(note)], Notice(acts[1].note), answer);
      }
    } else {
      assert acts == [acts[0]] + [acts[1], acts[2]];
      HeardMore(log, NoMark, acts[0], [acts[1], acts[2]], c);
      HeardTwo(log + [Notice(note)], NoMark, acts[1], acts[2], c);
      TrackSnoc(log + [Notice(note)], Notice(MessageComplete), answer);
    }
  }

  lemma EmptyValueBooks(p: Parser, q: Parser, acts: seq<Action>, exit: bool, log: seq<Event>, c: byte, answer: Answer)
    requires EmptyValue(p, q, acts, exit, answer) && !p.state.Body? && Agree(Track(log, answer), PhaseOf(p))
    ensures Agree(Track(Hear(log, NoMark, acts, c), answer), PhaseOf(q))
  {
    hide EndsHeaders, Quiet, SetsMark, PhaseOf, Opening, Track;
    var rest := acts[2..];
    var empty := Emit(log, VALUE, []);
    assert acts == [SetMark(VALUE)] + ([Flush(VALUE)] + rest);
    HeardMore(log, NoMark, SetMark(VALUE), [Flush(VALUE)] + rest, c);
    HeardMore(empty, On(VALUE), Flush(VALUE), rest, c);
    TrackEmit(log, VALUE, [], answer);
    if EndsHeaders(p, q, rest, exit, answer) {
      EndsHeadersBooks(p, q, rest, exit, empty, c, answer);
    } else {
      SingleBooks(p, q, rest, empty, c, answer);
    }
  }

  lemma TellsSizeBooks(p: Parser, q: Parser, acts: seq<Action>, log: seq<Event>, c: byte, answer: Answer)
    requires TellsSize(p, q, acts) && Agree(Track(log, answer), PhaseOf(p))
    ensures Agree(Track(Hear(log, NoMark, acts, c), answer), PhaseOf(q))
  {
    hide PhaseOf, Opening, Track;
    HeardTwo(log, NoMark, acts[0], acts[1], c);
    TrackSnoc(log, Notice(ChunkHeader(p.contentLength)), answer);
  }

  lemma OutsideBooks(p: Parser, out: Out, log: seq<Event>, c: byte, answer: Answer)
    requires OutsideOrderly(p, out, answer) && !p.state.Body? && Agree(Track(log, answer), PhaseOf(p))
    requires MarkIn(p.state).On? ==> PhaseOf(p).Head? || PhaseOf(p).Trailer?
    ensures Agree(Track(Hear(log, MarkIn(p.state), out.acts, c), answer), PhaseOf(out.p))
  {
    hide EndsHeaders, EmptyValue, Quiet, Begins, SetsMark, Flushes, PhaseOf, Hear, Agree, Opening, Track;
    if EndsHeaders(p, out.p, out.acts, out.exit, answer) {
      EndsHeadersBooks(p, out.p, out.acts, out.exit, log, c, answer);
      EndsHeadersUnmarked(p, out.p, out.acts, out.exit, answer);
    } else if EmptyValue(p, out.p, out.acts, out.exit, answer) {
      EmptyValueBooks(p, out.p, out.acts, out.exit, log, c, answer);
      EmptyValueUnmarked(p, out.p, out.acts, out.exit, answer);
    } else if TellsSize(p, out.p, out.acts) {
      TellsSizeBooks(p, out.p, out.acts, log, c, answer);
    } else {
      SingleBooks(p, out.p, out.acts, log, c, answer);
    }
  }

  lemma ByteBooks(p: Parser, q: Parser, acts: seq<Action>, log: seq<Event>, c: byte, answer: Answer)
    requires TakesBodyByte(p, q, acts) && Agree(Track(log, answer), PhaseOf(p))
    ensures Agree(Track(Hear(log, NoMark, acts, c), answer), PhaseOf(q))
  {
    hide PhaseOf, Track, Emit;
    HeardOne(log, NoMark, SetMark(BODY), c);
    EmitAppend(log, BODY, [], [c]);
    TrackEmit(log, BODY, [] + [c], answer);
  }

  lemma LastByteBooks(p: Parser, q: Parser, acts: seq<Action>, log: seq<Event>, c: byte, answer: Answer)
    requires TakesLastByte(p, q, acts) && Agree(Track(log, answer), PhaseOf(p))
    ensures Agree(Track(Hear(log, NoMark, acts, c), answer), PhaseOf(q))
  {
    hide PhaseOf, Track, Emit;
    assert acts == [SetMark(BODY)] + [FlushThrough(BODY), Notify(MessageComplete)];
    HeardMore(log, NoMark, SetMark(BODY), [FlushThrough(BODY), Notify(MessageComplete)], c);
    HeardTwo(Emit(log, BODY, []), On(BODY), FlushThrough(BODY), Notify(MessageComplete), c);
    EmitAppend(log, BODY, [], [c]);
    TrackEmit(log, BODY, [] + [c], answer);
    TrackSnoc(Emit(log, BODY, [] + [c]), Notice(MessageComplete), answer);
  }

  lemma ChunkEndBooks(p: Parser, q: Parser, acts: seq<Action>, log: seq<Event>, c: byte, answer: Answer)
    requires EndsChunk(p, q, acts) && Agree(Track(log, answer), PhaseOf(p))
    ensures Agree(Track(Hear(log, NoMark, acts, c), answer), PhaseOf(q))
  {
    hide PhaseOf, Track, Emit;
    if |acts| == 1 {
      HeardOne(log, NoMark, acts[0], c);
    } else {
      HeardTwo(log, NoMark, acts[0], acts[1], c);
      TrackSnoc(log, Notice(ChunkComplete), answer);
    }
  }

  lemma BodyBooks(p: Parser, out: Out, m: Mark, log: seq<Event>, c: byte, answer: Answer)
    requires InBodyOrderly(p, out) && p.state.Body? && MarkFits(m, p.state) && Agree(Track(log, answer), PhaseOf(p))
    requires m == On(BODY) ==> LastIs(log, BODY)
    ensures Agree(Track(Hear(log, m, out.acts, c), answer), PhaseOf(out.p))
  {
    hide PhaseOf, Opening, Track, Agree, Hear, TakesBodyByte, TakesLastByte, EndsChunk;
    BodyMarks(p, out, m, log, c);
    assert m == NoMark || m == On(BODY) by { BodyUnmarked(p.state); }
    if TakesBodyByte(p, out.p, out.acts) {
      ByteBooks(p, out.p, out.acts, log, c, answer);
    } else if TakesLastByte(p, out.p, out.acts) {
      LastByteBooks(p, out.p, out.acts, log, c, answer);
    } else {
      ChunkEndBooks(p, out.p, out.acts, log, c, answer);
    }
  }

  lemma BodyUnmarked(s: State)
    requires s.Body?
    ensures MarkIn(s).NoMark?
  {
  }

  lemma HeadMarks(p: Parser)
    requires MarkIn(p.state).On?
    ensures PhaseOf(p).Head? || PhaseOf(p).Trailer?
  {
  }

  // ----- Calls -----

  /** During and after a call the account agrees with the parser; after an error it is at least not broken. */
  predicate Books(a: Call, answer: Answer) {
    if a.p.errno.OK? then
      && Sound(a.p) && MarkFits(MarkOf(a.live), a.p.state) && (a.exit ==> a.live.Unmarked?)
      && Agree(Track(View(a.log, a.live), answer), PhaseOf(a.p))
    else !Track(a.log, answer).Broken?
  }

  lemma AgreeIntact(l: Ledger, phase: Phase)
    requires Agree(l, phase)
    ensures !l.Broken?
  {
  }

  /** Data that is marked but not handed out cannot break the account. */
  lemma WithoutMarked(log: seq<Event>, live: Live, answer: Answer)
    requires !Track(View(log, live), answer).Broken?
    ensures !Track(log, answer).Broken?
  {
    if live.Marked? {
      TrackEmit(log, live.kind, live.bytes, answer);
    }
  }

  lemma MarkedLast(log: seq<Event>, live: Live)
    requires live.Marked?
    ensures LastIs(View(log, live), live.kind)
  {
    EmitAppend(log, live.kind, live.bytes, []);
  }

  lemma ErrorBooks(a: Call, out: Out, c: byte, answer: Answer)
    requires Books(a, answer) && a.p.errno.OK? && ErrsOrderly(a.p, out)
    ensures !Track(Perform(a.log, a.live, out.acts, c).0, answer).Broken?
  {
    hide Sound, PhaseOf, Track;
    AgreeIntact(Track(View(a.log, a.live), answer), PhaseOf(a.p));
    WithoutMarked(a.log, a.live, answer);
    if out.acts != [] {
      assert a.live == Unmarked;
      assert out.acts[1..] == [Flush(VALUE)] && out.acts[1..][1..] == [];
      assert Perform(a.log, Marked(VALUE, []), [Flush(VALUE)], c).0 == Emit(a.log, VALUE, []);
      TrackEmit(a.log, VALUE, [], answer);
      DiscardPhase(a.p);
    }
  }

  lemma DiscardPhase(p: Parser)
    requires p.state == Headers(ValueDiscardLws)
    ensures PhaseOf(p).Head? || PhaseOf(p).Trailer?
  {
  }

  lemma AdvanceBooks(a: Call, c: byte, answer: Answer)
    requires Books(a, answer)
    ensures Books(Advance(a, c, answer), answer)
  {
    hide Step, Sound, PhaseOf, Track, Agree, Hear, Perform, MarkIn, BodyMark, Emit, ErrsOrderly, InBodyOrderly, OutsideOrderly;
    if Going(a) {
      var out := Step(a.p, c, answer, a.skipping);
      StepOrder(a.p, c, answer, a.skipping);
      if !out.p.errno.OK? {
        ErrorBooks(a, out, c, answer);
      } else {
        StepSound(a.p, c, answer, a.skipping);
        var m := MarkOf(a.live);
        var view := View(a.log, a.live);
        if a.live.Marked? {
          MarkedLast(a.log, a.live);
        }
        StepMarks(a.p, out, answer, m, view, c);
        CoverHears(a.log, a.live, out.acts, c);
        StepBooks(a.p, out, m, view, c, answer);
        if out.exit {
          ExitIdle(a.p, out, answer);
          IdleUnmarked(out.p);
        }
      }
    }
  }

  /** The parser leaves the stream only where a message is complete. */
  lemma ExitIdle(p: Parser, out: Out, answer: Answer)
    requires Orderly(p, out, answer) && out.exit
    ensures PhaseOf(out.p).Idle?
  {
    hide PhaseOf;
    if !p.state.Body? && EmptyValue(p, out.p, out.acts, out.exit, answer) {
      assert EndsHeaders(p, out.p, out.acts[2..], out.exit, answer);
    }
  }

  lemma IdleUnmarked(p: Parser)
    requires PhaseOf(p).Idle?
    ensures MarkFits(NoMark, p.state) && !MarkFits(On(BODY), p.state) && MarkIn(p.state).NoMark?
  {
  }

  lemma StepBooks(p: Parser, out: Out, m: Mark, log: seq<Event>, c: byte, answer: Answer)
    requires Orderly(p, out, answer) && MarkFits(m, p.state) && Agree(Track(log, answer), PhaseOf(p))
    requires m == On(BODY) ==> LastIs(log, BODY)
    ensures Agree(Track(Hear(log, m, out.acts, c), answer), PhaseOf(out.p))
  {
    hide PhaseOf, Track, Agree, Hear, InBodyOrderly, OutsideOrderly, MarkIn;
    if p.state.Body? {
      BodyBooks(p, out, m, log, c, answer);
    } else {
      if MarkIn(p.state).On? {
        HeadMarks(p);
      }
      OutsideBooks(p, out, log, c, answer);
    }
  }

  lemma {:induction false} FeedBooks(a: Call, data: seq<byte>, answer: Answer)
    requires Books(a, answer)
    ensures Books(Feed(a, data, answer), answer)
    decreases |data|
  {
    hide Books, Advance;
    if data != [] {
      var n := |data| - 1;
      FeedBooks(a, data[..n], answer);
      AdvanceBooks(Feed(a, data[..n], answer), data[n], answer);
    }
  }

  /** The same between calls. */
  predicate Settled(p: Parser, log: seq<Event>, answer: Answer) {
    if p.errno.OK? then Sound(p) && LogOk(p, log) && Agree(Track(log, answer), PhaseOf(p))
    else !Track(log, answer).Broken?
  }

  lemma LeaveBooks(a: Call, answer: Answer)
    requires Books(a, answer)
    ensures Settled(Leave(a).p, Leave(a).log, answer)
  {
    hide Track, Agree, PhaseOf, Sound, Emit;
    if a.live.Marked? {
      MarkedLast(a.log, a.live);
    }
  }

  /** Any call, whatever its bytes, keeps the account. */
  lemma ExecuteBooks(p: Parser, nread: nat, log: seq<Event>, data: seq<byte>, answer: Answer)
    requires Settled(p, log, answer) && data != []
    ensures var r := Execute(p, nread, log, data, answer); Settled(r.p, r.log, answer)
  {
    hide Feed, Track, Agree, PhaseOf, Sound;
    if p.errno.OK? {
      var a := Enter(p, nread, log);
      EnterSim(p, nread, log);
      FeedBooks(a, data, answer);
      LeaveBooks(Feed(a, data, answer), answer);
    }
  }

  lemma {:induction false} CallsBooks(a: Call, pieces: seq<seq<byte>>, answer: Answer)
    requires Settled(a.p, a.log, answer) && forall i :: 0 <= i < |pieces| ==> pieces[i] != []
    ensures var r := Calls(a, pieces, answer); Settled(r.p, r.log, answer)
    decreases |pieces|
  {
    hide Settled, Execute;
    if pieces != [] {
      var n := |pieces| - 1;
      CallsBooks(a, pieces[..n], answer);
      var b := Calls(a, pieces[..n], answer);
      ExecuteBooks(b.p, b.nread, b.log, pieces[n], answer);
    }
  }

  lemma EofBooks(p: Parser, nread: nat, log: seq<Event>, answer: Answer)
    requires Settled(p, log, answer)
    ensures !Track(Execute(p, nread, log, [], answer).log, answer).Broken?
  {
    hide Sound, Track;
    if p.errno.OK? {
      AgreeIntact(Track(log, answer), PhaseOf(p));
    }
    TrackSnoc(log, Notice(MessageComplete), answer);
  }

  /** From the start, over any bytes cut in any way, and then the end of the stream,
      the account that the callbacks add up to is never broken. */
  lemma NeverBroken(kind: Kind, pieces: seq<seq<byte>>, answer: Answer)
    requires forall i :: 0 <= i < |pieces| ==> pieces[i] != []
    ensures var r := Calls(Call(Init(kind), 0, [], Unmarked, false, false, 0, false), pieces, answer);
            && !Track(r.log, answer).Broken?
            && !Track(Execute(r.p, r.nread, r.log, [], answer).log, answer).Broken?
  {
    hide Execute, Calls, Sound;
    var a := Call(Init(kind), 0, [], Unmarked, false, false, 0, false);
    InitSound(kind);
    assert Settled(a.p, a.log, answer);
    CallsBooks(a, pieces, answer);
    var r := Calls(a, pieces, answer);
    if r.p.errno.OK? {
      AgreeIntact(Track(r.log, answer), PhaseOf(r.p));
    }
    EofBooks(r.p, r.nread, r.log, answer);
  }

  // ----- What an unbroken account means -----

  function BodyBytes(log: seq<Event>): nat {
    if log == [] then 0
    else
      var e := log[|log| - 1];
      BodyBytes(log[..|log| - 1]) + if e.Data? && e.kind.BODY? then |e.bytes| else 0
  }

  lemma {:induction false} PrefixIntact(log: seq<Event>, k: nat, answer: Answer)
    requires k <= |log| && !Track(log, answer).Broken?
    ensures !Track(log[..k], answer).Broken?
    decreases |log|
  {
    if k < |log| {
      var n := |log| - 1;
      PrefixIntact(log[..n], k, answer);
      assert log[..n][..k] == log[..k];
    } else {
      assert log[..k] == log;
    }
  }

  lemma PrefixStep(log: seq<Event>, i: nat, answer: Answer)
    requires i < |log| && !Track(log, answer).Broken?
    ensures Track(log[..i + 1], answer) == Post(Track(log[..i], answer), log[i], answer)
    ensures !Track(log[..i + 1], answer).Broken?
  {
    PrefixIntact(log, i + 1, answer);
    assert log[..i + 1][..i] == log[..i];
  }

  /** From position `i` on there is only data up to position `j`. */
  predicate OnlyData(log: seq<Event>, i: nat, j: nat)
    requires i <= j <= |log|
  {
    forall k :: i <= k < j ==> log[k].Data?
  }

  /** Data lowers what is owed by its length. */
  lemma {:induction false} DataPays(log: seq<Event>, i: nat, j: nat, answer: Answer)
    requires 0 < i <= j <= |log| && OnlyData(log, i, j) && !Track(log[..j], answer).Broken?
    requires Track(log[..i], answer).Told? || Track(log[..i], answer).ChunkOwing?
    ensures var l := Track(log[..i], answer);
            var n := BodyBytes(log[i..j]);
            if i == j then n == 0
            else Pay(l, n) == Track(log[..j], answer)
    decreases j
  {
    hide Track;
    if i < j {
      assert log[..j][..j - 1] == log[..j - 1] && log[i..j][..j - 1 - i] == log[i..j - 1];
      PrefixStep(log[..j], j - 1, answer);
      assert log[..j][..j] == log[..j];
      DataPays(log, i, j - 1, answer);
    }
  }

  /** A message without chunks is complete when exactly the announced bytes have come,
      unless it has no body or one that lasts to the end of the stream. */
  lemma BodyConserved(log: seq<Event>, i: nat, j: nat, answer: Answer)
    requires i < j < |log| && !Track(log, answer).Broken? && OnlyData(log, i + 1, j)
    requires log[i].Notice? && log[i].note.HeadersComplete? && log[j] == Notice(MessageComplete)
    ensures var note := log[i].note;
            var n := BodyBytes(log[i + 1..j]);
            || (i + 1 == j && Bodiless(note, answer))
            || (!note.chunked && (n == note.length || note.length == ULLONG_MAX))
  {
    hide Track, BodyBytes;
    PrefixStep(log, i, answer);
    PrefixStep(log, j, answer);
    PrefixIntact(log, j, answer);
    DataPays(log, i + 1, j, answer);
  }

  /** A chunk is complete when exactly the announced bytes have come. */
  lemma ChunkConserved(log: seq<Event>, i: nat, j: nat, answer: Answer)
    requires i < j < |log| && !Track(log, answer).Broken? && OnlyData(log, i + 1, j)
    requires log[i].Notice? && log[i].note.ChunkHeader? && log[i].note.size > 0 && log[j] == Notice(ChunkComplete)
    ensures BodyBytes(log[i + 1..j]) == log[i].note.size
  {
    hide Track, BodyBytes;
    PrefixStep(log, i, answer);
    PrefixStep(log, j, answer);
    PrefixIntact(log, j, answer);
    DataPays(log, i + 1, j, answer);
  }
}
