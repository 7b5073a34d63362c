/** Messages written one after the other and parsed in calls that know the limit
    on the bytes of a header (app/http/HttpParser.cc). */
module HttpStream {
  import opened HttpTypes
  import opened HttpStep
  import opened HttpInvariant
  import opened HttpRun
  import opened HttpOrder
  import opened HttpSplit
  import opened HttpLength
  import opened HttpWords
  import opened HttpLimit
  import opened HttpRoundTrip
  import opened HttpFields
  import opened HttpMessages

  // ----- The count restarts only where the application is told -----

  /** Notifications other than that of a new message. */
  function Milestones(log: seq<Event>): nat {
    if log == [] then 0
    else
      var e := log[|log| - 1];
      Milestones(log[..|log| - 1]) + if e.Notice? && !e.note.MessageBegin? then 1 else 0
  }

  lemma MilestonesMore(log: seq<Event>, e: Event)
    ensures Milestones(log + [e]) == Milestones(log) + if e.Notice? && !e.note.MessageBegin? then 1 else 0
  {
    assert (log + [e])[..|log|] == log;
  }

  lemma {:induction false} MilestonesAppend(a: seq<Event>, b: seq<Event>)
    ensures Milestones(a + b) == Milestones(a) + Milestones(b)
    decreases |b|
  {
    if b == [] {
      assert a + b == a;
    } else {
      var n := |b| - 1;
      MilestonesAppend(a, b[..n]);
      MilestonesMore(a + b[..n], b[n]);
      MilestonesMore(b[..n], b[n]);
      assert a + b == a + b[..n] + [b[n]] && b == b[..n] + [b[n]];
    }
  }

  lemma EmitMilestones(log: seq<Event>, kind: DataKind, bytes: seq<byte>)
    ensures Milestones(Emit(log, kind, bytes)) == Milestones(log)
  {
    var n := |log| - 1;
    if LastIs(log, kind) {
      MilestonesMore(log[..n], Data(kind, log[n].bytes + bytes));
    } else {
      MilestonesMore(log, Data(kind, bytes));
    }
  }

  function Gains(acts: seq<Action>): nat
    decreases |acts|
  {
    if acts == [] then 0
    else (if acts[0].Notify? && !acts[0].note.MessageBegin? then 1 else 0) + Gains(acts[1..])
  }

  lemma {:induction false} HeardMilestones(log: seq<Event>, m: Mark, acts: seq<Action>, c: byte)
    ensures Milestones(Heard(log, m, acts, c).0) == Milestones(log) + Gains(acts)
    decreases |acts|
  {
    hide Emit, Milestones;
    if acts != [] {
      var first := HearAction(log, m, acts[0], c);
      match acts[0] {
        case SetMark(k) => EmitMilestones(log, k, []);
        case FlushThrough(k) => EmitMilestones(log, k, [c]);
        case Notify(n) => MilestonesMore(log, Notice(n));
        case _ =>
      }
      HeardMilestones(first.0, first.1, acts[1..], c);
    }
  }

  /** An action that restarts the count comes with a notification. */
  lemma RecountGains(p: Parser, out: Out, answer: Answer)
    requires Orderly(p, out, answer) && Recount in out.acts
    ensures Gains(out.acts) >= 1
  {
    hide Opening, HttpOrder.Bodiless, BodyPhase;
    if !p.state.Body? && EmptyValue(p, out.p, out.acts, out.exit, answer) {
      var rest := out.acts[2..];
      assert out.acts == EMPTY_VALUE + rest;
      assert Recount in rest by {
        var i :| 0 <= i < |out.acts| && out.acts[i] == Recount;
        assert rest[i - 2] == Recount;
      }
      EndsGains(p, out.p, rest, out.exit, answer);
      assert out.acts[1..][1..] == rest;
      assert Gains(out.acts) == Gains(out.acts[1..]) && Gains(out.acts[1..]) == Gains(rest);
    } else if !p.state.Body? && EndsHeaders(p, out.p, out.acts, out.exit, answer) {
      EndsGains(p, out.p, out.acts, out.exit, answer);
    } else {
      assert |out.acts| >= 2 && out.acts[0] == Recount && out.acts[1].Notify?;
      assert out.acts[1..][0] == out.acts[1];
    }
  }

  lemma EndsGains(p: Parser, q: Parser, acts: seq<Action>, exit: bool, answer: Answer)
    requires AfterEmptyValue(p, q, acts, exit, answer) && Recount in acts
    ensures Gains(acts) >= 1
  {
    hide Opening, HttpOrder.Bodiless, BodyPhase;
  }

  /** A header does not turn into a body unless the count restarts. */
  lemma HeadStays(p: Parser, out: Out, answer: Answer)
    requires Orderly(p, out, answer) && !p.state.Body? && Recount !in out.acts && Sound(out.p)
    ensures !out.p.state.Body?
  {
    hide Opening, HttpOrder.Bodiless, BodyPhase, MatcherOk, MethodOk, LengthOk, ChunkedOk, NumbersOk;
    if EmptyValue(p, out.p, out.acts, out.exit, answer) {
      AfterStays(p, out.p, out.acts[2..], out.exit, answer);
    }
  }

  lemma AfterStays(p: Parser, q: Parser, acts: seq<Action>, exit: bool, answer: Answer)
    requires AfterEmptyValue(p, q, acts, exit, answer) && !p.state.Body? && Recount !in acts && Sound(q)
    ensures !q.state.Body?
  {
    hide Opening, HttpOrder.Bodiless, BodyPhase, MatcherOk, MethodOk, LengthOk, ChunkedOk, NumbersOk;
  }

  lemma ByteMilestones(s: Conn, c: byte, answer: Answer)
    requires Sound(s.p) && Alive(s) && Alive(Byte(s, c, answer))
    ensures var t := Byte(s, c, answer);
            var acts := Step(s.p, c, answer, false).acts;
            && Sound(t.p)
            && Milestones(t.log) >= Milestones(s.log) + (if Recount in acts then 1 else 0)
            && (!s.p.state.Body? && Recount !in acts ==> !t.p.state.Body?)
  {
    hide Sound, Step, Emit, Orderly, Milestones, Gains, Opening;
    var out := Step(s.p, c, answer, false);
    StepSound(s.p, c, answer, false);
    StepOrder(s.p, c, answer, false);
    var m := MarkOf(Opening(s.p.state));
    HeardMilestones(s.log, m, out.acts, c);
    var done := Heard(s.log, m, out.acts, c);
    if done.1.On? {
      EmitMilestones(done.0, done.1.kind, [c]);
    }
    if Recount in out.acts {
      RecountGains(s.p, out, answer);
    } else if !s.p.state.Body? {
      HeadStays(s.p, out, answer);
    }
  }

  /** Bytes of which the application has been told nothing but data and a beginning are all counted. */
  lemma {:induction false} HeadTally(s: Conn, n: nat, data: seq<byte>, answer: Answer)
    requires Sound(s.p) && Alive(Serial(s, data, answer))
    ensures var t := Serial(s, data, answer);
            && Sound(t.p) && Milestones(t.log) >= Milestones(s.log)
            && (!s.p.state.Body? && Milestones(t.log) == Milestones(s.log) ==>
                  !t.p.state.Body? && Tally(s, n, data, answer) == n + |data|)
    decreases |data|
  {
    hide Sound, Step, Byte, Milestones;
    if data != [] {
      var m := |data| - 1;
      assert data == data[..m] + [data[m]];
      PrefixAlive(s, data[..m], [data[m]], answer);
      HeadTally(s, n, data[..m], answer);
      ByteMilestones(Serial(s, data[..m], answer), data[m], answer);
    }
  }

  // ----- Bounds on the tally -----

  /** At no point is the tally more than `room`. */
  ghost predicate TallyMost(s: Conn, n: nat, data: seq<byte>, room: nat, answer: Answer) {
    forall i {:trigger data[..i]} :: 0 <= i <= |data| ==> Tally(s, n, data[..i], answer) <= room
  }

  lemma MostAppend(s: Conn, n: nat, x: seq<byte>, y: seq<byte>, room: nat, answer: Answer)
    requires TallyMost(s, n, x, room, answer)
    requires TallyMost(Serial(s, x, answer), Tally(s, n, x, answer), y, room, answer)
    ensures TallyMost(s, n, x + y, room, answer)
  {
    hide Tally, Serial;
    forall i | 0 <= i <= |x + y| ensures Tally(s, n, (x + y)[..i], answer) <= room {
      if i <= |x| {
        assert (x + y)[..i] == x[..i];
      } else {
        assert (x + y)[..i] == x + y[..i - |x|];
        TallyAppend(s, n, x, y[..i - |x|], answer);
      }
    }
  }

  lemma {:induction false} TallyGrows(s: Conn, n: nat, data: seq<byte>, answer: Answer)
    ensures Tally(s, n, data, answer) <= n + |data|
    decreases |data|
  {
    hide Step, Serial;
    if data != [] {
      TallyGrows(s, n, data[..|data| - 1], answer);
    }
  }

  lemma MostByLength(s: Conn, n: nat, data: seq<byte>, room: nat, answer: Answer)
    requires n + |data| <= room
    ensures TallyMost(s, n, data, room, answer)
  {
    hide Tally;
    forall i | 0 <= i <= |data| ensures Tally(s, n, data[..i], answer) <= room {
      TallyGrows(s, n, data[..i], answer);
    }
  }

  /** Bytes read in a body are not counted. */
  lemma {:induction false} BodyTally(s: Conn, n: nat, data: seq<byte>, answer: Answer)
    requires forall i {:trigger data[..i]} :: 0 <= i < |data| ==> Serial(s, data[..i], answer).p.state.Body?
    ensures Tally(s, n, data, answer) <= n
    decreases |data|
  {
    hide Step, Serial;
    if data != [] {
      var m := |data| - 1;
      forall i | 0 <= i < m ensures data[..m][..i] == data[..i] {
      }
      BodyTally(s, n, data[..m], answer);
    }
  }

  lemma MostInBody(s: Conn, n: nat, data: seq<byte>, room: nat, answer: Answer)
    requires n <= room && forall i {:trigger data[..i]} :: 0 <= i < |data| ==> Serial(s, data[..i], answer).p.state.Body?
    ensures TallyMost(s, n, data, room, answer)
  {
    hide Tally, Serial;
    forall i | 0 <= i <= |data| ensures Tally(s, n, data[..i], answer) <= room {
      forall j | 0 <= j < i ensures data[..i][..j] == data[..j] {
      }
      BodyTally(s, n, data[..i], answer);
    }
  }

  // ----- The tally of a message -----

  /** The first line, the headers and the blank line. */
  function HeadSize(m: Message): nat
    requires MessageOk(m)
  {
    |OpenerBytes(m.opener, m.major, m.minor) + HeaderBytes(m)| + |CRLF|
  }

  function HeadBytes(m: Message): (b: seq<byte>)
    requires MessageOk(m)
    ensures |b| == HeadSize(m)
  {
    OpenerBytes(m.opener, m.major, m.minor) + HeaderBytes(m) + CRLF
  }

  lemma HeadAndBody(m: Message)
    requires MessageOk(m)
    ensures Write(m, Continue) == HeadBytes(m) + BodyBytes(m, Continue)
  {
    hide OpenerBytes, HeaderBytes, BodyBytes, OpenerOk, FieldsOk, PayloadOk;
    var a, b, c := OpenerBytes(m.opener, m.major, m.minor), HeaderBytes(m), BodyBytes(m, Continue);
    assert a + (b + (CRLF + c)) == a + b + CRLF + c;
  }

  lemma {:induction false} FieldsQuiet(fs: seq<Field>)
    requires FieldsOk(fs)
    ensures Milestones(FieldsEvents(fs)) == 0
    decreases |fs|
  {
    hide FieldOk, ValueOf, NameOf;
    if fs != [] {
      var n := |fs| - 1;
      FieldsQuiet(fs[..n]);
      LineQuiet(NameOf(fs[n]), ValueOf(fs[n]));
      MilestonesAppend(FieldsEvents(fs[..n]), LineEvents(NameOf(fs[n]), ValueOf(fs[n])));
    }
  }

  lemma LineQuiet(name: seq<byte>, value: seq<byte>)
    ensures Milestones(LineEvents(name, value)) == 0
  {
    MilestonesMore([], Data(FIELD, name));
    MilestonesMore([Data(FIELD, name)], Data(VALUE, value));
    assert [] + [Data(FIELD, name)] == [Data(FIELD, name)];
    assert LineEvents(name, value) == [Data(FIELD, name)] + [Data(VALUE, value)];
  }

  lemma OpenerQuiet(o: Opener)
    ensures Milestones(OpenerEvents(o)) == 0
  {
    var begin: seq<Event> := [Notice(MessageBegin)];
    MilestonesMore([], Notice(MessageBegin));
    assert [] + begin == begin;
    match o {
      case Request(_, _, target) => MilestonesMore(begin, Data(URL, HttpTarget.TargetBytes(target)));
      case Response(_, reason) => MilestonesMore(begin, Data(STATUS, reason));
    }
    assert begin + [] == begin;
  }

  /** What a head tells before its last byte. */
  lemma HeadQuiet(m: Message)
    requires MessageOk(m)
    ensures Milestones(HeadEvents(m)) == 0
  {
    hide OpenerEvents, FieldsEvents, LineEvents, Milestones, OpenerOk, FieldOk;
    OpenerQuiet(m.opener);
    FieldsQuiet(m.before);
    FieldsQuiet(m.after);
    MilestonesNothing();
    match m.payload {
      case Nothing =>
      case Sized(name, b) => LineQuiet(name, DigitsOf(|b|));
      case Chunks(name, coding, _, _) => LineQuiet(name, coding);
    }
    MilestonesAppend(FieldsEvents(m.before), FramingEvents(m.payload));
    MilestonesAppend(FieldsEvents(m.before) + FramingEvents(m.payload), FieldsEvents(m.after));
    MilestonesAppend(OpenerEvents(m.opener), FieldsEvents(m.before) + FramingEvents(m.payload) + FieldsEvents(m.after));
  }

  lemma MilestonesNothing()
    ensures Milestones([]) == 0
  {
  }

  /** All bytes of a head are counted; its last one restarts the count. */
  lemma HeadCounts(s: Conn, n: nat, m: Message)
    requires MessageOk(m) && Ready(s, KindOf(m.opener)) && Sound(s.p)
    ensures forall i :: 0 <= i < HeadSize(m) ==> Tally(s, n, HeadBytes(m)[..i], Continue) == n + i
    ensures Tally(s, n, HeadBytes(m), Continue) == 0
    ensures var t := Serial(s, HeadBytes(m)[..HeadSize(m) - 1], Continue);
            Alive(t) && t.p.state == HeadersAlmostDone
  {
    hide Serial, Tally, Sound, OpenerBytes, HeaderBytes, OpenerOk, FieldsOk, PayloadOk, Milestones, Settled, Knows, HeadEvents;
    var t := HeadRead(s, m, Continue);
    HeadQuiet(m);
    MilestonesAppend(s.log, HeadEvents(m));
    var x := OpenerBytes(m.opener, m.major, m.minor) + HeaderBytes(m);
    var y := x + [CR];
    var z := HeadBytes(m);
    assert z == x + CRLF && z[..|y|] == y && z[|y|] == LF && z == y + [LF] by { assert CRLF == [CR] + [LF]; }
    SerialAppend(s, x, [CR], Continue);
    ReturnRead(t, Continue);
    SettledAlive(t);
    ReadyHead(s, KindOf(m.opener));
    forall i | 0 <= i < |z| ensures Tally(s, n, z[..i], Continue) == n + i {
      assert y == y[..i] + y[i..] && z[..i] == y[..i];
      PrefixAlive(s, y[..i], y[i..], Continue);
      HeadTally(s, n, y[..i], Continue);
      HeadTally(Serial(s, y[..i], Continue), 0, y[i..], Continue);
      SerialAppend(s, y[..i], y[i..], Continue);
    }
    LastTally(s, n, z, Continue);
    BlankRecounts(t, m);
  }

  lemma ReadyHead(s: Conn, kind: Kind)
    requires Ready(s, kind)
    ensures Alive(s) && !s.p.state.Body?
  {
  }

  lemma ReturnRead(t: Conn, answer: Answer)
    requires LineStart(t)
    ensures Serial(t, [CR], answer) == Conn(Settled(t).p.(state := HeadersAlmostDone), t.log, false)
  {
    hide Serial, Settled;
    assert [CR] == [CR] + [];
    LineBegins(t, CR, [], answer);
    SettledAlive(t);
    var s0 := Settled(t);
    Then(s0, CR, s0.p.(state := HeadersAlmostDone), [], answer);
    SerialNothing(Conn(s0.p.(state := HeadersAlmostDone), s0.log, false), answer);
  }

  lemma BlankRecounts(t: Conn, m: Message)
    requires LineStart(t) && MessageOk(m) && Knows(Settled(t).p, m)
    ensures Recount in Step(Settled(t).p.(state := HeadersAlmostDone), LF, Continue, false).acts
  {
    hide Settled, LineStart, MessageOk, Knows, HeadersAlmostDoneStep, Finishes, BlankState;
    var p := Settled(t).p.(state := HeadersAlmostDone);
    KnowsSame(Settled(t).p, p, m);
    BlankStep(p, m, Continue);
    var acts := [Notify(HeadNote(m))] + BlankActs(m, Continue);
    assert acts[1] == Recount;
  }

  /** Longer than any line between the head of a message and its end. */
  const LINE: nat := 18

  function Pow16(k: nat): nat {
    if k == 0 then 1 else 16 * Pow16(k - 1)
  }

  lemma {:induction false} HexShort(n: nat, k: nat)
    requires k > 0 && n < Pow16(k)
    ensures |HexOf(n)| <= k
    decreases k
  {
    assert Pow16(1) == 16 by { assert Pow16(0) == 1; }
    if n >= 16 {
      HexShort(n / 16, k - 1);
    }
  }

  lemma LineShort(n: nat)
    requires n <= MAX_HEX
    ensures |HexOf(n) + CRLF| <= LINE
  {
    hide HexOf;
    assert Pow16(4) == 0x1_0000 by { assert Pow16(2) == 256; }
    assert Pow16(8) == 0x1_0000_0000 by { assert Pow16(6) == 256 * Pow16(4); }
    assert Pow16(12) == 0x1_0000_0000_0000 by { assert Pow16(10) == 256 * Pow16(8); }
    assert Pow16(16) == 0x1_0000_0000_0000_0000 by { assert Pow16(14) == 256 * Pow16(12); }
    HexShort(n, 16);
  }

  lemma SizeReturn(s: Conn)
    requires InSize(s)
    ensures Serial(s, [CR], Continue) == Conn(s.p.(state := ChunkHead(ChunkSizeAlmostDone)), s.log, false)
  {
    hide Serial;
    var t := Conn(s.p.(state := ChunkHead(ChunkSizeAlmostDone)), s.log, false);
    assert [CR] == [CR] + [];
    Then(s, CR, t.p, [], Continue);
    SerialNothing(t, Continue);
  }

  /** The line with a chunk's size restarts the count. */
  lemma SizeMost(s: Conn, n: nat)
    requires AtSize(s) && n <= MAX_HEX
    ensures TallyMost(s, 0, HexOf(n) + CRLF, LINE, Continue) && Tally(s, 0, HexOf(n) + CRLF, Continue) == 0
  {
    hide Serial, Tally, HexOf, Hex, TallyMost;
    LineShort(n);
    MostByLength(s, 0, HexOf(n) + CRLF, LINE, Continue);
    HexSpells(n);
    SizeExact(s, HexOf(n), Continue);
    var t := Serial(s, HexOf(n), Continue);
    SizeReturn(t);
    SerialAppend(s, HexOf(n), [CR], Continue);
    var line := HexOf(n) + CRLF;
    assert line[..|line| - 1] == HexOf(n) + [CR] && line[|line| - 1] == LF;
    LastTally(s, 0, line, Continue);
  }

  lemma DataReturn(s: Conn)
    requires Alive(s) && s.p.state == Body(ChunkDataAlmostDone)
    ensures Serial(s, [CR], Continue).p.state == Body(ChunkDataDone)
  {
    SerialOne(s, CR, Continue);
  }

  lemma ChunkMost(s: Conn, data: seq<byte>)
    requires AtSize(s) && 0 < |data| <= MAX_HEX
    ensures TallyMost(s, 0, ChunkBytes(data), LINE, Continue) && Tally(s, 0, ChunkBytes(data), Continue) == 0
  {
    hide Serial, Tally, HexOf, TallyMost, Emit;
    var head := HexOf(|data|) + CRLF;
    SizeMost(s, |data|);
    SizeRead(s, |data|, Continue);
    var t := Serial(s, head, Continue);
    SerialNothing(t, Continue);
    forall i | 0 <= i < |data| ensures Serial(t, data[..i], Continue).p.state.Body? {
      if i > 0 {
        BytesRead(t, data[..i], Continue);
      } else {
        assert data[..0] == [];
      }
    }
    MostInBody(t, 0, data, LINE, Continue);
    BodyTally(t, 0, data, Continue);
    BytesRead(t, data, Continue);
    var u := Serial(t, data, Continue);
    SerialNothing(u, Continue);
    DataReturn(u);
    forall i | 0 <= i < |CRLF| ensures Serial(u, CRLF[..i], Continue).p.state.Body? {
      assert CRLF[..i] == if i == 0 then [] else [CR];
    }
    MostInBody(u, 0, CRLF, LINE, Continue);
    BodyTally(u, 0, CRLF, Continue);
    MostAppend(t, 0, data, CRLF, LINE, Continue);
    TallyAppend(t, 0, data, CRLF, Continue);
    MostAppend(s, 0, head, data + CRLF, LINE, Continue);
    TallyAppend(s, 0, head, data + CRLF, Continue);
    assert ChunkBytes(data) == head + (data + CRLF);
  }

  lemma {:induction false} ChunksMost(s: Conn, chunks: seq<seq<byte>>)
    requires AtSize(s) && ChunksOk(chunks)
    ensures TallyMost(s, 0, ChunksBytes(chunks), LINE, Continue) && Tally(s, 0, ChunksBytes(chunks), Continue) == 0
    decreases |chunks|
  {
    hide Serial, Tally, ChunkBytes, TallyMost;
    if chunks == [] {
      MostByLength(s, 0, [], LINE, Continue);
      TallyNothing(s, 0, Continue);
    } else {
      var n := |chunks| - 1;
      ChunksMost(s, chunks[..n]);
      ChunksRead(s, chunks[..n], Continue);
      var t := Serial(s, ChunksBytes(chunks[..n]), Continue);
      ChunkMost(t, chunks[n]);
      MostAppend(s, 0, ChunksBytes(chunks[..n]), ChunkBytes(chunks[n]), LINE, Continue);
      TallyAppend(s, 0, ChunksBytes(chunks[..n]), ChunkBytes(chunks[n]), Continue);
    }
  }

  /** What the count goes on from after a message: its trailers and its last line end. */
  function TrailSize(m: Message): nat
    requires MessageOk(m)
  {
    if m.payload.Chunks? then |FieldsBytes(m.payload.trailers)| + |CRLF| else 0
  }

  /** What follows the head. */
  lemma PayloadMost(s: Conn, m: Message, room: nat)
    requires LineStart(s) && MessageOk(m) && Knows(Settled(s).p, m) && !Leaves(m, Continue)
    requires LINE <= room && TrailSize(m) <= room
    ensures var a := Serial(s, CRLF, Continue);
            TallyMost(a, 0, BodyBytes(m, Continue), room, Continue) && Tally(a, 0, BodyBytes(m, Continue), Continue) <= TrailSize(m)
  {
    hide Serial, Settled, LineStart, OpenerOk, FieldOk, Lowered, TokenOf, IsHeaderChar, Equals, SaysChunked, ChunksOk, HexOf,
      Tally, TallyMost, ChunksBytes, Knows, Changes, Finishes, FieldsBytes;
    SettledAlive(s);
    BlankRead(s, m, Continue);
    var a := Serial(s, CRLF, Continue);
    if Finishes(m, Continue) || m.payload.Nothing? {
      if Finishes(m, Continue) {
        NothingLeft(m, Continue);
      }
      MostByLength(a, 0, [], room, Continue);
      TallyNothing(a, 0, Continue);
    } else if m.payload.Sized? {
      KnowsLength(Settled(s).p, m);
      SizedMost(a, m.payload.bytes, room);
    } else {
      var chunks, trailers := m.payload.chunks, m.payload.trailers;
      ChunksMost(a, chunks);
      MostWider(a, 0, ChunksBytes(chunks), LINE, room, Continue);
      ChunksRead(a, chunks, Continue);
      LastMost(Serial(a, ChunksBytes(chunks), Continue), FieldsBytes(trailers), room);
      MostAppend(a, 0, ChunksBytes(chunks), HexOf(0) + CRLF + (FieldsBytes(trailers) + CRLF), room, Continue);
      TallyAppend(a, 0, ChunksBytes(chunks), HexOf(0) + CRLF + (FieldsBytes(trailers) + CRLF), Continue);
    }
  }

  lemma KnowsLength(p: Parser, m: Message)
    requires MessageOk(m) && Knows(p, m) && m.payload.Sized?
    ensures p.contentLength == |m.payload.bytes|
  {
  }

  lemma SizedMost(a: Conn, b: seq<byte>, room: nat)
    requires Alive(a) && (b != [] ==> a.p.state == Body(BodyIdentity) && a.p.contentLength == |b|)
    ensures TallyMost(a, 0, b, room, Continue) && Tally(a, 0, b, Continue) == 0
  {
    hide Serial, Tally, TallyMost, Emit;
    SerialNothing(a, Continue);
    forall i | 0 <= i < |b| ensures Serial(a, b[..i], Continue).p.state.Body? {
      if i > 0 {
        BytesRead(a, b[..i], Continue);
      } else {
        assert b[..0] == [];
      }
    }
    MostInBody(a, 0, b, room, Continue);
    BodyTally(a, 0, b, Continue);
  }

  lemma LastMost(s: Conn, trailers: seq<byte>, room: nat)
    requires AtSize(s) && LINE <= room && |trailers| + |CRLF| <= room
    ensures var last := HexOf(0) + CRLF + (trailers + CRLF);
            TallyMost(s, 0, last, room, Continue) && Tally(s, 0, last, Continue) <= |trailers| + |CRLF|
  {
    hide Serial, Tally, TallyMost, HexOf;
    var head := HexOf(0) + CRLF;
    SizeMost(s, 0);
    MostWider(s, 0, head, LINE, room, Continue);
    var t := Serial(s, head, Continue);
    MostByLength(t, 0, trailers + CRLF, room, Continue);
    TallyGrows(t, 0, trailers + CRLF, Continue);
    MostAppend(s, 0, head, trailers + CRLF, room, Continue);
    TallyAppend(s, 0, head, trailers + CRLF, Continue);
  }

  /** A whole message, with a few bytes of the one before still counted. */
  lemma MessageMost(s: Conn, n: nat, m: Message, room: nat)
    requires MessageOk(m) && Ready(s, KindOf(m.opener)) && Sound(s.p) && !Leaves(m, Continue)
    requires n + HeadSize(m) <= room + 1 && LINE <= room && TrailSize(m) <= room
    ensures TallyMost(s, n, Write(m, Continue), room, Continue) && Tally(s, n, Write(m, Continue), Continue) <= TrailSize(m)
  {
    hide Serial, Tally, Sound, OpenerBytes, HeaderBytes, OpenerOk, FieldsOk, PayloadOk, BodyBytes, Settled, Knows, Milestones,
      Write, HeadEvents, Changes, TrailSize;
    var t := HeadRead(s, m, Continue);
    HeadCounts(s, n, m);
    var x := HeadBytes(m);
    assert TallyMost(s, n, x, room, Continue) by {
      forall i | 0 <= i <= |x| ensures Tally(s, n, x[..i], Continue) <= room {
        if i == |x| {
          assert x[..i] == x;
        }
      }
    }
    SerialAppend(s, OpenerBytes(m.opener, m.major, m.minor) + HeaderBytes(m), CRLF, Continue);
    PayloadMost(t, m, room);
    MostAppend(s, n, x, BodyBytes(m, Continue), room, Continue);
    TallyAppend(s, n, x, BodyBytes(m, Continue), Continue);
    HeadAndBody(m);
  }

  lemma MostWider(s: Conn, n: nat, data: seq<byte>, room: nat, more: nat, answer: Answer)
    requires TallyMost(s, n, data, room, answer) && room <= more
    ensures TallyMost(s, n, data, more, answer)
  {
    hide Tally;
  }

  // ----- Messages in calls -----

  /** In one call a message is accepted if and only if its head, with what the count starts from, is within the
      limit; otherwise the header overflows. */
  lemma MessageServed(p: Parser, n: nat, log: seq<Event>, m: Message)
    requires MessageOk(m) && Ready(Conn(p, log, false), KindOf(m.opener)) && Sound(p) && !Leaves(m, Continue)
    requires TrailSize(m) < HTTP_MAX_HEADER_SIZE
    ensures var r := Served(p, n, log, Write(m, Continue), Continue);
            && (r.p.errno.HEADER_OVERFLOW? <==> n + HeadSize(m) > HTTP_MAX_HEADER_SIZE)
            && (n + HeadSize(m) <= HTTP_MAX_HEADER_SIZE ==>
                  Going(r) && Past(Conn(r.p, r.log, false), m, Continue) && r.log == log + Events(m, Continue))
  {
    hide Serial, Sound, MessageOk, Ready, Events, Execute, Overflows, Write, HeadSize, TrailSize, Leaves, EndState, Has;
    var s := Conn(p, log, false);
    MessageRoundTrip(s, m, Continue);
    ReadyFits(s, KindOf(m.opener));
    SomeBytes(m);
    ExecuteIsSerial(p, n, log, Write(m, Continue), Continue);
    MessageRoom(p, n, log, m);
  }

  lemma ReadyFits(s: Conn, kind: Kind)
    requires Ready(s, kind)
    ensures Alive(s) && forall log :: LogOk(s.p, log)
  {
  }

  lemma PastFits(s: Conn, m: Message)
    requires MessageOk(m) && Past(s, m, Continue) && !Leaves(m, Continue)
    ensures Alive(s) && forall log :: LogOk(s.p, log)
  {
    hide Changes, StaysOpen, Has, MessageOk;
  }

  lemma SomeBytes(m: Message)
    requires MessageOk(m)
    ensures Write(m, Continue) != [] && 2 <= HeadSize(m)
  {
    hide OpenerBytes, HeaderBytes, BodyBytes, OpenerOk, FieldsOk, PayloadOk;
  }

  lemma MessageRoom(p: Parser, n: nat, log: seq<Event>, m: Message)
    requires MessageOk(m) && Ready(Conn(p, log, false), KindOf(m.opener)) && Sound(p) && !Leaves(m, Continue)
    requires TrailSize(m) < HTTP_MAX_HEADER_SIZE
    ensures Overflows(Enter(p, n, log), Write(m, Continue), Continue) <==> n + HeadSize(m) > HTTP_MAX_HEADER_SIZE
  {
    hide Serial, Tally, Sound, MessageOk, Ready, Write, HeadSize, Feed, Sim, HeadBytes, BodyBytes, Leaves, Past, TrailSize;
    var s := Conn(p, log, false);
    var a := Enter(p, n, log);
    var z := Write(m, Continue);
    MessageRoundTrip(s, m, Continue);
    ReadyFits(s, KindOf(m.opener));
    PastFits(Serial(s, z, Continue), m);
    EnterSim(p, n, log);
    HeadAndBody(m);
    if n + HeadSize(m) <= HTTP_MAX_HEADER_SIZE {
      MessageMost(s, n, m, HTTP_MAX_HEADER_SIZE - 1);
      forall k: nat | k <= |z| ensures Feed(a, z[..k], Continue).nread < HTTP_MAX_HEADER_SIZE {
        assert z == z[..k] + z[k..];
        PrefixAlive(s, z[..k], z[k..], Continue);
        FeedTally(a, s, z[..k], Continue);
      }
    } else {
      HeadBlocks(p, n, log, m);
    }
  }

  /** The last byte of a head that is too long is one too many. */
  lemma HeadBlocks(p: Parser, n: nat, log: seq<Event>, m: Message)
    requires MessageOk(m) && Ready(Conn(p, log, false), KindOf(m.opener)) && Sound(p)
    requires n + HeadSize(m) > HTTP_MAX_HEADER_SIZE
    ensures Overflows(Enter(p, n, log), Write(m, Continue), Continue)
  {
    hide Serial, Tally, Sound, MessageOk, Ready, Write, HeadSize, Feed, Sim, HeadBytes, BodyBytes;
    var s := Conn(p, log, false);
    var a := Enter(p, n, log);
    var z, k := Write(m, Continue), HeadSize(m) - 1;
    ReadyFits(s, KindOf(m.opener));
    EnterSim(p, n, log);
    SomeBytes(m);
    HeadAndBody(m);
    HeadCounts(s, n, m);
    var x := HeadBytes(m)[..k];
    assert z[..k] == x && |z[k..]| > 0;
    var b := Feed(a, x, Continue);
    FeedTally(a, s, x, Continue);
    FeedSim(a, s, x, Continue);
    SimState(b, Serial(s, x, Continue));
    SimAlive(b, Serial(s, x, Continue));
    ScanIs(a, s, x, Continue);
    assert !b.scanning;
    BlockedOverflows(a, z, k, Continue);
  }

  /** The heads are short enough for the limit `room`, with trailers of at most `trail` before them. */
  predicate Fits(m: Message, room: nat, trail: nat)
    requires MessageOk(m)
  {
    TrailSize(m) <= trail && HeadSize(m) + trail <= room
  }

  lemma {:induction false} PipelineMost(s: Conn, n: nat, ms: seq<Message>, kind: Kind, room: nat, trail: nat)
    requires MessagesOk(ms, kind, Continue) && Ready(s, kind) && Sound(s.p) && n <= trail <= room && LINE <= room
    requires forall i :: 0 <= i < |ms| ==> Fits(ms[i], room, trail)
    ensures TallyMost(s, n, WriteAll(ms, kind, Continue), room, Continue)
    ensures Tally(s, n, WriteAll(ms, kind, Continue), Continue) <= trail
    decreases |ms|
  {
    hide Serial, Tally, TallyMost, Sound, Write, MessageOk, Ready, HeadSize, TrailSize, StaysOpen, Leaves;
    if ms == [] {
      MostByLength(s, n, [], room, Continue);
      TallyNothing(s, n, Continue);
    } else {
      var k := |ms| - 1;
      var x := WriteAll(ms[..k], kind, Continue);
      PipelineMost(s, n, ms[..k], kind, room, trail);
      PipelineRoundTrip(s, ms[..k], kind, Continue);
      var t := Serial(s, x, Continue);
      ReadyFits(t, kind);
      HeadTally(s, n, x, Continue);
      MessageMost(t, Tally(s, n, x, Continue), ms[k], room);
      MostAppend(s, n, x, Write(ms[k], Continue), room, Continue);
      TallyAppend(s, n, x, Write(ms[k], Continue), Continue);
    }
  }

  // ----- A stream up to its end -----

  /** What is heard of bytes that belong to a body. */
  function TailEvents(tail: seq<byte>): seq<Event> {
    if tail == [] then [] else [Data(BODY, tail)]
  }

  lemma TailMost(t: Conn, n: nat, tail: seq<byte>, room: nat)
    requires Alive(t) && n <= room && (tail != [] ==> t.p.state == Body(BodyIdentityEof))
    ensures TallyMost(t, n, tail, room, Continue)
  {
    hide Serial, Tally, TallyMost, Emit;
    forall i | 0 <= i < |tail| ensures Serial(t, tail[..i], Continue).p.state.Body? {
      if i > 0 {
        TailRead(t, tail[..i], Continue);
      } else {
        assert tail[..0] == [];
        SerialNothing(t, Continue);
      }
    }
    MostInBody(t, n, tail, room, Continue);
  }

  /** The last message and what follows it up to the end of the stream, fed to a parser that is ready for it. */
  lemma LastAndTail(s: Conn, n: nat, last: Message, tail: seq<byte>, room: nat, trail: nat)
    requires MessageOk(last) && Ready(s, KindOf(last.opener)) && Sound(s.p) && !Leaves(last, Continue)
    requires tail != [] ==> Lasting(last, Continue)
    requires n <= trail <= room && LINE <= room && Fits(last, room, trail)
    ensures var t := Serial(s, Write(last, Continue) + tail, Continue);
            Alive(t) && t.p.state == EndState(last, Continue) && t.log == s.log + (Events(last, Continue) + TailEvents(tail))
    ensures TallyMost(s, n, Write(last, Continue) + tail, room, Continue)
  {
    hide Serial, Tally, TallyMost, Sound, Write, OpenerOk, FieldsOk, PayloadOk, Ready, HeadSize, TrailSize, HeadEvents, Emit, Said;
    MessageRoundTrip(s, last, Continue);
    MessageMost(s, n, last, room);
    var t := Serial(s, Write(last, Continue), Continue);
    TailMost(t, Tally(s, n, Write(last, Continue), Continue), tail, room);
    MostAppend(s, n, Write(last, Continue), tail, room, Continue);
    SerialAppend(s, Write(last, Continue), tail, Continue);
    if tail == [] {
      SerialNothing(t, Continue);
      assert s.log + Events(last, Continue) == s.log + (Events(last, Continue) + TailEvents(tail));
    } else {
      TailRead(t, tail, Continue);
      LastIsNote(s.log, last);
      EmitNew(t.log, BODY, tail);
      assert s.log + Events(last, Continue) + [Data(BODY, tail)] == s.log + (Events(last, Continue) + TailEvents(tail));
    }
  }

  /** The headers of a message without an end are the last that is told of it. */
  lemma LastIsNote(log: seq<Event>, m: Message)
    requires MessageOk(m) && Lasting(m, Continue) && !Leaves(m, Continue)
    ensures !LastIs(log + Events(m, Continue), BODY)
  {
    hide HeadEvents, OpenerOk, FieldsOk, PayloadOk, Changes;
    var events := Events(m, Continue);
    assert events[|events| - 1] == Notice(HeadNote(m));
  }

  /** The end of the stream completes a body that lasts to it. */
  lemma EofServed(r: Call)
    requires r.p.errno.OK? && r.p.state == Body(BodyIdentityEof)
    ensures var e := Served(r.p, r.nread, r.log, [], Continue);
            e.p == r.p && e.log == r.log + [Notice(MessageComplete)]
  {
    var a := Enter(r.p, r.nread, r.log);
    var none: seq<byte> := [];
    forall k: nat | k <= |none| ensures !Blocked(a, none, k, Continue) {
      assert Feed(a, none[..k], Continue) == a;
    }
  }

  /** Messages written one after the other, the last of which may close the connection or have a body up to the end of
      the stream, cut anywhere into calls. If the longest head and trailer and the number of calls are together within
      the limit, or twice the former is, a new parser hears exactly these messages and that body, in order, byte for
      byte, and stands where the last one leaves it; a body up to the end is completed by the end of the stream. */
  lemma StreamRoundTrip(ms: seq<Message>, last: Message, tail: seq<byte>, kind: Kind, pieces: seq<seq<byte>>, room: nat, trail: nat)
    requires !kind.BOTH? && MessagesOk(ms, kind, Continue)
    requires MessageOk(last) && KindOf(last.opener) == kind && !Leaves(last, Continue)
    requires tail != [] ==> Lasting(last, Continue)
    requires Flatten(pieces) == WriteAll(ms, kind, Continue) + (Write(last, Continue) + tail)
    requires forall i :: 0 <= i < |pieces| ==> pieces[i] != []
    requires LINE <= room && trail <= room && Fits(last, room, trail) && forall i :: 0 <= i < |ms| ==> Fits(ms[i], room, trail)
    requires room + |pieces| <= HTTP_MAX_HEADER_SIZE || 2 * room < HTTP_MAX_HEADER_SIZE
    ensures var r := ServedCalls(Enter(Init(kind), 0, []), pieces, Continue);
            && r.log == AllEvents(ms, kind, Continue) + (Events(last, Continue) + TailEvents(tail))
            && r.p.errno.OK? && !r.exit && r.p.state == EndState(last, Continue)
            && (Lasting(last, Continue) ==>
                  Served(r.p, r.nread, r.log, [], Continue).p.errno.OK?
                  && Served(r.p, r.nread, r.log, [], Continue).log == r.log + [Notice(MessageComplete)])
  {
    hide Serial, Tally, MessageOk, WriteAll, AllEvents, ServedCalls, Calls, Flatten, Sound, HeadSize, TrailSize, Write, Events,
      Changes, StaysOpen, Served, TallyMost;
    var a := Enter(Init(kind), 0, []);
    var s := Conn(Init(kind), [], false);
    InitSound(kind);
    PipelineRoundTrip(s, ms, kind, Continue);
    PipelineMost(s, 0, ms, kind, room, trail);
    var x := WriteAll(ms, kind, Continue);
    var t := Serial(s, x, Continue);
    ReadyFits(t, kind);
    HeadTally(s, 0, x, Continue);
    LastAndTail(t, Tally(s, 0, x, Continue), last, tail, room, trail);
    MostAppend(s, 0, x, Write(last, Continue) + tail, room, Continue);
    SerialAppend(s, x, Write(last, Continue) + tail, Continue);
    MostIsShort(s, Flatten(pieces), room, |pieces|);
    CutServed(a, pieces, |pieces|, Continue);
    assert [] + AllEvents(ms, kind, Continue) == AllEvents(ms, kind, Continue);
    if Lasting(last, Continue) {
      EofServed(ServedCalls(a, pieces, Continue));
    }
  }

  lemma MostIsShort(s: Conn, data: seq<byte>, room: nat, calls: nat)
    requires TallyMost(s, 0, data, room, Continue)
    requires room + calls <= HTTP_MAX_HEADER_SIZE || 2 * room < HTTP_MAX_HEADER_SIZE
    ensures Short(s, 0, data, calls, Continue)
  {
    hide Tally;
  }

  // ----- Leaving HTTP -----

  /** Where a message is before its last byte. */
  predicate AtLast(u: Conn) {
    Alive(u) && (u.p.state == HeadersAlmostDone || u.p.state == Body(BodyIdentity))
  }

  /** Nothing is written that will not be read. */
  predicate NoneUnread(m: Message, answer: Answer)
    requires MessageOk(m)
  {
    HeadOnly(m, answer) ==> BodyBytes(m, answer) == []
  }

  lemma HeadLast(s: Conn, m: Message, answer: Answer)
    requires MessageOk(m) && Ready(s, KindOf(m.opener))
    ensures var x := OpenerBytes(m.opener, m.major, m.minor) + HeaderBytes(m) + [CR]; AtLast(Serial(s, x, answer))
  {
    hide Serial, OpenerBytes, HeaderBytes, OpenerOk, FieldsOk, PayloadOk, HeadEvents, Knows, Settled;
    var t := HeadRead(s, m, answer);
    ReturnRead(t, answer);
    SettledAlive(t);
    SerialAppend(s, OpenerBytes(m.opener, m.major, m.minor) + HeaderBytes(m), [CR], answer);
  }

  lemma SizedLast(a: Conn, b: seq<byte>, answer: Answer)
    requires Alive(a) && a.p.state == Body(BodyIdentity) && a.p.contentLength == |b| > 0
    ensures AtLast(Serial(a, b[..|b| - 1], answer))
  {
    hide Serial, Emit;
    if |b| == 1 {
      assert b[..0] == [];
      SerialNothing(a, answer);
    } else {
      BytesRead(a, b[..|b| - 1], answer);
    }
  }

  lemma ChunkedLast(a: Conn, chunks: seq<seq<byte>>, trailers: seq<Field>, answer: Answer)
    requires AtSize(a) && ChunksOk(chunks) && TrailersOk(trailers)
    ensures AtLast(Serial(a, ChunksBytes(chunks) + (HexOf(0) + CRLF + (FieldsBytes(trailers) + [CR])), answer))
  {
    hide Serial, HexOf, ChunksOk, FieldsBytes, FieldsEvents, FieldOk, ChunksBytes, ChunksLog, FieldsFlags, Settled;
    ChunksRead(a, chunks, answer);
    var b := Serial(a, ChunksBytes(chunks), answer);
    SizeRead(b, 0, answer);
    var t := Serial(b, HexOf(0) + CRLF, answer);
    FieldsRead(t, trailers, answer);
    var u := Serial(t, FieldsBytes(trailers), answer);
    ReturnRead(u, answer);
    SettledAlive(u);
    SerialAppend(t, FieldsBytes(trailers), [CR], answer);
    SerialAppend(b, HexOf(0) + CRLF, FieldsBytes(trailers) + [CR], answer);
    SerialAppend(a, ChunksBytes(chunks), HexOf(0) + CRLF + (FieldsBytes(trailers) + [CR]), answer);
  }

  /** The parser at the body of a message that leaves HTTP behind it. */
  lemma BodyAhead(s: Conn, m: Message, answer: Answer)
    requires MessageOk(m) && Ready(s, KindOf(m.opener)) && Leaves(m, answer) && !HeadOnly(m, answer)
    ensures var a := Serial(s, OpenerBytes(m.opener, m.major, m.minor) + HeaderBytes(m) + CRLF, answer);
            Alive(a) && a.p.state == BlankState(m, answer) && (m.payload.Sized? ==> a.p.contentLength == |m.payload.bytes|)
  {
    hide Serial, OpenerBytes, HeaderBytes, OpenerOk, FieldsOk, PayloadOk, HeadEvents, Knows, Said, Settled;
    var t := HeadRead(s, m, answer);
    SettledAlive(t);
    BlankRead(t, m, answer);
    SerialAppend(s, OpenerBytes(m.opener, m.major, m.minor) + HeaderBytes(m), CRLF, answer);
    if m.payload.Sized? {
      KnowsLength(Settled(t).p, m);
    }
  }

  lemma SizedToLast(s: Conn, m: Message, answer: Answer) returns (x: seq<byte>, c: byte)
    requires MessageOk(m) && Ready(s, KindOf(m.opener)) && Leaves(m, answer) && !HeadOnly(m, answer) && m.payload.Sized?
    ensures Write(m, answer) == x + [c] && AtLast(Serial(s, x, answer))
  {
    hide Serial, OpenerBytes, HeaderBytes, OpenerOk, FieldsOk, Said;
    var head, b := OpenerBytes(m.opener, m.major, m.minor) + HeaderBytes(m) + CRLF, m.payload.bytes;
    BodyAhead(s, m, answer);
    x, c := head + b[..|b| - 1], b[|b| - 1];
    SizedLast(Serial(s, head, answer), b, answer);
    SerialAppend(s, head, b[..|b| - 1], answer);
    assert b == b[..|b| - 1] + [c];
  }

  lemma ChunksToLast(s: Conn, m: Message, answer: Answer) returns (x: seq<byte>, c: byte)
    requires MessageOk(m) && Ready(s, KindOf(m.opener)) && Leaves(m, answer) && !HeadOnly(m, answer) && m.payload.Chunks?
    ensures Write(m, answer) == x + [c] && AtLast(Serial(s, x, answer))
  {
    hide Serial, OpenerBytes, HeaderBytes, OpenerOk, FieldOk, Said, ChunksBytes, FieldsBytes, HexOf, SaysChunked, ChunksOk;
    var head := OpenerBytes(m.opener, m.major, m.minor) + HeaderBytes(m) + CRLF;
    var chunks, trailers := m.payload.chunks, m.payload.trailers;
    BodyAhead(s, m, answer);
    var y := ChunksBytes(chunks) + (HexOf(0) + CRLF + (FieldsBytes(trailers) + [CR]));
    x, c := head + y, LF;
    ChunkedLast(Serial(s, head, answer), chunks, trailers, answer);
    SerialAppend(s, head, y, answer);
    assert CRLF == [CR] + [LF];
    assert Write(m, answer) == head + (y + [LF]);
  }

  /** Up to its last byte a message that leaves HTTP is read like any other. */
  lemma ReadToLast(s: Conn, m: Message, answer: Answer) returns (x: seq<byte>, c: byte)
    requires MessageOk(m) && Ready(s, KindOf(m.opener)) && Leaves(m, answer) && NoneUnread(m, answer)
    ensures Write(m, answer) == x + [c] && AtLast(Serial(s, x, answer))
  {
    hide Serial, OpenerBytes, HeaderBytes, OpenerOk, FieldsOk, PayloadOk, Said, BodyBytes;
    if HeadOnly(m, answer) {
      x, c := OpenerBytes(m.opener, m.major, m.minor) + HeaderBytes(m) + [CR], LF;
      HeadLast(s, m, answer);
      assert CRLF == [CR] + [LF];
      assert x + [c] == OpenerBytes(m.opener, m.major, m.minor) + (HeaderBytes(m) + (CRLF + []));
    } else if m.payload.Sized? {
      x, c := SizedToLast(s, m, answer);
    } else {
      x, c := ChunksToLast(s, m, answer);
    }
  }

  lemma {:induction false} FeedStops(a: Call, z: seq<byte>, rest: seq<byte>, answer: Answer)
    requires !Going(Feed(a, z, answer))
    ensures Feed(a, z + rest, answer) == Feed(a, z, answer)
    decreases |rest|
  {
    hide Step, Perform;
    if rest == [] {
      assert z + rest == z;
    } else {
      var n := |rest| - 1;
      FeedStops(a, z, rest[..n], answer);
      assert (z + rest)[..|z + rest| - 1] == z + rest[..n];
    }
  }

  /** The last byte of a message that leaves HTTP, within a call. */
  lemma FeedLast(b: Call, u: Conn, c: byte, answer: Answer)
    requires Sim(b, u) && Sound(b.p) && Going(b) && (b.skipping ==> b.p.state == Headers(Value)) && AtLast(u)
    requires var t := Byte(u, c, answer); t.p.errno.OK? && t.p.state.Start? && !t.p.state.start.ResOrRespH?
    ensures var d, t := Advance(b, c, answer), Byte(u, c, answer);
            d.p == t.p && d.exit == t.exit && d.log == t.log && d.live.Unmarked? && d.used == b.used + 1
  {
    hide Step, Sound, Perform, Hear, Emit;
    SimStep(b, u, c, answer);
  }

  /** A message that leaves HTTP, within a call that brings more: the call takes the message and nothing after it, and
      tells how much that is. */
  lemma LeavesInCall(p: Parser, n: nat, log: seq<Event>, m: Message, rest: seq<byte>, answer: Answer)
    requires MessageOk(m) && Ready(Conn(p, log, false), KindOf(m.opener)) && Sound(p) && Leaves(m, answer) && NoneUnread(m, answer)
    requires n + |Write(m, answer)| <= HTTP_MAX_HEADER_SIZE
    ensures var r := Served(p, n, log, Write(m, answer) + rest, answer);
            && r.p.errno.OK? && r.exit && r.used == |Write(m, answer)| && r.p.state == EndState(m, answer)
            && r.log == log + Events(m, answer)
  {
    hide Serial, Sound, MessageOk, Ready, Write, Feed, Sim, Events, Leaves, Has, Advance, Byte, AtLast;
    var s, a, z := Conn(p, log, false), Enter(p, n, log), Write(m, answer);
    ReadyFits(s, KindOf(m.opener));
    EnterSim(p, n, log);
    MessageRoundTrip(s, m, answer);
    var x, c := ReadToLast(s, m, answer);
    var u := Serial(s, x, answer);
    AtLastAlive(u);
    SerialAppend(s, x, [c], answer);
    SerialOne(u, c, answer);
    FeedSim(a, s, x, answer);
    SimAlive(Feed(a, x, answer), u);
    EndOutside(m, answer);
    FeedLast(Feed(a, x, answer), u, c, answer);
    assert z[..|z| - 1] == x && z[|z| - 1] == c;
    FeedMore(a, z, answer);
    FeedStops(a, z, rest, answer);
    forall k: nat | k <= |z + rest| ensures !Blocked(a, z + rest, k, answer) {
      if k >= |z| {
        assert (z + rest)[..k] == z + rest[..k - |z|];
        FeedStops(a, z, rest[..k - |z|], answer);
      } else {
        FeedCount(a, (z + rest)[..k], answer);
      }
    }
  }

  lemma AtLastAlive(u: Conn)
    requires AtLast(u)
    ensures Alive(u)
  {
  }

  lemma FeedMore(a: Call, z: seq<byte>, answer: Answer)
    requires z != []
    ensures Feed(a, z, answer) == Advance(Feed(a, z[..|z| - 1], answer), z[|z| - 1], answer)
  {
    hide Advance;
  }

  lemma EndOutside(m: Message, answer: Answer)
    requires MessageOk(m) && Leaves(m, answer)
    ensures EndState(m, answer).Start? && !EndState(m, answer).start.ResOrRespH?
  {
    hide Changes, StaysOpen, MessageOk;
  }
}
