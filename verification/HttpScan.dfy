/** What the loops over a field name, a value or a body pass over at once is what
    the bytes do one by one. */
module HttpScan {
  import opened HttpTypes
  import opened HttpStep
  import opened HttpInvariant
  import opened HttpRun
  import opened HttpOrder
  import opened HttpSplit
  import opened HttpLedger

  // ----- Feeding -----

  lemma {:induction false} FeedAppend(a: Call, x: seq<byte>, y: seq<byte>, answer: Answer)
    ensures Feed(a, x + y, answer) == Feed(Feed(a, x, answer), y, answer)
    decreases |y|
  {
    hide Advance;
    if y == [] {
      assert x + y == x;
    } else {
      var n := |y| - 1;
      FeedAppend(a, x, y[..n], answer);
      assert (x + y)[..|x + y| - 1] == x + y[..n];
    }
  }

  lemma FeedOne(a: Call, data: seq<byte>, i: nat, answer: Answer)
    requires i < |data|
    ensures Feed(a, data[..i + 1], answer) == Advance(Feed(a, data[..i], answer), data[i], answer)
  {
    hide Advance;
    assert data[..i + 1][..i] == data[..i];
  }

  /** From byte `i` to byte `j`. */
  lemma FeedSlice(a: Call, data: seq<byte>, i: nat, j: nat, answer: Answer)
    requires i <= j <= |data|
    ensures Feed(a, data[..j], answer) == Feed(Feed(a, data[..i], answer), data[i..j], answer)
  {
    hide Feed;
    assert data[..j] == data[..i] + data[i..j];
    FeedAppend(a, data[..i], data[i..j], answer);
  }

  lemma {:induction false} FeedStopped(a: Call, data: seq<byte>, answer: Answer)
    requires !Going(a)
    ensures Feed(a, data, answer) == a
    decreases |data|
  {
    if data != [] {
      FeedStopped(a, data[..|data| - 1], answer);
    }
  }

  /** Nothing that comes after the call has stopped counts. */
  lemma FeedEnds(a: Call, data: seq<byte>, i: nat, answer: Answer)
    requires i <= |data| && !Going(Feed(a, data[..i], answer))
    ensures Feed(a, data, answer) == Feed(a, data[..i], answer)
  {
    hide Feed;
    FeedSlice(a, data, i, |data|, answer);
    assert data[..|data|] == data;
    FeedStopped(Feed(a, data[..i], answer), data[i..], answer);
  }

  // ----- What holds within a call -----

  /** The count of header bytes is zero where a chunk begins; the loop that looks for line ends is in a value of no interest. */
  predicate Scanning(a: Call) {
    && (a.p.state == ChunkHead(ChunkSizeStart) ==> a.nread == 0)
    && (a.skipping ==> a.p.state == Headers(Value) && a.p.headerState.General?)
    && (a.scanning ==> InScan(a.p.state))
  }

  predicate CallOk(a: Call, answer: Answer) {
    Books(a, answer) && (a.p.errno.OK? ==> Scanning(a)) && !a.p.errno.HEADER_OVERFLOW?
  }

  lemma ChunkStartFresh(p: Parser, s: ChunkState, c: byte)
    requires p.state == ChunkHead(s)
    ensures ChunkHeaderStep(p, s, c).p.errno.OK? ==> ChunkHeaderStep(p, s, c).p.state != ChunkHead(ChunkSizeStart)
  {
    hide Unhex;
  }

  /** Where a chunk begins the count has just been restarted. */
  lemma ChunkStartRecounts(p: Parser, c: byte, answer: Answer, unchecked: bool)
    requires Sound(p) && p.errno.OK?
    ensures var out := Step(p, c, answer, unchecked);
            out.p.errno.OK? && out.p.state == ChunkHead(ChunkSizeStart) ==> Recount in out.acts
  {
    var out := Step(p, c, answer, unchecked);
    StepOrder(p, c, answer, unchecked);
    if out.p.errno.OK? && out.p.state == ChunkHead(ChunkSizeStart) {
      if p.state.ChunkHead? {
        ChunkStartFresh(p, p.state.chunk, c);
        StepInChunk(p, c, answer, unchecked);
        assert false;
      } else {
        SizingRecounts(p, out, answer);
      }
    }
  }

  lemma StepInChunk(p: Parser, c: byte, answer: Answer, unchecked: bool)
    requires p.state.ChunkHead?
    ensures Step(p, c, answer, unchecked) == ChunkHeaderStep(p, p.state.chunk, c)
  {
    hide ChunkHeaderStep;
  }

  lemma SizingRecounts(p: Parser, out: Out, answer: Answer)
    requires Orderly(p, out, answer) && !p.state.ChunkHead? && PhaseOf(out.p).Sizing?
    ensures Recount in out.acts
  {
    hide Opening, Bodiless;
    assert !PhaseOf(p).Sizing?;
    if !p.state.Body? && EmptyValue(p, out.p, out.acts, out.exit, answer) {
      assert EndsHeaders(p, out.p, out.acts[2..], out.exit, answer);
      assert out.acts[2..][1] == Recount;
    }
  }

  lemma AdvanceOk(a: Call, c: byte, answer: Answer)
    requires CallOk(a, answer)
    ensures CallOk(Advance(a, c, answer), answer)
  {
    hide Books, Step, Perform, Orderly;
    AdvanceBooks(a, c, answer);
    if Going(a) {
      StepOrder(a.p, c, answer, a.skipping) by { BooksSound(a, answer); }
      assert Sound(a.p) by { BooksSound(a, answer); }
      ChunkStartRecounts(a.p, c, answer, a.skipping);
      if a.p.state == Headers(Value) && a.p.headerState.General? {
        GeneralStays(a.p, c, answer, a.skipping);
      }
    }
  }

  lemma BooksSound(a: Call, answer: Answer)
    requires Books(a, answer) && a.p.errno.OK?
    ensures Sound(a.p) && MarkFits(MarkOf(a.live), a.p.state) && (a.exit ==> a.live.Unmarked?)
  {
  }

  /** A value of no interest stays so. */
  lemma GeneralStays(p: Parser, c: byte, answer: Answer, unchecked: bool)
    requires p.errno.OK? && p.state == Headers(Value) && p.headerState.General?
    ensures var out := Step(p, c, answer, unchecked); out.p.state == p.state ==> out.p.headerState.General?
    ensures c != CR && c != LF && (unchecked || p.lenient || IsHeaderChar(c)) ==> Step(p, c, answer, unchecked) == Stay(p)
  {
    hide IsHeaderChar;
  }

  lemma {:induction false} FeedOk(a: Call, data: seq<byte>, answer: Answer)
    requires CallOk(a, answer)
    ensures CallOk(Feed(a, data, answer), answer)
    decreases |data|
  {
    hide CallOk, Advance;
    if data != [] {
      FeedOk(a, data[..|data| - 1], answer);
      AdvanceOk(Feed(a, data[..|data| - 1], answer), data[|data| - 1], answer);
    }
  }

  // ----- Field names and values -----

  /** The bytes marked so far of the kind `k`. */
  function BytesOf(live: Live): seq<byte> {
    if live.Marked? then live.bytes else []
  }

  lemma FieldAdvance(a: Call, c: byte, answer: Answer)
    requires Going(a) && a.p.state == Headers(HeaderField) && TokenOf(c) != 0
    ensures var i := if Counting(a.p.headerState) then a.p.index + 1 else a.p.index;
            Advance(a, c, answer) ==
            Call(a.p.(headerState := FieldNext(a.p.headerState, i, TokenOf(c)), index := i), a.nread + 1, a.log,
                 Cover(a.live, c), true, false, a.used + 1, false)
  {
    hide FieldNext, TokenOf;
  }

  /** A byte of a value that is neither the end of the line nor refused. */
  lemma ValueAdvance(a: Call, c: byte, answer: Answer)
    requires Going(a) && a.p.state == Headers(Value) && c != CR && c != LF
    requires a.p.lenient || a.skipping || IsHeaderChar(c)
    requires ValueNext(a.p, c).p.errno.OK?
    ensures Advance(a, c, answer) ==
            Call(ValueNext(a.p, c).p, a.nread + 1, a.log, Cover(a.live, c), true, a.p.headerState.General?, a.used + 1, false)
  {
    hide IsHeaderChar, ContentLengthStep, ValueMatcher, ValueIndex, Settle;
    ContentLengthStays(a.p, c);
  }

  lemma ContentLengthStays(p: Parser, c: byte)
    ensures var out := ContentLengthStep(p, c); out.acts == [] && !out.exit && out.p.state == p.state
    ensures ContentLengthStep(p, c).p == p.(contentLength := ContentLengthStep(p, c).p.contentLength,
                                            errno := ContentLengthStep(p, c).p.errno)
  {
  }

  predicate NoLineEnd(bytes: seq<byte>) {
    forall i :: 0 <= i < |bytes| ==> bytes[i] != CR && bytes[i] != LF
  }

  /** What the search for the end of the line passes over. */
  lemma {:induction false} GeneralRun(a: Call, bytes: seq<byte>, answer: Answer)
    requires Going(a) && a.p.state == Headers(Value) && a.p.headerState.General? && a.live.Marked?
    requires bytes != [] && NoLineEnd(bytes) && (a.p.lenient || a.skipping || IsHeaderChar(bytes[0]))
    ensures Feed(a, bytes, answer) ==
            Call(a.p, a.nread + |bytes|, a.log, Marked(a.live.kind, a.live.bytes + bytes), true, true,
                 a.used + |bytes|, false)
    decreases |bytes|
  {
    hide Advance, IsHeaderChar;
    var n := |bytes| - 1;
    if n == 0 {
      assert bytes[..0] == [] && bytes == [bytes[0]];
      assert Feed(a, bytes, answer) == Advance(a, bytes[0], answer);
      GeneralAdvances(a, bytes[0], answer);
    } else {
      assert bytes[..n][0] == bytes[0];
      GeneralRun(a, bytes[..n], answer);
      var b := Feed(a, bytes[..n], answer);
      GeneralAdvances(b, bytes[n], answer);
      assert a.live.bytes + bytes[..n] + [bytes[n]] == a.live.bytes + bytes;
    }
  }

  lemma GeneralAdvances(a: Call, c: byte, answer: Answer)
    requires Going(a) && a.p.state == Headers(Value) && a.p.headerState.General? && a.live.Marked?
    requires c != CR && c != LF && (a.p.lenient || a.skipping || IsHeaderChar(c))
    ensures Advance(a, c, answer) ==
            Call(a.p, a.nread + 1, a.log, Marked(a.live.kind, a.live.bytes + [c]), true, true, a.used + 1, false)
  {
    hide Step, IsHeaderChar;
    GeneralStays(a.p, c, answer, a.skipping);
  }

  // ----- Bodies -----

  predicate InData(p: Parser) {
    p.state == Body(BodyIdentity) || p.state == Body(ChunkData)
  }

  /** A body with `n` bytes fewer to come; a chunk whose data is complete awaits its line end. */
  function Less(p: Parser, n: nat): Parser
    requires n <= p.contentLength
  {
    p.(contentLength := p.contentLength - n,
       state := if n == p.contentLength && p.state == Body(ChunkData) then Body(ChunkDataAlmostDone) else p.state)
  }

  lemma BodyAdvance(a: Call, c: byte, answer: Answer)
    requires Going(a) && InData(a.p) && (a.live.Marked? ==> a.live.kind == BODY)
    requires a.p.contentLength > if a.p.state == Body(BodyIdentity) then 1 else 0
    ensures Advance(a, c, answer) ==
            Call(Less(a.p, 1), a.nread, a.log, Marked(BODY, BytesOf(a.live) + [c]), false, false, a.used + 1, false)
  {
    hide Complete;
    assert [SetMark(BODY)][1..] == [];
  }

  /** The bytes of a body that are taken in one go, but for the last byte of a body of known length. */
  lemma {:induction false} BodyRun(a: Call, bytes: seq<byte>, answer: Answer)
    requires Going(a) && InData(a.p) && (a.live.Marked? ==> a.live.kind == BODY) && bytes != []
    requires |bytes| <= a.p.contentLength && (a.p.state == Body(BodyIdentity) ==> |bytes| < a.p.contentLength)
    ensures Feed(a, bytes, answer) ==
            Call(Less(a.p, |bytes|), a.nread, a.log, Marked(BODY, BytesOf(a.live) + bytes), false, false,
                 a.used + |bytes|, false)
    decreases |bytes|
  {
    hide Advance;
    var n := |bytes| - 1;
    if n == 0 {
      assert bytes[..0] == [] && bytes == [bytes[0]];
      assert Feed(a, bytes, answer) == Advance(a, bytes[0], answer);
      BodyAdvance(a, bytes[0], answer);
    } else {
      BodyRun(a, bytes[..n], answer);
      var b := Feed(a, bytes[..n], answer);
      BodyAdvance(b, bytes[n], answer);
      assert BytesOf(a.live) + bytes[..n] + [bytes[n]] == BytesOf(a.live) + bytes;
    }
  }

  /** The last byte of a body of known length: the data up to and including it, and the end of the message. */
  lemma LastByteAdvance(a: Call, c: byte, answer: Answer)
    requires Going(a) && a.p.state == Body(BodyIdentity) && a.p.contentLength == 1
    requires a.live.Marked? ==> a.live.kind == BODY
    ensures var q := a.p.(contentLength := 0, state := Body(MessageDone));
            Advance(a, c, answer) ==
            Call(q.(state := NewMessage(q)), a.nread, Emit(a.log, BODY, BytesOf(a.live) + [c]) + [Notice(MessageComplete)],
                 Unmarked, false, false, a.used + 1, a.p.upgrade)
  {
    hide KeepsAlive, Perform;
    var acts := [SetMark(BODY), FlushThrough(BODY), Notify(MessageComplete)];
    assert [SetMark(BODY), FlushThrough(BODY)] + [Notify(MessageComplete)] == acts;
    LastPerform(a.log, a.live, c);
  }

  lemma PerformMore(log: seq<Event>, live: Live, act: Action, rest: seq<Action>, c: byte)
    ensures Perform(log, live, [act] + rest, c)
            == Perform(PerformAction(log, live, act, c).0, PerformAction(log, live, act, c).1, rest, c)
  {
    assert ([act] + rest)[1..] == rest;
  }

  lemma LastPerform(log: seq<Event>, live: Live, c: byte)
    requires live.Marked? ==> live.kind == BODY
    ensures Perform(log, live, [SetMark(BODY), FlushThrough(BODY), Notify(MessageComplete)], c)
            == (Emit(log, BODY, BytesOf(live) + [c]) + [Notice(MessageComplete)], Unmarked)
  {
    hide Emit;
    var last := [Notify(MessageComplete)];
    var marked := Marked(BODY, BytesOf(live));
    var out := Emit(log, BODY, BytesOf(live) + [c]);
    assert [SetMark(BODY), FlushThrough(BODY), Notify(MessageComplete)] == [SetMark(BODY)] + ([FlushThrough(BODY)] + last);
    PerformMore(log, live, SetMark(BODY), [FlushThrough(BODY)] + last, c);
    PerformMore(log, marked, FlushThrough(BODY), last, c);
    assert last + [] == last && [Notify(MessageComplete)] + [] == last;
    PerformMore(out, Unmarked, Notify(MessageComplete), [], c);
  }

  lemma EofAdvance(a: Call, c: byte, answer: Answer)
    requires Going(a) && a.p.state == Body(BodyIdentityEof) && (a.live.Marked? ==> a.live.kind == BODY)
    ensures Advance(a, c, answer) ==
            Call(a.p, a.nread, a.log, Marked(BODY, BytesOf(a.live) + [c]), false, false, a.used + 1, false)
  {
    assert [SetMark(BODY)][1..] == [];
  }

  lemma {:induction false} EofRun(a: Call, bytes: seq<byte>, answer: Answer)
    requires Going(a) && a.p.state == Body(BodyIdentityEof) && (a.live.Marked? ==> a.live.kind == BODY) && bytes != []
    ensures Feed(a, bytes, answer) ==
            Call(a.p, a.nread, a.log, Marked(BODY, BytesOf(a.live) + bytes), false, false, a.used + |bytes|, false)
    decreases |bytes|
  {
    hide Advance;
    var n := |bytes| - 1;
    if n == 0 {
      assert bytes[..0] == [] && bytes == [bytes[0]];
      assert Feed(a, bytes, answer) == Advance(a, bytes[0], answer);
      EofAdvance(a, bytes[0], answer);
    } else {
      EofRun(a, bytes[..n], answer);
      EofAdvance(Feed(a, bytes[..n], answer), bytes[n], answer);
      assert BytesOf(a.live) + bytes[..n] + [bytes[n]] == BytesOf(a.live) + bytes;
    }
  }
}
