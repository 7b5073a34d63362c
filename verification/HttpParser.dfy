/** `http_parser_execute` as it runs: one pass over the input with a mark for
    each kind of data, and loops that take many bytes at once
    (app/http/HttpParser.cc). */
module HttpParsing {
  import opened HttpTypes
  import opened HttpStep
  import opened HttpInvariant
  import opened HttpRun
  import opened HttpOrder
  import opened HttpSplit
  import opened HttpLedger
  import opened HttpScan
  import opened HttpLimit

  const TWO_TO_THE_32: int := 0x1_0000_0000

  /** Positions in the input; -1 where the pointer is null. */
  datatype Marks = Marks(url: int, status: int, field: int, value: int, body: int)

  const NO_MARKS: Marks := Marks(-1, -1, -1, -1, -1)

  function MarkAt(m: Marks, k: DataKind): int {
    match k case URL => m.url case STATUS => m.status case FIELD => m.field case VALUE => m.value case BODY => m.body
  }

  function Put(m: Marks, k: DataKind, at: int): (r: Marks)
    ensures forall l :: MarkAt(r, l) == if l == k then at else MarkAt(m, l)
  {
    match k
    case URL => m.(url := at)
    case STATUS => m.(status := at)
    case FIELD => m.(field := at)
    case VALUE => m.(value := at)
    case BODY => m.(body := at)
  }

  /** The mark that is set, and the bytes from there to position `i`. */
  ghost predicate MarksAre(m: Marks, live: Live, data: seq<byte>, i: nat) {
    && i <= |data|
    && forall k :: if live.Marked? && live.kind == k
                   then 0 <= MarkAt(m, k) <= i && live.bytes == data[MarkAt(m, k)..i]
                   else MarkAt(m, k) == -1
  }

  lemma CoverMarks(m: Marks, live: Live, data: seq<byte>, i: nat)
    requires MarksAre(m, live, data, i) && i < |data|
    ensures MarksAre(m, Cover(live, data[i]), data, i + 1)
  {
    if live.Marked? {
      var at := MarkAt(m, live.kind);
      assert data[at..i] + [data[i]] == data[at..i + 1];
    }
  }

  /** `memchr` within `limit` bytes; -1 if there is none. */
  method MemChr(data: seq<byte>, from: nat, c: byte, limit: nat) returns (at: int)
    requires from + limit <= |data|
    ensures at >= 0 ==> from <= at < from + limit && data[at] == c && c !in data[from..at]
    ensures at < 0 ==> at == -1 && c !in data[from..from + limit]
  {
    var i := from;
    while i < from + limit
      invariant from <= i <= from + limit && c !in data[from..i]
    {
      if data[i] == c {
        return i;
      }
      i := i + 1;
    }
    return -1;
  }

  class HttpParser {
    var parser: Parser
    var nread: nat
    const answer: Answer
    /** What the callbacks have been told. */
    ghost var log: seq<Event>

    ghost predicate Valid()
      reads this
    {
      && Settled(parser, log, answer)
      && (parser.errno.OK? ==>
            nread <= HTTP_MAX_HEADER_SIZE && (parser.state == ChunkHead(ChunkSizeStart) ==> nread == 0))
    }

    constructor (kind: Kind, answer: Answer)
      ensures Valid() && parser == Init(kind) && nread == 0 && log == [] && this.answer == answer
    {
      parser := Init(kind);
      nread := 0;
      log := [];
      this.answer := answer;
      new;
      InitSound(kind);
    }

    /** The call after the first `i` bytes. */
    ghost function Prefix(a: Call, data: seq<byte>, i: nat): Call
      requires i <= |data|
    {
      Feed(a, data[..i], answer)
    }

    /** All but the count of header bytes agrees with the first `i` bytes. */
    ghost predicate Reached(a: Call, data: seq<byte>, i: nat, m: Marks)
      reads this
    {
      ReachedAs(a, data, i, m, parser)
    }

    /** The same with a parser whose matcher is held in a local variable. */
    ghost predicate ReachedAs(a: Call, data: seq<byte>, i: nat, m: Marks, p: Parser)
      reads this
    {
      && i <= |data| && Going(Prefix(a, data, i)) && CallOk(Prefix(a, data, i), answer)
      && Prefix(a, data, i).used == i
      && p == Prefix(a, data, i).p && log == Prefix(a, data, i).log
      && MarksAre(m, Prefix(a, data, i).live, data, i)
    }

    /** Before byte `i`, or at the end. */
    ghost predicate At(a: Call, data: seq<byte>, i: nat, m: Marks)
      reads this
    {
      && Reached(a, data, i, m) && nread <= HTTP_MAX_HEADER_SIZE
      && Passed(a, data, if i < |data| then i else i + 1)
      && (i < |data| ==> !Prefix(a, data, i).scanning && !Prefix(a, data, i).skipping)
      && nread == if i < |data| then Prefix(a, data, i).nread else Leave(Prefix(a, data, i)).nread
    }

    /** None of the first `n` places where the count is compared with the limit was one too many. */
    ghost predicate Passed(a: Call, data: seq<byte>, n: nat) {
      forall k: nat :: k < n && k <= |data| ==> !Blocked(a, data, k, answer)
    }

    /** Too many header bytes; the callbacks made are those of some beginning of the input. */
    ghost predicate Overflown(a: Call, data: seq<byte>)
      reads this
    {
      && parser.errno.HEADER_OVERFLOW?
      && Overflows(a, data, answer)
      && (exists j: nat :: j <= |data| && log == Prefix(a, data, j).log && CallOk(Prefix(a, data, j), answer))
    }

    /** The call has stopped, by an error or by leaving the stream, after `k` bytes were looked at. */
    ghost predicate StoppedAt(a: Call, data: seq<byte>, used: nat, k: nat)
      reads this
    {
      && k <= |data| && !Going(Prefix(a, data, k)) && CallOk(Prefix(a, data, k), answer)
      && Passed(a, data, k) && Prefix(a, data, k).used == used && log == Prefix(a, data, k).log
      && parser.errno == Prefix(a, data, k).p.errno && parser.state == Prefix(a, data, k).p.state
      && (parser.errno.OK? ==> parser == Prefix(a, data, k).p && nread == Prefix(a, data, k).nread <= HTTP_MAX_HEADER_SIZE)
    }

    ghost predicate Stopped(a: Call, data: seq<byte>, used: nat)
      reads this
    {
      Overflown(a, data) || exists k: nat :: StoppedAt(a, data, used, k)
    }

    /** The count has room at place `k`, or is not compared with the limit there. */
    lemma PassesOne(a: Call, data: seq<byte>, n: nat)
      requires n <= |data| && Passed(a, data, n)
      requires var b := Prefix(a, data, n);
               || b.nread < HTTP_MAX_HEADER_SIZE
               || (if n == |data| then !b.scanning
                   else !ParsingHeader(b.p.state) || (b.scanning && !EndsScan(b.p.state, data[n])))
      ensures Passed(a, data, n + 1)
    {
      hide Feed, EndsScan;
      assert !Blocked(a, data, n, answer);
    }

    lemma PassedLess(a: Call, data: seq<byte>, n: nat)
      requires Passed(a, data, n + 1)
      ensures Passed(a, data, n)
    {
      hide Blocked;
    }

    /** A place where it has none. */
    lemma BlocksOne(a: Call, data: seq<byte>, k: nat)
      requires k <= |data|
      requires var b := Prefix(a, data, k);
               && Going(b) && b.nread >= HTTP_MAX_HEADER_SIZE
               && (if k == |data| then b.scanning
                   else ParsingHeader(b.p.state) && (b.scanning ==> EndsScan(b.p.state, data[k])))
      ensures Overflows(a, data, answer)
    {
      hide Feed, EndsScan;
      assert Blocked(a, data, k, answer);
    }

    /** COUNT_HEADER_SIZE. */
    method Count(v: nat) returns (over: bool)
      requires nread + v < TWO_TO_THE_32
      modifies this`nread, this`parser
      ensures nread == old(nread) + v && (over <==> nread > HTTP_MAX_HEADER_SIZE)
      ensures parser == if over then old(parser).(errno := HEADER_OVERFLOW) else old(parser)
    {
      nread := (nread + v) % TWO_TO_THE_32;
      over := nread > HTTP_MAX_HEADER_SIZE;
      if over {
        parser := parser.(errno := HEADER_OVERFLOW);
      }
    }

    /** The marks, callbacks and counter of one byte. */
    method Act(acts: seq<Action>, data: seq<byte>, i: nat, marks: Marks, ghost live: Live)
      returns (m: Marks, ghost l: Live)
      requires MarksAre(marks, live, data, i) && i < |data| && Disciplined(MarkOf(live), acts)
      modifies this`log, this`nread
      ensures (log, l) == Perform(old(log), live, acts, data[i]) && MarksAre(m, l, data, i)
      ensures nread == if Recount in acts then 0 else old(nread)
    {
      m, l := marks, live;
      var j := 0;
      while j < |acts|
        invariant j <= |acts| && MarksAre(m, l, data, i) && Disciplined(MarkOf(l), acts[j..])
        invariant Perform(old(log), live, acts, data[i]) == Perform(log, l, acts[j..], data[i])
        invariant nread == if Recount in acts[..j] then 0 else old(nread)
      {
        var act := acts[j];
        ActStep(log, l, acts, j, data[i]);
        match act {
          case SetMark(k) =>
            if MarkAt(m, k) < 0 {
              m := Put(m, k, i);
              l := Marked(k, []);
            }
          case Flush(k) =>
            if MarkAt(m, k) >= 0 {
              log := Emit(log, k, data[MarkAt(m, k)..i]);
              m := Put(m, k, -1);
              l := Unmarked;
            }
          case FlushThrough(k) =>
            if MarkAt(m, k) >= 0 {
              assert data[MarkAt(m, k)..i] + [data[i]] == data[MarkAt(m, k)..i + 1];
              log := Emit(log, k, data[MarkAt(m, k)..i + 1]);
              m := Put(m, k, -1);
              l := Unmarked;
            }
          case Notify(n) => log := log + [Notice(n)];
          case Recount => nread := 0;
        }
        j := j + 1;
      }
    }

    /** A byte that no loop takes together with others. */
    method TakeByte(data: seq<byte>, i: nat, marks: Marks, ghost a: Call) returns (stop: bool, used: nat, m: Marks)
      requires Reached(a, data, i, marks) && i < |data| && !InScan(parser.state)
      requires nread == Counted(Prefix(a, data, i).nread, parser.state) <= HTTP_MAX_HEADER_SIZE
      requires Passed(a, data, i + 1)
      modifies this
      ensures if stop then Stopped(a, data, used) else At(a, data, i + 1, m)
    {
      hide Passed;
      ghost var b := Prefix(a, data, i);
      var c := data[i];
      var out := Step(parser, c, answer, false);
      ghost var live;
      ByteFacts(b, c, answer);
      FeedOne(a, data, i, answer);
      m, live := Act(out.acts, data, i, marks, b.live);
      parser := out.p;
      CoverMarks(m, live, data, i);
      stop := !out.p.errno.OK? || out.exit;
      used := if out.p.errno.OK? then i + 1 else i;
      if stop {
        assert StoppedAt(a, data, used, i + 1);
      } else if i + 1 == |data| {
        PassesOne(a, data, i + 1);
      }
    }

    /** The loop over a field name. */
    method ScanField(data: seq<byte>, start: nat, marks: Marks, ghost a: Call)
      returns (stop: bool, i: nat, m: Marks)
      requires Reached(a, data, start, marks) && start < |data| && parser.state == Headers(HeaderField)
      requires nread == Prefix(a, data, start).nread + 1 <= HTTP_MAX_HEADER_SIZE && Passed(a, data, start + 1)
      requires |data| + HTTP_MAX_HEADER_SIZE < TWO_TO_THE_32
      modifies this
      ensures if stop then Stopped(a, data, i) else start < i && At(a, data, i, m)
    {
      hide CallOk, Advance, FieldNext, TokenOf, Counting, Step, StoppedAt, Passed;
      i, m := start, marks;
      while i < |data| && TokenOf(data[i]) != 0
        invariant start <= i <= |data| && Reached(a, data, i, m)
        invariant parser.state == Headers(HeaderField)
        invariant nread == old(nread) && log == old(log)
        invariant Prefix(a, data, i).nread == Prefix(a, data, start).nread + i - start
        invariant i > start ==> Prefix(a, data, i).scanning
        invariant Passed(a, data, if i > start then i else start + 1)
      {
        ghost var b := Prefix(a, data, i);
        if i > start {
          PassesOne(a, data, i);
        }
        FeedOne(a, data, i, answer);
        FieldAdvance(b, data[i], answer);
        AdvanceOk(b, data[i], answer);
        CoverMarks(m, b.live, data, i);
        if Counting(parser.headerState) {
          parser := parser.(index := parser.index + 1);
        }
        parser := parser.(headerState := FieldNext(parser.headerState, parser.index, TokenOf(data[i])));
        i := i + 1;
      }
      ghost var b := Prefix(a, data, i);
      var over := Count(i - start);
      if over {
        BlocksOne(a, data, i);
        assert Overflown(a, data);
        return true, i, m;
      }
      if i > start {
        PassesOne(a, data, i);
      }
      if i == |data| {
        return false, i, m;
      }
      stop, i, m := EndField(data, i, m, a);
    }

    /** The byte after a field name. */
    method EndField(data: seq<byte>, at: nat, marks: Marks, ghost a: Call)
      returns (stop: bool, i: nat, m: Marks)
      requires Reached(a, data, at, marks) && at < |data| && parser.state == Headers(HeaderField)
      requires TokenOf(data[at]) == 0 && nread == Prefix(a, data, at).nread + 1 <= HTTP_MAX_HEADER_SIZE
      requires Passed(a, data, at + 1)
      modifies this
      ensures if stop then Stopped(a, data, i) else at < i && At(a, data, i, m)
    {
      hide CallOk, Advance, TokenOf, Step, Emit, Feed, Passed;
      i, m := at, marks;
      ghost var b := Prefix(a, data, i);
      FeedOne(a, data, i, answer);
      AdvanceOk(b, data[i], answer);
      CallFits(b, answer);
      FieldEnds(b, data[i], answer);
      if Is(data[i], ':') {
        parser := parser.(state := Headers(ValueDiscardWs));
        log := Emit(log, FIELD, data[MarkAt(m, FIELD)..i]);
        m := Put(m, FIELD, -1);
        if i + 1 == |data| {
          PassesOne(a, data, i + 1);
        }
        return false, i + 1, m;
      }
      parser := parser.(errno := INVALID_HEADER_TOKEN);
      assert StoppedAt(a, data, i, i + 1);
      return true, i, m;
    }

    /** A further byte of a value under any matcher but the one that looks for line ends. */
    method NextValueByte(c: byte, h: HeaderState) returns (g: HeaderState, bad: bool)
      requires parser.errno.OK?
      modifies this`parser
      ensures parser.(headerState := g) == ValueNext(old(parser).(headerState := h), c).p
      ensures bad <==> !parser.errno.OK?
    {
      g, bad := h, false;
      if h.ContentLength? {
        if c == SP {
        } else if !IsNum(c) || (ULLONG_MAX - 10) / 10 < parser.contentLength {
          parser := parser.(errno := INVALID_CONTENT_LENGTH, headerState := h);
          bad := true;
        } else {
          parser := parser.(contentLength := 10 * parser.contentLength + Digit(c));
        }
      } else {
        g := ValueMatcher(h, parser.index + 1, c);
        parser := parser.(index := ValueIndex(h, parser.index, c),
                          flags := if Is(c, ',') then Settle(parser.flags, h) else parser.flags);
      }
    }

    /** Where the search for the end of the line goes on: at a line end, or at the end of the input
        if there is none among as many bytes as a header may have. */
    method FindLineEnd(data: seq<byte>, i: nat) returns (j: nat, limit: nat)
      requires i < |data| && data[i] != CR && data[i] != LF
      ensures i < j <= |data| && i + limit <= |data| && (limit == HTTP_MAX_HEADER_SIZE || i + limit == |data|)
      ensures if j < |data| then NoLineEnd(data[i..j]) && (data[j] == CR || data[j] == LF)
              else NoLineEnd(data[i..i + limit])
    {
      limit := if |data| - i < HTTP_MAX_HEADER_SIZE then |data| - i else HTTP_MAX_HEADER_SIZE;
      var cr := MemChr(data, i, CR, limit);
      var lf := MemChr(data, i, LF, limit);
      if cr >= 0 {
        j := if lf >= 0 && cr >= lf then lf else cr;
      } else if lf >= 0 {
        j := lf;
      } else {
        j := |data|;
      }
      var end := if j < |data| then j else i + limit;
      forall k | i <= k < end ensures data[k] != CR && data[k] != LF {
        if cr >= 0 { assert k < cr ==> data[k] in data[i..cr]; } else { assert data[k] in data[i..i + limit]; }
        if lf >= 0 { assert k < lf ==> data[k] in data[i..lf]; } else { assert data[k] in data[i..i + limit]; }
      }
    }

    /** One round of the loop over a value: `i` moves on, at once to the end of the line where that is all that matters. */
    method ValueRound(data: seq<byte>, at: nat, marks: Marks, h: HeaderState, ghost a: Call, ghost start: nat)
      returns (stop: bool, i: nat, g: HeaderState, ghost lost: bool)
      requires start <= at < |data| && ReachedAs(a, data, at, marks, parser.(headerState := h))
      requires parser.state == Headers(Value) && data[at] != CR && data[at] != LF && !Prefix(a, data, at).skipping
      requires Prefix(a, data, at).nread == Prefix(a, data, start).nread + at - start
      requires Passed(a, data, at + 1)
      modifies this`parser
      ensures stop ==> Stopped(a, data, i)
      ensures !stop ==> at < i <= |data| && parser.state == Headers(Value)
      ensures !stop && lost ==> i == |data| && |data| - start > HTTP_MAX_HEADER_SIZE && Overflows(a, data, answer)
      ensures !stop && !lost ==>
                && ReachedAs(a, data, i, marks, parser.(headerState := g))
                && Prefix(a, data, i).nread == Prefix(a, data, start).nread + i - start
                && Prefix(a, data, i).scanning && Passed(a, data, i)
                && (Prefix(a, data, i).skipping && i < |data| ==> data[i] == CR || data[i] == LF)
    {
      hide Feed, Advance, CallOk, ValueNext, IsHeaderChar, StoppedAt, Overflown, Sound, Passed;
      ghost var b := Prefix(a, data, at);
      var c := data[at];
      i, g, lost := at, h, false;
      FeedOne(a, data, at, answer);
      AdvanceOk(b, c, answer);
      if !parser.lenient && !IsHeaderChar(c) {
        ValueRefused(b, c, answer);
        parser := parser.(errno := INVALID_HEADER_TOKEN);
        StopHere(a, data, i, at);
        return true, i, g, false;
      }
      if h.General? {
        CallFits(b, answer);
        var limit;
        i, limit := FindLineEnd(data, at);
        ghost var end := if i < |data| then i else at + limit;
        GeneralSpan(a, data, at, end, marks, parser.(headerState := h));
        lost := end < i;
        if lost {
          SpanBlocks(a, data, at, marks, parser.(headerState := h));
        } else {
          SpanPasses(a, data, at, end, marks, parser.(headerState := h));
        }
        return false, i, g, lost;
      }
      var bad;
      g, bad := NextValueByte(c, h);
      if bad {
        ValueBad(b, c, answer);
        StopHere(a, data, i, at);
        return true, i, g, false;
      }
      ValueAdvance(b, c, answer);
      CoverMarks(marks, b.live, data, at);
      ValueNextStays(b.p, c);
      return false, at + 1, g, false;
    }

    /** The bytes up to `end` hold no line end. */
    lemma GeneralSpan(a: Call, data: seq<byte>, at: nat, end: nat, m: Marks, p: Parser)
      requires at < end <= |data| && ReachedAs(a, data, at, m, p) && NoLineEnd(data[at..end])
      requires p.state == Headers(Value) && p.headerState.General? && (p.lenient || IsHeaderChar(data[at]))
      requires Prefix(a, data, at).live.Marked?
      ensures ReachedAs(a, data, end, m, p)
      ensures Prefix(a, data, end).nread == Prefix(a, data, at).nread + end - at
      ensures Prefix(a, data, end).scanning
    {
      hide Feed, CallOk, IsHeaderChar;
      var b := Prefix(a, data, at);
      FeedSlice(a, data, at, end, answer);
      GeneralRun(b, data[at..end], answer);
      FeedOk(b, data[at..end], answer);
      var k := MarkAt(m, b.live.kind);
      assert data[k..at] + data[at..end] == data[k..end];
    }

    /** Nor is the count compared with the limit among them. */
    lemma SpanPasses(a: Call, data: seq<byte>, at: nat, end: nat, m: Marks, p: Parser)
      requires at < end <= |data| && ReachedAs(a, data, at, m, p) && NoLineEnd(data[at..end])
      requires p.state == Headers(Value) && p.headerState.General? && (p.lenient || IsHeaderChar(data[at]))
      requires Prefix(a, data, at).live.Marked? && Passed(a, data, at + 1)
      ensures Passed(a, data, end)
    {
      hide Feed, CallOk, IsHeaderChar;
      forall k: nat | at < k < end ensures !Blocked(a, data, k, answer) {
        assert data[at..k] == data[at..end][..k - at] && data[at..end][k - at] == data[k];
        GeneralSpan(a, data, at, k, m, p);
      }
    }

    /** A value whose next line end is further away than a header may be long. */
    lemma SpanBlocks(a: Call, data: seq<byte>, at: nat, m: Marks, p: Parser)
      requires at + HTTP_MAX_HEADER_SIZE < |data| && ReachedAs(a, data, at, m, p)
      requires NoLineEnd(data[at..at + HTTP_MAX_HEADER_SIZE])
      requires p.state == Headers(Value) && p.headerState.General? && (p.lenient || IsHeaderChar(data[at]))
      requires Prefix(a, data, at).live.Marked?
      ensures Overflows(a, data, answer)
    {
      hide Feed, CallOk, IsHeaderChar;
      var end := at + HTTP_MAX_HEADER_SIZE;
      while end < |data| && !IsLineEnd(data[end])
        invariant at + HTTP_MAX_HEADER_SIZE <= end <= |data| && NoLineEnd(data[at..end])
      {
        assert data[at..end + 1] == data[at..end] + [data[end]];
        end := end + 1;
      }
      GeneralSpan(a, data, at, end, m, p);
      BlocksOne(a, data, end);
    }

    /** The byte at position `k` is an error. */
    lemma StopHere(a: Call, data: seq<byte>, used: nat, k: nat)
      requires k < |data| && !Going(Prefix(a, data, k + 1)) && CallOk(Prefix(a, data, k + 1), answer)
      requires !parser.errno.OK? && used == Prefix(a, data, k + 1).used && log == Prefix(a, data, k + 1).log
      requires Passed(a, data, k + 1)
      requires parser.errno == Prefix(a, data, k + 1).p.errno && parser.state == Prefix(a, data, k + 1).p.state
      ensures Stopped(a, data, used)
    {
      hide CallOk, Feed;
      assert StoppedAt(a, data, used, k + 1);
    }

    /** The loop over a value. */
    method ScanValue(data: seq<byte>, start: nat, marks: Marks, ghost a: Call)
      returns (stop: bool, i: nat, m: Marks)
      requires Reached(a, data, start, marks) && start < |data| && parser.state == Headers(Value)
      requires !Prefix(a, data, start).skipping && Passed(a, data, start + 1)
      requires nread == Prefix(a, data, start).nread + 1 <= HTTP_MAX_HEADER_SIZE
      requires |data| + HTTP_MAX_HEADER_SIZE < TWO_TO_THE_32
      modifies this
      ensures if stop then Stopped(a, data, i) else start < i && At(a, data, i, m)
    {
      hide Feed, Advance, CallOk, Step, ValueNext, IsHeaderChar, StoppedAt, Passed, Overflows;
      i, m := start, marks;
      var h := parser.headerState;
      ghost var lost := false;
      PassedLess(a, data, start);
      while i < |data| && data[i] != CR
        invariant start <= i <= |data| && parser.state == Headers(Value) && nread == old(nread) && log == old(log)
        invariant lost ==> i == |data| && |data| - start > HTTP_MAX_HEADER_SIZE && Overflows(a, data, answer)
        invariant !lost ==> Passed(a, data, i) && (i == start ==> Passed(a, data, start + 1))
        invariant !lost ==> ReachedAs(a, data, i, m, parser.(headerState := h))
        invariant !lost ==> Prefix(a, data, i).nread == Prefix(a, data, start).nread + i - start
        invariant !lost && start < i ==> Prefix(a, data, i).scanning
        invariant !lost && i < |data| && Prefix(a, data, i).skipping ==> IsLineEnd(data[i])
      {
        if data[i] == LF {
          parser := parser.(headerState := h);
          stop, i, m := EndAtLineFeed(data, i, m, start, a);
          return;
        }
        if start < i {
          PassesOne(a, data, i);
        }
        stop, i, h, lost := ValueRound(data, i, m, h, a, start);
        if stop {
          return;
        }
      }
      parser := parser.(headerState := h);
      if i < |data| {
        stop, i, m := EndAtReturn(data, i, m, start, a);
        return;
      }
      var over := Count(i - start);
      if over {
        if !lost {
          BlocksOne(a, data, i);
        }
        assert log == Prefix(a, data, start).log;
        assert Overflown(a, data);
      } else {
        PassesOne(a, data, i);
      }
      return over, i, m;
    }

    /** The value ends with a carriage return, which is counted after it has been handed out. */
    method EndAtReturn(data: seq<byte>, at: nat, marks: Marks, start: nat, ghost a: Call)
      returns (stop: bool, i: nat, m: Marks)
      requires start <= at < |data| && Reached(a, data, at, marks) && parser.state == Headers(Value) && data[at] == CR
      requires nread == Prefix(a, data, at).nread + 1 - (at - start) <= HTTP_MAX_HEADER_SIZE
      requires Passed(a, data, at)
      requires |data| + HTTP_MAX_HEADER_SIZE < TWO_TO_THE_32
      modifies this
      ensures if stop then Stopped(a, data, i) else at < i && At(a, data, i, m)
    {
      hide Feed, Advance, CallOk, Step, Emit, StoppedAt, Passed;
      ghost var b := Prefix(a, data, at);
      FeedOne(a, data, at, answer);
      AdvanceOk(b, CR, answer);
      CallFits(b, answer);
      ValueEnds(b, CR, answer);
      parser := parser.(state := Headers(HeaderAlmostDone));
      log := Emit(log, VALUE, data[MarkAt(marks, VALUE)..at]);
      m := Put(marks, VALUE, -1);
      var over := Count(at - start);
      if over {
        BlocksOne(a, data, at);
        assert log == Prefix(a, data, at + 1).log;
        assert Overflown(a, data);
      } else {
        PassesOne(a, data, at);
        if at + 1 == |data| {
          PassesOne(a, data, at + 1);
        }
      }
      return over, at + 1, m;
    }

    /** It ends with a line feed, which is counted first. */
    method EndAtLineFeed(data: seq<byte>, at: nat, marks: Marks, start: nat, ghost a: Call)
      returns (stop: bool, i: nat, m: Marks)
      requires start <= at < |data| && Reached(a, data, at, marks) && parser.state == Headers(Value) && data[at] == LF
      requires nread == Prefix(a, data, at).nread + 1 - (at - start) <= HTTP_MAX_HEADER_SIZE
      requires Passed(a, data, at)
      requires |data| + HTTP_MAX_HEADER_SIZE < TWO_TO_THE_32
      modifies this
      ensures if stop then Stopped(a, data, i) else at < i && At(a, data, i, m)
    {
      hide Feed, Advance, CallOk, Step, Emit, StoppedAt, Passed;
      ghost var b := Prefix(a, data, at);
      FeedOne(a, data, at, answer);
      AdvanceOk(b, LF, answer);
      CallFits(b, answer);
      ValueEnds(b, LF, answer);
      m := marks;
      var over := Count(at - start);
      if over {
        BlocksOne(a, data, at);
        assert log == Prefix(a, data, at).log;
        assert Overflown(a, data);
        return true, at, m;
      }
      PassesOne(a, data, at);
      if at + 1 == |data| {
        PassesOne(a, data, at + 1);
      }
      log := Emit(log, VALUE, data[MarkAt(m, VALUE)..at]);
      m := Put(m, VALUE, -1);
      parser := parser.(state := Headers(ValueLws));
      return false, at + 1, m;
    }

    /** The bytes of a body of known length, or of a chunk, that the input holds. */
    method TakeBody(data: seq<byte>, at: nat, marks: Marks, ghost a: Call)
      returns (stop: bool, i: nat, m: Marks)
      requires at < |data| && At(a, data, at, marks) && InData(parser)
      modifies this
      ensures if stop then Stopped(a, data, i) else at < i && At(a, data, i, m)
    {
      hide Feed, Advance, CallOk, Step, StoppedAt, Sound, Passed;
      ghost var b := Prefix(a, data, at);
      CallFits(b, answer);
      BodyFacts(parser);
      assert 0 < parser.contentLength < ULLONG_MAX;
      assert parser.state == Body(ChunkData) ==> F_CHUNKED in parser.flags;
      var toRead := if parser.contentLength < |data| - at then parser.contentLength else |data| - at;
      i := at + toRead;
      if parser.state == Body(BodyIdentity) && toRead == parser.contentLength {
        stop, m := EndBody(data, at, i, marks, a);
        return;
      }
      m := if MarkAt(marks, BODY) < 0 then Put(marks, BODY, at) else marks;
      BodySlice(a, data, at, i);
      BodyMarked(data, at, i, marks, m, b.live);
      BodyPasses(a, data, at, i);
      if i == |data| {
        PassesOne(a, data, i);
      }
      parser := parser.(contentLength := parser.contentLength - toRead);
      if parser.contentLength == 0 {
        parser := parser.(state := Body(ChunkDataAlmostDone));
      }
      return false, i, m;
    }

    /** The body of known length ends before byte `i`; the message is complete. */
    method EndBody(data: seq<byte>, at: nat, i: nat, marks: Marks, ghost a: Call) returns (stop: bool, m: Marks)
      requires at < i <= |data| && At(a, data, at, marks) && parser.state == Body(BodyIdentity)
      requires i - at == parser.contentLength
      modifies this
      ensures if stop then Stopped(a, data, i) else At(a, data, i, m)
    {
      hide Feed, Advance, CallOk, Step, Emit, Sound, KeepsAlive, Passed;
      ghost var b := Prefix(a, data, at);
      CallFits(b, answer);
      BodyKind(b);
      BodyPasses(a, data, at, i);
      LastByte(a, data, at, i);
      if i == |data| {
        PassesOne(a, data, i);
      }
      m := if MarkAt(marks, BODY) < 0 then Put(marks, BODY, at) else marks;
      BodyMarked(data, at, i, marks, m, b.live);
      parser := parser.(contentLength := 0, state := Body(MessageDone));
      log := Emit(log, BODY, data[MarkAt(m, BODY)..i]);
      m := Put(m, BODY, -1);
      parser := parser.(state := NewMessage(parser));
      log := log + [Notice(MessageComplete)];
      stop := parser.upgrade;
      if stop {
        assert StoppedAt(a, data, i, i);
      }
    }

    /** After some bytes of a body, not the last one of a body of known length. */
    ghost function Taken(b: Call, bytes: seq<byte>): Call
      requires |bytes| <= b.p.contentLength
    {
      Call(Less(b.p, |bytes|), b.nread, b.log, Marked(BODY, BytesOf(b.live) + bytes), false, false, b.used + |bytes|, false)
    }

    lemma BodySlice(a: Call, data: seq<byte>, at: nat, end: nat)
      requires at <= end <= |data|
      requires var b := Prefix(a, data, at);
               && Going(b) && CallOk(b, answer) && InData(b.p)
               && end - at <= b.p.contentLength && (b.p.state == Body(BodyIdentity) ==> end - at < b.p.contentLength)
      ensures var b := Prefix(a, data, at);
              && (b.live.Marked? ==> b.live.kind == BODY)
              && CallOk(Prefix(a, data, end), answer)
              && (at < end ==> Prefix(a, data, end) == Taken(b, data[at..end]))
    {
      hide Feed, CallOk, Sound;
      var b := Prefix(a, data, at);
      FeedSlice(a, data, at, end, answer);
      CallFits(b, answer);
      BodyKind(b);
      FeedOk(b, data[at..end], answer);
      if at < end {
        BodyRun(b, data[at..end], answer);
      }
    }

    /** The bytes of a body are not counted. */
    lemma BodyPasses(a: Call, data: seq<byte>, at: nat, end: nat)
      requires at < end <= |data| && Passed(a, data, at)
      requires var b := Prefix(a, data, at); Going(b) && CallOk(b, answer) && InData(b.p) && end - at <= b.p.contentLength
      ensures Passed(a, data, end)
    {
      hide Feed, CallOk, Sound;
      forall k: nat | at <= k < end ensures !Blocked(a, data, k, answer) {
        BodySlice(a, data, at, k);
      }
    }

    /** The bytes up to and including the last one of the body. */
    lemma LastByte(a: Call, data: seq<byte>, at: nat, i: nat)
      requires at < i <= |data|
      requires var b := Prefix(a, data, at);
               Going(b) && CallOk(b, answer) && b.p.state == Body(BodyIdentity) && i - at == b.p.contentLength
      ensures var b := Prefix(a, data, at);
              var q := b.p.(contentLength := 0, state := Body(MessageDone));
              && CallOk(Prefix(a, data, i), answer)
              && Prefix(a, data, i) ==
                 Call(q.(state := NewMessage(q)), b.nread,
                      Emit(b.log, BODY, BytesOf(b.live) + data[at..i]) + [Notice(MessageComplete)], Unmarked, false, false,
                      b.used + i - at, b.p.upgrade)
    {
      hide Feed, CallOk, Sound, Advance, Emit, KeepsAlive;
      var b := Prefix(a, data, at);
      BodySlice(a, data, at, i - 1);
      var d := Prefix(a, data, i - 1);
      FeedOne(a, data, i - 1, answer);
      LastByteAdvance(d, data[i - 1], answer);
      AdvanceOk(d, data[i - 1], answer);
      if at < i - 1 {
        assert BytesOf(b.live) + data[at..i - 1] + [data[i - 1]] == BytesOf(b.live) + data[at..i];
      } else {
        assert data[at..i] == [data[i - 1]];
      }
    }

    /** The bytes of a body that lasts to the end of the stream. */
    method TakeRest(data: seq<byte>, at: nat, marks: Marks, ghost a: Call) returns (i: nat, m: Marks)
      requires at < |data| && At(a, data, at, marks) && parser.state == Body(BodyIdentityEof)
      ensures at < i && At(a, data, i, m)
    {
      hide Feed, Advance, CallOk, Step, Sound;
      ghost var b := Prefix(a, data, at);
      CallFits(b, answer);
      BodyKind(b);
      m := if MarkAt(marks, BODY) < 0 then Put(marks, BODY, at) else marks;
      i := |data|;
      FeedSlice(a, data, at, i, answer);
      EofRun(b, data[at..i], answer);
      RestPasses(a, data, at);
      FeedOk(b, data[at..i], answer);
      BodyMarked(data, at, i, marks, m, b.live);
    }

    lemma RestPasses(a: Call, data: seq<byte>, at: nat)
      requires at < |data| && Passed(a, data, at)
      requires var b := Prefix(a, data, at);
               Going(b) && b.p.state == Body(BodyIdentityEof) && (b.live.Marked? ==> b.live.kind == BODY)
      ensures Passed(a, data, |data| + 1)
    {
      hide Feed, Advance;
      var b := Prefix(a, data, at);
      forall k: nat | at <= k <= |data| ensures !Blocked(a, data, k, answer) {
        FeedSlice(a, data, at, k, answer);
        if at < k {
          EofRun(b, data[at..k], answer);
        }
      }
    }

    /** The marks that a call starts with. */
    method FirstMarks() returns (m: Marks)
      ensures MarkAt(m, URL) == if Opening(parser.state) == Marked(URL, []) then 0 else -1
      ensures forall k :: MarkAt(m, k) == if Opening(parser.state) == Marked(k, []) then 0 else -1
    {
      m := NO_MARKS;
      if parser.state == Headers(HeaderField) {
        m := m.(field := 0);
      }
      if parser.state == Headers(Value) {
        m := m.(value := 0);
      }
      if parser.state.Url? && !parser.state.url.ReqSpacesBeforeUrl? {
        m := m.(url := 0);
      } else if parser.state == StatusLine(ResStatus) {
        m := m.(status := 0);
      }
    }

    /** The end of the input hands out what is marked. */
    method FlushAll(data: seq<byte>, m: Marks, ghost live: Live)
      requires MarksAre(m, live, data, |data|)
      modifies this`log
      ensures log == View(old(log), live)
    {
      hide Emit;
      // At most one mark is set.
      assert forall k, l :: MarkAt(m, k) >= 0 && MarkAt(m, l) >= 0 ==> k == l;
      assert forall k :: MarkAt(m, k) >= 0 ==> data[MarkAt(m, k)..] == data[MarkAt(m, k)..|data|];
      if MarkAt(m, FIELD) >= 0 {
        log := Emit(log, FIELD, data[MarkAt(m, FIELD)..]);
      }
      if MarkAt(m, VALUE) >= 0 {
        log := Emit(log, VALUE, data[MarkAt(m, VALUE)..]);
      }
      if MarkAt(m, URL) >= 0 {
        log := Emit(log, URL, data[MarkAt(m, URL)..]);
      }
      if MarkAt(m, BODY) >= 0 {
        log := Emit(log, BODY, data[MarkAt(m, BODY)..]);
      }
      if MarkAt(m, STATUS) >= 0 {
        log := Emit(log, STATUS, data[MarkAt(m, STATUS)..]);
      }
      assert live.Marked? ==> MarkAt(m, live.kind) >= 0;
      assert live.Unmarked? ==> forall k :: MarkAt(m, k) < 0;
    }

    /** One round of the main loop. */
    method Round(data: seq<byte>, at: nat, marks: Marks, ghost a: Call) returns (stop: bool, i: nat, m: Marks)
      requires at < |data| && At(a, data, at, marks) && |data| + HTTP_MAX_HEADER_SIZE < TWO_TO_THE_32
      modifies this
      ensures if stop then Stopped(a, data, i) else at < i && At(a, data, i, m)
    {
      hide Feed, Advance, CallOk, Step, Sound, MarksAre, StoppedAt, Passed;
      ghost var b := Prefix(a, data, at);
      CallFits(b, answer);
      if ParsingHeader(parser.state) {
        var over := Count(1);
        if over {
          BlocksOne(a, data, at);
          assert log == b.log;
          assert Overflown(a, data);
          return true, at, marks;
        }
      }
      PassesOne(a, data, at);
      RoundFacts(b.p);
      assert parser.state == ChunkHead(ChunkSizeStart) ==> nread == 1;
      assert InChunks(parser.state) ==> F_CHUNKED in parser.flags;
      assert parser.state == Body(ChunkDataAlmostDone) ==> parser.contentLength == 0;
      if parser.state == Headers(HeaderField) {
        stop, i, m := ScanField(data, at, marks, a);
      } else if parser.state == Headers(Value) {
        stop, i, m := ScanValue(data, at, marks, a);
      } else if InData(parser) {
        stop, i, m := TakeBody(data, at, marks, a);
      } else if parser.state == Body(BodyIdentityEof) {
        i, m := TakeRest(data, at, marks, a);
        stop := false;
      } else {
        stop, i, m := TakeByte(data, at, marks, a);
        i := if stop then i else at + 1;
      }
    }

    /** The call as a whole: unless the header is too long, all that the application and the caller can
        see is what the bytes do one by one. */
    ghost predicate Done(p: Parser, n: nat, l: seq<Event>, data: seq<byte>, used: nat)
      reads this
    {
      var r := HttpRun.Execute(p, n, l, data, answer);
      && used == r.used && log == r.log && parser.errno == r.p.errno && parser.state == r.p.state
      && (parser.errno.OK? ==> parser == r.p && nread == r.nread)
    }

    /** How a call with data ends. */
    ghost predicate Ends(a: Call, p: Parser, n: nat, l: seq<Event>, data: seq<byte>, used: nat)
      reads this
    {
      if Overflows(a, data, answer)
      then parser.errno.HEADER_OVERFLOW? && exists j: nat :: j <= |data| && log == Prefix(a, data, j).log
      else Done(p, n, l, data, used) && !parser.errno.HEADER_OVERFLOW?
    }

    /** `http_parser_execute`; no data stands for the end of the stream. */
    method Execute(data: seq<byte>) returns (used: nat)
      requires Valid() && |data| + HTTP_MAX_HEADER_SIZE < TWO_TO_THE_32
      modifies this
      ensures data != [] || parser.state != Body(BodyIdentityEof) ==> Valid()
      ensures var a := Enter(old(parser), old(nread), old(log));
              old(parser).errno.OK? ==> (parser.errno.HEADER_OVERFLOW? <==> Overflows(a, data, answer))
      ensures var a := Enter(old(parser), old(nread), old(log));
              if old(parser).errno.OK? && Overflows(a, data, answer)
              then parser.errno.HEADER_OVERFLOW? && exists j: nat :: j <= |data| && log == Prefix(a, data, j).log
              else Done(old(parser), old(nread), old(log), data, used)
    {
      if !parser.errno.OK? {
        return 0;
      }
      if data == [] {
        if parser.state == Body(BodyIdentityEof) {
          log := log + [Notice(MessageComplete)];
          return 0;
        }
        if parser.state.Start? && !parser.state.start.ResOrRespH? {
          return 0;
        }
        EofBooks(parser, nread, log, answer);
        parser := parser.(errno := INVALID_EOF_STATE);
        return 1;
      }
      used := ExecuteData(data);
    }

    method ExecuteData(data: seq<byte>) returns (used: nat)
      requires Valid() && |data| + HTTP_MAX_HEADER_SIZE < TWO_TO_THE_32 && data != [] && parser.errno.OK?
      modifies this
      ensures Valid()
      ensures Ends(Enter(old(parser), old(nread), old(log)), old(parser), old(nread), old(log), data, used)
    {
      hide Feed, Advance, CallOk, Step, Sound, Settled, Stopped;
      ghost var a := Enter(parser, nread, log);
      var m := FirstMarks();
      EnterOk(parser, nread, log, answer);
      EnterAt(data, m);
      var i := 0;
      while i < |data|
        invariant i <= |data| && At(a, data, i, m)
      {
        var stop;
        stop, i, m := Round(data, i, m, a);
        if stop {
          EndStopped(a, data, i, old(parser), old(nread), old(log));
          return i;
        }
      }
      assert data[..|data|] == data;
      ghost var b := Prefix(a, data, i);
      EndReached(a, data, old(parser), old(nread), old(log));
      FlushAll(data, m, b.live);
      return i;
    }

    lemma EnterAt(data: seq<byte>, m: Marks)
      requires data != [] && Valid() && parser.errno.OK? && CallOk(Enter(parser, nread, log), answer)
      requires forall k :: MarkAt(m, k) == if Opening(parser.state) == Marked(k, []) then 0 else -1
      ensures At(Enter(parser, nread, log), data, 0, m)
    {
      hide CallOk, Sound, Settled;
      assert data[..0] == [];
      assert forall k: DataKind :: Opening(parser.state) == Marked(k, []) <==>
               Opening(parser.state).Marked? && Opening(parser.state).kind == k;
    }

    /** A call that has stopped does what the whole input would. */
    lemma EndStopped(a: Call, data: seq<byte>, used: nat, p: Parser, n: nat, l: seq<Event>)
      requires Stopped(a, data, used) && data != [] && p.errno.OK? && a == Enter(p, n, l)
      requires Settled(p, l, answer)
      ensures Valid()
      ensures Ends(a, p, n, l, data, used)
    {
      hide Feed, Books, View, Track;
      if Overflown(a, data) {
        var j: nat :| j <= |data| && log == Prefix(a, data, j).log && CallOk(Prefix(a, data, j), answer);
        BooksIntact(Prefix(a, data, j), answer);
      } else {
        var k: nat :| StoppedAt(a, data, used, k);
        FeedEnds(a, data, k, answer);
        StoppedPasses(a, data, used, k);
        ExecuteBooks(p, n, l, data, answer);
      }
    }

    lemma StoppedPasses(a: Call, data: seq<byte>, used: nat, k: nat)
      requires StoppedAt(a, data, used, k)
      ensures !Overflows(a, data, answer)
    {
      hide Feed, CallOk;
      forall j: nat | k <= j <= |data| ensures !Blocked(a, data, j, answer) {
        assert data[..j][..k] == data[..k];
        FeedEnds(a, data[..j], k, answer);
      }
    }

    /** So does a call that has come to the end. */
    lemma EndReached(a: Call, data: seq<byte>, p: Parser, n: nat, l: seq<Event>)
      requires data != [] && p.errno.OK? && a == Enter(p, n, l) && Settled(p, l, answer)
      requires Going(Prefix(a, data, |data|)) && CallOk(Prefix(a, data, |data|), answer) && Passed(a, data, |data| + 1)
      ensures var r := HttpRun.Execute(p, n, l, data, answer);
              && r == Leave(Prefix(a, data, |data|)) && Settled(r.p, r.log, answer)
              && (r.p.state == ChunkHead(ChunkSizeStart) ==> r.nread == 0)
              && !r.p.errno.HEADER_OVERFLOW?
      ensures !Overflows(a, data, answer)
    {
      hide Feed, Settled, Books, View;
      assert data[..|data|] == data;
      ExecuteBooks(p, n, l, data, answer);
    }
  }

  lemma ActStep(log: seq<Event>, live: Live, acts: seq<Action>, j: nat, c: byte)
    requires j < |acts| && Disciplined(MarkOf(live), acts[j..])
    ensures var next := PerformAction(log, live, acts[j], c);
            && Perform(log, live, acts[j..], c) == Perform(next.0, next.1, acts[j + 1..], c)
            && Allowed(MarkOf(live), acts[j]) && Disciplined(MarkOf(next.1), acts[j + 1..])
  {
    hide View;
    assert acts[j..][1..] == acts[j + 1..];
  }

  lemma ByteFacts(a: Call, c: byte, answer: Answer)
    requires CallOk(a, answer) && Going(a) && !InScan(a.p.state)
    ensures !a.skipping && CallOk(Advance(a, c, answer), answer)
    ensures Disciplined(MarkOf(a.live), Step(a.p, c, answer, false).acts)
    ensures !Advance(a, c, answer).scanning
  {
    hide Step, Sound, Perform;
    AdvanceOk(a, c, answer);
    StepOrder(a.p, c, answer, false);
    var out := Step(a.p, c, answer, false);
    if out.p.errno.OK? {
      StepMarks(a.p, out, answer, MarkOf(a.live), a.log, c);
    } else {
      ErrsDisciplined(a.p, out, MarkOf(a.live));
    }
  }

  lemma ErrsDisciplined(p: Parser, out: Out, m: Mark)
    requires ErrsOrderly(p, out) && MarkFits(m, p.state)
    ensures Disciplined(m, out.acts)
  {
    if out.acts != [] {
      assert out.acts[1..] == [Flush(VALUE)] && out.acts[1..][1..] == [];
    }
  }

  lemma CallFits(a: Call, answer: Answer)
    requires CallOk(a, answer) && Going(a)
    ensures Sound(a.p) && MarkFits(MarkOf(a.live), a.p.state) && Scanning(a)
  {
  }

  lemma FieldEnds(a: Call, c: byte, answer: Answer)
    requires Going(a) && a.p.state == Headers(HeaderField) && TokenOf(c) == 0 && MarkFits(MarkOf(a.live), a.p.state)
    ensures a.live.Marked? && a.live.kind == FIELD
    ensures Advance(a, c, answer) ==
            if Is(c, ':')
            then Call(a.p.(state := Headers(ValueDiscardWs)), a.nread + 1, Emit(a.log, FIELD, a.live.bytes), Unmarked,
                      false, false, a.used + 1, false)
            else Call(a.p.(errno := INVALID_HEADER_TOKEN), a.nread + 1, a.log, Cover(a.live, c), true, false, a.used, false)
  {
    hide TokenOf, Emit;
    assert [Flush(FIELD)][1..] == [];
  }

  lemma ValueEnds(a: Call, c: byte, answer: Answer)
    requires Going(a) && a.p.state == Headers(Value) && IsLineEnd(c) && MarkFits(MarkOf(a.live), a.p.state)
    ensures a.live.Marked? && a.live.kind == VALUE
    ensures Advance(a, c, answer) ==
            Call(a.p.(state := Headers(if c == CR then HeaderAlmostDone else ValueLws)), a.nread + 1,
                 Emit(a.log, VALUE, a.live.bytes), Unmarked, false, false, a.used + 1, false)
  {
    hide Emit, ValueNext;
    assert [Flush(VALUE)][1..] == [];
  }

  lemma ValueRefused(a: Call, c: byte, answer: Answer)
    requires Going(a) && a.p.state == Headers(Value) && !a.p.lenient && !a.skipping && !IsHeaderChar(c)
    ensures var b := Advance(a, c, answer); b.p == a.p.(errno := INVALID_HEADER_TOKEN) && b.log == a.log && b.used == a.used
  {
    hide IsHeaderChar, ValueNext;
    LineEndsPass(c);
  }

  lemma ValueBad(a: Call, c: byte, answer: Answer)
    requires Going(a) && a.p.state == Headers(Value) && !IsLineEnd(c) && (a.p.lenient || a.skipping || IsHeaderChar(c))
    requires !ValueNext(a.p, c).p.errno.OK?
    ensures var b := Advance(a, c, answer); b.p == ValueNext(a.p, c).p && b.log == a.log && b.used == a.used
  {
    hide IsHeaderChar, ContentLengthStep;
    ContentLengthStays(a.p, c);
  }

  lemma ValueNextStays(p: Parser, c: byte)
    ensures ValueNext(p, c).p.state == p.state
  {
    hide ValueMatcher, ValueIndex, Settle;
    ContentLengthStays(p, c);
  }

  lemma BodyFacts(p: Parser)
    requires Sound(p) && InData(p)
    ensures 0 < p.contentLength < ULLONG_MAX && (p.state == Body(ChunkData) ==> F_CHUNKED in p.flags)
  {
  }

  lemma BodyKind(a: Call)
    requires MarkFits(MarkOf(a.live), a.p.state) && a.p.state.Body?
    ensures a.live.Marked? ==> a.live.kind == BODY
  {
  }

  /** The mark of the body, set now or before, covers the bytes up to `i`. */
  lemma BodyMarked(data: seq<byte>, at: nat, i: nat, marks: Marks, m: Marks, live: Live)
    requires at <= i <= |data| && MarksAre(marks, live, data, at) && (live.Marked? ==> live.kind == BODY)
    requires m == if MarkAt(marks, BODY) < 0 then Put(marks, BODY, at) else marks
    ensures MarksAre(m, Marked(BODY, BytesOf(live) + data[at..i]), data, i)
    ensures data[MarkAt(m, BODY)..i] == BytesOf(live) + data[at..i]
  {
    var k := MarkAt(m, BODY);
    if live.Marked? {
      assert data[k..at] + data[at..i] == data[k..i];
    }
  }

  lemma EnterOk(p: Parser, nread: nat, log: seq<Event>, answer: Answer)
    requires Settled(p, log, answer) && p.errno.OK? && (p.state == ChunkHead(ChunkSizeStart) ==> nread == 0)
    ensures CallOk(Enter(p, nread, log), answer)
  {
    hide Sound;
    EnterSim(p, nread, log);
  }

  lemma RoundFacts(p: Parser)
    requires Sound(p)
    ensures InChunks(p.state) ==> F_CHUNKED in p.flags
    ensures p.state == Body(ChunkDataAlmostDone) ==> p.contentLength == 0
  {
  }

  lemma BooksIntact(a: Call, answer: Answer)
    requires Books(a, answer)
    ensures !Track(a.log, answer).Broken?
  {
    hide Sound, PhaseOf, Track;
    if a.p.errno.OK? {
      AgreeIntact(Track(View(a.log, a.live), answer), PhaseOf(a.p));
      WithoutMarked(a.log, a.live, answer);
    }
  }
}
