/** The nested matchers recognise exactly the words they are meant for:
    methods, field names and the chunked transfer coding. */
module HttpWords {
  import opened HttpTypes
  import opened HttpStep
  import opened HttpRun
  import opened HttpLength

  /** `w` is the beginning of `word`. */
  predicate Spells(w: seq<byte>, word: string) {
    |w| <= |word| && forall k :: 0 <= k < |w| ==> w[k] == word[k] as int
  }

  lemma SpellsMore(w: seq<byte>, c: byte, word: string)
    ensures Spells(w + [c], word) <==> Spells(w, word) && |w| < |word| && c == word[|w|] as int
  {
    if Spells(w + [c], word) {
      assert (w + [c])[|w|] == word[|w|] as int;
      forall k | 0 <= k < |w| ensures w[k] == word[k] as int {
        assert (w + [c])[k] == word[k] as int;
      }
    }
  }

  // ----- Field names -----

  /** The matcher after the first bytes `w` of a field name, in lower case. */
  function Expected(w: seq<byte>): HeaderState
    requires w != []
  {
    if Spells(w, CONNECTION) then
      if |w| == 1 then HC else if |w| == 2 then HCO else if |w| == 3 then HCON
      else if |w| < |CONNECTION| then MatchingConnection else Connection
    else if Spells(w, CONTENT_LENGTH) then if |w| < |CONTENT_LENGTH| then MatchingContentLength else ContentLength
    else if Spells(w, PROXY_CONNECTION) then if |w| < |PROXY_CONNECTION| then MatchingProxyConnection else Connection
    else if Spells(w, TRANSFER_ENCODING) then
      if |w| < |TRANSFER_ENCODING| then MatchingTransferEncoding else TransferEncoding
    else if Spells(w, UPGRADE) then if |w| < |UPGRADE| then MatchingUpgrade else Upgrade
    else General
  }

  /** The two words that begin alike do so for three letters. */
  lemma SharedStem(w: seq<byte>)
    ensures |w| <= 3 ==> (Spells(w, CONNECTION) <==> Spells(w, CONTENT_LENGTH))
    ensures |w| > 3 ==> !(Spells(w, CONNECTION) && Spells(w, CONTENT_LENGTH))
  {
    assert CONNECTION[3] != CONTENT_LENGTH[3];
    assert forall k :: 0 <= k < 3 ==> CONNECTION[k] == CONTENT_LENGTH[k];
  }

  lemma FirstLetters(w: seq<byte>)
    requires w != []
    ensures Spells(w, CONNECTION) || Spells(w, CONTENT_LENGTH) ==> Is(w[0], 'c')
    ensures Spells(w, PROXY_CONNECTION) ==> Is(w[0], 'p')
    ensures Spells(w, TRANSFER_ENCODING) ==> Is(w[0], 't')
    ensures Spells(w, UPGRADE) ==> Is(w[0], 'u')
  {
  }

  /** A matcher that has seen `w` and now sees `t`, the beginning of `word` or not. */
  lemma MatchNext(w: seq<byte>, t: byte, word: string, miss: HeaderState, hit: HeaderState, more: HeaderState)
    requires t != 0 && Spells(w, word) && |w| < |word|
    ensures Match(word, |w|, t, miss, hit, more) ==
            if !Spells(w + [t], word) then miss else if |w + [t]| == |word| then hit else more
  {
    SpellsMore(w, t, word);
  }

  lemma ExpectedNext(w: seq<byte>, t: byte)
    requires w != [] && t != 0
    ensures FieldNext(Expected(w), |w|, t) == Expected(w + [t])
  {
    hide Spells, Match;
    var v := w + [t];
    assert v[0] == w[0];
    FirstLetters(w);
    FirstLetters(v);
    SharedStem(w);
    SharedStem(v);
    SpellsMore(w, t, CONNECTION);
    SpellsMore(w, t, CONTENT_LENGTH);
    SpellsMore(w, t, PROXY_CONNECTION);
    SpellsMore(w, t, TRANSFER_ENCODING);
    SpellsMore(w, t, UPGRADE);
    match Expected(w)
    case MatchingConnection => MatchNext(w, t, CONNECTION, General, Connection, MatchingConnection);
    case MatchingProxyConnection => MatchNext(w, t, PROXY_CONNECTION, General, Connection, MatchingProxyConnection);
    case MatchingContentLength => MatchNext(w, t, CONTENT_LENGTH, General, ContentLength, MatchingContentLength);
    case MatchingTransferEncoding => MatchNext(w, t, TRANSFER_ENCODING, General, TransferEncoding, MatchingTransferEncoding);
    case MatchingUpgrade => MatchNext(w, t, UPGRADE, General, Upgrade, MatchingUpgrade);
    case _ =>
  }

  /** A name in lower case. */
  function Lowered(name: seq<byte>): (w: seq<byte>)
    ensures |w| == |name| && forall i :: 0 <= i < |w| ==> w[i] == TokenOf(name[i])
  {
    if name == [] then [] else Lowered(name[..|name| - 1]) + [TokenOf(name[|name| - 1])]
  }

  predicate IsName(name: seq<byte>) {
    name != [] && forall i :: 0 <= i < |name| ==> TokenOf(name[i]) != 0
  }

  predicate InName(s: Conn, w: seq<byte>) {
    && Alive(s) && s.p.state == Headers(HeaderField) && w != []
    && s.p.headerState == Expected(w) && (Counting(s.p.headerState) ==> s.p.index == |w| - 1)
  }

  lemma FirstLetter(s: Conn, c: byte, answer: Answer)
    requires Alive(s) && s.p.state == Headers(HeaderFieldStart) && TokenOf(c) != 0
    ensures InName(Byte(s, c, answer), [TokenOf(c)])
  {
    hide Hear, TokenOf;
    assert c != CR && c != LF by { LineEndsNoToken(); }
    StemOf(TokenOf(c));
  }

  lemma LineEndsNoToken()
    ensures TokenOf(CR) == 0 && TokenOf(LF) == 0
  {
  }

  lemma StemOf(t: byte)
    ensures Expected([t]) ==
            if Is(t, 'c') then HC else if Is(t, 'p') then MatchingProxyConnection
            else if Is(t, 't') then MatchingTransferEncoding else if Is(t, 'u') then MatchingUpgrade else General
  {
    assert [t] == [] + [t];
    SpellsMore([], t, CONNECTION);
    SpellsMore([], t, CONTENT_LENGTH);
    SpellsMore([], t, PROXY_CONNECTION);
    SpellsMore([], t, TRANSFER_ENCODING);
    SpellsMore([], t, UPGRADE);
  }

  lemma NotCounting(h: HeaderState, i: nat, t: byte)
    requires !Counting(h)
    ensures FieldNext(h, i, t) == General
  {
  }

  lemma NameByte(s: Conn, c: byte, answer: Answer)
    requires Alive(s) && s.p.state == Headers(HeaderField) && TokenOf(c) != 0
    ensures var t := Byte(s, c, answer);
            var h := s.p.headerState;
            var i := if Counting(h) then s.p.index + 1 else s.p.index;
            Alive(t) && t.p == s.p.(headerState := FieldNext(h, i, TokenOf(c)), index := i)
  {
    hide Hear, TokenOf, FieldNext;
  }

  lemma NextLetter(s: Conn, w: seq<byte>, c: byte, answer: Answer)
    requires InName(s, w) && TokenOf(c) != 0
    ensures InName(Byte(s, c, answer), w + [TokenOf(c)])
  {
    hide Byte, TokenOf, FieldNext, Expected, Counting;
    var t := TokenOf(c);
    NameByte(s, c, answer);
    ExpectedNext(w, t);
    if !Counting(s.p.headerState) {
      NotCounting(s.p.headerState, s.p.index, t);
      NotCounting(s.p.headerState, |w|, t);
    }
    if Counting(Expected(w + [t])) {
      CountsOn(w, t);
    }
  }

  /** Once a matcher stops counting it never starts again. */
  lemma CountsOn(w: seq<byte>, t: byte)
    requires w != [] && t != 0 && Counting(Expected(w + [t]))
    ensures Counting(Expected(w))
  {
    hide Expected;
    ExpectedNext(w, t);
  }

  lemma {:induction false} NameMatched(s: Conn, name: seq<byte>, answer: Answer)
    requires Alive(s) && s.p.state == Headers(HeaderFieldStart) && IsName(name)
    ensures InName(Serial(s, name, answer), Lowered(name))
    decreases |name|
  {
    hide Byte, InName, TokenOf;
    var n := |name| - 1;
    if n == 0 {
      assert name[..0] == [] && name == [name[0]];
      FirstLetter(s, name[0], answer);
      assert Serial(s, name, answer) == Byte(s, name[0], answer);
      assert Lowered(name) == [TokenOf(name[0])];
    } else {
      NameMatched(s, name[..n], answer);
      NextLetter(Serial(s, name[..n], answer), Lowered(name[..n]), name[n], answer);
    }
  }

  /** `w` is `word`. */
  predicate Equals(w: seq<byte>, word: string) {
    |w| == |word| && Spells(w, word)
  }

  lemma ExpectedWords(w: seq<byte>)
    requires w != []
    ensures var h := Expected(w);
            && (h.Connection? <==> Equals(w, CONNECTION) || Equals(w, PROXY_CONNECTION))
            && (h.ContentLength? <==> Equals(w, CONTENT_LENGTH))
            && (h.TransferEncoding? <==> Equals(w, TRANSFER_ENCODING))
            && (h.Upgrade? <==> Equals(w, UPGRADE))
  {
    hide Spells;
    SpellsLength(w, CONNECTION);
    SpellsLength(w, PROXY_CONNECTION);
    SpellsLength(w, CONTENT_LENGTH);
    SpellsLength(w, TRANSFER_ENCODING);
    SpellsLength(w, UPGRADE);
    FirstLetters(w);
    SharedStem(w);
  }

  lemma SpellsLength(w: seq<byte>, word: string)
    ensures Spells(w, word) ==> |w| <= |word|
  {
  }

  /** The headers that steer the parse are recognised by their names, in any case of letters, and by nothing else. */
  lemma NamesRecognised(s: Conn, name: seq<byte>, answer: Answer)
    requires Alive(s) && s.p.state == Headers(HeaderFieldStart) && IsName(name)
    ensures var h := Serial(s, name, answer).p.headerState;
            var w := Lowered(name);
            && (h.Connection? <==> Equals(w, CONNECTION) || Equals(w, PROXY_CONNECTION))
            && (h.ContentLength? <==> Equals(w, CONTENT_LENGTH))
            && (h.TransferEncoding? <==> Equals(w, TRANSFER_ENCODING))
            && (h.Upgrade? <==> Equals(w, UPGRADE))
  {
    hide Serial, Expected, Equals;
    NameMatched(s, name, answer);
    ExpectedWords(Lowered(name));
  }

  // ----- The chunked coding -----

  function LowerAll(v: seq<byte>): (w: seq<byte>)
    ensures |w| == |v| && forall i :: 0 <= i < |w| ==> w[i] == Lower(v[i])
  {
    if v == [] then [] else LowerAll(v[..|v| - 1]) + [Lower(v[|v| - 1])]
  }

  /** The word, then nothing but blanks. */
  predicate SaysChunked(v: seq<byte>) {
    && |v| >= |CHUNKED| && Equals(LowerAll(v)[..|CHUNKED|], CHUNKED)
    && forall i :: |CHUNKED| <= i < |v| ==> v[i] == SP
  }

  /** The bytes of a value on one line. */
  predicate IsValue(v: seq<byte>) {
    v != [] && !IsBlank(v[0]) && forall i :: 0 <= i < |v| ==> !IsLineEnd(v[i]) && IsHeaderChar(v[i])
  }

  /** The matcher after the value bytes `v` of a Transfer-Encoding header. */
  predicate InCoding(s: Conn, v: seq<byte>) {
    && Alive(s) && s.p.state == Headers(Value) && v != []
    && (if SaysChunked(v) then s.p.headerState.Chunked?
        else if |v| < |CHUNKED| && Spells(LowerAll(v), CHUNKED)
        then s.p.headerState.MatchingChunked? && s.p.index == |v| - 1
        else s.p.headerState.General?)
  }

  lemma ValueByte(s: Conn, c: byte, answer: Answer)
    requires Alive(s) && s.p.state == Headers(Value) && !s.p.headerState.ContentLength?
    requires IsHeaderChar(c) && !IsLineEnd(c)
    ensures var t := Byte(s, c, answer);
            Alive(t) && t.p.state == s.p.state && t.p.headerState == ValueMatcher(s.p.headerState, s.p.index + 1, c)
            && t.p.index == ValueIndex(s.p.headerState, s.p.index, c)
  {
    hide Hear, ValueMatcher, ValueIndex, IsHeaderChar, Settle;
  }

  lemma FirstOfCoding(s: Conn, c: byte, answer: Answer)
    requires Alive(s) && s.p.state == Headers(ValueDiscardWs) && s.p.headerState.TransferEncoding?
    requires !IsLineEnd(c) && !IsBlank(c)
    ensures InCoding(Byte(s, c, answer), [c])
  {
    hide Hear;
    assert LowerAll([c]) == [Lower(c)];
    SpellsMore([], Lower(c), CHUNKED);
    assert [] + [Lower(c)] == [Lower(c)];
  }

  lemma ChunkedNext(v: seq<byte>, c: byte)
    requires v != []
    ensures SaysChunked(v + [c]) <==>
              (SaysChunked(v) && c == SP)
              || (|v| + 1 == |CHUNKED| && Spells(LowerAll(v), CHUNKED) && Lower(c) == CHUNKED[|v|] as int)
  {
    hide Spells, Lower;
    var u := v + [c];
    assert u[..|u| - 1] == v;
    assert LowerAll(u) == LowerAll(v) + [Lower(c)];
    hide LowerAll;
    if |u| == |CHUNKED| {
      SpellsMore(LowerAll(v), Lower(c), CHUNKED);
      assert LowerAll(u)[..|CHUNKED|] == LowerAll(u);
    } else if |u| > |CHUNKED| {
      assert LowerAll(u)[..|CHUNKED|] == LowerAll(v)[..|CHUNKED|];
      BlanksOn(v, c);
    }
  }

  lemma BlanksOn(v: seq<byte>, c: byte)
    requires |v| >= |CHUNKED|
    ensures (forall i :: |CHUNKED| <= i < |v + [c]| ==> (v + [c])[i] == SP)
            <==> c == SP && forall i :: |CHUNKED| <= i < |v| ==> v[i] == SP
  {
    var u := v + [c];
    if forall i :: |CHUNKED| <= i < |u| ==> u[i] == SP {
      assert u[|v|] == SP;
      forall i | |CHUNKED| <= i < |v| ensures v[i] == SP {
        assert u[i] == SP;
      }
    }
  }

  lemma NextOfCoding(s: Conn, v: seq<byte>, c: byte, answer: Answer)
    requires InCoding(s, v) && IsHeaderChar(c) && !IsLineEnd(c)
    ensures InCoding(Byte(s, c, answer), v + [c])
  {
    hide Byte, IsHeaderChar, SaysChunked, Spells, Lower;
    ValueByte(s, c, answer);
    ChunkedNext(v, c);
    SpellsMore(LowerAll(v), Lower(c), CHUNKED);
    assert (v + [c])[..|v|] == v;
    SaysLength(v);
    SaysLength(v + [c]);
    LowerPositive(c);
  }

  lemma SaysLength(v: seq<byte>)
    ensures SaysChunked(v) ==> |v| >= |CHUNKED|
  {
  }

  lemma LowerPositive(c: byte)
    ensures Lower(c) != 0
  {
  }

  /** A body is taken to be chunked if and only if the value of its Transfer-Encoding is the one word, in any case
      of letters; a list of codings that ends with it is not recognised. */
  lemma {:induction false} ChunkedRecognised(s: Conn, v: seq<byte>, answer: Answer)
    requires Alive(s) && s.p.state == Headers(ValueDiscardWs) && s.p.headerState.TransferEncoding? && IsValue(v)
    ensures var t := Serial(s, v, answer);
            InCoding(t, v) && (t.p.headerState.Chunked? <==> SaysChunked(v))
    decreases |v|
  {
    hide Byte, SaysChunked, Spells, IsHeaderChar;
    var n := |v| - 1;
    if n == 0 {
      assert v[..0] == [] && v == [v[0]];
      FirstOfCoding(s, v[0], answer);
      assert Serial(s, v, answer) == Byte(s, v[0], answer);
    } else {
      assert v[..n][0] == v[0];
      ChunkedRecognised(s, v[..n], answer);
      assert v == v[..n] + [v[n]];
      NextOfCoding(Serial(s, v[..n], answer), v[..n], v[n], answer);
    }
  }

  // ----- Methods -----

  /** In the middle of the method `w`: the letters so far are those of the parser's guess. */
  predicate InMethod(s: Conn, w: seq<byte>) {
    && Alive(s) && s.p.state.Method? && w != [] && s.p.index == |w|
    && s.p.line.meth < METHOD_COUNT && Spells(w, MethodName(s.p.line.meth))
  }

  lemma FirstOfMethod(s: Conn, c: byte, answer: Answer)
    requires Alive(s) && s.p.state == Start(StartReq) && !IsLineEnd(c)
    ensures Alive(Byte(s, c, answer)) ==> InMethod(Byte(s, c, answer), [c])
  {
    hide Hear;
  }

  lemma OtherMethodSpells(meth: nat, w: seq<byte>, c: byte)
    requires OtherMethod(meth, |w|, c) >= 0 && Spells(w, MethodName(meth))
    ensures OtherMethod(meth, |w|, c) < METHOD_COUNT && Spells(w + [c], MethodName(OtherMethod(meth, |w|, c)))
  {
  }

  lemma MethodNextSpells(meth: nat, w: seq<byte>, c: byte)
    requires meth < METHOD_COUNT && Spells(w, MethodName(meth)) && MethodNext(meth, |w|, c) >= 0 && w != []
    ensures var m := MethodNext(meth, |w|, c); m < METHOD_COUNT && Spells(w + [c], MethodName(m))
  {
    hide OtherMethod, IsAlpha, MethodName;
    SpellsMore(w, c, MethodName(meth));
    if OtherMethod(meth, |w|, c) >= 0 {
      OtherMethodSpells(meth, w, c);
    }
    if |w| == 1 && meth == MKCOL && Is(c, '-') {
      DashSpells(w, c);
    }
  }

  lemma DashSpells(w: seq<byte>, c: byte)
    requires |w| == 1 && Spells(w, MethodName(MKCOL)) && Is(c, '-')
    ensures Spells(w + [c], MethodName(MSEARCH))
  {
  }

  /** A byte that does not end the method keeps the guess in line with the letters, or is an error. */
  lemma MethodByte(s: Conn, w: seq<byte>, c: byte, answer: Answer)
    requires InMethod(s, w)
    ensures var t := Byte(s, c, answer);
            && (c == SP && |w| == |MethodName(s.p.line.meth)| ==>
                  Alive(t) && t.p.state == Url(ReqSpacesBeforeUrl) && t.p.line == s.p.line)
            && (Alive(t) && t.p.state.Method? ==> InMethod(t, w + [c]))
            && (Alive(t) && !t.p.state.Method? ==> c == SP && |w| == |MethodName(s.p.line.meth)|)
            && (c != SP ==> (Alive(t) <==> MethodNext(s.p.line.meth, |w|, c) >= 0)
                            && (Alive(t) ==> t.p.state.Method? && t.p.line.meth == MethodNext(s.p.line.meth, |w|, c)))
  {
    hide Hear, MethodNext, Spells, MethodName;
    SpellsLength(w, MethodName(s.p.line.meth));
    NoZero(s.p.line.meth);
    if MethodNext(s.p.line.meth, |w|, c) >= 0 {
      MethodNextSpells(s.p.line.meth, w, c);
    }
  }

  lemma NoZero(m: nat)
    requires m < METHOD_COUNT
    ensures '\0' !in MethodName(m)
  {
  }

  /** No blank before the end of the method. */
  predicate OneWord(w: seq<byte>) {
    w != [] && !IsLineEnd(w[0]) && forall i :: 0 <= i < |w| ==> w[i] != SP
  }

  lemma {:induction false} MethodSpelled(s: Conn, w: seq<byte>, answer: Answer)
    requires Alive(s) && s.p.state == Start(StartReq) && OneWord(w)
    ensures Alive(Serial(s, w, answer)) ==> InMethod(Serial(s, w, answer), w)
    decreases |w|
  {
    hide Byte, InMethod, Alive;
    var n := |w| - 1;
    if n == 0 {
      assert w[..0] == [] && w == [w[0]];
      FirstOfMethod(s, w[0], answer);
      assert Serial(s, w, answer) == Byte(s, w[0], answer);
    } else {
      MethodSpelled(s, w[..n], answer);
      var t := Serial(s, w[..n], answer);
      assert w == w[..n] + [w[n]];
      if Alive(t) {
        MethodByte(t, w[..n], w[n], answer);
        StillMethod(t, w[..n], w[n], answer);
      } else {
        DeadByte(t, w[n], answer);
      }
    }
  }

  lemma StillMethod(s: Conn, w: seq<byte>, c: byte, answer: Answer)
    requires InMethod(s, w) && c != SP
    ensures Alive(Byte(s, c, answer)) ==> InMethod(Byte(s, c, answer), w + [c])
  {
    hide Byte, Spells, MethodName, MethodNext;
    MethodByte(s, w, c, answer);
  }

  // Which guess the parser holds after `i` letters of method `m`.

  function TurnsAt(m: nat): nat {
    match m
    case 4 => 2 case 28 => 2 case 12 => 2 case 22 => 2 case 8 => 3 case 11 => 2 case 23 => 2 case 21 => 3
    case 30 => 4 case 24 => 2 case 14 => 2 case 17 => 3 case 31 => 2 case 27 => 3 case 18 => 3 case 32 => 4
    case _ => 0
  }

  function TurnsFrom(m: nat): nat {
    match m
    case 4 => POST case 28 => POST case 12 => POST case 22 => CONNECT case 8 => CONNECT
    case 11 => MKCOL case 23 => MKCOL case 21 => MKCOL case 30 => MKCOL case 24 => MKCOL
    case 14 => SUBSCRIBE case 17 => REPORT case 31 => LOCK
    case 27 => UNLOCK case 18 => UNLOCK case 32 => UNLOCK
    case _ => m
  }

  function Guess(m: nat, i: nat): nat {
    if m == PROPPATCH then if i == 1 then POST else if i <= 4 then PROPFIND else m
    else if m == PURGE then if i == 1 then POST else if i == 2 then PUT else m
    else if i < TurnsAt(m) then TurnsFrom(m) else m
  }

  /** Before the turn the guess spells the same letters; at the turn the letter leads on to the method itself. */
  lemma GuessTurns(m: nat, i: nat, c: byte)
    requires m < METHOD_COUNT && 1 <= i < TurnsAt(m) && i < |MethodName(m)| && c == MethodChar(m, i)
    ensures m != PROPPATCH && m != PURGE ==> MethodNext(TurnsFrom(m), i, c) == if i + 1 < TurnsAt(m) then TurnsFrom(m) else m
  {
  }

  lemma GuessStep(m: nat, i: nat, c: byte)
    requires m < METHOD_COUNT && 1 <= i < |MethodName(m)| && c == MethodChar(m, i)
    ensures MethodNext(Guess(m, i), i, c) == Guess(m, i + 1)
  {
    if m == PROPPATCH || m == PURGE {
      assert i < |MethodName(m)|;
    } else if i < TurnsAt(m) {
      hide MethodName, MethodNext, TurnsAt, TurnsFrom;
      GuessTurns(m, i, c);
    } else {
      hide MethodName, TurnsAt, TurnsFrom;
      NoZero(m);
    }
  }

  lemma FirstGuess(s: Conn, m: nat, c: byte, answer: Answer)
    requires Alive(s) && s.p.state == Start(StartReq) && m < METHOD_COUNT && c == MethodChar(m, 0)
    ensures FirstMethod(c) == Guess(m, 1)
    ensures var t := Byte(s, c, answer); Alive(t) && t.p.state.Method? && t.p.line.meth == Guess(m, 1)
  {
    hide Hear;
    FirstLetterOf(m, c);
  }

  lemma FirstLetterOf(m: nat, c: byte)
    requires m < METHOD_COUNT && c == MethodChar(m, 0)
    ensures FirstMethod(c) == Guess(m, 1) && IsAlpha(c) && !IsLineEnd(c)
  {
  }

  lemma {:induction false} MethodGuessed(s: Conn, m: nat, w: seq<byte>, answer: Answer)
    requires Alive(s) && s.p.state == Start(StartReq) && m < METHOD_COUNT && Spells(w, MethodName(m)) && OneWord(w)
    ensures var t := Serial(s, w, answer); InMethod(t, w) && t.p.line.meth == Guess(m, |w|)
    decreases |w|
  {
    hide Byte, InMethod, Guess, MethodName, FirstMethod;
    var n := |w| - 1;
    MethodSpelled(s, w, answer);
    assert w[n] as int == MethodChar(m, n);
    if n == 0 {
      assert w[..0] == [] && w == [w[0]];
      FirstGuess(s, m, w[0], answer);
      assert Serial(s, w, answer) == Byte(s, w[0], answer);
    } else {
      MethodGuessed(s, m, w[..n], answer);
      var t := Serial(s, w[..n], answer);
      GuessStep(m, n, w[n]);
      StillMethodNext(t, w[..n], w[n], answer);
    }
  }

  lemma StillMethodNext(s: Conn, w: seq<byte>, c: byte, answer: Answer)
    requires InMethod(s, w) && c != SP && MethodNext(s.p.line.meth, |w|, c) >= 0
    ensures Alive(Byte(s, c, answer)) && Byte(s, c, answer).p.line.meth == MethodNext(s.p.line.meth, |w|, c)
  {
    hide Byte, Spells, MethodName, MethodNext;
    MethodByte(s, w, c, answer);
  }

  lemma NoBlank(m: nat)
    requires m < METHOD_COUNT
    ensures ' ' !in MethodName(m)
  {
  }

  /** The blank after the method: the method is one of those known, in full, or it is refused. */
  lemma MethodEnds(s: Conn, w: seq<byte>, answer: Answer)
    requires InMethod(s, w)
    ensures var t := Byte(s, SP, answer);
            && (Alive(t) <==> Equals(w, MethodName(s.p.line.meth)))
            && (Alive(t) ==> t.p.state == Url(ReqSpacesBeforeUrl) && t.p.line == s.p.line)
  {
    hide Hear, OtherMethod, MethodName;
    NoBlank(s.p.line.meth);
    NoZero(s.p.line.meth);
  }

  /** The words accepted as methods are exactly the 33 names, and the parser knows which one it has read. */
  lemma MethodsRecognised(s: Conn, w: seq<byte>, answer: Answer)
    requires Alive(s) && s.p.state == Start(StartReq) && OneWord(w)
    ensures var t := Serial(s, w + [SP], answer);
            && (Alive(t) <==> exists m: nat :: m < METHOD_COUNT && Equals(w, MethodName(m)))
            && (Alive(t) ==> t.p.state == Url(ReqSpacesBeforeUrl) && Equals(w, MethodName(t.p.line.meth)))
  {
    hide Byte, MethodName, Spells, Guess, InMethod, OneWord;
    var t := Serial(s, w, answer);
    assert (w + [SP])[..|w + [SP]| - 1] == w;
    MethodSpelled(s, w, answer);
    if Alive(t) {
      MethodEnds(t, w, answer);
      InMethodKnown(t, w);
    } else {
      DeadByte(t, SP, answer);
    }
    forall m: nat | m < METHOD_COUNT && Equals(w, MethodName(m)) ensures Alive(Byte(t, SP, answer)) {
      MethodGuessed(s, m, w, answer);
      GuessEnds(m);
      InMethodAlive(t, w);
      MethodEnds(t, w, answer);
    }
  }

  lemma GuessEnds(m: nat)
    requires m < METHOD_COUNT
    ensures Guess(m, |MethodName(m)|) == m
  {
  }

  lemma InMethodKnown(s: Conn, w: seq<byte>)
    requires InMethod(s, w)
    ensures s.p.line.meth < METHOD_COUNT
  {
  }

  lemma InMethodAlive(s: Conn, w: seq<byte>)
    requires InMethod(s, w)
    ensures Alive(s)
  {
  }
}
