/** The options of a Connection header, which decide whether the connection stays
    open and whether it changes its protocol (app/http/HttpParser.cc). */
module HttpOptions {
  import opened HttpTypes
  import opened HttpStep
  import opened HttpRun
  import opened HttpWords

  datatype Opt = StayOpen | CloseIt | ChangeIt

  function Text(o: Opt): string {
    match o case StayOpen => KEEP_ALIVE case CloseIt => CLOSE case ChangeIt => UPGRADE
  }

  function Seeking(o: Opt): HeaderState {
    match o case StayOpen => MatchingKeepAlive case CloseIt => MatchingClose case ChangeIt => MatchingConnUpgrade
  }

  function Seen(o: Opt): HeaderState {
    match o case StayOpen => KeepAlive case CloseIt => Close case ChangeIt => ConnUpgrade
  }

  function FlagOf(o: Opt): Flag {
    match o
    case StayOpen => F_CONNECTION_KEEP_ALIVE
    case CloseIt => F_CONNECTION_CLOSE
    case ChangeIt => F_CONNECTION_UPGRADE
  }

  /** The option, in any case of letters, and nothing after it but blanks. */
  predicate Says(v: seq<byte>, o: Opt) {
    && |v| >= |Text(o)| && Equals(LowerAll(v)[..|Text(o)|], Text(o))
    && forall i :: |Text(o)| <= i < |v| ==> v[i] == SP
  }

  /** A beginning of the option that is not all of it. */
  predicate Unfinished(v: seq<byte>, o: Opt) {
    v != [] && |v| < |Text(o)| && Spells(LowerAll(v), Text(o))
  }

  // ----- One option -----

  /** What the loop over a value keeps. */
  datatype Reading = Reading(h: HeaderState, i: nat, flags: set<Flag>)

  function Next(r: Reading, c: byte): Reading {
    Reading(ValueMatcher(r.h, r.i + 1, c), ValueIndex(r.h, r.i, c), if Is(c, ',') then Settle(r.flags, r.h) else r.flags)
  }

  function ReadAll(r: Reading, w: seq<byte>): Reading {
    if w == [] then r else Next(ReadAll(r, w[..|w| - 1]), w[|w| - 1])
  }

  lemma {:induction false} ReadAppend(r: Reading, x: seq<byte>, y: seq<byte>)
    ensures ReadAll(r, x + y) == ReadAll(ReadAll(r, x), y)
    decreases |y|
  {
    hide Next;
    if y == [] {
      assert x + y == x;
    } else {
      var n := |y| - 1;
      ReadAppend(r, x, y[..n]);
      assert (x + y)[..|x + y| - 1] == x + y[..n];
    }
  }

  /** The option that the first letter announces. */
  predicate Announces(c: byte, o: Opt) {
    Lower(c) == Text(o)[0] as int
  }

  /** The matcher after the bytes `v` of option `o`, or of something that begins like it. */
  predicate Follows(r: Reading, v: seq<byte>, o: Opt) {
    if Says(v, o) then r.h == Seen(o)
    else if Unfinished(v, o) then r.h == Seeking(o) && r.i == |v| - 1
    else r.h.Token?
  }

  /** The matcher after the bytes `v` of an option. */
  ghost predicate Within(r: Reading, v: seq<byte>) {
    && v != []
    && (forall o :: Announces(v[0], o) ==> Follows(r, v, o))
    && ((forall o :: !Announces(v[0], o)) ==> r.h.Token?)
  }

  lemma SaysMore(v: seq<byte>, c: byte, o: Opt)
    requires v != []
    ensures Says(v + [c], o) <==> (Says(v, o) && c == SP) || (Unfinished(v, o) && |v| + 1 == |Text(o)| && Lower(c) == Text(o)[|v|] as int)
    ensures Unfinished(v + [c], o) <==> Unfinished(v, o) && |v| + 1 < |Text(o)| && Lower(c) == Text(o)[|v|] as int
  {
    hide Spells, Lower;
    var u := v + [c];
    assert u[..|u| - 1] == v;
    assert LowerAll(u) == LowerAll(v) + [Lower(c)];
    hide LowerAll;
    SpellsMore(LowerAll(v), Lower(c), Text(o));
    if |u| == |Text(o)| {
      assert LowerAll(u)[..|Text(o)|] == LowerAll(u);
    } else if |u| > |Text(o)| {
      assert LowerAll(u)[..|Text(o)|] == LowerAll(v)[..|Text(o)|];
      if Says(u, o) {
        assert u[|v|] == SP;
        forall i | |Text(o)| <= i < |v| ensures v[i] == SP {
          assert u[i] == SP;
        }
      }
    }
  }

  lemma NextOption(r: Reading, v: seq<byte>, c: byte)
    requires Within(r, v) && !Is(c, ',')
    ensures Within(Next(r, c), v + [c]) && Next(r, c).flags == r.flags
  {
    hide Follows, Announces, Lower;
    assert (v + [c])[0] == v[0];
    forall o | Announces(v[0], o) ensures Follows(Next(r, c), v + [c], o) {
      NextLetter(r, v, c, o);
    }
  }

  lemma NextLetter(r: Reading, v: seq<byte>, c: byte, o: Opt)
    requires Follows(r, v, o) && !Is(c, ',') && v != []
    ensures Follows(Next(r, c), v + [c], o)
  {
    hide Says, Unfinished, Lower;
    SaysMore(v, c, o);
    LowerPositive(c);
    UnfinishedShort(v, o);
    if Says(v, o) {
      SaysLong(v, o);
    } else if Unfinished(v, o) {
      SeekingNext(r, c, o);
    }
  }

  lemma SaysLong(v: seq<byte>, o: Opt)
    requires Says(v, o)
    ensures |v| >= |Text(o)| && !Unfinished(v, o)
  {
  }

  lemma SeekingNext(r: Reading, c: byte, o: Opt)
    requires r.h == Seeking(o) && r.i + 1 < |Text(o)|
    ensures Next(r, c).i == r.i + 1
    ensures Next(r, c).h == if Lower(c) != Text(o)[r.i + 1] as int then Token
                            else if r.i + 2 == |Text(o)| then Seen(o) else Seeking(o)
  {
    hide Lower;
    match o
    case StayOpen =>
    case CloseIt =>
    case ChangeIt =>
  }

  lemma UnfinishedShort(v: seq<byte>, o: Opt)
    ensures Unfinished(v, o) ==> 0 < |v| < |Text(o)|
  {
  }

  /** The first byte of an option, in a value or after a comma. */
  lemma FirstOfOption(c: byte, flags: set<Flag>)
    ensures Within(Reading(StartMatcher(Connection, Lower(c)), 0, flags), [c])
    ensures TokenOf(Lower(c)) != 0 ==>
              Within(Next(Reading(TokenStart, 0, flags), c), [c]) && Next(Reading(TokenStart, 0, flags), c).flags == flags
  {
    hide Follows, Lower, TokenOf;
    NoComma(c);
    assert [c][0] == c;
    forall o | Announces(c, o) ensures forall r: Reading :: r.h == Seeking(o) && r.i == 0 ==> Follows(r, [c], o) {
      FirstLetterOfOption(c, o);
    }
    assert forall o :: Announces(c, o) ==> Seeking(o) == OptionMatcher(Lower(c), Token);
    assert (forall o :: !Announces(c, o)) ==> OptionMatcher(Lower(c), Token) == Token by {
      assert Announces(c, StayOpen) <==> Is(Lower(c), 'k');
      assert Announces(c, CloseIt) <==> Is(Lower(c), 'c');
      assert Announces(c, ChangeIt) <==> Is(Lower(c), 'u');
    }
  }

  lemma FirstLetterOfOption(c: byte, o: Opt)
    requires Announces(c, o)
    ensures forall r: Reading :: r.h == Seeking(o) && r.i == 0 ==> Follows(r, [c], o)
  {
    hide Lower;
    assert LowerAll([c]) == [Lower(c)] by { assert [c][..0] == []; }
    match o
    case StayOpen =>
    case CloseIt =>
    case ChangeIt =>
  }

  lemma NoComma(c: byte)
    ensures TokenOf(Lower(c)) != 0 ==> !Is(c, ',')
  {
  }

  predicate NoCommas(v: seq<byte>) {
    forall i :: 0 <= i < |v| ==> !Is(v[i], ',')
  }

  lemma {:induction false} RestOfOption(r: Reading, v: seq<byte>, w: seq<byte>)
    requires Within(r, v) && NoCommas(w)
    ensures Within(ReadAll(r, w), v + w) && ReadAll(r, w).flags == r.flags
    decreases |w|
  {
    hide Next, Within;
    if w == [] {
      assert v + w == v;
    } else {
      var n := |w| - 1;
      RestOfOption(r, v, w[..n]);
      NextOption(ReadAll(r, w[..n]), v + w[..n], w[n]);
      assert v + w[..n] + [w[n]] == v + w;
    }
  }

  /** What an option that has been read in full says. */
  function SaidBy(v: seq<byte>): set<Flag> {
    set o: Opt | o in {StayOpen, CloseIt, ChangeIt} && Says(v, o) :: FlagOf(o)
  }

  /** The bytes break off within an option: the comma after them is taken for a wrong letter. */
  predicate BreaksOff(v: seq<byte>) {
    Unfinished(v, StayOpen) || Unfinished(v, CloseIt) || Unfinished(v, ChangeIt)
  }

  lemma SaysAnnounces(v: seq<byte>, o: Opt)
    requires Says(v, o) || Unfinished(v, o)
    ensures v != [] && Announces(v[0], o) && !(Says(v, o) && Unfinished(v, o))
  {
    assert LowerAll(v)[0] == Lower(v[0]);
    if Says(v, o) {
      assert LowerAll(v)[..|Text(o)|][0] == LowerAll(v)[0];
    }
  }

  lemma OneAnnounced(c: byte, o: Opt, p: Opt)
    requires Announces(c, o) && Announces(c, p)
    ensures o == p
  {
  }

  /** What the matcher has seen is what the bytes say. */
  lemma SettledBy(r: Reading, v: seq<byte>)
    requires Within(r, v)
    ensures Settle(r.flags, r.h) == r.flags + SaidBy(v)
    ensures BreaksOff(v) <==> exists o :: r.h == Seeking(o)
    ensures !BreaksOff(v) ==> r.h.Token? || IsOption(r.h)
  {
    hide Says, Unfinished, Announces;
    forall o | Says(v, o) || Unfinished(v, o) ensures Announces(v[0], o) && !(Says(v, o) && Unfinished(v, o)) {
      SaysAnnounces(v, o);
    }
    forall o, p | Announces(v[0], o) && Announces(v[0], p) ensures o == p {
      OneAnnounced(v[0], o, p);
    }
    if o :| Announces(v[0], o) {
      assert o in {StayOpen, CloseIt, ChangeIt};
      assert forall p :: p != o ==> !Says(v, p) && !Unfinished(v, p);
      assert SaidBy(v) == if Says(v, o) then {FlagOf(o)} else {};
    } else {
      assert SaidBy(v) == {};
    }
  }

  // ----- Lists of options -----

  /** An option and the blanks before it. */
  datatype Element = Element(blanks: nat, word: seq<byte>)

  predicate ElementOk(e: Element) {
    && e.word != [] && NoCommas(e.word) && TokenOf(Lower(e.word[0])) != 0
    && forall i :: 0 <= i < |e.word| ==> !IsLineEnd(e.word[i]) && IsHeaderChar(e.word[i])
  }

  predicate ListOk(es: seq<Element>) {
    es != [] && ElementOk(es[0]) && forall i :: 0 <= i < |es| ==> ElementOk(es[i])
  }

  function Blanks(n: nat): seq<byte> {
    seq(n, _ => SP)
  }

  const COMMA: int := 44

  /** The elements separated by commas. */
  function ListBytes(es: seq<Element>): seq<byte>
    requires es != []
  {
    var n := |es| - 1;
    if n == 0 then es[0].word else ListBytes(es[..n]) + ([COMMA] + (Blanks(es[n].blanks) + es[n].word))
  }

  /** What is heeded of a list, and whether its last element has been merged with the one before: that happens to
      whatever follows an element that breaks off within the name of an option. */
  function Heeded(es: seq<Element>): (set<Flag>, bool)
    requires es != []
  {
    var n := |es| - 1;
    if n == 0 then (SaidBy(es[0].word), false)
    else
      var (said, merged) := Heeded(es[..n]);
      if !merged && BreaksOff(es[n - 1].word) then (said, true) else (said + SaidBy(es[n].word), false)
  }

  /** What had been heeded before the last element. */
  function HeededBefore(es: seq<Element>): set<Flag>
    requires es != []
  {
    if |es| == 1 then {} else Heeded(es[..|es| - 1]).0
  }

  ghost predicate AfterList(r: Reading, es: seq<Element>, flags: set<Flag>)
    requires es != []
  {
    && r.flags == flags + HeededBefore(es)
    && if Heeded(es).1 then r.h.Token? else Within(r, es[|es| - 1].word)
  }

  /** The end of the line settles the last element too. */
  lemma ListSettles(r: Reading, es: seq<Element>, flags: set<Flag>)
    requires es != [] && AfterList(r, es, flags)
    ensures Settle(r.flags, r.h) == flags + Heeded(es).0
  {
    hide Within, SaidBy, BreaksOff;
    if !Heeded(es).1 {
      SettledBy(r, es[|es| - 1].word);
    }
  }

  lemma {:induction false} TokenGoesOn(r: Reading, w: seq<byte>)
    requires r.h.Token? && NoCommas(w)
    ensures ReadAll(r, w).h.Token? && ReadAll(r, w).flags == r.flags
    decreases |w|
  {
    if w != [] {
      TokenGoesOn(r, w[..|w| - 1]);
    }
  }

  lemma {:induction false} BlanksPass(r: Reading, n: nat)
    requires r.h.TokenStart?
    ensures ReadAll(r, Blanks(n)) == r
    decreases n
  {
    if n > 0 {
      BlanksPass(r, n - 1);
      assert Blanks(n)[..n - 1] == Blanks(n - 1);
    }
  }

  /** The comma after an element. */
  lemma CommaReads(r: Reading, es: seq<Element>, flags: set<Flag>)
    requires es != [] && AfterList(r, es, flags)
    ensures var t := Next(r, COMMA);
            && t.flags == flags + Heeded(es).0
            && if !Heeded(es).1 && BreaksOff(es[|es| - 1].word) then t.h.Token? else t.h.TokenStart? && t.i == 0
  {
    hide Within, SaidBy, BreaksOff, Heeded, HeededBefore;
    ListSettles(r, es, flags);
    if !Heeded(es).1 {
      SettledBy(r, es[|es| - 1].word);
      if BreaksOff(es[|es| - 1].word) {
        var o :| r.h == Seeking(o);
        CommaMisses(r, o);
      }
    }
  }

  lemma CommaMisses(r: Reading, o: Opt)
    requires r.h == Seeking(o)
    ensures Next(r, COMMA).h.Token?
  {
    assert Lower(COMMA) == COMMA;
    match o
    case StayOpen =>
    case CloseIt =>
    case ChangeIt =>
  }

  lemma WordReads(r: Reading, w: seq<byte>)
    requires r.h.TokenStart? && r.i == 0 && w != [] && NoCommas(w) && TokenOf(Lower(w[0])) != 0
    ensures Within(ReadAll(r, w), w) && ReadAll(r, w).flags == r.flags
  {
    hide Within, Next, Lower, TokenOf;
    var first, rest := [w[0]], w[1..];
    assert w == first + rest;
    FirstOfOption(w[0], r.flags);
    ReadAppend(r, first, rest);
    assert first[..0] == [] && ReadAll(r, first) == Next(r, w[0]);
    RestOfOption(Next(r, w[0]), first, rest);
  }

  /** One more element of a list. */
  lemma ElementReads(t: Reading, es: seq<Element>, flags: set<Flag>)
    requires |es| > 1 && ElementOk(es[|es| - 1]) && AfterList(t, es[..|es| - 1], flags)
    ensures var e := es[|es| - 1];
            AfterList(ReadAll(t, [COMMA] + (Blanks(e.blanks) + e.word)), es, flags)
  {
    hide Within, SaidBy, BreaksOff, Next, Lower, TokenOf, IsHeaderChar, ReadAll, Blanks;
    var front, e := es[..|es| - 1], es[|es| - 1];
    var tail := Blanks(e.blanks) + e.word;
    ReadAppend(t, [COMMA], tail);
    ReadOne(t, COMMA);
    CommaReads(t, front, flags);
    var u := Next(t, COMMA);
    ReadAppend(u, Blanks(e.blanks), e.word);
    if u.h.Token? {
      BlanksNoCommas(e.blanks);
      TokenGoesOn(u, Blanks(e.blanks));
      TokenGoesOn(ReadAll(u, Blanks(e.blanks)), e.word);
    } else {
      BlanksPass(u, e.blanks);
      WordReads(u, e.word);
    }
  }

  lemma ReadOne(r: Reading, c: byte)
    ensures ReadAll(r, [c]) == Next(r, c)
  {
    hide Next;
    assert [c][..0] == [];
  }

  /** A whole list, from the first byte of the value. */
  lemma {:induction false} ListReads(r: Reading, es: seq<Element>, flags: set<Flag>)
    requires ListOk(es)
    requires r == Reading(StartMatcher(Connection, Lower(es[0].word[0])), 0, flags)
    ensures ListBytes(es) != [] && AfterList(ReadAll(r, ListBytes(es)[1..]), es, flags)
    decreases |es|
  {
    hide Within, Next, Lower, TokenOf, IsHeaderChar, StartMatcher, ReadAll, AfterList, Blanks;
    var n := |es| - 1;
    ListStarts(es);
    if n == 0 {
      ElementAlone(r, es, flags);
    } else {
      var front := es[..n];
      ListReads(r, front, flags);
      var before, e := ListBytes(front), es[n];
      ListStarts(front);
      var tail := [COMMA] + (Blanks(e.blanks) + e.word);
      assert ListBytes(es)[1..] == before[1..] + tail;
      ReadAppend(r, before[1..], tail);
      ElementReads(ReadAll(r, before[1..]), es, flags);
    }
  }

  lemma ElementAlone(r: Reading, es: seq<Element>, flags: set<Flag>)
    requires ListOk(es) && |es| == 1
    requires r == Reading(StartMatcher(Connection, Lower(es[0].word[0])), 0, flags)
    ensures AfterList(ReadAll(r, es[0].word[1..]), es, flags)
  {
    hide Within, SaidBy, Next, Lower, TokenOf, IsHeaderChar, StartMatcher, ReadAll;
    var w := es[0].word;
    FirstOfOption(w[0], flags);
    assert w == [w[0]] + w[1..];
    RestOfOption(r, [w[0]], w[1..]);
  }

  lemma BlanksNoCommas(n: nat)
    ensures NoCommas(Blanks(n))
  {
  }

  lemma {:induction false} ListStarts(es: seq<Element>)
    requires ListOk(es)
    ensures ListBytes(es) != [] && ListBytes(es)[0] == es[0].word[0]
    decreases |es|
  {
    if |es| > 1 {
      ListStarts(es[..|es| - 1]);
    }
  }

  /** All that the elements of a list say. */
  function SaidIn(es: seq<Element>): set<Flag> {
    if es == [] then {} else SaidIn(es[..|es| - 1]) + SaidBy(es[|es| - 1].word)
  }

  /** Where no element but the last breaks off within the name of an option, every element is heeded. */
  lemma {:induction false} AllHeeded(es: seq<Element>)
    requires es != [] && forall i :: 0 <= i < |es| - 1 ==> !BreaksOff(es[i].word)
    ensures Heeded(es) == (SaidIn(es), false)
    decreases |es|
  {
    hide SaidBy, BreaksOff;
    if |es| > 1 {
      AllHeeded(es[..|es| - 1]);
    } else {
      assert es[..|es| - 1] == [];
      assert SaidIn(es) == SaidIn([]) + SaidBy(es[0].word) == SaidBy(es[0].word);
    }
  }

  // ----- In the parser -----

  predicate ValueBytes(w: seq<byte>) {
    forall i :: 0 <= i < |w| ==> !IsLineEnd(w[i]) && IsHeaderChar(w[i])
  }

  function ReadingOf(p: Parser): Reading {
    Reading(p.headerState, p.index, p.flags)
  }

  lemma ValueByteReads(s: Conn, c: byte, answer: Answer)
    requires Alive(s) && s.p.state == Headers(Value) && !s.p.headerState.ContentLength?
    requires IsHeaderChar(c) && !IsLineEnd(c)
    ensures var t := Byte(s, c, answer);
            && Alive(t) && t.p.state == s.p.state && ReadingOf(t.p) == Next(ReadingOf(s.p), c)
            && !t.p.headerState.ContentLength?
  {
    hide Hear, ValueIndex, ValueMatcher, IsHeaderChar, Settle;
    MatchesNoLength(s.p.headerState, s.p.index + 1, c);
  }

  lemma MatchesNoLength(h: HeaderState, i: nat, c: byte)
    requires !h.ContentLength?
    ensures !ValueMatcher(h, i, c).ContentLength?
  {
    hide CharAt, Lower, TokenOf;
  }

  lemma {:induction false} ValueReads(s: Conn, w: seq<byte>, answer: Answer)
    requires Alive(s) && s.p.state == Headers(Value) && !s.p.headerState.ContentLength? && ValueBytes(w)
    ensures var t := Serial(s, w, answer);
            && Alive(t) && t.p.state == Headers(Value) && !t.p.headerState.ContentLength?
            && ReadingOf(t.p) == ReadAll(ReadingOf(s.p), w)
    decreases |w|
  {
    hide Byte, Next, IsHeaderChar;
    if w != [] {
      var n := |w| - 1;
      ValueReads(s, w[..n], answer);
      ValueByteReads(Serial(s, w[..n], answer), w[n], answer);
    }
  }

  lemma FirstByteReads(s: Conn, c: byte, answer: Answer)
    requires Alive(s) && s.p.state == Headers(ValueDiscardWs) && s.p.headerState.Connection? && !IsLineEnd(c) && !IsBlank(c)
    ensures var t := Byte(s, c, answer);
            && Alive(t) && t.p.state == Headers(Value) && !t.p.headerState.ContentLength?
            && ReadingOf(t.p) == Reading(StartMatcher(Connection, Lower(c)), 0, s.p.flags)
  {
    hide Hear, Lower;
  }

  /** The value of a Connection header: at the end of its line the flags are those before and what is heeded of the
      list. An element counts exactly if it is one of the three options in full, in any case of letters, unless the
      element before breaks off within the name of an option and swallows the comma. */
  lemma OptionsRecognised(s: Conn, es: seq<Element>, answer: Answer)
    requires Alive(s) && s.p.state == Headers(ValueDiscardWs) && s.p.headerState.Connection?
    requires ListOk(es)
    ensures var t := Serial(s, ListBytes(es), answer);
            && Alive(t) && t.p.state == Headers(Value)
            && SettleLine(t.p).flags == s.p.flags + Heeded(es).0
  {
    hide Byte, Next, Within, IsHeaderChar, SaidBy, BreaksOff, Lower, StartMatcher, TokenOf;
    var v := ListBytes(es);
    ListStarts(es);
    ListValue(es);
    StartsNoBlank(es[0]);
    assert v == [v[0]] + v[1..];
    SerialFirst(s, v, answer);
    FirstByteReads(s, v[0], answer);
    var t := Byte(s, v[0], answer);
    ValueReads(t, v[1..], answer);
    ListReads(ReadingOf(t.p), es, s.p.flags);
    var u := Serial(t, v[1..], answer);
    ListSettles(ReadingOf(u.p), es, s.p.flags);
    NotChunked(ReadingOf(u.p), es, s.p.flags);
  }

  lemma StartsNoBlank(e: Element)
    requires ElementOk(e)
    ensures !IsBlank(e.word[0]) && !IsLineEnd(e.word[0])
  {
    hide IsHeaderChar;
  }

  lemma {:induction false} SerialFirst(s: Conn, v: seq<byte>, answer: Answer)
    requires v != []
    ensures Serial(s, v, answer) == Serial(Byte(s, v[0], answer), v[1..], answer)
    decreases |v|
  {
    hide Byte;
    var n := |v| - 1;
    if n == 0 {
      assert v[..0] == [] && Serial(s, v, answer) == Byte(Serial(s, v[..0], answer), v[0], answer);
      assert v[1..] == [];
    } else {
      SerialFirst(s, v[..n], answer);
      assert v[..n][1..] == v[1..][..n - 1] && v[..n][0] == v[0];
    }
  }

  lemma {:induction false} ListValue(es: seq<Element>)
    requires ListOk(es)
    ensures ListBytes(es) != [] && ValueBytes(ListBytes(es)) && ValueBytes(ListBytes(es)[1..])
    decreases |es|
  {
    hide TokenOf, Lower;
    var n := |es| - 1;
    assert IsHeaderChar(COMMA) && IsHeaderChar(SP);
    if n > 0 {
      ListValue(es[..n]);
    }
    ListStarts(es);
  }

  lemma NotChunked(r: Reading, es: seq<Element>, flags: set<Flag>)
    requires es != [] && AfterList(r, es, flags)
    ensures !r.h.Chunked?
  {
    hide Says, Unfinished, Announces, Heeded, HeededBefore;
    if !Heeded(es).1 {
      var v := es[|es| - 1].word;
      if o :| Announces(v[0], o) {
        assert Follows(r, v, o);
      }
    }
  }

  /** The merging is real: of "cl, close" nothing is heeded. */
  lemma CommaSwallowed()
    ensures var es := [Element(0, [99, 108]), Element(1, [99, 108, 111, 115, 101])];
            ElementOk(es[0]) && ElementOk(es[1]) && Heeded(es).0 == {} && SaidBy(es[1].word) == {F_CONNECTION_CLOSE}
  {
    var a, b: seq<byte> := [99, 108], [99, 108, 111, 115, 101];
    var es := [Element(0, a), Element(1, b)];
    assert es[..1] == [Element(0, a)];
    WordsSay();
    hide SaidBy, BreaksOff, TokenOf, Lower;
  }

  lemma WordsSay()
    ensures var a, b: seq<byte> := [99, 108], [99, 108, 111, 115, 101];
            && BreaksOff(a) && SaidBy(a) == {} && SaidBy(b) == {F_CONNECTION_CLOSE}
            && ElementOk(Element(0, a)) && ElementOk(Element(1, b))
  {
    hide Says, Unfinished, SaidBy, TokenOf, Lower, IsHeaderChar;
    var a, b: seq<byte> := [99, 108], [99, 108, 111, 115, 101];
    LowerWords();
    HalfAndWhole(a, b);
    SaysOnly(a, CloseIt);
    SaysOnly(b, CloseIt);
    LettersOk();
  }

  lemma HalfAndWhole(a: seq<byte>, b: seq<byte>)
    requires |a| == 2 && LowerAll(a) == [99, 108] && LowerAll(b) == [99, 108, 111, 115, 101]
    ensures Unfinished(a, CloseIt) && !Says(a, CloseIt) && Says(b, CloseIt)
  {
    hide LowerAll;
    assert |b| == |LowerAll(b)| && LowerAll(b)[..5] == LowerAll(b);
  }

  lemma LettersOk()
    ensures forall c :: c in {99, 108, 111, 115, 101} ==> !Is(c, ',') && !IsLineEnd(c) && IsHeaderChar(c)
    ensures TokenOf(Lower(99)) != 0 && Announces(99, CloseIt)
  {
  }

  lemma SaysOnly(v: seq<byte>, o: Opt)
    requires v != [] && Announces(v[0], o)
    ensures SaidBy(v) == if Says(v, o) then {FlagOf(o)} else {}
  {
    hide Says, Announces;
    forall p | Says(v, p) ensures p == o {
      SaysAnnounces(v, p);
      OneAnnounced(v[0], o, p);
    }
    assert o in {StayOpen, CloseIt, ChangeIt};
  }

  lemma LowerWords()
    ensures LowerAll([99, 108]) == [99, 108] && LowerAll([99, 108, 111, 115, 101]) == [99, 108, 111, 115, 101]
  {
    var b: seq<byte> := [99, 108, 111, 115, 101];
    assert forall i :: 0 <= i < 5 ==> Lower(b[i]) == b[i];
  }
}
