/** Request targets of every form, written out and parsed again: a path, an
    absolute URL, the authority of a CONNECT (app/http/HttpParser.cc). */
module HttpTarget {
  import opened HttpTypes
  import opened HttpStep
  import opened HttpRun
  import opened HttpSplit
  import opened HttpRoundTrip

  /** What comes before the path: nothing; a scheme and a server; a server alone. */
  datatype Front = Here | There(scheme: seq<byte>, server: seq<byte>) | Only(server: seq<byte>)

  datatype Part = Missing | Given(text: seq<byte>)

  datatype Target = Target(front: Front, path: seq<byte>, query: Part, fragment: Part)

  predicate SchemeOk(w: seq<byte>) {
    w != [] && forall i :: 0 <= i < |w| ==> IsAlpha(w[i])
  }

  predicate IsServerChar(c: byte) {
    IsUserinfoChar(c) || Is(c, '[') || Is(c, ']') || Is(c, '@')
  }

  /** No two at signs in a row. */
  predicate ServerOk(w: seq<byte>) {
    && w != [] && (forall i :: 0 <= i < |w| ==> IsServerChar(w[i]))
    && forall i :: 0 <= i < |w| - 1 ==> !(Is(w[i], '@') && Is(w[i + 1], '@'))
  }

  predicate TailOk(w: seq<byte>) {
    forall i :: 0 <= i < |w| ==> IsUrlChar(w[i])
  }

  predicate QueryOk(w: seq<byte>) {
    forall i :: 0 <= i < |w| ==> IsUrlChar(w[i]) || Is(w[i], '?')
  }

  predicate FragmentOk(w: seq<byte>) {
    forall i :: 0 <= i < |w| ==> IsUrlChar(w[i]) || Is(w[i], '?') || Is(w[i], '#')
  }

  /** After a server the path may be left out, and with it the fragment. */
  predicate TargetOk(t: Target) {
    && (match t.front
        case Here => t.path != [] && (Is(t.path[0], '/') || Is(t.path[0], '*'))
        case There(scheme, server) => SchemeOk(scheme) && ServerOk(server) && (t.path != [] ==> Is(t.path[0], '/'))
        case Only(server) => ServerOk(server) && (t.path != [] ==> Is(t.path[0], '/')))
    && TailOk(t.path) && (t.query.Given? ==> QueryOk(t.query.text))
    && (t.fragment.Given? ==> FragmentOk(t.fragment.text) && (t.path != [] || t.query.Given?))
  }

  /** "://" */
  const SLASHES: seq<byte> := [58, 47, 47]

  function FrontBytes(f: Front): seq<byte> {
    match f case Here => [] case There(scheme, server) => scheme + SLASHES + server case Only(server) => server
  }

  function PartBytes(mark: byte, p: Part): seq<byte> {
    if p.Given? then [mark] + p.text else []
  }

  /** With a question mark before the query and a number sign before the fragment. */
  function TargetBytes(t: Target): seq<byte> {
    FrontBytes(t.front) + (t.path + (PartBytes(63, t.query) + PartBytes(35, t.fragment)))
  }

  // ----- The walk over a target -----

  /** The states that letters lead through, as long as they fit. */
  function Walk(u: UrlState, w: seq<byte>): State {
    if w == [] then Url(u)
    else
      var before := Walk(u, w[..|w| - 1]);
      if before.Url? then ParseUrlChar(before.url, w[|w| - 1]) else before
  }

  lemma {:induction false} WalkAppend(u: UrlState, x: seq<byte>, y: seq<byte>)
    ensures Walk(u, x + y) == if Walk(u, x).Url? then Walk(Walk(u, x).url, y) else Walk(u, x)
    decreases |y|
  {
    hide ParseUrlChar;
    if y == [] {
      assert x + y == x;
    } else {
      var n := |y| - 1;
      WalkAppend(u, x, y[..n]);
      assert (x + y)[..|x + y| - 1] == x + y[..n];
    }
  }

  lemma WalkOne(u: UrlState, c: byte)
    ensures Walk(u, [c]) == ParseUrlChar(u, c)
  {
    assert [c][..0] == [];
  }

  /** Letters that keep the state. */
  lemma {:induction false} WalkStays(u: UrlState, w: seq<byte>)
    requires forall i :: 0 <= i < |w| ==> ParseUrlChar(u, w[i]) == Url(u)
    ensures Walk(u, w) == Url(u)
    decreases |w|
  {
    hide ParseUrlChar;
    if w != [] {
      WalkStays(u, w[..|w| - 1]);
    }
  }

  lemma SchemeChar(c: byte)
    requires IsAlpha(c)
    ensures ParseUrlChar(ReqSpacesBeforeUrl, c) == Url(ReqSchema) && ParseUrlChar(ReqSchema, c) == Url(ReqSchema)
  {
  }

  lemma TailChar(c: byte)
    ensures IsUrlChar(c) ==> ParseUrlChar(ReqPath, c) == Url(ReqPath)
    ensures IsUrlChar(c) || Is(c, '?') ==>
              ParseUrlChar(ReqQueryString, c) == ParseUrlChar(ReqQueryStringStart, c) == Url(ReqQueryString)
    ensures IsUrlChar(c) || Is(c, '?') || Is(c, '#') ==>
              ParseUrlChar(ReqFragment, c) == Url(ReqFragment)
              && (ParseUrlChar(ReqFragmentStart, c) == Url(ReqFragment) || ParseUrlChar(ReqFragmentStart, c) == Url(ReqFragmentStart))
  {
  }

  lemma Marks()
    ensures ParseUrlChar(ReqSchema, 58) == Url(ReqSchemaSlash) && ParseUrlChar(ReqSchemaSlash, 47) == Url(ReqSchemaSlashSlash)
    ensures ParseUrlChar(ReqSchemaSlashSlash, 47) == Url(ReqServerStart)
    ensures ParseUrlChar(ReqPath, 63) == Url(ReqQueryStringStart) && ParseUrlChar(ReqPath, 35) == Url(ReqFragmentStart)
    ensures ParseUrlChar(ReqServer, 63) == ParseUrlChar(ReqServerWithAt, 63) == Url(ReqQueryStringStart)
    ensures ParseUrlChar(ReqServer, 47) == ParseUrlChar(ReqServerWithAt, 47) == Url(ReqPath)
    ensures ParseUrlChar(ReqQueryStringStart, 35) == ParseUrlChar(ReqQueryString, 35) == Url(ReqFragmentStart)
    ensures ParseUrlChar(ReqSpacesBeforeUrl, 47) == ParseUrlChar(ReqSpacesBeforeUrl, 42) == Url(ReqPath)
  {
  }

  lemma ServerChar(u: UrlState, c: byte)
    requires u.ReqServerStart? || u.ReqServer? || u.ReqServerWithAt?
    requires IsServerChar(c) && !(u.ReqServerWithAt? && Is(c, '@'))
    ensures ParseUrlChar(u, c) == if Is(c, '@') then Url(ReqServerWithAt) else Url(ReqServer)
  {
  }

  lemma {:induction false} SchemeWalk(w: seq<byte>)
    requires SchemeOk(w)
    ensures Walk(ReqSpacesBeforeUrl, w) == Url(ReqSchema)
    decreases |w|
  {
    hide ParseUrlChar, IsAlpha;
    var n := |w| - 1;
    SchemeChar(w[n]);
    if n == 0 {
      assert w == [w[0]];
      WalkOne(ReqSpacesBeforeUrl, w[0]);
    } else {
      SchemeWalk(w[..n]);
    }
  }

  lemma {:induction false} ServerWalk(w: seq<byte>)
    requires ServerOk(w)
    ensures Walk(ReqServerStart, w) == if Is(w[|w| - 1], '@') then Url(ReqServerWithAt) else Url(ReqServer)
    decreases |w|
  {
    hide ParseUrlChar, IsServerChar;
    var n := |w| - 1;
    if n == 0 {
      assert w == [w[0]];
      WalkOne(ReqServerStart, w[0]);
      ServerChar(ReqServerStart, w[0]);
    } else {
      ServerWalk(w[..n]);
      assert !(Is(w[n - 1], '@') && Is(w[n - 1 + 1], '@'));
      ServerChar(Walk(ReqServerStart, w[..n]).url, w[n]);
    }
  }

  /** The rest of a target after a place that a path, a query or a fragment may follow. */
  predicate Resting(u: UrlState) {
    u.ReqPath? || u.ReqServer? || u.ReqServerWithAt? || u.ReqQueryStringStart? || u.ReqQueryString?
    || u.ReqFragmentStart? || u.ReqFragment?
  }

  lemma PathWalk(u: UrlState, w: seq<byte>)
    requires w != [] && TailOk(w) && ParseUrlChar(u, w[0]) == Url(ReqPath)
    ensures Walk(u, w) == Url(ReqPath)
  {
    hide ParseUrlChar, IsUrlChar;
    assert w == [w[0]] + w[1..];
    WalkOne(u, w[0]);
    WalkAppend(u, [w[0]], w[1..]);
    forall i | 0 <= i < |w[1..]| ensures ParseUrlChar(ReqPath, w[1..][i]) == Url(ReqPath) {
      TailChar(w[1..][i]);
    }
    WalkStays(ReqPath, w[1..]);
  }

  lemma {:induction false} QueryWalk(w: seq<byte>)
    requires QueryOk(w)
    ensures Walk(ReqQueryStringStart, w) == if w == [] then Url(ReqQueryStringStart) else Url(ReqQueryString)
    decreases |w|
  {
    hide ParseUrlChar, IsUrlChar;
    if w != [] {
      QueryWalk(w[..|w| - 1]);
      TailChar(w[|w| - 1]);
    }
  }

  lemma {:induction false} FragmentWalk(w: seq<byte>)
    requires FragmentOk(w)
    ensures Walk(ReqFragmentStart, w) == Url(ReqFragmentStart) || Walk(ReqFragmentStart, w) == Url(ReqFragment)
    decreases |w|
  {
    hide ParseUrlChar, IsUrlChar;
    if w != [] {
      FragmentWalk(w[..|w| - 1]);
      TailChar(w[|w| - 1]);
    }
  }

  /** Where the walk begins: for a CONNECT within the server. */
  function FirstState(f: Front): UrlState {
    if f.Only? then ReqServerStart else ReqSpacesBeforeUrl
  }

  lemma FrontWalk(f: Front)
    requires f.There? ==> SchemeOk(f.scheme)
    requires !f.Here? ==> ServerOk(f.server)
    ensures var end := Walk(FirstState(f), FrontBytes(f));
            if f.Here? then end == Url(ReqSpacesBeforeUrl) else end == Url(ReqServer) || end == Url(ReqServerWithAt)
  {
    hide ParseUrlChar, SchemeOk, ServerOk;
    Marks();
    if f.There? {
      SchemeWalk(f.scheme);
      ServerWalk(f.server);
      WalkOne(ReqSchema, 58);
      WalkOne(ReqSchemaSlash, 47);
      WalkOne(ReqSchemaSlashSlash, 47);
      assert SLASHES == [58] + ([47] + [47]);
      WalkAppend(ReqSchemaSlash, [47], [47]);
      WalkAppend(ReqSchema, [58], [47] + [47]);
      WalkAppend(ReqSpacesBeforeUrl, f.scheme, SLASHES);
      WalkAppend(ReqSpacesBeforeUrl, f.scheme + SLASHES, f.server);
    } else if f.Only? {
      ServerWalk(f.server);
    }
  }

  lemma PartWalk(u: UrlState, v: UrlState, mark: byte, p: Part)
    requires p.Given? ==> ParseUrlChar(u, mark) == Url(v)
    ensures Walk(u, PartBytes(mark, p)) == if p.Given? then Walk(v, p.text) else Url(u)
  {
    hide ParseUrlChar;
    if p.Given? {
      WalkOne(u, mark);
      WalkAppend(u, [mark], p.text);
    }
  }

  /** A target is walked to its end, where a blank may follow. */
  lemma TargetWalk(t: Target)
    requires TargetOk(t)
    ensures var end := Walk(FirstState(t.front), TargetBytes(t)); end.Url? && Resting(end.url)
  {
    hide ParseUrlChar, SchemeOk, ServerOk, TailOk, QueryOk, FragmentOk, FrontBytes, PartBytes;
    Marks();
    FrontWalk(t.front);
    var u := Walk(FirstState(t.front), FrontBytes(t.front)).url;
    var v := if t.path == [] then u else ReqPath;
    if t.path == [] {
      assert Walk(u, t.path) == Url(v);
    } else {
      PathWalk(u, t.path) by { TargetStarts(t, u); }
    }
    PartWalk(v, ReqQueryStringStart, 63, t.query);
    if t.query.Given? {
      QueryWalk(t.query.text);
    }
    var w := Walk(v, PartBytes(63, t.query)).url;
    PartWalk(w, ReqFragmentStart, 35, t.fragment);
    if t.fragment.Given? {
      FragmentWalk(t.fragment.text);
    }
    WalkAppend(v, PartBytes(63, t.query), PartBytes(35, t.fragment));
    WalkAppend(u, t.path, PartBytes(63, t.query) + PartBytes(35, t.fragment));
    WalkAppend(FirstState(t.front), FrontBytes(t.front), t.path + (PartBytes(63, t.query) + PartBytes(35, t.fragment)));
  }

  lemma TargetStarts(t: Target, u: UrlState)
    requires TargetOk(t) && t.path != []
    requires if t.front.Here? then u.ReqSpacesBeforeUrl? else u.ReqServer? || u.ReqServerWithAt?
    ensures ParseUrlChar(u, t.path[0]) == Url(ReqPath)
  {
    hide SchemeOk, ServerOk, TailOk, QueryOk, FragmentOk;
  }

  // ----- In the parser -----

  lemma LettersFit(u: UrlState, c: byte)
    requires ParseUrlChar(u, c).Url?
    ensures c != SP && !IsLineEnd(c)
  {
  }

  lemma UrlStarts(s: Conn, c: byte, u: UrlState, answer: Answer)
    requires Alive(s) && s.p.state == Url(ReqSpacesBeforeUrl)
    requires u == (if s.p.line.meth == CONNECT then ReqServerStart else ReqSpacesBeforeUrl) && ParseUrlChar(u, c).Url?
    ensures Byte(s, c, answer) == Conn(s.p.(state := ParseUrlChar(u, c)), Emit(s.log, URL, [c]), false)
  {
    hide Emit, ParseUrlChar;
    LettersFit(u, c);
    HearShapes(s.log, NoMark, [SetMark(URL)], c);
  }

  lemma UrlGoesOn(s: Conn, c: byte, answer: Answer)
    requires Alive(s) && s.p.state.Url? && !s.p.state.url.ReqSpacesBeforeUrl? && ParseUrlChar(s.p.state.url, c).Url?
    ensures Byte(s, c, answer) == Conn(s.p.(state := ParseUrlChar(s.p.state.url, c)), Emit(s.log, URL, [c]), false)
  {
    hide Emit, ParseUrlChar;
    LettersFit(s.p.state.url, c);
    HearShapes(s.log, On(URL), [], c);
  }

  lemma NeverBack(u: UrlState, c: byte)
    ensures ParseUrlChar(u, c) != Url(ReqSpacesBeforeUrl)
  {
  }

  lemma {:induction false} UrlWalked(s: Conn, w: seq<byte>, u: UrlState, answer: Answer)
    requires Alive(s) && s.p.state == Url(ReqSpacesBeforeUrl) && w != []
    requires u == (if s.p.line.meth == CONNECT then ReqServerStart else ReqSpacesBeforeUrl) && Walk(u, w).Url?
    ensures Serial(s, w, answer) == Conn(s.p.(state := Walk(u, w)), Emit(s.log, URL, w), false)
    ensures Walk(u, w) != Url(ReqSpacesBeforeUrl)
    decreases |w|
  {
    hide Byte, Emit, ParseUrlChar;
    var n := |w| - 1;
    NeverBack(Walk(u, w[..n]).url, w[n]);
    if n == 0 {
      assert w[..0] == [] && w == [w[0]];
      SerialOne(s, w[0], answer);
      UrlStarts(s, w[0], u, answer);
    } else {
      UrlWalked(s, w[..n], u, answer);
      UrlGoesOn(Serial(s, w[..n], answer), w[n], answer);
      EmitAppend(s.log, URL, w[..n], [w[n]]);
      assert w[..n] + [w[n]] == w;
    }
  }

  lemma UrlEnds(s: Conn, answer: Answer)
    requires Alive(s) && s.p.state.Url? && Resting(s.p.state.url)
    ensures Byte(s, SP, answer) == Conn(s.p.(state := Version(ReqHttpStart)), s.log, false)
  {
    hide Emit, ParseUrlChar;
    HearShapes(s.log, On(URL), [Flush(URL)], SP);
  }

  lemma SomeTarget(t: Target)
    requires TargetOk(t)
    ensures TargetBytes(t) != []
  {
  }

  /** A target of any form is heard as it was written; a server alone is the target of a CONNECT and of nothing else. */
  lemma TargetRead(s: Conn, t: Target, answer: Answer)
    requires Alive(s) && s.p.state == Url(ReqSpacesBeforeUrl) && TargetOk(t)
    requires t.front.Only? <==> s.p.line.meth == CONNECT
    ensures Serial(s, TargetBytes(t) + [SP], answer)
            == Conn(s.p.(state := Version(ReqHttpStart)), Emit(s.log, URL, TargetBytes(t)), false)
  {
    hide Byte, Serial, Emit, TargetOk, TargetBytes, Walk;
    TargetWalk(t);
    SomeTarget(t);
    UrlWalked(s, TargetBytes(t), FirstState(t.front), answer);
    var a := Serial(s, TargetBytes(t), answer);
    UrlEnds(a, answer);
    SerialAppend(s, TargetBytes(t), [SP], answer);
    SerialOne(a, SP, answer);
  }
}
