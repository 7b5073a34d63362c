/** Facts about finite sets that several modules need. */
module SetFacts {

  lemma ProperSubsetSize<T>(a: set<T>, b: set<T>)
    requires a < b
    ensures |a| < |b|
  {
    assert b == a + (b - a);
    assert |b| == |a| + |b - a|;
  }

  ghost predicate IsLeast(s: set<int>, t: int) {
    t in s && forall u :: u in s ==> t <= u
  }

  lemma {:induction false} LeastExists(s: set<int>)
    requires s != {}
    ensures exists t :: IsLeast(s, t)
    decreases |s|
  {
    assert (forall t: int :: t !in s) ==> s == {};
    var t :| t in s;
    var rest := s - {t};
    if rest != {} {
      ProperSubsetSize(rest, s);
      LeastExists(rest);
      var u :| IsLeast(rest, u);
      assert forall v :: v in s ==> v == t || v in rest;
      assert IsLeast(s, if t < u then t else u);
    } else {
      assert forall v :: v in s ==> v == t || v in rest;
      assert IsLeast(s, t);
    }
  }
}
