/** Properties of each two successive elements of a history. */
module Adjacent {
  ghost predicate Always<T>(xs: seq<T>, keeps: (T, T) -> bool) {
    forall j | 0 <= j && j + 1 < |xs| :: keeps(xs[j], xs[j + 1])
  }

  lemma AlwaysSplit<T>(xs: seq<T>, ys: seq<T>, keeps: (T, T) -> bool)
    requires xs != [] && xs <= ys && |ys| <= |xs| + 1
    ensures Always(ys, keeps) <==> Always(xs, keeps) && (|ys| > |xs| ==> keeps(xs[|xs| - 1], ys[|xs|]))
  {
    if Always(ys, keeps) {
      forall j | 0 <= j && j + 1 < |xs|
        ensures keeps(xs[j], xs[j + 1])
      {
        assert keeps(ys[j], ys[j + 1]);
      }
      if |ys| > |xs| {
        assert keeps(ys[|xs| - 1], ys[|xs| - 1 + 1]);
      }
    } else {
      var j :| 0 <= j && j + 1 < |ys| && !keeps(ys[j], ys[j + 1]);
      assert j + 1 < |xs| ==> !keeps(xs[j], xs[j + 1]);
    }
  }
}
