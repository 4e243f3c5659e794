/** Values documents and their deep merge
    (internal/controller/values/aggregator.go, DeepMerge).
    A nil map of the source reads and merges like the empty map and is modelled by it. */
module Documents {
  datatype Value =
    | Null
    | Scalar(text: string)
    | List(items: seq<Value>)
    | Obj(fields: Doc)

  type Doc = map<string, Value>

  type Path = seq<string>

  // ---- The merge ----

  /** Maps merge recursively; lists, scalars and null of the overlay replace what the base has. */
  function DeepMerge(base: Doc, overlay: Doc): (r: Doc)
    ensures r.Keys == base.Keys + overlay.Keys
    decreases Obj(overlay)
  {
    map k | k in base.Keys + overlay.Keys ::
      if k !in overlay then base[k]
      else if k in base && base[k].Obj? && overlay[k].Obj? then
        Obj(DeepMerge(base[k].fields, overlay[k].fields))
      else overlay[k]
  }

  // ---- What a document has at a path ----

  datatype Node = Absent | Branch | Leaf(value: Value)

  function NodeOf(v: Value): Node {
    if v.Obj? then Branch else Leaf(v)
  }

  function At(d: Doc, p: Path): Node
    decreases |p|
  {
    if p == [] then Branch
    else if p[0] !in d then Absent
    else if |p| == 1 then NodeOf(d[p[0]])
    else if d[p[0]].Obj? then At(d[p[0]].fields, p[1..])
    else Absent
  }

  /** Some proper prefix of the path already ends in a leaf. */
  predicate LeafAbove(d: Doc, p: Path)
    decreases |p|
  {
    |p| > 1 && p[0] in d && (!d[p[0]].Obj? || LeafAbove(d[p[0]].fields, p[1..]))
  }

  /** The merge, path by path: the overlay's node if it has one, nothing below an overlay leaf,
      and the base's node everywhere else. */
  function MergedNode(base: Node, overlay: Node, covered: bool): Node {
    if overlay != Absent then overlay else if covered then Absent else base
  }

  lemma {:induction false} MergeAtPath(base: Doc, overlay: Doc, p: Path)
    ensures At(DeepMerge(base, overlay), p) == MergedNode(At(base, p), At(overlay, p), LeafAbove(overlay, p))
    decreases |p|
  {
    if |p| > 1 && p[0] in base && p[0] in overlay && base[p[0]].Obj? && overlay[p[0]].Obj? {
      MergeAtPath(base[p[0]].fields, overlay[p[0]].fields, p[1..]);
    } else if |p| > 1 && p[0] in overlay && overlay[p[0]].Obj? {
      OnlyBranchesAbove(overlay[p[0]].fields, p[1..]);
    }
  }

  lemma {:induction false} OnlyBranchesAbove(d: Doc, p: Path)
    ensures LeafAbove(d, p) ==> At(d, p) == Absent
    decreases |p|
  {
    if |p| > 1 && p[0] in d && d[p[0]].Obj? {
      OnlyBranchesAbove(d[p[0]].fields, p[1..]);
    }
  }

  /** Two documents with the same node at every path are the same document, so MergeAtPath
      determines the merge completely. */
  lemma {:induction false} SameNodesSameDoc(c: Doc, d: Doc)
    requires forall p: Path :: At(c, p) == At(d, p)
    ensures c == d
    decreases Obj(c)
  {
    forall k | k in c.Keys + d.Keys
      ensures k in c && k in d && c[k] == d[k]
    {
      assert At(c, [k]) == At(d, [k]);
      if c[k].Obj? {
        forall p: Path
          ensures At(c[k].fields, p) == At(d[k].fields, p)
        {
          if p != [] {
            assert ([k] + p)[1..] == p;
            assert At(c, [k] + p) == At(d, [k] + p);
          }
        }
        SameNodesSameDoc(c[k].fields, d[k].fields);
      }
    }
    assert c.Keys == d.Keys;
  }

  lemma MergeUnique(base: Doc, overlay: Doc, d: Doc)
    requires forall p: Path :: At(d, p) == MergedNode(At(base, p), At(overlay, p), LeafAbove(overlay, p))
    ensures d == DeepMerge(base, overlay)
  {
    forall p: Path
      ensures At(d, p) == At(DeepMerge(base, overlay), p)
    {
      MergeAtPath(base, overlay, p);
    }
    SameNodesSameDoc(d, DeepMerge(base, overlay));
  }

  // ---- Algebra ----

  lemma MergeUnits(d: Doc)
    ensures DeepMerge(d, map[]) == d && DeepMerge(map[], d) == d
  {
  }

  /** Merging the same overlay twice changes nothing. */
  lemma {:induction false} RightAbsorption(base: Doc, overlay: Doc)
    ensures DeepMerge(DeepMerge(base, overlay), overlay) == DeepMerge(base, overlay)
    decreases Obj(overlay)
  {
    var once := DeepMerge(base, overlay);
    forall k | k in once.Keys
      ensures DeepMerge(once, overlay)[k] == once[k]
    {
      if k in base && k in overlay && base[k].Obj? && overlay[k].Obj? {
        RightAbsorption(base[k].fields, overlay[k].fields);
      } else if k in overlay && overlay[k].Obj? {
        Idempotent(overlay[k].fields);
      }
    }
    assert DeepMerge(once, overlay).Keys == once.Keys;
  }

  lemma {:induction false} Idempotent(d: Doc)
    ensures DeepMerge(d, d) == d
    decreases Obj(d)
  {
    forall k | k in d
      ensures DeepMerge(d, d)[k] == d[k]
    {
      if d[k].Obj? {
        Idempotent(d[k].fields);
      }
    }
  }

  /** Where a map meets a non-map and then a map again, the first map must add nothing. */
  predicate Associates(a: Doc, b: Doc, c: Doc)
    decreases Obj(c), 1
  {
    forall k | k in c :: AssociatesAt(a, b, c, k)
  }

  predicate AssociatesAt(a: Doc, b: Doc, c: Doc, k: string)
    decreases Obj(c), 0
  {
    k in a && k in b && k in c && a[k].Obj? && c[k].Obj? ==>
      if b[k].Obj? then Associates(a[k].fields, b[k].fields, c[k].fields)
      else DeepMerge(a[k].fields, c[k].fields) == c[k].fields
  }

  /** Deep merge is not associative; this is exactly when it is. */
  lemma {:induction false} AssociativeIff(a: Doc, b: Doc, c: Doc)
    ensures DeepMerge(DeepMerge(a, b), c) == DeepMerge(a, DeepMerge(b, c)) <==> Associates(a, b, c)
    decreases Obj(c)
  {
    var l, r := DeepMerge(DeepMerge(a, b), c), DeepMerge(a, DeepMerge(b, c));
    assert l.Keys == r.Keys;
    forall k | k in l.Keys
      ensures l[k] == r[k] <==> AssociatesAt(a, b, c, k)
    {
      if k in a && k in b && k in c && a[k].Obj? && b[k].Obj? && c[k].Obj? {
        AssociativeIff(a[k].fields, b[k].fields, c[k].fields);
      }
    }
    assert forall k | k !in c :: AssociatesAt(a, b, c, k);
    assert l == r <==> forall k | k in l.Keys :: l[k] == r[k];
  }

  lemma NotAssociative()
    ensures exists a: Doc, b: Doc, c: Doc ::
      DeepMerge(DeepMerge(a, b), c) != DeepMerge(a, DeepMerge(b, c))
  {
    var a: Doc, b: Doc, c: Doc := map["k" := Obj(map["x" := Null])], map["k" := Null], map["k" := Obj(map[])];
    assert !AssociatesAt(a, b, c, "k") by {
      assert "x" in DeepMerge(a["k"].fields, c["k"].fields);
    }
    assert !Associates(a, b, c);
    AssociativeIff(a, b, c);
  }

  // ---- Shape-compatible documents ----

  /** No path is a map in one document and something else in the other. */
  ghost predicate Compatible(c: Doc, d: Doc) {
    forall p: Path :: !(At(c, p) == Branch && At(d, p).Leaf?) && !(At(c, p).Leaf? && At(d, p) == Branch)
  }

  ghost predicate AllCompatible(docs: seq<Doc>) {
    forall i, j | 0 <= i < |docs| && 0 <= j < |docs| :: Compatible(docs[i], docs[j])
  }

  function MergeAll(docs: seq<Doc>): Doc {
    if docs == [] then map[] else DeepMerge(MergeAll(docs[..|docs| - 1]), docs[|docs| - 1])
  }

  lemma {:induction false} CompatibleFields(c: Doc, d: Doc, k: string)
    requires Compatible(c, d) && k in c && k in d
    ensures c[k].Obj? <==> d[k].Obj?
    ensures c[k].Obj? ==> Compatible(c[k].fields, d[k].fields)
  {
    assert At(c, [k]) == NodeOf(c[k]) && At(d, [k]) == NodeOf(d[k]);
    if c[k].Obj? {
      forall p: Path
        ensures !(At(c[k].fields, p) == Branch && At(d[k].fields, p).Leaf?)
        ensures !(At(c[k].fields, p).Leaf? && At(d[k].fields, p) == Branch)
      {
        if p != [] {
          assert ([k] + p)[1..] == p;
          assert At(c, [k] + p) == At(c[k].fields, p) && At(d, [k] + p) == At(d[k].fields, p);
        }
      }
    }
  }

  lemma {:induction false} CompatibleAssociates(a: Doc, b: Doc, c: Doc)
    requires Compatible(a, b) && Compatible(b, c)
    ensures Associates(a, b, c)
    decreases Obj(c)
  {
    forall k | k in a && k in b && k in c && a[k].Obj? && c[k].Obj?
      ensures b[k].Obj? && Associates(a[k].fields, b[k].fields, c[k].fields)
    {
      CompatibleFields(a, b, k);
      CompatibleFields(b, c, k);
      CompatibleAssociates(a[k].fields, b[k].fields, c[k].fields);
    }
  }

  lemma CompatibleMerge(d: Doc, a: Doc, b: Doc)
    requires Compatible(d, a) && Compatible(d, b)
    ensures Compatible(d, DeepMerge(a, b))
  {
    forall p: Path
      ensures !(At(d, p) == Branch && At(DeepMerge(a, b), p).Leaf?)
      ensures !(At(d, p).Leaf? && At(DeepMerge(a, b), p) == Branch)
    {
      MergeAtPath(a, b, p);
    }
  }

  lemma CompatibleSymmetric(c: Doc, d: Doc)
    requires Compatible(c, d)
    ensures Compatible(d, c)
  {
  }

  lemma {:induction false} CompatibleMergeAll(d: Doc, docs: seq<Doc>)
    requires forall i | 0 <= i < |docs| :: Compatible(d, docs[i])
    ensures Compatible(d, MergeAll(docs))
  {
    if docs == [] {
      assert forall p: Path :: p != [] ==> At(map[], p) == Absent;
    } else {
      CompatibleMergeAll(d, docs[..|docs| - 1]);
      CompatibleMerge(d, MergeAll(docs[..|docs| - 1]), docs[|docs| - 1]);
    }
  }

  lemma MergesCompatible(xs: seq<Doc>, ys: seq<Doc>)
    requires forall i, j | 0 <= i < |xs| && 0 <= j < |ys| :: Compatible(xs[i], ys[j])
    ensures Compatible(MergeAll(xs), MergeAll(ys))
  {
    forall i | 0 <= i < |xs|
      ensures Compatible(MergeAll(ys), xs[i])
    {
      CompatibleMergeAll(xs[i], ys);
      CompatibleSymmetric(xs[i], MergeAll(ys));
    }
    CompatibleMergeAll(MergeAll(ys), xs);
    CompatibleSymmetric(MergeAll(ys), MergeAll(xs));
  }

  lemma PartsCompatible(xs: seq<Doc>, ys: seq<Doc>)
    requires AllCompatible(xs + ys)
    ensures AllCompatible(xs) && AllCompatible(ys)
    ensures forall i, j | 0 <= i < |xs| && 0 <= j < |ys| :: Compatible(xs[i], ys[j])
  {
    var all := xs + ys;
    assert forall i | 0 <= i < |xs| :: all[i] == xs[i];
    assert forall j | 0 <= j < |ys| :: all[|xs| + j] == ys[j];
  }

  /** Merging group by group equals one flat merge. */
  lemma {:induction false} MergeAllConcat(xs: seq<Doc>, ys: seq<Doc>)
    requires AllCompatible(xs + ys)
    ensures MergeAll(xs + ys) == DeepMerge(MergeAll(xs), MergeAll(ys))
    decreases |ys|
  {
    if ys == [] {
      assert xs + ys == xs;
      MergeUnits(MergeAll(xs));
    } else {
      var front, last := ys[..|ys| - 1], ys[|ys| - 1];
      assert ys == front + [last] && xs + ys == (xs + front) + [last];
      PartsCompatible(xs + front, [last]);
      MergeAllConcat(xs, front);
      PartsCompatible(xs, front);
      MergesCompatible(xs, front);
      PartsCompatible(xs, ys);
      PartsCompatible(front, [last]);
      assert forall j | 0 <= j < |front| :: Compatible(front[j], [last][0]);
      LastCompatible(front, last);
      CompatibleAssociates(MergeAll(xs), MergeAll(front), last);
      AssociativeIff(MergeAll(xs), MergeAll(front), last);
      assert (xs + ys)[..|xs + ys| - 1] == xs + front;
    }
  }

  lemma LastCompatible(docs: seq<Doc>, last: Doc)
    requires forall j | 0 <= j < |docs| :: Compatible(docs[j], last)
    ensures Compatible(MergeAll(docs), last)
  {
    forall j | 0 <= j < |docs|
      ensures Compatible(last, docs[j])
    {
      CompatibleSymmetric(docs[j], last);
    }
    CompatibleMergeAll(last, docs);
    CompatibleSymmetric(last, MergeAll(docs));
  }

  /** The index of the last document that has something at the path, or -1. */
  function LastDefining(docs: seq<Doc>, p: Path): (i: int)
    ensures -1 <= i < |docs|
    ensures i >= 0 ==> At(docs[i], p) != Absent
    ensures forall j | i < j < |docs| :: At(docs[j], p) == Absent
  {
    if docs == [] then -1
    else if At(docs[|docs| - 1], p) != Absent then |docs| - 1
    else LastDefining(docs[..|docs| - 1], p)
  }

  lemma {:induction false} CompatibleNotCovered(c: Doc, d: Doc, p: Path)
    requires Compatible(c, d) && At(c, p) != Absent
    ensures !LeafAbove(d, p)
    decreases |p|
  {
    if |p| > 1 && p[0] in d {
      CompatibleFields(c, d, p[0]);
      CompatibleNotCovered(c[p[0]].fields, d[p[0]].fields, p[1..]);
    }
  }

  /** Every node of the merge comes from the last document that defines its path. */
  lemma {:induction false} LastWriterWins(docs: seq<Doc>, p: Path)
    requires AllCompatible(docs) && p != []
    ensures At(MergeAll(docs), p) ==
            if LastDefining(docs, p) < 0 then Absent else At(docs[LastDefining(docs, p)], p)
    decreases |docs|
  {
    if docs != [] {
      var front, last := docs[..|docs| - 1], docs[|docs| - 1];
      assert AllCompatible(front);
      LastWriterWins(front, p);
      MergeAtPath(MergeAll(front), last, p);
      if At(last, p) == Absent && LastDefining(front, p) >= 0 {
        CompatibleNotCovered(docs[LastDefining(front, p)], last, p);
      }
    }
  }
}
