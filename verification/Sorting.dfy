/** The two library sorts the aggregator calls, as one stable insertion sort, and the byte order of names. */
module Sorting {
  ghost predicate TotalPreorder<T(!new)>(leq: (T, T) -> bool) {
    && (forall x, y :: leq(x, y) || leq(y, x))
    && (forall x, y, z :: leq(x, y) && leq(y, z) ==> leq(x, z))
  }

  ghost predicate Sorted<T>(leq: (T, T) -> bool, s: seq<T>) {
    forall i, j | 0 <= i < j < |s| :: leq(s[i], s[j])
  }

  function Insert<T>(leq: (T, T) -> bool, s: seq<T>, x: T): seq<T> {
    if s == [] || leq(s[|s| - 1], x) then s + [x] else Insert(leq, s[..|s| - 1], x) + [s[|s| - 1]]
  }

  function Sort<T>(leq: (T, T) -> bool, s: seq<T>): seq<T> {
    if s == [] then [] else Insert(leq, Sort(leq, s[..|s| - 1]), s[|s| - 1])
  }

  lemma {:induction false} InsertContents<T(!new)>(leq: (T, T) -> bool, s: seq<T>, x: T)
    ensures multiset(Insert(leq, s, x)) == multiset(s) + multiset{x}
    ensures forall y | y in Insert(leq, s, x) :: y in s || y == x
  {
    if s != [] && !leq(s[|s| - 1], x) {
      InsertContents(leq, s[..|s| - 1], x);
      assert s == s[..|s| - 1] + [s[|s| - 1]];
    }
  }

  lemma {:induction false} InsertSorts<T(!new)>(leq: (T, T) -> bool, s: seq<T>, x: T)
    requires TotalPreorder(leq) && Sorted(leq, s)
    ensures multiset(Insert(leq, s, x)) == multiset(s) + multiset{x}
    ensures Sorted(leq, Insert(leq, s, x))
  {
    InsertContents(leq, s, x);
    if s != [] && !leq(s[|s| - 1], x) {
      var front, last := s[..|s| - 1], s[|s| - 1];
      InsertSorts(leq, front, x);
      InsertContents(leq, front, x);
      forall y | y in Insert(leq, front, x)
        ensures leq(y, last)
      {
        if y in front {
          LastIsGreatest(leq, s, y);
        }
        assert leq(last, last);
      }
    }
  }

  lemma {:induction false} SortSorts<T(!new)>(leq: (T, T) -> bool, s: seq<T>)
    requires TotalPreorder(leq)
    ensures multiset(Sort(leq, s)) == multiset(s)
    ensures Sorted(leq, Sort(leq, s))
  {
    if s != [] {
      var front, last := s[..|s| - 1], s[|s| - 1];
      assert s == front + [last];
      SortSorts(leq, front);
      InsertSorts(leq, Sort(leq, front), last);
    }
  }

  /** The elements that tie with t, in their order. */
  function Ties<T>(leq: (T, T) -> bool, s: seq<T>, t: T): seq<T> {
    if s == [] then []
    else
      var front, last := Ties(leq, s[..|s| - 1], t), s[|s| - 1];
      if leq(last, t) && leq(t, last) then front + [last] else front
  }

  lemma {:induction false} InsertStable<T(!new)>(leq: (T, T) -> bool, s: seq<T>, x: T, t: T)
    requires TotalPreorder(leq)
    ensures Ties(leq, Insert(leq, s, x), t) == Ties(leq, s + [x], t)
  {
    assert (s + [x])[..|s|] == s;
    if s == [] || leq(s[|s| - 1], x) {
    } else {
      var front, last := s[..|s| - 1], s[|s| - 1];
      InsertStable(leq, front, x, t);
      var whole := Insert(leq, s, x);
      assert whole[..|whole| - 1] == Insert(leq, front, x);
      assert (front + [x])[..|front|] == front;
    }
  }

  lemma {:induction false} TiesOfExtension<T>(leq: (T, T) -> bool, s: seq<T>, x: T, t: T)
    ensures Ties(leq, s + [x], t) == Ties(leq, s, t) + (if leq(x, t) && leq(t, x) then [x] else [])
  {
    assert (s + [x])[..|s|] == s;
  }

  /** Elements that tie keep their order. */
  lemma {:induction false} SortStable<T(!new)>(leq: (T, T) -> bool, s: seq<T>, t: T)
    requires TotalPreorder(leq)
    ensures Ties(leq, Sort(leq, s), t) == Ties(leq, s, t)
  {
    if s != [] {
      var front, last := s[..|s| - 1], s[|s| - 1];
      assert s == front + [last];
      SortStable(leq, front, t);
      InsertStable(leq, Sort(leq, front), last, t);
      TiesOfExtension(leq, Sort(leq, front), last, t);
      TiesOfExtension(leq, front, last, t);
    }
  }

  lemma LastOf<T>(s: seq<T>)
    requires s != []
    ensures s[|s| - 1] in multiset(s)
    ensures multiset(s[..|s| - 1]) == multiset(s) - multiset{s[|s| - 1]}
  {
    assert s == s[..|s| - 1] + [s[|s| - 1]];
  }

  lemma LastIsGreatest<T(!new)>(leq: (T, T) -> bool, s: seq<T>, x: T)
    requires Sorted(leq, s) && x in s
    ensures x == s[|s| - 1] || leq(x, s[|s| - 1])
  {
  }

  lemma FrontSorted<T(!new)>(leq: (T, T) -> bool, s: seq<T>)
    requires Sorted(leq, s) && s != []
    ensures Sorted(leq, s[..|s| - 1])
    ensures forall x | x in s[..|s| - 1] :: x in s
  {
  }

  lemma LastsAgree<T(!new)>(leq: (T, T) -> bool, s: seq<T>, t: seq<T>)
    requires Sorted(leq, s) && Sorted(leq, t) && multiset(s) == multiset(t) && s != [] && t != []
    requires forall x, y | x in s && y in s && leq(x, y) && leq(y, x) :: x == y
    ensures s[|s| - 1] == t[|t| - 1]
  {
    var x, y := s[|s| - 1], t[|t| - 1];
    LastOf(s);
    LastOf(t);
    assert x in multiset(t) && y in multiset(s);
    LastIsGreatest(leq, s, y);
    LastIsGreatest(leq, t, x);
  }

  lemma FrontsAgree<T>(s: seq<T>, t: seq<T>)
    requires multiset(s) == multiset(t) && s != [] && t != [] && s[|s| - 1] == t[|t| - 1]
    ensures multiset(s[..|s| - 1]) == multiset(t[..|t| - 1])
  {
    LastOf(s);
    LastOf(t);
  }

  /** A multiset without ties has only one sorted order. */
  lemma {:induction false} SortedUnique<T(!new)>(leq: (T, T) -> bool, s: seq<T>, t: seq<T>)
    requires Sorted(leq, s) && Sorted(leq, t) && multiset(s) == multiset(t)
    requires forall x, y | x in s && y in s && leq(x, y) && leq(y, x) :: x == y
    ensures s == t
  {
    assert |s| == |multiset(s)| == |multiset(t)| == |t|;
    if s != [] {
      var n := |s| - 1;
      LastsAgree(leq, s, t);
      FrontsAgree(s, t);
      FrontSorted(leq, s);
      FrontSorted(leq, t);
      SortedUnique(leq, s[..n], t[..n]);
      assert s == s[..n] + [s[n]] && t == t[..n] + [t[n]];
    }
  }

  // ---- Names in byte order ----

  predicate NameLeq(a: string, b: string) {
    a == [] || (b != [] && (a[0] < b[0] || (a[0] == b[0] && NameLeq(a[1..], b[1..]))))
  }

  /** The names agree up to position k, where the first ends or has the smaller character. */
  predicate BeforeAt(a: string, b: string, k: nat) {
    && k <= |a| && k <= |b| && a[..k] == b[..k]
    && (k == |a| || (k < |b| && a[k] < b[k]))
  }

  lemma {:induction false} NameLeqIff(a: string, b: string)
    ensures NameLeq(a, b) <==> exists k: nat :: BeforeAt(a, b, k)
  {
    if a == [] || b == [] || a[0] != b[0] {
      assert a == [] || (b != [] && a[0] < b[0]) ==> BeforeAt(a, b, 0);
      forall k: nat | BeforeAt(a, b, k)
        ensures NameLeq(a, b)
      {
        assert k > 0 ==> a[..k][0] == b[..k][0];
      }
    } else {
      NameLeqIff(a[1..], b[1..]);
      if k: nat :| BeforeAt(a[1..], b[1..], k) {
        assert a[..k + 1] == [a[0]] + a[1..][..k] && b[..k + 1] == [b[0]] + b[1..][..k];
        assert BeforeAt(a, b, k + 1);
      }
      forall k: nat | BeforeAt(a, b, k)
        ensures NameLeq(a, b)
      {
        assert k > 0;
        assert a[1..][..k - 1] == a[..k][1..] && b[1..][..k - 1] == b[..k][1..];
        assert BeforeAt(a[1..], b[1..], k - 1);
      }
    }
  }

  lemma NameLeqTotal(a: string, b: string)
    ensures NameLeq(a, b) || NameLeq(b, a)
  {
  }

  lemma {:induction false} NameLeqTransitive(a: string, b: string, c: string)
    requires NameLeq(a, b) && NameLeq(b, c)
    ensures NameLeq(a, c)
  {
    if a != [] && a[0] == b[0] && b[0] == c[0] {
      NameLeqTransitive(a[1..], b[1..], c[1..]);
    }
  }

  lemma {:induction false} NameLeqAntisymmetric(a: string, b: string)
    requires NameLeq(a, b) && NameLeq(b, a)
    ensures a == b
  {
    if a != [] {
      NameLeqAntisymmetric(a[1..], b[1..]);
      assert a == [a[0]] + a[1..] && b == [b[0]] + b[1..];
    }
  }
}
