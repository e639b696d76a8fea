/** Go's `sort.Slice` and `sort.SliceStable`, as the stable sort; `SortIsUnique` says that without ties every
    sort gives this result. */
module Sorting {

  type Less<!T> = (T, T) -> bool

  ghost predicate StrictOrder<T(!new)>(less: Less<T>) {
    && (forall x :: !less(x, x))
    && (forall x, y, z :: less(x, y) && less(y, z) ==> less(x, z))
    && (forall x, y, z :: less(x, z) ==> less(x, y) || less(y, z))
  }

  ghost predicate Sorted<T>(s: seq<T>, less: Less<T>) {
    forall i, j | 0 <= i < j < |s| :: !less(s[j], s[i])
  }

  /** The last `n` elements. */
  function Latest<T>(s: seq<T>, n: nat): seq<T> { if |s| > n then s[|s| - n..] else s }

  /** No two elements tie. */
  ghost predicate Increasing<T>(s: seq<T>, less: Less<T>) {
    forall i, j | 0 <= i < j < |s| :: less(s[i], s[j])
  }

  function Insert<T>(s: seq<T>, x: T, less: Less<T>): seq<T> {
    if s == [] || !less(x, s[|s| - 1]) then s + [x]
    else Insert(s[..|s| - 1], x, less) + [s[|s| - 1]]
  }

  function Sort<T>(s: seq<T>, less: Less<T>): seq<T> {
    if s == [] then [] else Insert(Sort(s[..|s| - 1], less), s[|s| - 1], less)
  }

  lemma {:induction false} InsertPermutes<T>(s: seq<T>, x: T, less: Less<T>)
    ensures multiset(Insert(s, x, less)) == multiset(s) + multiset{x}
    ensures forall y :: y in Insert(s, x, less) <==> y in s || y == x
  {
    if s != [] && less(x, s[|s| - 1]) {
      InsertPermutes(s[..|s| - 1], x, less);
      assert s == s[..|s| - 1] + [s[|s| - 1]];
    }
  }

  lemma SortedAppend<T>(s: seq<T>, last: T, less: Less<T>)
    ensures Sorted(s, less) && (forall y | y in s :: !less(last, y)) ==> Sorted(s + [last], less)
    ensures Increasing(s, less) && (forall y | y in s :: less(y, last)) ==> Increasing(s + [last], less)
  {}

  lemma {:induction false} InsertSorts<T(!new)>(s: seq<T>, x: T, less: Less<T>)
    requires StrictOrder(less) && Sorted(s, less)
    ensures Sorted(Insert(s, x, less), less)
  {
    if s != [] && less(x, s[|s| - 1]) {
      var front, last := s[..|s| - 1], s[|s| - 1];
      InsertSorts(front, x, less);
      InsertPermutes(front, x, less);
      SortedAppend(Insert(front, x, less), last, less);
    }
  }

  lemma {:induction false} SortPermutes<T>(s: seq<T>, less: Less<T>)
    ensures multiset(Sort(s, less)) == multiset(s) && |Sort(s, less)| == |s|
  {
    if s != [] {
      var front, last := s[..|s| - 1], s[|s| - 1];
      SortPermutes(front, less);
      InsertPermutes(Sort(front, less), last, less);
      assert s == front + [last];
    }
    assert |multiset(Sort(s, less))| == |multiset(s)|;
  }

  lemma {:induction false} SortSorts<T(!new)>(s: seq<T>, less: Less<T>)
    requires StrictOrder(less)
    ensures Sorted(Sort(s, less), less) && multiset(Sort(s, less)) == multiset(s)
    ensures |Sort(s, less)| == |s| && forall x :: x in Sort(s, less) <==> x in s
  {
    SortPermutes(s, less);
    forall x ensures x in Sort(s, less) <==> x in s {
      assert x in multiset(Sort(s, less)) <==> x in multiset(s);
    }
    if s != [] {
      SortSorts(s[..|s| - 1], less);
      InsertSorts(Sort(s[..|s| - 1], less), s[|s| - 1], less);
    }
  }

  lemma IncreasingIsSorted<T(!new)>(s: seq<T>, less: Less<T>)
    requires StrictOrder(less) && Increasing(s, less)
    ensures Sorted(s, less)
  {
    forall i, j | 0 <= i < j < |s| ensures !less(s[j], s[i]) {
      assert less(s[i], s[j]);
      assert !less(s[i], s[i]);
    }
  }

  /** Any two elements at different places differ in the order. */
  ghost predicate NoTies<T>(s: seq<T>, less: Less<T>) {
    forall i, j | 0 <= i < j < |s| :: less(s[i], s[j]) || less(s[j], s[i])
  }

  lemma {:induction false} InsertWithoutTies<T(!new)>(s: seq<T>, x: T, less: Less<T>)
    requires StrictOrder(less) && Increasing(s, less) && forall i | 0 <= i < |s| :: less(s[i], x) || less(x, s[i])
    ensures Increasing(Insert(s, x, less), less)
  {
    if s != [] && less(x, s[|s| - 1]) {
      var front, last := s[..|s| - 1], s[|s| - 1];
      InsertWithoutTies(front, x, less);
      InsertPermutes(front, x, less);
      SortedAppend(Insert(front, x, less), last, less);
    }
  }

  lemma {:induction false} SortWithoutTies<T(!new)>(s: seq<T>, less: Less<T>)
    requires StrictOrder(less) && NoTies(s, less)
    ensures Increasing(Sort(s, less), less)
  {
    if s != [] {
      var front, last := s[..|s| - 1], s[|s| - 1];
      SortWithoutTies(front, less);
      SortSorts(front, less);
      var r := Sort(front, less);
      forall i | 0 <= i < |r| ensures less(r[i], last) || less(last, r[i]) {
        assert r[i] in front;
        var j :| 0 <= j < |front| && front[j] == r[i];
        assert less(s[j], s[|s| - 1]) || less(s[|s| - 1], s[j]);
      }
      InsertWithoutTies(r, last, less);
    }
  }

  /** Two lists without ties and with the same elements are the same list. */
  lemma {:induction false} SortIsUnique<T(!new)>(a: seq<T>, b: seq<T>, less: Less<T>)
    requires StrictOrder(less) && Increasing(a, less) && Increasing(b, less)
    requires forall x :: x in a <==> x in b
    ensures a == b
  {
    assert a != [] ==> a[0] in b;
    assert b != [] ==> b[0] in a;
    if a != [] {
      var m, n := |a| - 1, |b| - 1;
      assert a[m] in b && b[n] in a;
      assert a[m] == b[n];
      forall x ensures x in a[..m] <==> x in b[..n] {
        assert x in a[..m] ==> x in a && x != a[m];
        assert x in b[..n] ==> x in b && x != b[n];
        assert x in a && x != a[m] ==> x in a[..m];
        assert x in b && x != b[n] ==> x in b[..n];
      }
      SortIsUnique(a[..m], b[..n], less);
      assert a == a[..m] + [a[m]] && b == b[..n] + [b[n]];
    }
  }

  lemma {:induction false} SortedIsFixed<T>(s: seq<T>, less: Less<T>)
    requires Sorted(s, less)
    ensures Sort(s, less) == s
  {
    if s != [] {
      SortedIsFixed(s[..|s| - 1], less);
      assert |s| > 1 ==> s[..|s| - 1][|s| - 2] == s[|s| - 2];
    }
  }
}
