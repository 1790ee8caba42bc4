/**
 * `QuerySet.order_by(field)`: the rows of a query, rearranged so that each
 * comes before the next by the field's ordering (ascending, or descending
 * with a leading `-`). The ordering itself is the database's; here it is a
 * "may come before" relation.
 */
module QueryOrdering {
  /** Whether a row may come before another in the requested order. */
  type Ordering<!T> = (T, T) -> bool

  /** An ordering by a field: every two rows compare, and comparison chains. */
  ghost predicate TotalPreorder<T(!new)>(before: Ordering<T>) {
    && (forall a, b :: before(a, b) || before(b, a))
    && (forall a, b, c :: before(a, b) && before(b, c) ==> before(a, c))
  }

  /** Each row may come before every later one. */
  ghost predicate SortedBy<T>(s: seq<T>, before: Ordering<T>) {
    forall i, j :: 0 <= i < j < |s| ==> before(s[i], s[j])
  }

  /** `x` placed ahead of the first row it may come before. */
  function Insert<T>(x: T, s: seq<T>, before: Ordering<T>): (r: seq<T>)
    ensures multiset(r) == multiset(s) + multiset{x}
  {
    if s == [] then [x]
    else if before(x, s[0]) then [x] + s
    else
      assert s == [s[0]] + s[1..];
      [s[0]] + Insert(x, s[1..], before)
  }

  /** The rows in the requested order; rows that tie keep the order they had. */
  function SortBy<T>(s: seq<T>, before: Ordering<T>): (r: seq<T>)
    ensures multiset(r) == multiset(s)
  {
    if s == [] then []
    else
      assert s == [s[0]] + s[1..];
      Insert(s[0], SortBy(s[1..], before), before)
  }

  lemma {:induction false} InsertSorted<T(!new)>(x: T, s: seq<T>, before: Ordering<T>)
    requires TotalPreorder(before) && SortedBy(s, before)
    ensures SortedBy(Insert(x, s, before), before)
    decreases |s|
  {
    if s != [] && !before(x, s[0]) {
      var t := Insert(x, s[1..], before);
      InsertSorted(x, s[1..], before);
      var r := [s[0]] + t;
      assert before(s[0], x);
      forall j | 0 < j < |r|
        ensures before(s[0], r[j])
      {
        assert r[j] in multiset(t);
        assert r[j] in multiset(s[1..]) + multiset{x};
        if r[j] != x {
          assert r[j] in s[1..];
          var k :| 0 <= k < |s[1..]| && s[1..][k] == r[j];
          assert s[k + 1] == r[j];
        }
      }
      forall i, j | 0 <= i < j < |r|
        ensures before(r[i], r[j])
      {
        if i > 0 {
          assert r[i] == t[i - 1] && r[j] == t[j - 1];
        }
      }
    }
  }

  /** Under an ordering by a field, the result is sorted and holds the same rows. */
  lemma {:induction false} SortBySorted<T(!new)>(s: seq<T>, before: Ordering<T>)
    requires TotalPreorder(before)
    ensures SortedBy(SortBy(s, before), before)
    decreases |s|
  {
    if s != [] {
      SortBySorted(s[1..], before);
      InsertSorted(s[0], SortBy(s[1..], before), before);
    }
  }

  /** Rows already in order are left as they are. */
  lemma {:induction false} SortBySortedIsIdentity<T(!new)>(s: seq<T>, before: Ordering<T>)
    requires SortedBy(s, before)
    ensures SortBy(s, before) == s
    decreases |s|
  {
    if s != [] {
      assert SortedBy(s[1..], before) by {
        forall i, j | 0 <= i < j < |s[1..]|
          ensures before(s[1..][i], s[1..][j])
        {
          assert s[1..][i] == s[i + 1] && s[1..][j] == s[j + 1];
        }
      }
      SortBySortedIsIdentity(s[1..], before);
      if |s| > 1 {
        assert before(s[0], s[1]);
      }
      assert s == [s[0]] + s[1..];
    }
  }
}
