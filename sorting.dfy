/**
 * `ORDER BY key DESC LIMIT n` on a list of rows: a descending insertion sort by
 * an integer key, and the top-n prefix of its result.  The properties proved
 * are those the SQL clause promises: the result is in descending key order, is
 * drawn from the rows, and no row left out ranks above a row shown.  The order
 * of rows with equal keys is unspecified in SQL; this sort puts a row before
 * the earlier rows whose key equals its own, so ties come out in reverse input order.
 */
module Sorting {

  predicate SortedDesc<T>(s: seq<T>, key: T -> int) {
    forall i, j :: 0 <= i < j < |s| ==> key(s[i]) >= key(s[j])
  }

  /** Every element of a rearrangement of bounded elements is bounded. */
  lemma BoundedAfterInsert<T>(rest: seq<T>, s: seq<T>, x: T, key: T -> int, bound: int)
    requires multiset(rest) == multiset(s) + multiset{x}
    requires key(x) <= bound
    requires forall k :: 0 <= k < |s| ==> key(s[k]) <= bound
    ensures forall k :: 0 <= k < |rest| ==> key(rest[k]) <= bound
  {
    forall k | 0 <= k < |rest|
      ensures key(rest[k]) <= bound
    {
      assert rest[k] in multiset(rest);
      if rest[k] != x {
        assert rest[k] in multiset(s);
        var j :| 0 <= j < |s| && s[j] == rest[k];
      }
    }
  }

  /** Inserts `x` before the first element with a smaller key. */
  function InsertDesc<T>(x: T, s: seq<T>, key: T -> int): (r: seq<T>)
    requires SortedDesc(s, key)
    ensures |r| == |s| + 1
    ensures multiset(r) == multiset(s) + multiset{x}
    ensures SortedDesc(r, key)
  {
    if s == [] then [x]
    else if key(x) >= key(s[0]) then [x] + s
    else
      var rest := InsertDesc(x, s[1..], key);
      assert s == [s[0]] + s[1..];
      BoundedAfterInsert(rest, s[1..], x, key, key(s[0]));
      [s[0]] + rest
  }

  /** The rows in descending key order; rows with equal keys come out in reverse input order. */
  function SortDesc<T>(s: seq<T>, key: T -> int): (r: seq<T>)
    ensures |r| == |s|
    ensures multiset(r) == multiset(s)
    ensures SortedDesc(r, key)
  {
    if s == [] then []
    else
      assert s == s[..|s| - 1] + [s[|s| - 1]];
      InsertDesc(s[|s| - 1], SortDesc(s[..|s| - 1], key), key)
  }

  /** Two rows with the same key come out in the reverse of their input order. */
  lemma SortTiesReversed()
    ensures SortDesc([(1, 0), (2, 0)], (p: (int, int)) => p.1) == [(2, 0), (1, 0)]
  {
  }

  /** `ORDER BY key DESC LIMIT n`. */
  function TopDesc<T>(s: seq<T>, key: T -> int, n: nat): seq<T> {
    var sorted := SortDesc(s, key);
    if |sorted| <= n then sorted else sorted[..n]
  }

  /** In a descending list, nothing after position k ranks above anything before it. */
  lemma SortedSplit<T>(sorted: seq<T>, key: T -> int, k: nat)
    requires SortedDesc(sorted, key) && k <= |sorted|
    ensures forall y, z :: y in sorted[k..] && z in sorted[..k] ==> key(y) <= key(z)
  {
    forall y, z | y in sorted[k..] && z in sorted[..k]
      ensures key(y) <= key(z)
    {
      var j :| k <= j < |sorted| && sorted[j] == y;
      var i :| 0 <= i < k && sorted[i] == z;
    }
  }

  /** Every row left out of the top n ranks no higher than every row shown. */
  lemma TopDescDominates<T>(s: seq<T>, key: T -> int, n: nat)
    ensures var r := TopDesc(s, key, n);
      forall y, z :: y in multiset(s) - multiset(r) && z in r ==> key(y) <= key(z)
  {
    var sorted := SortDesc(s, key);
    var r := TopDesc(s, key, n);
    var k := |r|;
    assert r == sorted[..k];
    assert sorted == r + sorted[k..];
    assert multiset(s) - multiset(r) == multiset(sorted[k..]);
    SortedSplit(sorted, key, k);
  }

  /** The top n rows are drawn from the rows. */
  lemma TopDescDrawn<T>(s: seq<T>, key: T -> int, n: nat)
    ensures multiset(TopDesc(s, key, n)) <= multiset(s)
  {
    var sorted := SortDesc(s, key);
    if n < |sorted| {
      assert sorted == sorted[..n] + sorted[n..];
      assert multiset(sorted) == multiset(sorted[..n]) + multiset(sorted[n..]);
    }
  }

  /**
   * The top-n rows: at most n, in order, drawn from the rows, as many as there
   * are up to n, and every row left out ranks no higher than every row shown.
   */
  lemma TopDescSpec<T>(s: seq<T>, key: T -> int, n: nat)
    ensures var r := TopDesc(s, key, n);
      && |r| == (if |s| <= n then |s| else n)
      && SortedDesc(r, key)
      && multiset(r) <= multiset(s)
      && forall y, z :: y in multiset(s) - multiset(r) && z in r ==> key(y) <= key(z)
  {
    TopDescDrawn(s, key, n);
    TopDescDominates(s, key, n);
  }
}
