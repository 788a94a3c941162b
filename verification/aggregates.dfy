/** The relational building blocks the analytics queries are made of: row filters
    (`WHERE`), the distinct values of a grouping column (`GROUP BY`), per-group
    `SUM`/`COUNT`/`AVG` that skip NULLs, and an ascending ordering of distinct keys. */
module Aggregates {
  import opened Wrappers

  predicate Distinct<K(==)>(s: seq<K>) {
    forall i, j :: 0 <= i < j < |s| ==> s[i] != s[j]
  }

  /** `xs` occurs in `ys` in the same order, possibly with rows of `ys` left out. */
  predicate SubsequenceOf<T(==)>(xs: seq<T>, ys: seq<T>)
    decreases |ys|
  {
    |xs| == 0 || (|ys| > 0 && ((xs[0] == ys[0] && SubsequenceOf(xs[1..], ys[1..])) || SubsequenceOf(xs, ys[1..])))
  }

  /** `WHERE p`: the rows satisfying `p`, in their original order. */
  function Filter<T(==,!new)>(xs: seq<T>, p: T -> bool): (r: seq<T>)
    ensures |r| <= |xs|
    ensures forall x :: x in r <==> x in xs && p(x)
    ensures forall i :: 0 <= i < |r| ==> p(r[i])
  {
    if |xs| == 0 then []
    else
      var rest := Filter(xs[1..], p);
      assert xs == [xs[0]] + xs[1..];
      if p(xs[0]) then [xs[0]] + rest else rest
  }

  /** Filtering keeps the surviving rows in their original order. */
  lemma {:induction false} FilterIsSubsequence<T(!new)>(xs: seq<T>, p: T -> bool)
    ensures SubsequenceOf(Filter(xs, p), xs)
  {
    if |xs| > 0 {
      FilterIsSubsequence(xs[1..], p);
      var rest := Filter(xs[1..], p);
      if p(xs[0]) {
        assert Filter(xs, p) == [xs[0]] + rest;
        assert ([xs[0]] + rest)[1..] == rest;
      } else {
        SubsequenceSkip(rest, xs);
      }
    }
  }

  /** Skipping the head of the longer sequence keeps a subsequence relation. */
  lemma SubsequenceSkip<T>(xs: seq<T>, ys: seq<T>)
    requires |ys| > 0
    requires SubsequenceOf(xs, ys[1..])
    ensures SubsequenceOf(xs, ys)
  {
  }

  /** A subsequence of a subsequence is a subsequence. */
  lemma {:induction false} SubsequenceTrans<T>(xs: seq<T>, ys: seq<T>, zs: seq<T>)
    requires SubsequenceOf(xs, ys) && SubsequenceOf(ys, zs)
    ensures SubsequenceOf(xs, zs)
    decreases |zs|
  {
    if |xs| > 0 {
      if ys[0] == zs[0] && SubsequenceOf(ys[1..], zs[1..]) {
        if xs[0] == ys[0] && SubsequenceOf(xs[1..], ys[1..]) {
          SubsequenceTrans(xs[1..], ys[1..], zs[1..]);
        } else {
          SubsequenceTrans(xs, ys[1..], zs[1..]);
        }
      } else {
        SubsequenceTrans(xs, ys, zs[1..]);
      }
    }
  }

  /** Filtering keeps exactly the rows satisfying `p`: a row value occurs as often in
      the result as it does among the rows of `xs` satisfying `p`. */
  lemma {:induction false} FilterCounts<T(!new)>(xs: seq<T>, p: T -> bool, x: T)
    ensures multiset(Filter(xs, p))[x] == if p(x) then multiset(xs)[x] else 0
  {
    if |xs| > 0 {
      FilterCounts(xs[1..], p, x);
      assert xs == [xs[0]] + xs[1..];
    }
  }

  /** `COUNT(*) ... WHERE p`: the number of rows satisfying `p`. */
  function CountWhere<T(==,!new)>(xs: seq<T>, p: T -> bool): nat {
    |Filter(xs, p)|
  }

  /** Filtering one more row at the end appends it exactly when it satisfies `p`. */
  lemma {:induction false} FilterAppend<T(!new)>(xs: seq<T>, x: T, p: T -> bool)
    ensures Filter(xs + [x], p) == Filter(xs, p) + (if p(x) then [x] else [])
  {
    if |xs| > 0 {
      assert (xs + [x])[1..] == xs[1..] + [x];
      FilterAppend(xs[1..], x, p);
    } else {
      assert xs + [x] == [x];
    }
  }

  /** The distinct values of `xs`, in order of first appearance. */
  function Keys<K(==,!new)>(xs: seq<K>): (r: seq<K>)
    ensures Distinct(r)
    ensures forall k :: k in r <==> k in xs
    ensures |r| <= |xs|
  {
    if |xs| == 0 then []
    else
      var init := Keys(xs[..|xs| - 1]);
      var last := xs[|xs| - 1];
      assert xs == xs[..|xs| - 1] + [last];
      if last in init then init else init + [last]
  }

  /** `SUM(v) ... GROUP BY k` restricted to the group `k`, over (key, value) rows. */
  function SumFor<K(==)>(xs: seq<(K, real)>, k: K): real {
    if |xs| == 0 then 0.0
    else SumFor(xs[..|xs| - 1], k) + (if xs[|xs| - 1].0 == k then xs[|xs| - 1].1 else 0.0)
  }

  /** `COUNT(v)` of the group `k`, over (key, value) rows. */
  function CountFor<K(==)>(xs: seq<(K, real)>, k: K): nat {
    if |xs| == 0 then 0
    else CountFor(xs[..|xs| - 1], k) + (if xs[|xs| - 1].0 == k then 1 else 0)
  }

  function Total<K>(xs: seq<(K, real)>): real {
    if |xs| == 0 then 0.0 else Total(xs[..|xs| - 1]) + xs[|xs| - 1].1
  }

  /** Group sums added up over a list of keys. */
  function SumOver<K(==)>(xs: seq<(K, real)>, ks: seq<K>): real {
    if |ks| == 0 then 0.0 else SumOver(xs, ks[..|ks| - 1]) + SumFor(xs, ks[|ks| - 1])
  }

  /** `SUM` of a group: NULL when the group holds no non-NULL value. */
  function SqlSum<K(==)>(xs: seq<(K, real)>, k: K): (r: Option<real>)
    ensures r.None? <==> CountFor(xs, k) == 0
  {
    if CountFor(xs, k) == 0 then None else Some(SumFor(xs, k))
  }

  /** `AVG` of a group: NULL when the group holds no non-NULL value. */
  function SqlAvg<K(==)>(xs: seq<(K, real)>, k: K): (r: Option<real>)
    ensures r.None? <==> CountFor(xs, k) == 0
  {
    if CountFor(xs, k) == 0 then None else Some(SumFor(xs, k) / (CountFor(xs, k) as real))
  }

  /** A key absent from the rows contributes nothing to a sum. */
  lemma {:induction false} EmptyGroupSum<K>(xs: seq<(K, real)>, k: K)
    requires CountFor(xs, k) == 0
    ensures SumFor(xs, k) == 0.0
  {
    if |xs| > 0 {
      EmptyGroupSum(xs[..|xs| - 1], k);
    }
  }

  /** Appending one row adds its value to the group sums exactly once when its key is listed. */
  lemma {:induction false} SumOverAppend<K>(xs: seq<(K, real)>, e: (K, real), ks: seq<K>)
    requires Distinct(ks)
    ensures SumOver(xs + [e], ks) == SumOver(xs, ks) + (if e.0 in ks then e.1 else 0.0)
  {
    var ys := xs + [e];
    assert ys[..|ys| - 1] == xs;
    if |ks| > 0 {
      var init := ks[..|ks| - 1];
      SumOverAppend(xs, e, init);
      assert e.0 in ks <==> e.0 in init || e.0 == ks[|ks| - 1];
      assert ks[|ks| - 1] !in init;
    }
  }

  /** Adding up the groups of every key that occurs gives the grand total: grouping
      neither loses nor double-counts a row. */
  lemma {:induction false} GroupSumsAddUp<K>(xs: seq<(K, real)>, ks: seq<K>)
    requires Distinct(ks)
    requires forall i :: 0 <= i < |xs| ==> xs[i].0 in ks
    ensures SumOver(xs, ks) == Total(xs)
  {
    if |xs| == 0 {
      ZeroSumOver(xs, ks);
    } else {
      var init := xs[..|xs| - 1];
      assert xs == init + [xs[|xs| - 1]];
      GroupSumsAddUp(init, ks);
      SumOverAppend(init, xs[|xs| - 1], ks);
    }
  }

  lemma {:induction false} ZeroSumOver<K>(xs: seq<(K, real)>, ks: seq<K>)
    requires |xs| == 0
    ensures SumOver(xs, ks) == 0.0
  {
    if |ks| > 0 {
      ZeroSumOver(xs, ks[..|ks| - 1]);
    }
  }

  /** A group of values each strictly between 0 and 100 sums to strictly between 0 and
      100 times its size. */
  lemma {:induction false} GroupSumBounds<K>(xs: seq<(K, real)>, k: K)
    requires forall i :: 0 <= i < |xs| ==> 0.0 < xs[i].1 < 100.0
    ensures CountFor(xs, k) > 0 ==> 0.0 < SumFor(xs, k) < 100.0 * (CountFor(xs, k) as real)
    ensures CountFor(xs, k) == 0 ==> SumFor(xs, k) == 0.0
  {
    if |xs| > 0 {
      var init, last := xs[..|xs| - 1], xs[|xs| - 1];
      assert forall i :: 0 <= i < |init| ==> init[i] == xs[i];
      GroupSumBounds(init, k);
      var n, sum := CountFor(init, k), SumFor(init, k);
      if last.0 == k {
        assert CountFor(xs, k) == n + 1 && SumFor(xs, k) == sum + last.1;
        assert 0.0 < last.1 < 100.0;
        assert 100.0 * (CountFor(xs, k) as real) == 100.0 * (n as real) + 100.0;
      } else {
        assert CountFor(xs, k) == n && SumFor(xs, k) == sum;
      }
    }
  }

  /** A quotient of a value strictly between 0 and 100·n by n > 0 lies strictly between 0 and 100. */
  lemma QuotientBetween(s: real, n: real)
    requires n > 0.0 && 0.0 < s < 100.0 * n
    ensures 0.0 < s / n < 100.0
  {
    var q := s / n;
    assert q * n == s;
    assert (100.0 - q) * n == 100.0 * n - s;
    assert q > 0.0 by {
      assert s / n > 0.0 / n;
    }
    assert q < 100.0 by {
      assert (100.0 * n) / n == 100.0;
      assert s / n < (100.0 * n) / n;
    }
  }

  /** An average of values each strictly between 0 and 100 lies strictly between them too. */
  lemma AverageWithin<K>(xs: seq<(K, real)>, k: K)
    requires forall i :: 0 <= i < |xs| ==> 0.0 < xs[i].1 < 100.0
    requires CountFor(xs, k) > 0
    ensures 0.0 < SqlAvg(xs, k).value < 100.0
  {
    GroupSumBounds(xs, k);
    var n, sum := CountFor(xs, k) as real, SumFor(xs, k);
    assert SqlAvg(xs, k) == Some(sum / n);
    QuotientBetween(sum, n);
  }

  predicate StrictlyIncreasing(s: seq<int>) {
    forall i, j :: 0 <= i < j < |s| ==> s[i] < s[j]
  }

  function InsertAscending(x: int, s: seq<int>): (r: seq<int>)
    requires StrictlyIncreasing(s)
    ensures StrictlyIncreasing(r)
    ensures forall y :: y in r <==> y == x || y in s
  {
    if |s| == 0 then [x]
    else if x < s[0] then [x] + s
    else if x == s[0] then s
    else
      var rest := InsertAscending(x, s[1..]);
      assert forall y :: y in s <==> y == s[0] || y in s[1..];
      assert forall k :: 0 <= k < |rest| ==> s[0] < rest[k] by {
        forall k | 0 <= k < |rest| ensures s[0] < rest[k] {
          assert rest[k] in rest;
        }
      }
      [s[0]] + rest
  }

  /** The distinct values of `xs` in ascending order (`ORDER BY` on a grouping key, or the
      sorted key union of a pandas outer merge). */
  function SortedDistinct(xs: seq<int>): (r: seq<int>)
    ensures StrictlyIncreasing(r)
    ensures forall y :: y in r <==> y in xs
  {
    if |xs| == 0 then []
    else
      var rest := SortedDistinct(xs[1..]);
      assert forall y :: y in xs <==> y == xs[0] || y in xs[1..];
      InsertAscending(xs[0], rest)
  }

  /** A strictly increasing sequence has no repeated element. */
  lemma IncreasingIsDistinct(s: seq<int>)
    requires StrictlyIncreasing(s)
    ensures Distinct(s)
  {
  }
}
