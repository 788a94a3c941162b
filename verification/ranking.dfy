/** `SELECT key, count(*) ... GROUP BY key ORDER BY count DESC LIMIT n`: the n most
    frequent values of an integer column together with their frequencies. SQL leaves
    the order of equal counts open; this model breaks ties by ascending key. */
module Ranking {
  import opened Aggregates

  datatype Tally = Tally(key: int, count: nat)

  /** `a` is listed before `b`: a larger count, or an equal count and a smaller key. */
  predicate Outranks(a: Tally, b: Tally) {
    a.count > b.count || (a.count == b.count && a.key < b.key)
  }

  predicate Ranked(s: seq<Tally>) {
    forall i, j :: 0 <= i < j < |s| ==> Outranks(s[i], s[j])
  }

  /** The key column of a tally list. */
  function KeysOf(s: seq<Tally>): seq<int>
  {
    seq(|s|, i requires 0 <= i < |s| => s[i].key)
  }

  predicate DistinctKeys(s: seq<Tally>) {
    forall i, j :: 0 <= i < j < |s| ==> s[i].key != s[j].key
  }

  lemma PrependRanked(a: Tally, s: seq<Tally>)
    requires Ranked(s)
    requires forall y :: y in s ==> Outranks(a, y)
    ensures Ranked([a] + s)
  {
    var r := [a] + s;
    forall i, j | 0 <= i < j < |r| ensures Outranks(r[i], r[j]) {
      assert r[j] == s[j - 1];
      if i > 0 {
        assert r[i] == s[i - 1];
      }
    }
  }

  function InsertRanked(x: Tally, s: seq<Tally>): (r: seq<Tally>)
    requires Ranked(s)
    requires forall i :: 0 <= i < |s| ==> s[i].key != x.key
    ensures Ranked(r)
    ensures multiset(r) == multiset(s) + multiset{x}
  {
    if |s| == 0 then [x]
    else if Outranks(x, s[0]) then
      PrependRanked(x, s);
      [x] + s
    else
      RankedTail(x, s);
      var rest := InsertRanked(x, s[1..]);
      HeadStaysFirst(x, s, rest);
      [s[0]] + rest
  }

  /** The tail of a ranked list is ranked, ranks below its head, and still lacks `x`'s key. */
  lemma RankedTail(x: Tally, s: seq<Tally>)
    requires Ranked(s) && |s| > 0
    requires forall i :: 0 <= i < |s| ==> s[i].key != x.key
    ensures Ranked(s[1..])
    ensures forall i :: 0 <= i < |s[1..]| ==> s[1..][i].key != x.key
    ensures forall y :: y in s[1..] ==> Outranks(s[0], y)
  {
    assert forall i :: 0 <= i < |s[1..]| ==> s[1..][i] == s[i + 1];
  }

  /** When `x` does not outrank the head, the head stays in front of `x` inserted into the tail. */
  lemma HeadStaysFirst(x: Tally, s: seq<Tally>, rest: seq<Tally>)
    requires |s| > 0 && !Outranks(x, s[0]) && s[0].key != x.key
    requires forall y :: y in s[1..] ==> Outranks(s[0], y)
    requires Ranked(rest) && multiset(rest) == multiset(s[1..]) + multiset{x}
    ensures Ranked([s[0]] + rest)
    ensures multiset([s[0]] + rest) == multiset(s) + multiset{x}
  {
    assert s == [s[0]] + s[1..];
    forall y | y in rest ensures Outranks(s[0], y) {
      assert y in multiset(rest);
      if y != x {
        assert y in multiset(s[1..]);
      }
    }
    PrependRanked(s[0], rest);
  }

  /** Insertion sort into ranking order. */
  function SortRanked(s: seq<Tally>): (r: seq<Tally>)
    requires DistinctKeys(s)
    ensures Ranked(r)
    ensures multiset(r) == multiset(s)
  {
    if |s| == 0 then []
    else
      DistinctTail(s);
      var rest := SortRanked(s[1..]);
      HeadKeyFresh(s, rest);
      InsertRanked(s[0], rest)
  }

  /** The tail of a list with distinct keys has distinct keys, none of them the head's. */
  lemma DistinctTail(s: seq<Tally>)
    requires DistinctKeys(s) && |s| > 0
    ensures DistinctKeys(s[1..])
    ensures multiset(s) == multiset(s[1..]) + multiset{s[0]}
    ensures forall y :: y in s[1..] ==> y.key != s[0].key
  {
    assert s == [s[0]] + s[1..];
    assert forall i :: 0 <= i < |s[1..]| ==> s[1..][i] == s[i + 1];
  }

  /** A permutation of the tail still lacks the head's key. */
  lemma HeadKeyFresh(s: seq<Tally>, rest: seq<Tally>)
    requires |s| > 0 && multiset(rest) == multiset(s[1..])
    requires forall y :: y in s[1..] ==> y.key != s[0].key
    ensures forall i :: 0 <= i < |rest| ==> rest[i].key != s[0].key
  {
    forall i | 0 <= i < |rest| ensures rest[i].key != s[0].key {
      assert rest[i] in multiset(s[1..]);
    }
  }

  /** `GROUP BY key` with `count(*)`: one tally per distinct value of `xs`. */
  function TallyOf(xs: seq<int>): (r: seq<Tally>)
    ensures DistinctKeys(r)
    ensures forall t :: t in r ==> t.key in xs && t.count == multiset(xs)[t.key]
    ensures forall k :: k in xs ==> Tally(k, multiset(xs)[k]) in r
  {
    var ks := Keys(xs);
    var r := seq(|ks|, i requires 0 <= i < |ks| => Tally(ks[i], multiset(xs)[ks[i]]));
    assert forall k :: k in xs ==> exists i :: 0 <= i < |ks| && ks[i] == k && r[i] == Tally(k, multiset(xs)[k]);
    r
  }

  function Min(a: nat, b: nat): nat {
    if a <= b then a else b
  }

  /** A tally left out of a ranked prefix sits after it, so it ranks no higher than the prefix's last row. */
  lemma OmittedRanksBelow(sorted: seq<Tally>, m: nat, t: Tally)
    requires Ranked(sorted)
    requires m <= |sorted|
    requires t in sorted
    requires forall i :: 0 <= i < m ==> sorted[i].key != t.key
    ensures m < |sorted|
    ensures m > 0 ==> t.count <= sorted[m - 1].count
  {
    var j :| 0 <= j < |sorted| && sorted[j] == t;
    assert j >= m;
    if m > 0 && j > m - 1 {
      assert Outranks(sorted[m - 1], sorted[j]);
    }
  }

  lemma RankedPrefix(s: seq<Tally>, m: nat)
    requires Ranked(s)
    requires m <= |s|
    ensures Ranked(s[..m])
    ensures forall i, j :: 0 <= i < j < m ==> s[i].count >= s[j].count
  {
    assert forall i :: 0 <= i < m ==> s[..m][i] == s[i];
  }

  lemma TopNOmits(xs: seq<int>, tallies: seq<Tally>, sorted: seq<Tally>, n: nat, k: int)
    requires tallies == TallyOf(xs)
    requires Ranked(sorted) && multiset(sorted) == multiset(tallies)
    requires k in xs
    requires k !in KeysOf(sorted[..Min(n, |sorted|)])
    ensures n < |sorted|
    ensures n > 0 ==> multiset(xs)[k] <= sorted[n - 1].count
  {
    var t := Tally(k, multiset(xs)[k]);
    var m := Min(n, |sorted|);
    assert t in tallies;
    assert t in multiset(sorted);
    assert forall i :: 0 <= i < m ==> sorted[i].key == KeysOf(sorted[..m])[i];
    OmittedRanksBelow(sorted, Min(n, |sorted|), t);
  }

  /** The `n` most frequent values of `xs` with their counts, most frequent first. */
  function TopN(xs: seq<int>, n: nat): (r: seq<Tally>)
    ensures |r| <= n
    ensures Ranked(r)
    ensures forall i, j :: 0 <= i < j < |r| ==> r[i].count >= r[j].count
    ensures forall i :: 0 <= i < |r| ==> r[i].key in xs && r[i].count == multiset(xs)[r[i].key] > 0
    ensures forall k :: k in xs && k !in KeysOf(r) ==> |r| == n && (n > 0 ==> multiset(xs)[k] <= r[n - 1].count)
  {
    var sorted := SortRanked(TallyOf(xs));
    TopPrefix(xs, sorted, n);
    sorted[..Min(n, |sorted|)]
  }

  /** The first `n` rows of the ranked tallies keep the ranking, carry true counts, and
      leave out only values counted no more often than the last row kept. */
  lemma TopPrefix(xs: seq<int>, sorted: seq<Tally>, n: nat)
    requires Ranked(sorted) && multiset(sorted) == multiset(TallyOf(xs))
    ensures var r := sorted[..Min(n, |sorted|)];
      && Ranked(r)
      && (forall i, j :: 0 <= i < j < |r| ==> r[i].count >= r[j].count)
      && (forall i :: 0 <= i < |r| ==> r[i].key in xs && r[i].count == multiset(xs)[r[i].key] > 0)
      && (forall k :: k in xs && k !in KeysOf(r) ==> |r| == n && (n > 0 ==> multiset(xs)[k] <= r[n - 1].count))
  {
    var tallies := TallyOf(xs);
    var m := Min(n, |sorted|);
    var r := sorted[..m];
    RankedPrefix(sorted, m);
    forall i | 0 <= i < |r| ensures r[i].key in xs && r[i].count == multiset(xs)[r[i].key] > 0 {
      assert r[i] in multiset(sorted);
    }
    forall k | k in xs && k !in KeysOf(r)
      ensures |r| == n && (n > 0 ==> multiset(xs)[k] <= r[n - 1].count)
    {
      assert forall i :: 0 <= i < m ==> sorted[i].key == KeysOf(r)[i];
      TopNOmits(xs, tallies, sorted, n, k);
      assert m == n;
    }
  }
}
