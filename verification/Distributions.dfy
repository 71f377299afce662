/** Summaries of a bag of numbers: the mean, and percentiles by nearest rank. */
module Distributions {
  import RealFacts
  import opened Sorting

  datatype Distribution = Distribution(n: nat, mean: real, p50: real, p95: real, p99: real)

  // ----- Sorting -----

  predicate AtOrBelow(x: real, y: real) { x <= y }

  function Ascending(xs: seq<real>): (s: seq<real>)
    ensures |s| == |xs|
  {
    SortKeeps(AtOrBelow, xs);
    Sort(AtOrBelow, xs)
  }

  /** How many of the numbers are at most `x`. */
  function AtMost(xs: seq<real>, x: real): nat {
    if xs == [] then 0 else (if xs[0] <= x then 1 else 0) + AtMost(xs[1..], x)
  }

  lemma {:induction false} InsertCounts(y: real, xs: seq<real>, x: real)
    ensures AtMost(Insert(AtOrBelow, y, xs), x) == AtMost(xs, x) + if y <= x then 1 else 0
  {
    if xs == [] || y <= xs[0] {
      assert ([y] + xs)[1..] == xs;
    } else {
      InsertCounts(y, xs[1..], x);
      assert Insert(AtOrBelow, y, xs)[1..] == Insert(AtOrBelow, y, xs[1..]);
    }
  }

  lemma {:induction false} SortCounts(xs: seq<real>, x: real)
    ensures AtMost(Sort(AtOrBelow, xs), x) == AtMost(xs, x)
  {
    if xs == [] {
    } else {
      SortCounts(xs[1..], x);
      InsertCounts(xs[0], Sort(AtOrBelow, xs[1..]), x);
    }
  }

  /** Sorting orders the numbers and keeps them. */
  lemma AscendingFacts(xs: seq<real>, x: real)
    ensures Sorted(AtOrBelow, Ascending(xs)) && multiset(Ascending(xs)) == multiset(xs)
    ensures AtMost(Ascending(xs), x) == AtMost(xs, x)
  {
    SortSorted(AtOrBelow, xs);
    SortKeeps(AtOrBelow, xs);
    SortCounts(xs, x);
  }

  // ----- Percentiles -----

  function Ceiling(x: real): int { -((-x).Floor) }

  function Fraction(q: real, n: nat): real { q * n as real }

  /** The position of the `q`-th fraction among `n` sorted numbers. */
  function Rank(q: real, n: nat): nat
    requires n > 0
  {
    var k := Ceiling(Fraction(q, n)) - 1;
    if k < 0 then 0 else if k < n then k else n - 1
  }

  lemma FractionWithin(q: real, n: nat)
    requires n > 0 && 0.0 < q <= 1.0
    ensures 0.0 < Fraction(q, n) <= n as real
  {
    RealFacts.ProductPositive(q, n as real);
    RealFacts.ScaleOrder(q, 1.0, n as real);
  }

  lemma FractionGrows(q: real, r: real, n: nat)
    requires q <= r
    ensures Fraction(q, n) <= Fraction(r, n)
  {
    RealFacts.ScaleOrder(q, r, n as real);
  }

  /** No clipping from above: the position is always within the numbers. */
  lemma RankWithin(q: real, n: nat)
    requires n > 0 && 0.0 < q <= 1.0
    ensures Rank(q, n) < n && Rank(q, n) as real < Fraction(q, n) <= (Rank(q, n) + 1) as real
  {
    FractionWithin(q, n);
    CeilingWithin(Fraction(q, n), n);
  }

  lemma CeilingWithin(x: real, n: nat)
    requires 0.0 < x <= n as real
    ensures 0 < Ceiling(x) <= n && (Ceiling(x) - 1) as real < x <= Ceiling(x) as real
  {
  }

  /** Zero if there are no numbers. */
  function Percentile(xs: seq<real>, q: real): real {
    if xs == [] then 0.0 else Ascending(xs)[Rank(q, |xs|)]
  }

  lemma {:induction false} PrefixAtMost(s: seq<real>, k: nat)
    requires Sorted(AtOrBelow, s) && k < |s|
    ensures AtMost(s, s[k]) >= k + 1
  {
    if k == 0 {
    } else {
      assert Sorted(AtOrBelow, s[1..]) && s[1..][k - 1] == s[k] && AtOrBelow(s[0], s[k]);
      PrefixAtMost(s[1..], k - 1);
    }
  }

  lemma {:induction false} NoneAtMost(s: seq<real>, w: real)
    requires forall i | 0 <= i < |s| :: s[i] > w
    ensures AtMost(s, w) == 0
  {
    if s == [] {
    } else {
      NoneAtMost(s[1..], w);
    }
  }

  lemma {:induction false} BelowAtMost(s: seq<real>, k: nat, w: real)
    requires Sorted(AtOrBelow, s) && k < |s| && w < s[k]
    ensures AtMost(s, w) <= k
  {
    if k == 0 {
      forall j | 0 <= j < |s| ensures s[j] > w {
        if j > 0 { assert AtOrBelow(s[0], s[j]); }
      }
      NoneAtMost(s, w);
    } else {
      assert Sorted(AtOrBelow, s[1..]) && s[1..][k - 1] == s[k];
      BelowAtMost(s[1..], k - 1, w);
    }
  }

  ghost predicate Below(xs: seq<real>, q: real, w: real) {
    AtMost(xs, w) as real < Fraction(q, |xs|)
  }

  /** `v` is the least of the numbers that at least the fraction `q` of them do not exceed. */
  ghost predicate IsNearestRank(xs: seq<real>, q: real, v: real) {
    v in xs && !Below(xs, q, v) && forall w: real | w < v :: Below(xs, q, w)
  }

  lemma RankReaches(xs: seq<real>, q: real, k: nat)
    requires xs != [] && 0.0 < q <= 1.0 && k == Rank(q, |xs|)
    ensures k < |xs| && !Below(xs, q, Ascending(xs)[k])
  {
    RankWithin(q, |xs|);
    AscendingFacts(xs, Ascending(xs)[k]);
    PrefixAtMost(Ascending(xs), k);
  }

  lemma NothingLower(xs: seq<real>, q: real, k: nat, w: real)
    requires xs != [] && 0.0 < q <= 1.0 && k == Rank(q, |xs|) && k < |xs| && w < Ascending(xs)[k]
    ensures Below(xs, q, w)
  {
    RankWithin(q, |xs|);
    AscendingFacts(xs, w);
    BelowAtMost(Ascending(xs), k, w);
  }

  lemma PercentileIsNearestRank(xs: seq<real>, q: real)
    requires xs != [] && 0.0 < q <= 1.0
    ensures IsNearestRank(xs, q, Percentile(xs, q))
  {
    var k := Rank(q, |xs|);
    RankReaches(xs, q, k);
    var v := Ascending(xs)[k];
    AscendingFacts(xs, v);
    assert v in multiset(Ascending(xs));
    forall w: real | w < v ensures Below(xs, q, w) {
      NothingLower(xs, q, k, w);
    }
  }

  /** There is only one such number, so the order of the numbers does not matter. */
  lemma NearestRankUnique(xs: seq<real>, q: real, v: real, w: real)
    requires IsNearestRank(xs, q, v) && IsNearestRank(xs, q, w)
    ensures v == w
  {
  }

  lemma PercentilesAscend(xs: seq<real>, q: real, r: real)
    requires 0.0 < q <= r <= 1.0
    ensures Percentile(xs, q) <= Percentile(xs, r)
  {
    if xs == [] {
    } else {
      var v, w := Percentile(xs, q), Percentile(xs, r);
      PercentileIsNearestRank(xs, q);
      PercentileIsNearestRank(xs, r);
      FractionGrows(q, r, |xs|);
      assert w < v ==> Below(xs, q, w);
    }
  }

  // ----- Means -----

  function Sum(xs: seq<real>): real { if xs == [] then 0.0 else xs[0] + Sum(xs[1..]) }

  /** Zero if there are no numbers. */
  function Mean(xs: seq<real>): real {
    if xs == [] then 0.0 else RealFacts.Quotient(Sum(xs), |xs| as real)
  }

  lemma {:induction false} SumWithin(xs: seq<real>, low: real, high: real)
    requires forall i | 0 <= i < |xs| :: low <= xs[i] <= high
    ensures Fraction(low, |xs|) <= Sum(xs) <= Fraction(high, |xs|)
  {
    if xs == [] {
    } else {
      SumWithin(xs[1..], low, high);
      FractionStep(low, |xs| - 1);
      FractionStep(high, |xs| - 1);
    }
  }

  lemma FractionStep(q: real, n: nat)
    ensures Fraction(q, n + 1) == Fraction(q, n) + q
  {
  }

  /** The mean lies between any bounds of the numbers. */
  lemma MeanWithin(xs: seq<real>, low: real, high: real)
    requires xs != [] && forall i | 0 <= i < |xs| :: low <= xs[i] <= high
    ensures low <= Mean(xs) <= high
  {
    SumWithin(xs, low, high);
    QuotientWithin(Sum(xs), |xs|, low, high);
  }

  lemma QuotientWithin(a: real, n: nat, low: real, high: real)
    requires n > 0 && Fraction(low, n) <= a <= Fraction(high, n)
    ensures low <= RealFacts.Quotient(a, n as real) <= high
  {
    var d, m := n as real, RealFacts.Quotient(a, n as real);
    RealFacts.DivideBack(a, d);
    if m < low { RealFacts.ProductPositive(low - m, d); RealFacts.Distribute(d, low, m); }
    if m > high { RealFacts.ProductPositive(m - high, d); RealFacts.Distribute(d, m, high); }
  }

  function DistributionOf(xs: seq<real>): Distribution {
    Distribution(|xs|, Mean(xs), Percentile(xs, 0.5), Percentile(xs, 0.95), Percentile(xs, 0.99))
  }

  /** The three percentiles are the nearest ranks, in order. */
  lemma DistributionIsRight(xs: seq<real>)
    requires xs != []
    ensures var d := DistributionOf(xs);
      && IsNearestRank(xs, 0.5, d.p50) && IsNearestRank(xs, 0.95, d.p95) && IsNearestRank(xs, 0.99, d.p99)
      && d.p50 <= d.p95 <= d.p99
  {
    PercentileIsNearestRank(xs, 0.5);
    PercentileIsNearestRank(xs, 0.95);
    PercentileIsNearestRank(xs, 0.99);
    PercentilesAscend(xs, 0.5, 0.95);
    PercentilesAscend(xs, 0.95, 0.99);
  }
}
