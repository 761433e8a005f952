/** The Pareto curve over product revenue: why the first k products in rank are the best k. */
module Concentration {
  import opened Collections
  import opened SortedSets
  import T = Tallies

  /** The scores of the k highest-ranked members. */
  function TopSum(z: ZSet, k: nat): int
    requires k <= |z|
    decreases k
  {
    if k == 0 then 0
    else
      var m := Highest(z);
      assert (z - {m}).Keys == z.Keys - {m};
      z[m] + TopSum(z - {m}, k - 1)
  }

  lemma HighestScores(z: ZSet, x: string)
    requires x in z
    ensures z[x] <= z[Highest(z)]
  {}

  lemma TakeOne(z: ZSet, t: ZSet, m: string, x: string)
    requires SubMap(t, z) && m in z && x in t && (m in t ==> x == m)
    ensures SubMap(t - {x}, z - {m}) && |t - {x}| == |t| - 1 && |z - {m}| == |z| - 1
    ensures T.Total(t) == z[x] + T.Total(t - {x})
  {
    assert (t - {x}).Keys == t.Keys - {x} && (z - {m}).Keys == z.Keys - {m};
    T.TotalRemove(t, x);
  }

  /** No choice of k members scores more than the k highest-ranked. */
  lemma {:induction false} TopSumIsBest(z: ZSet, t: ZSet)
    requires SubMap(t, z)
    ensures |t| <= |z| && T.Total(t) <= TopSum(z, |t|)
    decreases |t|
  {
    hide T.Total;
    SubsetSize(t.Keys, z.Keys);
    if t == map[] {
      NoTotal();
    } else {
      var m := Highest(z);
      var x := if m in t then m else Highest(t);
      TakeOne(z, t, m, x);
      HighestScores(z, x);
      TopSumIsBest(z - {m}, t - {x});
    }
  }

  lemma NoTotal()
    ensures T.Total(map[]) == 0
  {}

  /** The k highest-ranked members themselves reach that sum. */
  lemma {:induction false} BestChoice(z: ZSet, k: nat) returns (t: ZSet)
    requires k <= |z|
    ensures SubMap(t, z) && |t| == k && T.Total(t) == TopSum(z, k)
    decreases k
  {
    if k == 0 {
      t := map[];
    } else {
      var m := Highest(z);
      assert (z - {m}).Keys == z.Keys - {m};
      var s := BestChoice(z - {m}, k - 1);
      PutBack(z, m, s);
      t := s[m := z[m]];
    }
  }

  lemma PutOne(s: ZSet, m: string, v: int)
    requires m !in s
    ensures |s[m := v]| == |s| + 1 && T.Total(s[m := v]) == v + T.Total(s)
  {
    hide T.Total;
    var t := s[m := v];
    assert t.Keys == s.Keys + {m} && t - {m} == s;
    T.TotalRemove(t, m);
  }

  lemma PutBack(z: ZSet, m: string, s: ZSet)
    requires m in z && SubMap(s, z - {m})
    ensures var t := s[m := z[m]];
            SubMap(t, z) && |t| == |s| + 1 && T.Total(t) == z[m] + T.Total(s)
  {
    hide T.Total;
    assert m !in s by { assert m !in z - {m}; }
    PutOne(s, m, z[m]);
  }

  /** The last point of the curve is the total. */
  lemma {:induction false} TopSumOfAll(z: ZSet)
    ensures TopSum(z, |z|) == T.Total(z)
    decreases |z|
  {
    if z != map[] {
      var m := Highest(z);
      assert (z - {m}).Keys == z.Keys - {m};
      TopSumOfAll(z - {m});
    }
  }

  predicate NonNegative(z: ZSet) {
    forall m | m in z :: z[m] >= 0
  }

  /** With no negative revenue the curve does not fall. */
  lemma {:induction false} TopSumIsMonotone(z: ZSet, j: nat, k: nat)
    requires j <= k <= |z| && NonNegative(z)
    ensures 0 <= TopSum(z, j) <= TopSum(z, k)
    decreases j + k
  {
    if k > 0 {
      var m := Highest(z);
      assert (z - {m}).Keys == z.Keys - {m};
      if j == 0 {
        TopSumIsMonotone(z - {m}, 0, k - 1);
      } else {
        TopSumIsMonotone(z - {m}, j - 1, k - 1);
      }
    }
  }

  lemma {:induction false} TotalAtMost(z: ZSet, bound: int)
    requires forall m | m in z :: z[m] <= bound
    ensures T.Total(z) <= bound * |z|
    decreases |z|
  {
    if z != map[] {
      var m := Highest(z);
      var rest := z - {m};
      assert rest.Keys == z.Keys - {m};
      TotalAtMost(rest, bound);
      var n, total := |rest|, T.Total(rest);
      assert T.Total(z) == z[m] + total;
      OneMore(bound, n);
    }
  }

  lemma OneMore(bound: int, n: nat)
    ensures bound * (n + 1) == bound * n + bound
  {}

  /**
    The k best of n products hold at least the share k/n: cum / total >= k / n, cross-multiplied.
    It needs no sign condition.
  */
  lemma {:induction false} ShareIsAtLeastUniform(z: ZSet, k: nat)
    requires k <= |z|
    ensures TopSum(z, k) * |z| >= T.Total(z) * k
    decreases k
  {
    if k == |z| {
      TopSumOfAll(z);
    } else if k > 0 {
      var m := Highest(z);
      var rest := z - {m};
      var n, v, s, t := |z|, z[m], TopSum(rest, k - 1), T.Total(rest);
      assert rest.Keys == z.Keys - {m};
      ShareIsAtLeastUniform(rest, k - 1);
      forall x | x in rest ensures rest[x] <= v { HighestScores(z, x); }
      TotalAtMost(rest, v);
      assert t <= v * (n - 1) && s * (n - 1) >= t * (k - 1);
      AddOne(n, k, v, s, t);
    }
  }

  lemma AddOne(n: int, k: int, v: int, s: int, t: int)
    requires 1 <= k <= n && n > 1
    requires t <= v * (n - 1) && s * (n - 1) >= t * (k - 1)
    ensures (v + s) * n >= (v + t) * k
  {
    var a, b := n - 1, k - 1;
    Scale(v * a, t, a - b);
    Expand(a, b, v, s, t);
    var e := s - t + v * (a - b);
    assert a * e >= 0;
    if e < 0 { Scale(-1, e, a); }
  }

  lemma Expand(a: int, b: int, v: int, s: int, t: int)
    ensures a * (s - t + v * (a - b)) == s * a - t * b - t * (a - b) + v * a * (a - b)
    ensures (v + s) * (a + 1) - (v + t) * (b + 1) == s - t + v * (a - b) + (s * a - t * b)
  {
    var d := a - b;
    assert a * (s - t + v * d) == a * s - a * t + a * (v * d);
    assert a * (v * d) == v * a * d;
    assert t * d == t * a - t * b && v * d == v * a - v * b;
  }

  lemma Scale(a: int, b: int, c: int)
    requires a >= b && c >= 0
    ensures a * c >= b * c
  {}

  // --- the sum of a ranked listing ---

  lemma ListedAreMembers(z: ZSet, m: string, t: seq<string>)
    requires m in z && t <= RevRange(z - {m})
    ensures forall x | x in t :: Score(z, x) == Score(z - {m}, x)
  {
    RevRangeIsDescending(z - {m});
    forall x | x in t
      ensures x in z - {m}
    {
      assert x in RevRange(z - {m}) && x in (set y | y in RevRange(z - {m}));
    }
  }

  lemma ListingHead(z: ZSet, k: nat)
    requires 0 < k <= |z| && |RevRange(z)| == |z| && |RevRange(z - {Highest(z)})| == |z| - 1
    ensures RevRange(z)[..k] == [Highest(z)] + RevRange(z - {Highest(z)})[..k - 1]
  {}

  lemma SumCons(m: string, t: seq<string>, f: string -> int)
    ensures T.Sum([m] + t, f) == f(m) + T.Sum(t, f)
  {
    T.SumAppend([m], t, f);
    T.SumSnoc([], m, f);
    assert [] + [m] == [m];
  }

  lemma NoneListed(z: ZSet)
    ensures T.Sum(RevRange(z)[..0], m => Score(z, m)) == 0 == TopSum(z, 0)
  {}

  lemma TopSumStep(z: ZSet, k: nat)
    requires 0 < k <= |z|
    ensures |z - {Highest(z)}| == |z| - 1
    ensures TopSum(z, k) == Score(z, Highest(z)) + TopSum(z - {Highest(z)}, k - 1)
  {
    var m := Highest(z);
    assert (z - {m}).Keys == z.Keys - {m};
  }

  /** Adding up the first k entries of a ranked listing. */
  lemma {:induction false} ListingSum(z: ZSet, k: nat)
    requires k <= |z|
    ensures |RevRange(z)| == |z|
    ensures T.Sum(RevRange(z)[..k], m => Score(z, m)) == TopSum(z, k)
    decreases k
  {
    hide RevRange, T.Sum, TopSum, IsDescending;
    RevRangeIsDescending(z);
    if k == 0 {
      NoneListed(z);
    } else {
      var m := Highest(z);
      var rest := z - {m};
      assert rest.Keys == z.Keys - {m};
      RevRangeIsDescending(rest);
      ListingSum(rest, k - 1);
      ListingHead(z, k);
      var t := RevRange(rest)[..k - 1];
      SumCons(m, t, x => Score(z, x));
      ListedAreMembers(z, m, t);
      T.SumEqual(t, x => Score(z, x), x => Score(rest, x));
      TopSumStep(z, k);
    }
  }
}
