/** Bootstrap percentile intervals, over every resampling outcome. */
module Bootstrap {
  import opened Values
  import opened Numbers
  import opened Sorting

  datatype BootstrapCI = BootstrapCI(mean: real, lower: real, upper: real)

  function Clamp(i: int, n: int): (k: int)
    ensures n >= 1 ==> 0 <= k < n
  {
    var low := if i < n - 1 then i else n - 1;
    if low > 0 then low else 0
  }

  function Ceil(x: real): int { -((-x).Floor) }

  /** `int(x)` truncates toward zero. */
  function Truncate(x: real): int { if x < 0.0 then Ceil(x) else x.Floor }

  function Alpha(ci: real): real { (1.0 - ci) / 2.0 }

  function LowerCut(ci: real, n: int): real { Alpha(ci) * n as real }

  function UpperCut(ci: real, n: int): real { (1.0 - Alpha(ci)) * n as real }

  function LowerIndex(ci: real, n: int): int { Clamp(Truncate(LowerCut(ci, n)), n) }

  function UpperIndex(ci: real, n: int): int { Clamp(Ceil(UpperCut(ci, n)) - 1, n) }

  function Identity(): real -> real { (x: real) => x }

  function Means(resamples: seq<seq<real>>): seq<real>
    requires forall k :: 0 <= k < |resamples| ==> resamples[k] != []
  {
    if resamples == [] then []
    else Means(resamples[..|resamples| - 1]) + [Mean(resamples[|resamples| - 1])]
  }

  lemma {:induction false} MeansAt(resamples: seq<seq<real>>)
    requires forall k :: 0 <= k < |resamples| ==> resamples[k] != []
    ensures |Means(resamples)| == |resamples|
    ensures forall k :: 0 <= k < |resamples| ==> Means(resamples)[k] == Mean(resamples[k])
  {
    if resamples != [] {
      MeansAt(resamples[..|resamples| - 1]);
    }
  }

  /** `resamples` are the draws with replacement. `None` is ValueError on no values, or
      IndexError when there is no resample to index. */
  function Interval(values: seq<real>, resamples: seq<seq<real>>, ci: real): Option<BootstrapCI>
    requires forall k :: 0 <= k < |resamples| ==> resamples[k] != []
  {
    if values == [] then None
    else if |values| == 1 then Some(BootstrapCI(Mean(values), Mean(values), Mean(values)))
    else if resamples == [] then None
    else
      var boot := SortBy(Identity(), Means(resamples));
      SortBySorts(Identity(), Means(resamples));
      MeansAt(resamples);
      Some(BootstrapCI(Mean(values), boot[LowerIndex(ci, |boot|)], boot[UpperIndex(ci, |boot|)]))
  }

  /** Whatever the level, the percentile indices are in range; above 0 they are in order. */
  lemma IndicesOrdered(ci: real, n: int)
    requires n >= 1
    ensures 0 <= LowerIndex(ci, n) < n && 0 <= UpperIndex(ci, n) < n
    ensures ci > 0.0 ==> LowerIndex(ci, n) <= UpperIndex(ci, n)
  {
    if ci > 0.0 {
      CutsApart(ci, n);
      CutsOrdered(LowerCut(ci, n), UpperCut(ci, n), n);
    }
  }

  lemma CutsApart(ci: real, n: int)
    requires ci > 0.0 && n >= 1
    ensures LowerCut(ci, n) < UpperCut(ci, n)
  {
    TimesPositive(Alpha(ci), 1.0 - Alpha(ci), n as real);
  }

  lemma TimesPositive(a: real, b: real, n: real)
    requires a < b && n > 0.0
    ensures a * n < b * n
  {
  }

  lemma CutsOrdered(x: real, y: real, n: int)
    requires x < y && n >= 1
    ensures Clamp(Truncate(x), n) <= Clamp(Ceil(y) - 1, n)
  {
  }

  /** Only a positive level keeps the indices in order for every number of resamples. */
  lemma PositiveLevelsOrder(ci: real)
    ensures ci > 0.0 <==> forall n :: n >= 1 ==> LowerIndex(ci, n) <= UpperIndex(ci, n)
  {
    forall n | ci > 0.0 && n >= 1 ensures LowerIndex(ci, n) <= UpperIndex(ci, n) {
      IndicesOrdered(ci, n);
    }
    if ci <= 0.0 {
      assert LowerIndex(ci, 2) == 1 && UpperIndex(ci, 2) == 0;
    }
  }

  /** Whatever is drawn, the interval stays within the values, and at a positive level it is
      ordered. */
  lemma IntervalWithinValues(values: seq<real>, resamples: seq<seq<real>>, ci: real, low: real, high: real)
    requires values != [] && resamples != []
    requires forall k :: 0 <= k < |resamples| ==> resamples[k] != []
    requires forall k, i :: 0 <= k < |resamples| && 0 <= i < |resamples[k]| ==> resamples[k][i] in values
    requires forall i :: 0 <= i < |values| ==> low <= values[i] <= high
    ensures Interval(values, resamples, ci).Some?
    ensures var r := Interval(values, resamples, ci).value;
      low <= r.lower <= high && low <= r.upper <= high && low <= r.mean <= high &&
      (ci > 0.0 ==> r.lower <= r.upper)
  {
    MeanBounds(values, low, high);
    if |values| > 1 {
      var means := Means(resamples);
      var boot := SortBy(Identity(), means);
      MeansAt(resamples);
      SortBySorts(Identity(), means);
      IndicesOrdered(ci, |boot|);
      forall j | 0 <= j < |boot| ensures low <= boot[j] <= high {
        assert boot[j] in boot;
        SortByMembers(Identity(), means, boot[j]);
        var k :| 0 <= k < |means| && means[k] == boot[j];
        ResampleBounded(values, resamples[k], low, high);
      }
      if ci > 0.0 {
        SortedPair(boot, LowerIndex(ci, |boot|), UpperIndex(ci, |boot|));
      }
    }
  }

  lemma ResampleBounded(values: seq<real>, resample: seq<real>, low: real, high: real)
    requires resample != [] && forall i :: 0 <= i < |resample| ==> resample[i] in values
    requires forall i :: 0 <= i < |values| ==> low <= values[i] <= high
    ensures low <= Mean(resample) <= high
  {
    MeanBounds(resample, low, high);
  }

  lemma SortedPair(boot: seq<real>, i: int, j: int)
    requires SortedBy(Identity(), boot) && 0 <= i <= j < |boot|
    ensures boot[i] <= boot[j]
  {
  }

  // ---- How much lies outside the interval ----

  /** How many values are below `v`. */
  function Below(xs: seq<real>, v: real): nat {
    if xs == [] then 0 else Below(xs[..|xs| - 1], v) + if xs[|xs| - 1] < v then 1 else 0
  }

  function Above(xs: seq<real>, v: real): nat {
    if xs == [] then 0 else Above(xs[..|xs| - 1], v) + if xs[|xs| - 1] > v then 1 else 0
  }

  lemma CountStep(xs: seq<real>, x: real, v: real)
    ensures Below(xs + [x], v) == Below(xs, v) + if x < v then 1 else 0
    ensures Above(xs + [x], v) == Above(xs, v) + if x > v then 1 else 0
  {
    assert (xs + [x])[..|xs|] == xs;
  }

  lemma {:induction false} InsertCounts(xs: seq<real>, x: real, v: real)
    ensures Below(InsertLast(Identity(), xs, x), v) == Below(xs, v) + if x < v then 1 else 0
    ensures Above(InsertLast(Identity(), xs, x), v) == Above(xs, v) + if x > v then 1 else 0
  {
    if xs == [] || xs[|xs| - 1] <= x {
      CountStep(xs, x, v);
    } else {
      var front, last := xs[..|xs| - 1], xs[|xs| - 1];
      InsertCounts(front, x, v);
      CountStep(InsertLast(Identity(), front, x), last, v);
    }
  }

  /** Sorting changes no count. */
  lemma {:induction false} SortCounts(xs: seq<real>, v: real)
    ensures Below(SortBy(Identity(), xs), v) == Below(xs, v) && Above(SortBy(Identity(), xs), v) == Above(xs, v)
  {
    if xs != [] {
      SortCounts(xs[..|xs| - 1], v);
      InsertCounts(SortBy(Identity(), xs[..|xs| - 1]), xs[|xs| - 1], v);
    }
  }

  lemma {:induction false} BelowCounted(boot: seq<real>, i: nat, v: real)
    requires i <= |boot| && forall k :: i <= k < |boot| ==> boot[k] >= v
    ensures Below(boot, v) <= i
  {
    if |boot| > i {
      BelowCounted(boot[..|boot| - 1], i, v);
    } else if boot != [] {
      BelowCounted(boot[..|boot| - 1], i - 1, v);
    }
  }

  lemma {:induction false} AboveCounted(boot: seq<real>, j: nat, v: real)
    requires j < |boot| && forall k :: 0 <= k <= j ==> boot[k] <= v
    ensures Above(boot, v) <= |boot| - 1 - j
  {
    if |boot| - 1 > j {
      AboveCounted(boot[..|boot| - 1], j, v);
    } else {
      NoneAbove(boot, v);
    }
  }

  lemma {:induction false} NoneAbove(boot: seq<real>, v: real)
    requires forall k :: 0 <= k < |boot| ==> boot[k] <= v
    ensures Above(boot, v) == 0
  {
    if boot != [] {
      NoneAbove(boot[..|boot| - 1], v);
    }
  }

  /** At a level up to 1 each index leaves at most its share of the positions outside, and moving it
      one position inward would leave more. */
  lemma IndicesCut(ci: real, n: int)
    requires ci <= 1.0 && n >= 1
    ensures LowerIndex(ci, n) as real <= (1.0 - ci) / 2.0 * n as real
    ensures (n - 1 - UpperIndex(ci, n)) as real <= (1.0 - ci) / 2.0 * n as real
    ensures ci > 0.0 ==> (LowerIndex(ci, n) + 1) as real > (1.0 - ci) / 2.0 * n as real
    ensures ci > 0.0 ==> (n - UpperIndex(ci, n)) as real > (1.0 - ci) / 2.0 * n as real
  {
    var cut := (1.0 - ci) / 2.0 * n as real;
    assert LowerCut(ci, n) == cut && cut >= 0.0;
    assert UpperCut(ci, n) == n as real - cut;
    if ci > 0.0 {
      TimesPositive((1.0 - ci) / 2.0, 0.5, n as real);
    }
  }

  lemma SortedTails(boot: seq<real>, i: nat, j: nat)
    requires SortedBy(Identity(), boot) && i < |boot| && j < |boot|
    ensures Below(boot, boot[i]) <= i && Above(boot, boot[j]) <= |boot| - 1 - j
  {
    forall k | i <= k < |boot| ensures boot[k] >= boot[i] {
      SortedPair(boot, i, k);
    }
    forall k | 0 <= k <= j ensures boot[k] <= boot[j] {
      SortedPair(boot, k, j);
    }
    BelowCounted(boot, i, boot[i]);
    AboveCounted(boot, j, boot[j]);
  }

  /** In a sample and its sorted copy alike. */
  lemma SampleTails(means: seq<real>, ci: real)
    requires means != [] && ci <= 1.0
    ensures |SortBy(Identity(), means)| == |means|
    ensures var boot, n := SortBy(Identity(), means), |means|;
      Below(means, boot[LowerIndex(ci, n)]) <= LowerIndex(ci, n) &&
      Above(means, boot[UpperIndex(ci, n)]) <= n - 1 - UpperIndex(ci, n)
  {
    var boot, n := SortBy(Identity(), means), |means|;
    SortBySorts(Identity(), means);
    SortedTails(boot, LowerIndex(ci, n), UpperIndex(ci, n));
    SortCounts(means, boot[LowerIndex(ci, n)]);
    SortCounts(means, boot[UpperIndex(ci, n)]);
  }

  /** At most the share `(1 - ci) / 2` of the values lies below `low`, and at most as much above
      `high`. */
  predicate TailsWithin(xs: seq<real>, low: real, high: real, ci: real) {
    Below(xs, low) as real <= (1.0 - ci) / 2.0 * |xs| as real &&
    Above(xs, high) as real <= (1.0 - ci) / 2.0 * |xs| as real
  }

  lemma CountShares(xs: seq<real>, low: real, high: real, ci: real)
    requires ci <= 1.0 && xs != [] && Below(xs, low) <= LowerIndex(ci, |xs|)
    requires Above(xs, high) <= |xs| - 1 - UpperIndex(ci, |xs|)
    ensures TailsWithin(xs, low, high, ci)
  {
    TailShares(ci, |xs|, Below(xs, low), Above(xs, high));
  }

  lemma TailShares(ci: real, n: int, below: nat, above: nat)
    requires ci <= 1.0 && n >= 1 && below <= LowerIndex(ci, n) && above <= n - 1 - UpperIndex(ci, n)
    ensures below as real <= (1.0 - ci) / 2.0 * n as real && above as real <= (1.0 - ci) / 2.0 * n as real
  {
    IndicesCut(ci, n);
  }

  /** So it is for the resample means and the interval. */
  lemma TailsBounded(values: seq<real>, resamples: seq<seq<real>>, ci: real)
    requires |values| > 1 && resamples != [] && ci <= 1.0
    requires forall k :: 0 <= k < |resamples| ==> resamples[k] != []
    ensures Interval(values, resamples, ci).Some?
    ensures var r := Interval(values, resamples, ci).value; TailsWithin(Means(resamples), r.lower, r.upper, ci)
  {
    var means := Means(resamples);
    MeansAt(resamples);
    SortBySorts(Identity(), means);
    SampleTails(means, ci);
    var boot := SortBy(Identity(), means);
    CountShares(means, boot[LowerIndex(ci, |means|)], boot[UpperIndex(ci, |means|)], ci);
  }
}
