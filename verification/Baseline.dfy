/** Aggregating no-agent runs of different lengths into one trajectory. */
module Baseline {
  import opened Values
  import opened Numbers

  /** One run's composites, tick by tick. */
  type Run = seq<real>

  datatype Point = Point(tick: int, compositeMean: real, nRuns: nat)

  function MaxLength(runs: seq<Run>): nat {
    if runs == [] then 0
    else
      var front, last := MaxLength(runs[..|runs| - 1]), |runs[|runs| - 1]|;
      if last > front then last else front
  }

  lemma {:induction false} MaxLengthIsLongest(runs: seq<Run>)
    ensures forall k :: 0 <= k < |runs| ==> |runs[k]| <= MaxLength(runs)
    ensures runs != [] ==> exists k :: 0 <= k < |runs| && |runs[k]| == MaxLength(runs)
  {
    if runs != [] {
      var front := runs[..|runs| - 1];
      MaxLengthIsLongest(front);
      if MaxLength(runs) != |runs[|runs| - 1]| {
        if front != [] {
          var k :| 0 <= k < |front| && |front[k]| == MaxLength(front);
          assert |runs[k]| == MaxLength(runs);
        }
      }
    }
  }

  /** The composites at tick `i` of the runs still going. */
  function Alive(runs: seq<Run>, i: nat): seq<real> {
    if runs == [] then []
    else
      var last := runs[|runs| - 1];
      Alive(runs[..|runs| - 1], i) + if i < |last| then [last[i]] else []
  }

  /** The point that averages the runs going at tick `i`. */
  predicate IsPointOf(p: Point, runs: seq<Run>, i: nat) {
    Alive(runs, i) != [] && p == Point(i, Mean(Alive(runs, i)), |Alive(runs, i)|)
  }

  /** One point per tick, from the first on. */
  ghost predicate Aggregates(points: seq<Point>, runs: seq<Run>) {
    forall i :: 0 <= i < |points| ==> IsPointOf(points[i], runs, i)
  }

  lemma AggregatesStep(points: seq<Point>, p: Point, runs: seq<Run>)
    requires Aggregates(points, runs) && IsPointOf(p, runs, |points|)
    ensures Aggregates(points + [p], runs)
  {
  }

  /** `None` is ValueError: no runs. */
  method Aggregate(runs: seq<Run>) returns (points: Option<seq<Point>>)
    ensures points.None? <==> runs == []
    ensures points.Some? ==> |points.value| == MaxLength(runs)
    ensures points.Some? ==> Aggregates(points.value, runs)
  {
    if runs == [] {
      return None;
    }
    var out: seq<Point> := [];
    MaxLengthIsLongest(runs);
    for i := 0 to MaxLength(runs)
      invariant |out| == i
      invariant Aggregates(out, runs)
    {
      AliveUntilLongest(runs, i);
      var p := PointAt(runs, i);
      AggregatesStep(out, p, runs);
      out := out + [p];
    }
    points := Some(out);
  }

  /** The point of one tick; some run must be going. */
  method PointAt(runs: seq<Run>, i: nat) returns (p: Point)
    requires Alive(runs, i) != []
    ensures IsPointOf(p, runs, i)
  {
    var composites := AliveAt(runs, i);
    p := Point(i, Mean(composites), |composites|);
  }

  method AliveAt(runs: seq<Run>, i: nat) returns (composites: seq<real>)
    ensures composites == Alive(runs, i)
  {
    composites := [];
    for k := 0 to |runs|
      invariant composites == Alive(runs[..k], i)
    {
      assert runs[..k + 1][..k] == runs[..k];
      if |runs[k]| > i {
        composites := composites + [runs[k][i]];
      }
    }
    assert runs[..|runs|] == runs;
  }

  /** Some run is going at every tick of the trajectory. */
  lemma {:induction false} AliveUntilLongest(runs: seq<Run>, i: nat)
    ensures Alive(runs, i) != [] <==> i < MaxLength(runs)
  {
    if runs != [] {
      AliveUntilLongest(runs[..|runs| - 1], i);
    }
  }

  /** Runs only end: the number going never rises. */
  lemma {:induction false} AliveShrinks(runs: seq<Run>, i: nat, j: nat)
    requires i <= j
    ensures |Alive(runs, j)| <= |Alive(runs, i)|
  {
    if runs != [] {
      AliveShrinks(runs[..|runs| - 1], i, j);
    }
  }

  // ---- Conservation ----

  function TotalLength(runs: seq<Run>): nat {
    if runs == [] then 0 else TotalLength(runs[..|runs| - 1]) + |runs[|runs| - 1]|
  }

  function TotalComposite(runs: seq<Run>): real {
    if runs == [] then 0.0 else TotalComposite(runs[..|runs| - 1]) + Sum(runs[|runs| - 1])
  }

  /** Over the first `n` ticks: how many values, and their sum. */
  function Counted(runs: seq<Run>, n: nat): nat {
    if n == 0 then 0 else Counted(runs, n - 1) + |Alive(runs, n - 1)|
  }

  function Summed(runs: seq<Run>, n: nat): real { Total(ColumnSum(runs), n) }

  function ColumnSum(runs: seq<Run>): nat -> real { (i: nat) => Sum(Alive(runs, i)) }

  function Total(column: nat -> real, n: nat): real {
    if n == 0 then 0.0 else Total(column, n - 1) + column(n - 1)
  }

  /** The first `n` values of a run, all of them when it is shorter. */
  function Prefix(run: Run, n: nat): Run { if n < |run| then run[..n] else run }

  lemma PrefixStep(run: Run, n: nat)
    ensures Prefix(run, n + 1) == Prefix(run, n) + (if n < |run| then [run[n]] else [])
  {
  }

  lemma AliveStep(runs: seq<Run>, run: Run, i: nat)
    ensures Alive(runs + [run], i) == Alive(runs, i) + (if i < |run| then [run[i]] else [])
  {
  }

  lemma {:induction false} CountedAddRun(runs: seq<Run>, run: Run, n: nat)
    ensures Counted(runs + [run], n) == Counted(runs, n) + |Prefix(run, n)|
  {
    if n == 0 {
      assert Prefix(run, 0) == [];
    } else {
      CountedAddRun(runs, run, n - 1);
      CountAdds(runs, run, n - 1);
    }
  }

  lemma CountAdds(runs: seq<Run>, run: Run, i: nat)
    ensures |Alive(runs + [run], i)| == |Alive(runs, i)| + (|Prefix(run, i + 1)| - |Prefix(run, i)|)
  {
    PrefixStep(run, i);
    AliveStep(runs, run, i);
  }

  function PrefixSum(run: Run): nat -> real { (i: nat) => Sum(Prefix(run, i)) }

  lemma NothingFirst(run: Run)
    ensures PrefixSum(run)(0) == 0.0
  {
    assert Prefix(run, 0) == [];
  }

  lemma SummedAddRun(runs: seq<Run>, run: Run, n: nat)
    ensures Summed(runs + [run], n) == Summed(runs, n) + PrefixSum(run)(n)
  {
    var longer := runs + [run];
    forall i: nat ensures ColumnSum(longer)(i) == ColumnSum(runs)(i) + (PrefixSum(run)(i + 1) - PrefixSum(run)(i)) {
      ColumnAdds(runs, run, i);
    }
    NothingFirst(run);
    TotalAdds(ColumnSum(runs), ColumnSum(longer), PrefixSum(run), n);
  }

  /** When each column grows by the step of a third series, so do the totals. */
  lemma {:induction false} TotalAdds(before: nat -> real, after: nat -> real, added: nat -> real, n: nat)
    requires added(0) == 0.0
    requires forall i: nat :: i < n ==> after(i) == before(i) + (added(i + 1) - added(i))
    ensures Total(after, n) == Total(before, n) + added(n)
  {
    if n > 0 {
      TotalAdds(before, after, added, n - 1);
    }
  }

  lemma ColumnAdds(runs: seq<Run>, run: Run, i: nat)
    ensures ColumnSum(runs + [run])(i) == ColumnSum(runs)(i) + (PrefixSum(run)(i + 1) - PrefixSum(run)(i))
  {
    var added := if i < |run| then [run[i]] else [];
    PrefixStep(run, i);
    AliveStep(runs, run, i);
    SumAppend(Alive(runs, i), added);
    SumAppend(Prefix(run, i), added);
  }

  lemma {:induction false} ColumnsAreRows(runs: seq<Run>, n: nat)
    requires n >= MaxLength(runs)
    ensures Counted(runs, n) == TotalLength(runs)
    ensures Summed(runs, n) == TotalComposite(runs)
  {
    if runs == [] {
      NoColumns(n);
    } else {
      var front, run := runs[..|runs| - 1], runs[|runs| - 1];
      assert runs == front + [run];
      ColumnsAreRows(front, n);
      CountedAddRun(front, run, n);
      SummedAddRun(front, run, n);
      assert Prefix(run, n) == run;
    }
  }

  lemma {:induction false} NoColumns(n: nat)
    ensures Counted([], n) == 0 && Summed([], n) == 0.0
  {
    if n > 0 {
      NoColumns(n - 1);
    }
  }

  function PointRuns(points: seq<Point>): nat {
    if points == [] then 0 else PointRuns(points[..|points| - 1]) + points[|points| - 1].nRuns
  }

  function Mass(p: Point): real { p.nRuns as real * p.compositeMean }

  function PointMass(points: seq<Point>): real {
    if points == [] then 0.0 else PointMass(points[..|points| - 1]) + Mass(points[|points| - 1])
  }

  lemma MassIsSum(p: Point, runs: seq<Run>, i: nat)
    requires IsPointOf(p, runs, i)
    ensures Mass(p) == Sum(Alive(runs, i))
  {
  }

  lemma {:induction false} PointsAreColumns(points: seq<Point>, runs: seq<Run>)
    requires Aggregates(points, runs)
    ensures PointRuns(points) == Counted(runs, |points|) && PointMass(points) == Summed(runs, |points|)
  {
    if points != [] {
      var n := |points| - 1;
      MassIsSum(points[n], runs, n);
      PointsAreColumns(points[..n], runs);
    }
  }

  /** The trajectory loses no value: run counts add up to the total run length, and counts times
      means to the sum of all composites. Each point averages at least one run, and later
      points never more than earlier ones. */
  lemma AggregationConserves(points: seq<Point>, runs: seq<Run>)
    requires |points| == MaxLength(runs) && Aggregates(points, runs)
    ensures PointRuns(points) == TotalLength(runs)
    ensures PointMass(points) == TotalComposite(runs)
    ensures forall i :: 0 <= i < |points| ==> points[i].nRuns >= 1
    ensures forall i, j :: 0 <= i < j < |points| ==> points[j].nRuns <= points[i].nRuns
  {
    PointsAreColumns(points, runs);
    ColumnsAreRows(runs, |points|);
    forall i, j | 0 <= i < j < |points| ensures points[j].nRuns <= points[i].nRuns {
      AliveShrinks(runs, i, j);
    }
  }
}
