/** The nine per-tick metrics and the weighted composite, over reals and without rounding. */
module Scoring {
  import opened Actions
  import opened Coherence
  import opened Executor
  import opened Ledger
  import opened Numbers
  import opened Pipeline
  import opened Resolver
  import opened ThreatTracking

  const NEUTRAL := 0.5

  datatype ColonyState = ColonyState(
    population: int, moodAverage: real, foodDays: real, wealth: real, powerNet: real,
    researchCompleted: nat, researchAvailable: nat)

  /** `delays` are the values of `first_draft_tick`. */
  datatype MetricContext = MetricContext(
    initialPopulation: int, initialWealth: real, threatsSeen: nat, delays: seq<int>, executions: seq<ExecutionResult>)

  function MinReal(a: real, b: real): real { if b < a then b else a }

  function MaxReal(a: real, b: real): real { if b > a then b else a }

  function Unit(x: real): real { MaxReal(0.0, MinReal(1.0, x)) }

  function Survival(s: ColonyState, ctx: MetricContext): real {
    if ctx.initialPopulation <= 0 then 1.0
    else MinReal(1.0, s.population as real / ctx.initialPopulation as real)
  }

  function Capped(delays: seq<int>): seq<real> {
    seq(|delays|, i requires 0 <= i < |delays| => (if delays[i] < 10 then delays[i] else 10) as real)
  }

  function ThreatResponse(ctx: MetricContext): real {
    if ctx.threatsSeen == 0 then 1.0
    else if ctx.delays == [] then 0.0
    else MaxReal(0.0, 1.0 - Mean(Capped(ctx.delays)) / 10.0)
  }

  function Wealth(s: ColonyState, ctx: MetricContext): real {
    Unit(s.wealth / MaxReal(ctx.initialWealth, 1.0))
  }

  function Research(s: ColonyState): real {
    var total := s.researchCompleted + s.researchAvailable;
    if total == 0 then 1.0 else s.researchCompleted as real / total as real
  }

  function Check(b: bool): real { if b then 1.0 else 0.0 }

  function SelfSufficiency(s: ColonyState, ctx: MetricContext): real {
    Mean([Check(s.powerNet > 0.0), Check(s.foodDays > 5.0), Check(s.population >= ctx.initialPopulation)])
  }

  function Rate(e: ExecutionResult): real {
    if e.total > 0 then e.executed as real / e.total as real else NEUTRAL
  }

  function Rates(executions: seq<ExecutionResult>): seq<real> {
    seq(|executions|, i requires 0 <= i < |executions| => Rate(executions[i]))
  }

  function MeanOrNeutral(xs: seq<real>): real { if xs == [] then NEUTRAL else Mean(xs) }

  function Efficiency(ctx: MetricContext): real { MeanOrNeutral(Rates(ctx.executions)) }

  /** The share of a tick's executed writes that contradict no other. */
  function Coherent(e: ExecutionResult): real {
    var executed := |Executed(e.outcomes)|;
    if executed == 0 then NEUTRAL else 1.0 - |Flagged(e.outcomes)| as real / executed as real
  }

  function Coherents(executions: seq<ExecutionResult>): seq<real> {
    seq(|executions|, i requires 0 <= i < |executions| => Coherent(executions[i]))
  }

  function PlanCoherence(ctx: MetricContext): real { MeanOrNeutral(Coherents(ctx.executions)) }

  const ALL_METRICS: seq<string> := [
    "survival", "threat_response", "mood", "food_security", "wealth", "research", "self_sufficiency",
    "efficiency", "plan_coherence"]

  /** The metric values in the order of `ALL_METRICS`. */
  function Metrics(s: ColonyState, ctx: MetricContext): seq<real> {
    [Survival(s, ctx), ThreatResponse(ctx), Unit(s.moodAverage), Unit(s.foodDays / 10.0), Wealth(s, ctx),
     Research(s), SelfSufficiency(s, ctx), Efficiency(ctx), PlanCoherence(ctx)]
  }

  /** `plan_coherence` as the program accumulates it. */
  method ScoreCoherence(executions: seq<ExecutionResult>) returns (score: real)
    ensures score == MeanOrNeutral(Coherents(executions))
  {
    if executions == [] {
      return NEUTRAL;
    }
    var scores: seq<real> := [];
    for i := 0 to |executions|
      invariant |scores| == i && forall k :: 0 <= k < i ==> scores[k] == Coherent(executions[k])
    {
      var contradictory, executed := CountContradictions(executions[i].outcomes);
      scores := scores + [if executed == 0 then NEUTRAL else 1.0 - contradictory as real / executed as real];
    }
    assert scores == Coherents(executions);
    score := Mean(scores);
  }

  // ---- Bounds ----

  lemma RatioBounds(a: real, b: real)
    requires b > 0.0 && 0.0 <= a <= b
    ensures 0.0 <= a / b <= 1.0
  {
  }

  lemma CoherentBounds(e: ExecutionResult)
    ensures 0.0 <= Coherent(e) <= 1.0
  {
    ContradictionsBounded(e.outcomes);
    if |Executed(e.outcomes)| > 0 {
      RatioBounds(|Flagged(e.outcomes)| as real, |Executed(e.outcomes)| as real);
    }
  }

  lemma ThreatResponseBounds(ctx: MetricContext)
    requires forall i :: 0 <= i < |ctx.delays| ==> ctx.delays[i] >= 0
    ensures 0.0 <= ThreatResponse(ctx) <= 1.0
  {
    if ctx.delays != [] {
      MeanBounds(Capped(ctx.delays), 0.0, 10.0);
    }
  }

  lemma EfficiencyBounds(ctx: MetricContext)
    requires forall i :: 0 <= i < |ctx.executions| ==> CountsItsOutcomes(ctx.executions[i])
    ensures 0.0 <= Efficiency(ctx) <= 1.0
  {
    if ctx.executions != [] {
      var rates := Rates(ctx.executions);
      forall i | 0 <= i < |rates| ensures 0.0 <= rates[i] <= 1.0 {
        var e := ctx.executions[i];
        ExecutedWithinTotal(e);
        if e.total > 0 {
          RatioBounds(e.executed as real, e.total as real);
        }
      }
      MeanBounds(rates, 0.0, 1.0);
    }
  }

  lemma PlanCoherenceBounds(ctx: MetricContext)
    ensures 0.0 <= PlanCoherence(ctx) <= 1.0
  {
    if ctx.executions != [] {
      var scores := Coherents(ctx.executions);
      forall i | 0 <= i < |scores| ensures 0.0 <= scores[i] <= 1.0 {
        CoherentBounds(ctx.executions[i]);
      }
      MeanBounds(scores, 0.0, 1.0);
    }
  }

  lemma StateMetricsBounds(s: ColonyState, ctx: MetricContext)
    requires s.population >= 0
    ensures 0.0 <= Survival(s, ctx) <= 1.0 && 0.0 <= Research(s) <= 1.0 && 0.0 <= SelfSufficiency(s, ctx) <= 1.0
  {
    if ctx.initialPopulation > 0 {
      var p, q := s.population as real, ctx.initialPopulation as real;
      assert p / q * q == p;
      FactorNatural(p / q, q);
    }
    if s.researchCompleted + s.researchAvailable > 0 {
      RatioBounds(s.researchCompleted as real, (s.researchCompleted + s.researchAvailable) as real);
    }
    MeanBounds(
      [Check(s.powerNet > 0.0), Check(s.foodDays > 5.0), Check(s.population >= ctx.initialPopulation)], 0.0, 1.0);
  }

  /** Every metric of every tick lies in [0, 1]. */
  lemma MetricsBounds(s: ColonyState, ctx: MetricContext)
    requires s.population >= 0
    requires forall i :: 0 <= i < |ctx.delays| ==> ctx.delays[i] >= 0
    requires forall i :: 0 <= i < |ctx.executions| ==> CountsItsOutcomes(ctx.executions[i])
    ensures |Metrics(s, ctx)| == |ALL_METRICS|
    ensures forall i :: 0 <= i < |Metrics(s, ctx)| ==> 0.0 <= Metrics(s, ctx)[i] <= 1.0
  {
    StateMetricsBounds(s, ctx);
    ThreatResponseBounds(ctx);
    EfficiencyBounds(ctx);
    PlanCoherenceBounds(ctx);
  }

  /** The delays the game loop records are natural, so they may be scored. */
  lemma RecordedDelaysNatural(trace: seq<Tick>)
    ensures forall id :: id in ContextAfter(trace).firstDraft ==> ContextAfter(trace).firstDraft[id] >= 0
  {
    BookkeepingIsFaithful(trace);
    var ctx := ContextAfter(trace);
    forall id | id in ctx.firstDraft ensures ctx.firstDraft[id] >= 0 {
      assert DelayOf(trace, ctx.seenTick[id], ctx.firstDraft[id]);
    }
  }

  /** The bookkeeping when a tick is scored: its own draft response is in, its threats are not. */
  function ScoredContext(trace: seq<Tick>, outcomes: seq<ActionOutcome>): Context {
    DraftResponse(ContextAfter(trace), DraftExecuted(outcomes), |trace|)
  }

  lemma ScoredDelaysNatural(trace: seq<Tick>, outcomes: seq<ActionOutcome>)
    ensures var ctx := ScoredContext(trace, outcomes);
      forall id :: id in ctx.firstDraft ==> ctx.firstDraft[id] >= 0
  {
    RecordedDelaysNatural(trace);
  }

  // ---- The composite ----

  /** `sum(weights.get(name, 0.0) * value)`; `weights` lists the weight of each metric. */
  function Composite(weights: seq<real>, values: seq<real>): real
    requires |weights| == |values|
  {
    if values == [] then 0.0
    else
      var n := |values| - 1;
      Composite(weights[..n], values[..n]) + weights[n] * values[n]
  }

  lemma {:induction false} CompositeBounds(weights: seq<real>, values: seq<real>)
    requires |weights| == |values|
    requires forall i :: 0 <= i < |weights| ==> weights[i] >= 0.0
    requires forall i :: 0 <= i < |values| ==> 0.0 <= values[i] <= 1.0
    ensures 0.0 <= Composite(weights, values) <= Sum(weights)
  {
    if values == [] {
      assert weights == [];
    } else {
      var n := |values| - 1;
      var w, v, front := weights[n], values[n], Composite(weights[..n], values[..n]);
      CompositeBounds(weights[..n], values[..n]);
      WeightBounds(w, v);
      var p := w * v;
      assert 0.0 <= p && p <= w;
      assert Composite(weights, values) == front + p;
      assert Sum(weights) == Sum(weights[..n]) + w;
    }
  }

  lemma WeightBounds(w: real, v: real)
    requires w >= 0.0 && 0.0 <= v <= 1.0
    ensures 0.0 <= w * v <= w
  {
  }

  /** Sums over snapshots, metric by metric. */
  function Columns(snapshots: seq<seq<real>>, n: nat): seq<real>
    requires forall k :: 0 <= k < |snapshots| ==> |snapshots[k]| == n
  {
    seq(n, i requires 0 <= i < n => Column(snapshots, i))
  }

  function Column(snapshots: seq<seq<real>>, i: nat): real
    requires forall k :: 0 <= k < |snapshots| ==> i < |snapshots[k]|
  {
    if snapshots == [] then 0.0
    else Column(snapshots[..|snapshots| - 1], i) + snapshots[|snapshots| - 1][i]
  }

  function Composites(weights: seq<real>, snapshots: seq<seq<real>>): real
    requires forall k :: 0 <= k < |snapshots| ==> |snapshots[k]| == |weights|
  {
    if snapshots == [] then 0.0
    else
      Composites(weights, snapshots[..|snapshots| - 1]) + Composite(weights, snapshots[|snapshots| - 1])
  }

  lemma {:induction false} CompositeAdds(weights: seq<real>, xs: seq<real>, ys: seq<real>, zs: seq<real>)
    requires |weights| == |xs| == |ys| == |zs|
    requires forall i :: 0 <= i < |xs| ==> zs[i] == xs[i] + ys[i]
    ensures Composite(weights, zs) == Composite(weights, xs) + Composite(weights, ys)
  {
    if xs != [] {
      var n := |xs| - 1;
      CompositeAdds(weights[..n], xs[..n], ys[..n], zs[..n]);
      assert weights[n] * zs[n] == weights[n] * xs[n] + weights[n] * ys[n];
    }
  }

  lemma {:induction false} CompositeScales(weights: seq<real>, xs: seq<real>, ys: seq<real>, c: real)
    returns (x: real, y: real)
    requires |weights| == |xs| == |ys|
    requires forall i :: 0 <= i < |xs| ==> xs[i] == c * ys[i]
    ensures x == Composite(weights, xs) && y == Composite(weights, ys) && x == c * y
  {
    if xs == [] {
      x, y := 0.0, 0.0;
    } else {
      var n := |xs| - 1;
      var w, v := weights[n], ys[n];
      var x0, y0 := CompositeScales(weights[..n], xs[..n], ys[..n], c);
      x, y := x0 + w * (c * v), y0 + w * v;
      Distribute(c, y0, w, v);
    }
  }

  lemma Distribute(c: real, y: real, w: real, v: real)
    ensures c * (y + w * v) == c * y + w * (c * v)
  {
  }

  lemma {:induction false} CompositeOfZero(weights: seq<real>, zs: seq<real>)
    requires |weights| == |zs| && forall i :: 0 <= i < |zs| ==> zs[i] == 0.0
    ensures Composite(weights, zs) == 0.0
  {
    if zs != [] {
      CompositeOfZero(weights[..|zs| - 1], zs[..|zs| - 1]);
    }
  }

  lemma {:induction false} CompositeOfColumns(weights: seq<real>, snapshots: seq<seq<real>>)
    requires forall k :: 0 <= k < |snapshots| ==> |snapshots[k]| == |weights|
    ensures Composite(weights, Columns(snapshots, |weights|)) == Composites(weights, snapshots)
  {
    if snapshots == [] {
      CompositeOfZero(weights, Columns(snapshots, |weights|));
    } else {
      var front, last := snapshots[..|snapshots| - 1], snapshots[|snapshots| - 1];
      CompositeOfColumns(weights, front);
      CompositeAdds(weights, Columns(front, |weights|), last, Columns(snapshots, |weights|));
    }
  }

  /** `final_score`'s metrics: each averaged over the snapshots. */
  function Averages(snapshots: seq<seq<real>>, n: nat): seq<real>
    requires snapshots != [] && forall k :: 0 <= k < |snapshots| ==> |snapshots[k]| == n
  {
    seq(n, i requires 0 <= i < n => Column(snapshots, i) / |snapshots| as real)
  }

  /** The composite of the averaged metrics is the average of the per-tick composites. */
  lemma FinalScoreIsMean(weights: seq<real>, snapshots: seq<seq<real>>)
    requires snapshots != [] && forall k :: 0 <= k < |snapshots| ==> |snapshots[k]| == |weights|
    ensures Composite(weights, Averages(snapshots, |weights|)) == Composites(weights, snapshots) / |snapshots| as real
  {
    var n := |snapshots| as real;
    var averages, columns := Averages(snapshots, |weights|), Columns(snapshots, |weights|);
    AveragesScale(snapshots, |weights|);
    assert forall i :: 0 <= i < |columns| ==> columns[i] == n * averages[i];
    CompositeOfColumns(weights, snapshots);
    var total, mean := CompositeScales(weights, columns, averages, n);
    DivideBy(mean, total, n);
  }

  lemma AveragesScale(snapshots: seq<seq<real>>, n: nat)
    requires snapshots != [] && forall k :: 0 <= k < |snapshots| ==> |snapshots[k]| == n
    ensures forall i :: 0 <= i < n ==>
      Columns(snapshots, n)[i] == |snapshots| as real * Averages(snapshots, n)[i]
  {
  }

  lemma DivideBy(a: real, b: real, n: real)
    requires n > 0.0 && b == n * a
    ensures a == b / n
  {
  }

  /** Scores stay bounded over a tick whose executions come from the executor. */
  lemma CompositeOfTickBounded(weights: seq<real>, s: ColonyState, ctx: MetricContext)
    requires |weights| == |ALL_METRICS| && forall i :: 0 <= i < |weights| ==> weights[i] >= 0.0
    requires s.population >= 0
    requires forall i :: 0 <= i < |ctx.delays| ==> ctx.delays[i] >= 0
    requires forall i :: 0 <= i < |ctx.executions| ==> CountsItsOutcomes(ctx.executions[i])
    ensures 0.0 <= Composite(weights, Metrics(s, ctx)) <= Sum(weights)
  {
    MetricsBounds(s, ctx);
    CompositeBounds(weights, Metrics(s, ctx));
  }

  /** A result as a run produces it: the executor's on some plan, or a packaged step's. */
  ghost predicate FromRun(e: ExecutionResult) {
    (exists g, actions, replies :: |replies| == |actions| && e == Tally(RunOutcomes(g, actions, replies))) ||
    exists name, l :: e == Packaged(name, l).execution
  }

  /** What a tick is scored with, `trace` before it and `outcomes` its own: the bookkeeping then,
      its delays in any order, and the results of earlier ticks. */
  function RunContext(
    trace: seq<Tick>, outcomes: seq<ActionOutcome>, ids: seq<string>, executions: seq<ExecutionResult>,
    population: int, wealth: real): MetricContext
    requires forall i :: 0 <= i < |ids| ==> ids[i] in ScoredContext(trace, outcomes).firstDraft
  {
    var ctx := ScoredContext(trace, outcomes);
    MetricContext(population, wealth, |ctx.seenTick|,
      seq(|ids|, i requires 0 <= i < |ids| => ctx.firstDraft[ids[i]]), executions)
  }

  /** At every tick of every run all nine metrics lie in [0, 1] and the composite between 0 and
      the sum of the weights. */
  lemma RunScoresBounded(
    trace: seq<Tick>, outcomes: seq<ActionOutcome>, ids: seq<string>, executions: seq<ExecutionResult>,
    population: int, wealth: real, s: ColonyState, weights: seq<real>)
    requires forall i :: 0 <= i < |ids| ==> ids[i] in ScoredContext(trace, outcomes).firstDraft
    requires forall i :: 0 <= i < |executions| ==> FromRun(executions[i])
    requires |weights| == |ALL_METRICS| && forall i :: 0 <= i < |weights| ==> weights[i] >= 0.0
    requires s.population >= 0
    ensures var values := Metrics(s, RunContext(trace, outcomes, ids, executions, population, wealth));
      |values| == |ALL_METRICS| && (forall i :: 0 <= i < |values| ==> 0.0 <= values[i] <= 1.0) &&
      0.0 <= Composite(weights, values) <= Sum(weights)
  {
    var ctx := RunContext(trace, outcomes, ids, executions, population, wealth);
    ScoredDelaysNatural(trace, outcomes);
    forall i | 0 <= i < |executions| ensures CountsItsOutcomes(executions[i]) {
      FromRunCounts(executions[i]);
    }
    MetricsBounds(s, ctx);
    CompositeOfTickBounded(weights, s, ctx);
  }

  lemma FromRunCounts(e: ExecutionResult)
    requires FromRun(e)
    ensures CountsItsOutcomes(e)
  {
    if name, l :| e == Packaged(name, l).execution {
      PackagedCounts(name, l);
    }
  }

  /** A resolved plan without confusable slots scores full coherence whenever something of it is
      executed and neither residue is among its outcomes. */
  lemma ResolvedPlanIsCoherent(
    plans: seq<ActionPlan>, state: GameState, g: Guards, replies: seq<Reply>, e: ExecutionResult)
    requires Unconfusable(plans) && |replies| == |Resolution(Tags(plans, state))|
    requires e.outcomes == RunOutcomes(g, Resolution(Tags(plans, state)), replies) && Executed(e.outcomes) != {}
    requires ResidueFree(e.outcomes)
    ensures Coherent(e) == 1.0
  {
    PipelineLeavesResidualOnly(plans, state, g, replies);
    ResidueFlagged(e.outcomes);
    UnflaggedIsCoherent(e);
  }

  lemma UnflaggedIsCoherent(e: ExecutionResult)
    requires Flagged(e.outcomes) == {} && Executed(e.outcomes) != {}
    ensures Coherent(e) == 1.0
  {
    assert |Flagged(e.outcomes)| == 0 && |Executed(e.outcomes)| > 0;
    NoShare(|Executed(e.outcomes)| as real);
  }

  lemma NoShare(n: real)
    requires n > 0.0
    ensures 0.0 / n == 0.0
  {
  }
}
