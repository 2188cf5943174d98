/** What each metric rewards: its end points, and which way it moves. */
module MetricLaws {
  import opened Actions
  import opened Coherence
  import opened Numbers
  import opened Scoring

  /** The metrics in the order in which they are named. */
  lemma MetricNames(s: ColonyState, ctx: MetricContext)
    ensures |ALL_METRICS| == |Metrics(s, ctx)| == 9
    ensures ALL_METRICS[..5] == ["survival", "threat_response", "mood", "food_security", "wealth"]
    ensures ALL_METRICS[5..] == ["research", "self_sufficiency", "efficiency", "plan_coherence"]
    ensures Metrics(s, ctx)[0] == Survival(s, ctx) && Metrics(s, ctx)[1] == ThreatResponse(ctx)
    ensures Metrics(s, ctx)[4] == Wealth(s, ctx) && Metrics(s, ctx)[5] == Research(s)
    ensures Metrics(s, ctx)[6] == SelfSufficiency(s, ctx)
    ensures Metrics(s, ctx)[7] == Efficiency(ctx) && Metrics(s, ctx)[8] == PlanCoherence(ctx)
  {
  }

  // ---- Clamped shares of the colony's state ----

  /** Mood is taken as it is, within 0 and 1. */
  lemma MoodClamped(s: ColonyState, ctx: MetricContext)
    ensures 0.0 <= s.moodAverage <= 1.0 ==> Metrics(s, ctx)[2] == s.moodAverage
    ensures s.moodAverage < 0.0 ==> Metrics(s, ctx)[2] == 0.0
    ensures s.moodAverage > 1.0 ==> Metrics(s, ctx)[2] == 1.0
  {
  }

  /** Ten days of food are enough, none is nothing, and in between every day is a tenth. */
  lemma FoodSecurity(s: ColonyState, ctx: MetricContext)
    ensures s.foodDays >= 10.0 ==> Metrics(s, ctx)[3] == 1.0
    ensures s.foodDays <= 0.0 ==> Metrics(s, ctx)[3] == 0.0
    ensures 0.0 <= s.foodDays <= 10.0 ==> 10.0 * Metrics(s, ctx)[3] == s.foodDays
  {
  }

  lemma Scaled(a: real, b: real)
    requires b > 0.0
    ensures a / b * b == a && (a >= b <==> a / b >= 1.0) && (a <= 0.0 <==> a / b <= 0.0)
  {
  }

  /** Wealth is measured against the initial wealth, at least 1. */
  lemma WealthGrowth(s: ColonyState, ctx: MetricContext)
    ensures var initial := if ctx.initialWealth >= 1.0 then ctx.initialWealth else 1.0;
      (s.wealth >= initial ==> Wealth(s, ctx) == 1.0) && (s.wealth <= 0.0 ==> Wealth(s, ctx) == 0.0) &&
      (0.0 <= s.wealth <= initial ==> Wealth(s, ctx) * initial == s.wealth)
  {
    Scaled(s.wealth, if ctx.initialWealth >= 1.0 then ctx.initialWealth else 1.0);
  }

  /** Survival is the share of the initial colonists, at most 1; without any it is full. */
  lemma SurvivalShare(s: ColonyState, ctx: MetricContext)
    ensures ctx.initialPopulation <= 0 || s.population >= ctx.initialPopulation ==> Survival(s, ctx) == 1.0
    ensures s.population <= ctx.initialPopulation && ctx.initialPopulation > 0 ==>
      Survival(s, ctx) * ctx.initialPopulation as real == s.population as real
  {
    if ctx.initialPopulation > 0 {
      Scaled(s.population as real, ctx.initialPopulation as real);
    }
  }

  /** Research is the completed share of what is completed or available; of nothing it is full. */
  lemma ResearchShare(s: ColonyState)
    ensures s.researchCompleted + s.researchAvailable == 0 ==> Research(s) == 1.0
    ensures s.researchCompleted + s.researchAvailable > 0 ==>
      Research(s) * (s.researchCompleted + s.researchAvailable) as real == s.researchCompleted as real
  {
    if s.researchCompleted + s.researchAvailable > 0 {
      Scaled(s.researchCompleted as real, (s.researchCompleted + s.researchAvailable) as real);
    }
  }

  /** A third each for a power surplus, more than five days of food and a kept population. */
  lemma SelfSufficiencyThirds(s: ColonyState, ctx: MetricContext)
    ensures 3.0 * SelfSufficiency(s, ctx) ==
      (if s.powerNet > 0.0 then 1.0 else 0.0) + (if s.foodDays > 5.0 then 1.0 else 0.0) +
      (if s.population >= ctx.initialPopulation then 1.0 else 0.0)
  {
    var a, b, c := Check(s.powerNet > 0.0), Check(s.foodDays > 5.0), Check(s.population >= ctx.initialPopulation);
    var checks := [a, b, c];
    assert checks[..2] == [a, b] && [a, b][..1] == [a] && [a][..0] == [];
    assert Sum(checks) == Sum([a, b]) + c && Sum([a, b]) == Sum([a]) + b && Sum([a]) == a;
  }

  // ---- Threat response ----

  /** No threats score 1, threats without any response 0. */
  lemma ThreatResponseEnds(ctx: MetricContext)
    ensures ctx.threatsSeen == 0 ==> ThreatResponse(ctx) == 1.0
    ensures ctx.threatsSeen > 0 && ctx.delays == [] ==> ThreatResponse(ctx) == 0.0
  {
  }

  /** Threats all answered after `delay` ticks lose a tenth for each tick, and all after ten. So an
      answer one tick later scores 0.9, where the documentation has 1.0. */
  lemma EqualDelays(ctx: MetricContext, delay: nat)
    requires ctx.threatsSeen > 0 && ctx.delays != [] && forall i :: 0 <= i < |ctx.delays| ==> ctx.delays[i] == delay
    ensures ThreatResponse(ctx) == if delay <= 10 then 1.0 - delay as real / 10.0 else 0.0
  {
    MeanOfEqual(Capped(ctx.delays), (if delay < 10 then delay else 10) as real);
  }

  /** Slower answers never score higher. */
  lemma SlowerIsNoBetter(ctx: MetricContext, slower: MetricContext)
    requires slower == ctx.(delays := slower.delays) && |slower.delays| == |ctx.delays|
    requires forall i :: 0 <= i < |ctx.delays| ==> ctx.delays[i] <= slower.delays[i]
    ensures ThreatResponse(slower) <= ThreatResponse(ctx)
  {
    if ctx.delays != [] {
      MeanGrows(Capped(ctx.delays), Capped(slower.delays));
    }
  }

  // ---- Efficiency and coherence ----

  /** Executing everything scores 1, nothing 0, and a tick without writes one half. */
  lemma EfficiencyEnds(ctx: MetricContext)
    requires ctx.executions != []
    ensures (forall i :: 0 <= i < |ctx.executions| ==>
      ctx.executions[i].executed == ctx.executions[i].total && ctx.executions[i].total > 0) ==> Efficiency(ctx) == 1.0
    ensures (forall i :: 0 <= i < |ctx.executions| ==>
      ctx.executions[i].executed == 0 && ctx.executions[i].total > 0) ==> Efficiency(ctx) == 0.0
    ensures (forall i :: 0 <= i < |ctx.executions| ==> ctx.executions[i].total == 0) ==> Efficiency(ctx) == 0.5
  {
    var rates := Rates(ctx.executions);
    if forall i :: 0 <= i < |ctx.executions| ==>
      ctx.executions[i].executed == ctx.executions[i].total && ctx.executions[i].total > 0
    {
      forall i | 0 <= i < |rates| ensures rates[i] == 1.0 {
        Scaled(ctx.executions[i].executed as real, ctx.executions[i].total as real);
      }
      MeanOfEqual(rates, 1.0);
    }
    if forall i :: 0 <= i < |ctx.executions| ==> ctx.executions[i].executed == 0 && ctx.executions[i].total > 0 {
      MeanOfEqual(rates, 0.0);
    }
    if forall i :: 0 <= i < |ctx.executions| ==> ctx.executions[i].total == 0 {
      MeanOfEqual(rates, 0.5);
    }
  }

  /** More of the same writes executed never scores lower. */
  lemma MoreIsNoWorse(ctx: MetricContext, more: MetricContext)
    requires |more.executions| == |ctx.executions|
    requires forall i :: 0 <= i < |ctx.executions| ==>
      ctx.executions[i].total == more.executions[i].total && ctx.executions[i].executed <= more.executions[i].executed
    ensures Efficiency(ctx) <= Efficiency(more)
  {
    if ctx.executions != [] {
      forall i | 0 <= i < |ctx.executions| ensures Rate(ctx.executions[i]) <= Rate(more.executions[i]) {
        var a, b := ctx.executions[i], more.executions[i];
        if a.total > 0 {
          QuotientGrows(a.executed as real, b.executed as real, a.total as real);
        }
      }
      MeanGrows(Rates(ctx.executions), Rates(more.executions));
    }
  }

  /** A tick's coherence is 1 less the flagged share of its executed writes, and one half when
      nothing was executed. */
  lemma CoherentShare(e: ExecutionResult)
    ensures |Executed(e.outcomes)| == 0 ==> Coherent(e) == 0.5
    ensures |Executed(e.outcomes)| > 0 ==>
      (1.0 - Coherent(e)) * |Executed(e.outcomes)| as real == |Flagged(e.outcomes)| as real
  {
    if |Executed(e.outcomes)| > 0 {
      Scaled(|Flagged(e.outcomes)| as real, |Executed(e.outcomes)| as real);
    }
  }

  // ---- The composite ----

  /** A metric counts with its own weight: all others 0 and one 1 give its weight. */
  lemma {:induction false} CompositeOfUnit(weights: seq<real>, values: seq<real>, k: nat)
    requires k < |weights| == |values| && values[k] == 1.0
    requires forall i :: 0 <= i < |values| && i != k ==> values[i] == 0.0
    ensures Composite(weights, values) == weights[k]
  {
    var n := |values| - 1;
    if k == n {
      CompositeOfZero(weights[..n], values[..n]);
    } else {
      CompositeOfUnit(weights[..n], values[..n], k);
    }
  }
}
