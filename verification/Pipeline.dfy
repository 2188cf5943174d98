/** Arbitrate, execute, judge: what the resolver and the executor guarantee about what the
    contradiction detector can find. */
module Pipeline {
  import opened Values
  import opened Actions
  import opened Preflight
  import opened Resolver
  import opened ResolverLaws
  import opened Coherence
  import opened Executor

  predicate PawnKind(e: Endpoint) { e == Draft || e == WorkPriority || MovesOrWorks(e) }

  predicate ColonyKind(e: Endpoint) { IsZone(e) || e == Blueprint || e == ResearchTarget }

  function OutcomeSlot(o: ActionOutcome): Slot { Slot(o.target, KindOf(o)) }

  // ---- What can still contradict once each slot holds one write ----

  /** A `move` and a `job_assign` on one pawn. */
  predicate MoveAndJob(a: ActionOutcome, b: ActionOutcome) {
    a.target == b.target && MovesOrWorks(KindOf(a)) && MovesOrWorks(KindOf(b)) && KindOf(a) != KindOf(b)
  }

  /** A growing zone and a stockpile zone that overlap. */
  predicate FarmOnStockpile(a: ActionOutcome, b: ActionOutcome) {
    KindOf(a) != KindOf(b) && ZoneClash(a, b)
  }

  predicate Residual(a: ActionOutcome, b: ActionOutcome) { MoveAndJob(a, b) || FarmOnStockpile(a, b) }

  /** Two slots to the resolver that the detector takes for one: to it a pawn write without target
      is one on the pawn `""`, and the target of a colony write means nothing. */
  predicate Confusable(s: Slot, t: Slot) {
    s != t &&
    if MovesOrWorks(s.kind) && MovesOrWorks(t.kind) then
      s.kind != t.kind && s.target != t.target && PawnOf(s.target) == PawnOf(t.target)
    else
      s.kind == t.kind &&
      (ColonyKind(s.kind) ||
       ((s.kind == Draft || s.kind == WorkPriority) && PawnOf(s.target) == PawnOf(t.target)))
  }

  predicate Compatible(s: Slot, t: Slot) { s != t && !Confusable(s, t) }

  /** Writes of compatible slots clash in the two residual ways only. */
  lemma ClashAcrossSlots(a: ActionOutcome, b: ActionOutcome)
    requires Compatible(OutcomeSlot(a), OutcomeSlot(b))
    ensures Clash(a, b) <==> Residual(a, b)
  {
    NoPawnClash(a, b);
    NoColonyClash(a, b);
    ZonesFarmOnStockpile(a, b);
    assert MoveJobClash(a, b) <==> MoveAndJob(a, b);
  }

  lemma NoPawnClash(a: ActionOutcome, b: ActionOutcome)
    requires Compatible(OutcomeSlot(a), OutcomeSlot(b))
    ensures !DraftClash(a, b) && !WorkClash(a, b)
  {
    var pawn, kind := PawnOf(a.target), KindOf(a);
    assert kind == KindOf(b) && pawn == PawnOf(b.target) ==> kind != Draft && kind != WorkPriority;
  }

  lemma NoColonyClash(a: ActionOutcome, b: ActionOutcome)
    requires Compatible(OutcomeSlot(a), OutcomeSlot(b))
    ensures !BlueprintClash(a, b) && !ResearchClash(a, b)
  {
    assert KindOf(a) == KindOf(b) ==> !ColonyKind(KindOf(a));
  }

  lemma ZonesFarmOnStockpile(a: ActionOutcome, b: ActionOutcome)
    requires Compatible(OutcomeSlot(a), OutcomeSlot(b))
    ensures ZoneClash(a, b) <==> FarmOnStockpile(a, b)
  {
    assert KindOf(a) == KindOf(b) ==> !ColonyKind(KindOf(a));
  }

  /** Parameters with which writes of confusable slots clash. */
  function ClashingParams(kind: Endpoint, first: bool): Params {
    if kind == Draft then map["is_drafted" := Bool(first)]
    else if kind == WorkPriority then IntParams(Setting(first))
    else if kind == ResearchTarget then map["project" := Str(if first then "a" else "b")]
    else map["x" := Int(0), "z" := Int(0)]
  }

  function Setting(first: bool): map<string, int> { map["Growing" := if first then 1 else 2] }

  lemma SettingFlat(first: bool)
    ensures Setting(first) != map[] && Setting(first).Keys !! RESERVED
  {
    assert "Growing" in Setting(first);
  }

  /** Whatever pair of slots is confusable, some pair of their writes clashes otherwise. */
  lemma ConfusableWritesClash(a: ActionOutcome, b: ActionOutcome)
    requires Confusable(OutcomeSlot(a), OutcomeSlot(b))
    requires a.parameters == ClashingParams(KindOf(a), true) && b.parameters == ClashingParams(KindOf(b), false)
    ensures Clash(a, b) && !Residual(a, b)
  {
    NotResidual(a, b);
    if KindOf(a) == WorkPriority {
      SettingsClash(a, b);
    } else if PawnKind(KindOf(a)) {
      assert DraftClash(a, b) || MoveJobClash(a, b);
    } else {
      ColonyWritesClash(a, b);
    }
  }

  lemma NotResidual(a: ActionOutcome, b: ActionOutcome)
    requires Confusable(OutcomeSlot(a), OutcomeSlot(b))
    ensures !Residual(a, b)
  {
  }

  lemma ColonyWritesClash(a: ActionOutcome, b: ActionOutcome)
    requires KindOf(a) == KindOf(b) && ColonyKind(KindOf(a))
    requires a.parameters == ClashingParams(KindOf(a), true) && b.parameters == ClashingParams(KindOf(b), false)
    ensures ZoneClash(a, b) || BlueprintClash(a, b) || ResearchClash(a, b)
  {
  }

  lemma SettingsClash(a: ActionOutcome, b: ActionOutcome)
    requires KindOf(a) == KindOf(b) == WorkPriority && PawnOf(a.target) == PawnOf(b.target)
    requires a.parameters == IntParams(Setting(true)) && b.parameters == IntParams(Setting(false))
    ensures WorkClash(a, b)
  {
    DetectorReadsFlat(Setting(true));
    DetectorReadsFlat(Setting(false));
    assert "Growing" in Setting(true) && "Growing" in Setting(false);
  }

  /** Executed writes contradict each other in the two residual ways only. */
  ghost predicate OnlyResidue(os: seq<ActionOutcome>) {
    forall i, j :: i in Executed(os) && j in Executed(os) && i != j ==>
      (Clash(os[i], os[j]) <==> Residual(os[i], os[j]))
  }

  /** The executed writes with a residual counterpart. */
  function ResidualFlags(os: seq<ActionOutcome>): set<nat> {
    set i: nat | i in Executed(os) && exists j :: j in Executed(os) && j != i && Residual(os[i], os[j])
  }

  /** No executed write has a residual counterpart. */
  ghost predicate ResidueFree(os: seq<ActionOutcome>) {
    forall i, j :: i in Executed(os) && j in Executed(os) ==> !Residual(os[i], os[j])
  }

  lemma ResidueFlagged(os: seq<ActionOutcome>)
    requires OnlyResidue(os)
    ensures Flagged(os) == ResidualFlags(os)
    ensures ResidueFree(os) ==> Flagged(os) == {}
  {
  }

  ghost predicate SlotsCompatible(os: seq<ActionOutcome>) {
    forall i, j :: 0 <= i < j < |os| ==> Compatible(OutcomeSlot(os[i]), OutcomeSlot(os[j]))
  }

  lemma CompatibleResidue(os: seq<ActionOutcome>)
    requires SlotsCompatible(os)
    ensures OnlyResidue(os)
  {
    forall i, j | i in Executed(os) && j in Executed(os) && i != j
      ensures Clash(os[i], os[j]) <==> Residual(os[i], os[j])
    {
      ClashAcrossSlots(os[i], os[j]);
    }
  }

  // ---- What the plans ask for ----

  /** Some plan holds the action. */
  ghost predicate Proposes(plans: seq<ActionPlan>, a: Action) {
    exists p, k :: 0 <= p < |plans| && 0 <= k < |plans[p].actions| && plans[p].actions[k] == a
  }

  lemma {:induction false} TagsPropose(plans: seq<ActionPlan>, crisis: Crisis, a: Action)
    ensures (exists t :: t in Tag(plans, crisis) && t.action == a) <==> Proposes(plans, a)
  {
    if plans != [] {
      var front, last := plans[..|plans| - 1], plans[|plans| - 1];
      var tagged, more := Tag(front, crisis), TagPlan(last, crisis, |Tag(front, crisis)|);
      TagsPropose(front, crisis, a);
      if Proposes(front, a) {
        var p, k :| 0 <= p < |front| && 0 <= k < |front[p].actions| && front[p].actions[k] == a;
        assert plans[p].actions[k] == a;
        var t :| t in tagged && t.action == a;
        assert t in Tag(plans, crisis);
      }
      if k :| 0 <= k < |last.actions| && last.actions[k] == a {
        assert more[k] in Tag(plans, crisis) && plans[|plans| - 1].actions[k] == a;
      }
    }
  }

  /** The plans ask for no two slots that the detector would confuse. */
  ghost predicate Unconfusable(plans: seq<ActionPlan>) {
    forall a, b :: Proposes(plans, a) && Proposes(plans, b) ==> !Confusable(SlotOf(a), SlotOf(b))
  }

  /** It is enough that pawn writes name a pawn and colony writes do not. */
  predicate WellTargeted(s: Slot) {
    (PawnKind(s.kind) ==> s.target.Some?) && (ColonyKind(s.kind) ==> s.target.None?)
  }

  lemma WellTargetedUnconfusable(plans: seq<ActionPlan>)
    requires forall a :: Proposes(plans, a) ==> WellTargeted(SlotOf(a))
    ensures Unconfusable(plans)
  {
  }

  ghost predicate SlotsApart(actions: seq<Action>) {
    forall i, j :: 0 <= i < j < |actions| ==> Compatible(SlotOf(actions[i]), SlotOf(actions[j]))
  }

  lemma OutputProposed(plans: seq<ActionPlan>, state: GameState, i: nat)
    requires i < |Resolution(Tags(plans, state))|
    ensures exists a :: Proposes(plans, a) && SlotOf(a) == SlotOf(Resolution(Tags(plans, state))[i])
  {
    var tagged := Tags(plans, state);
    OutputIsLeast(plans, state, i);
    var s := SlotOf(Resolution(tagged)[i]);
    var t :| IsLeastInSlot(tagged, s, t);
    TagsPropose(plans, DetectCrisis(state), t.action);
  }

  lemma ResolutionSlotsApart(plans: seq<ActionPlan>, state: GameState)
    requires Unconfusable(plans)
    ensures SlotsApart(Resolution(Tags(plans, state)))
  {
    var out := Resolution(Tags(plans, state));
    forall i, j | 0 <= i < j < |out| ensures Compatible(SlotOf(out[i]), SlotOf(out[j])) {
      AtMostOnePerSlot(plans, state, i, j);
      OutputProposed(plans, state, i);
      OutputProposed(plans, state, j);
    }
  }

  lemma {:induction false} RealWritesApart(actions: seq<Action>)
    requires SlotsApart(actions)
    ensures SlotsApart(RealWrites(actions))
    ensures forall a :: a in RealWrites(actions) ==> a in actions
  {
    if actions != [] {
      var front, last := actions[..|actions| - 1], actions[|actions| - 1];
      RealWritesApart(front);
      forall i | 0 <= i < |RealWrites(front)| ensures Compatible(SlotOf(RealWrites(front)[i]), SlotOf(last)) {
        assert RealWrites(front)[i] in front;
      }
    }
  }

  // ---- Resolver meets detector ----

  /** The outcomes of a list of actions that all succeeded. */
  function AllSucceed(actions: seq<Action>): seq<ActionOutcome> {
    seq(|actions|, i requires 0 <= i < |actions| => OutcomeOf(actions[i], true))
  }

  /** Of the resolver's output, all of it successful, the detector flags exactly the moves
      with a job on the same pawn and the growing zone over the stockpile zone. */
  lemma ResolverMeetsDetector(plans: seq<ActionPlan>, state: GameState)
    requires Unconfusable(plans)
    ensures var os := AllSucceed(Resolution(Tags(plans, state)));
      OnlyResidue(os) && Flagged(os) == ResidualFlags(os) && (ResidueFree(os) ==> |Flagged(os)| == 0)
  {
    var os := AllSucceed(Resolution(Tags(plans, state)));
    ResolutionSlotsApart(plans, state);
    CompatibleResidue(os);
    ResidueFlagged(os);
  }

  /** The same plans with other parameters. */
  ghost predicate Reparametrised(plans: seq<ActionPlan>, others: seq<ActionPlan>) {
    |others| == |plans| && forall p :: 0 <= p < |plans| ==> PlanReparametrised(plans[p], others[p])
  }

  ghost predicate PlanReparametrised(plan: ActionPlan, other: ActionPlan) {
    other == plan.(actions := other.actions) && |other.actions| == |plan.actions| &&
    forall k :: 0 <= k < |plan.actions| ==>
      other.actions[k] == plan.actions[k].(parameters := other.actions[k].parameters)
  }

  /** Parameters chosen slot by slot. */
  function Refit(a: Action, choice: Slot -> Params): Action { a.(parameters := choice(SlotOf(a))) }

  function RefitPlan(plan: ActionPlan, choice: Slot -> Params): ActionPlan {
    plan.(actions := seq(|plan.actions|, k requires 0 <= k < |plan.actions| => Refit(plan.actions[k], choice)))
  }

  function RefitPlans(plans: seq<ActionPlan>, choice: Slot -> Params): seq<ActionPlan> {
    seq(|plans|, p requires 0 <= p < |plans| => RefitPlan(plans[p], choice))
  }

  lemma RefitProposes(plans: seq<ActionPlan>, choice: Slot -> Params)
    ensures forall a :: Proposes(plans, a) ==> Proposes(RefitPlans(plans, choice), Refit(a, choice))
    ensures forall b :: Proposes(RefitPlans(plans, choice), b) ==> b.parameters == choice(SlotOf(b))
  {
    var others := RefitPlans(plans, choice);
    forall a | Proposes(plans, a) ensures Proposes(others, Refit(a, choice)) {
      var p, k :| 0 <= p < |plans| && 0 <= k < |plans[p].actions| && plans[p].actions[k] == a;
      assert others[p].actions[k] == Refit(a, choice);
    }
    forall b | Proposes(others, b) ensures b.parameters == choice(SlotOf(b)) {
      var p, k :| 0 <= p < |others| && 0 <= k < |others[p].actions| && others[p].actions[k] == b;
      assert SlotOf(b) == SlotOf(plans[p].actions[k]);
    }
  }

  lemma RefitReparametrises(plans: seq<ActionPlan>, choice: Slot -> Params)
    ensures Reparametrised(plans, RefitPlans(plans, choice))
  {
  }

  lemma {:induction false} UniformWorks(candidates: seq<Tagged>, m: map<string, int>)
    requires candidates != [] && forall t :: t in candidates ==> Extract(t.action.parameters) == m
    ensures Works(candidates) == m.Keys
  {
    var front := candidates[..|candidates| - 1];
    if front == [] {
      assert Works(front) == {};
    } else {
      UniformWorks(front, m);
    }
  }

  lemma UniformValues(candidates: seq<Tagged>, m: map<string, int>)
    requires candidates != [] && forall t :: t in candidates ==> Extract(t.action.parameters) == m
    ensures MergedWork(candidates) == m
  {
    UniformWorks(candidates, m);
    forall w | w in m ensures MergedWork(candidates)[w] == m[w] {
      OwnerMentions(candidates, w);
    }
  }

  /** Candidates that all carry one flat payload merge to that payload. */
  lemma MergeUniform(candidates: seq<Tagged>, m: map<string, int>)
    requires candidates != [] && m != map[] && m.Keys !! RESERVED
    requires forall t :: t in candidates ==> t.action.parameters == IntParams(m)
    ensures Merge(candidates).parameters == IntParams(m)
  {
    FlatReadsBack(m);
    UniformValues(candidates, m);
    assert m.Keys == Works(candidates);
  }

  /** When all actions of a slot carry the same parameters, so does what it keeps. */
  lemma UniformSlotKept(plans: seq<ActionPlan>, state: GameState, s: Slot, params: Params, m: map<string, int>)
    returns (i: nat)
    requires s.kind != NoAction && exists a :: Proposes(plans, a) && SlotOf(a) == s
    requires forall a :: Proposes(plans, a) && SlotOf(a) == s ==> a.parameters == params
    requires s.kind == WorkPriority ==> params == IntParams(m) && m != map[] && m.Keys !! RESERVED
    ensures i < |Resolution(Tags(plans, state))|
    ensures var a := Resolution(Tags(plans, state))[i]; SlotOf(a) == s && a.parameters == params
  {
    var crisis := DetectCrisis(state);
    var tagged := Tags(plans, state);
    var a :| Proposes(plans, a) && SlotOf(a) == s;
    TagsPropose(plans, crisis, a);
    EverySlotSurvives(plans, state, s);
    var b :| b in Resolution(tagged) && SlotOf(b) == s;
    i :| 0 <= i < |Resolution(tagged)| && Resolution(tagged)[i] == b;
    OutputIsLeast(plans, state, i);
    GroupMembers(tagged, s);
    forall t | t in Group(tagged, s) ensures t.action.parameters == params {
      TagsPropose(plans, crisis, t.action);
    }
    if s.kind == WorkPriority && s.target.Some? {
      MergeUniform(Group(tagged, s), m);
    }
  }

  /** The parameters that show two slots confusable. */
  function Telling(s: Slot, t: Slot): Slot -> Params {
    (q: Slot) => if q == s then ClashingParams(s.kind, true) else ClashingParams(t.kind, false)
  }

  /** Write `i` was executed for slot `s`, with its telling parameters. */
  predicate Tells(os: seq<ActionOutcome>, i: nat, s: Slot, first: bool) {
    i in Executed(os) && OutcomeSlot(os[i]) == s && os[i].parameters == ClashingParams(s.kind, first)
  }

  lemma TellingApart(os: seq<ActionOutcome>, s: Slot, i: nat, t: Slot, j: nat)
    requires Confusable(s, t) && Tells(os, i, s, true) && Tells(os, j, t, false)
    ensures !OnlyResidue(os)
  {
    ConfusableWritesClash(os[i], os[j]);
  }

  /** Slot `s` of the refitted plans is kept with its telling parameters. */
  lemma TellingKept(
    plans: seq<ActionPlan>, others: seq<ActionPlan>, state: GameState, a: Action, s: Slot,
    choice: Slot -> Params, first: bool)
    returns (i: nat)
    requires others == RefitPlans(plans, choice)
    requires s.kind != NoAction && Proposes(plans, a) && SlotOf(a) == s
    requires choice(s) == ClashingParams(s.kind, first)
    ensures Tells(AllSucceed(Resolution(Tags(others, state))), i, s, first)
  {
    RefitProposes(plans, choice);
    assert SlotOf(Refit(a, choice)) == s;
    SettingFlat(first);
    i := UniformSlotKept(others, state, s, choice(s), Setting(first));
  }

  lemma TellingChoice(s: Slot, t: Slot)
    requires Confusable(s, t)
    ensures s.kind != NoAction && t.kind != NoAction
    ensures Telling(s, t)(s) == ClashingParams(s.kind, true) && Telling(s, t)(t) == ClashingParams(t.kind, false)
  {
  }

  lemma ConfusableMislead(plans: seq<ActionPlan>, state: GameState, a: Action, b: Action)
    requires Proposes(plans, a) && Proposes(plans, b) && Confusable(SlotOf(a), SlotOf(b))
    ensures var others := RefitPlans(plans, Telling(SlotOf(a), SlotOf(b)));
      !OnlyResidue(AllSucceed(Resolution(Tags(others, state))))
  {
    var s, t := SlotOf(a), SlotOf(b);
    var others := RefitPlans(plans, Telling(s, t));
    TellingChoice(s, t);
    var i := TellingKept(plans, others, state, a, s, Telling(s, t), true);
    var j := TellingKept(plans, others, state, b, t, Telling(s, t), false);
    TellingApart(AllSucceed(Resolution(Tags(others, state))), s, i, t, j);
  }

  /** The condition is exact: the plans ask for no confusable slots if and only if, whatever
      parameters their actions carry, the detector finds nothing but the residue. */
  lemma UnconfusableIff(plans: seq<ActionPlan>, state: GameState)
    ensures Unconfusable(plans) <==>
      forall others :: Reparametrised(plans, others) ==> OnlyResidue(AllSucceed(Resolution(Tags(others, state))))
  {
    if Unconfusable(plans) {
      forall others | Reparametrised(plans, others)
        ensures OnlyResidue(AllSucceed(Resolution(Tags(others, state))))
      {
        ReparametrisedUnconfusable(plans, others);
        ResolverMeetsDetector(others, state);
      }
    } else {
      var a, b :| Proposes(plans, a) && Proposes(plans, b) && Confusable(SlotOf(a), SlotOf(b));
      ConfusableMislead(plans, state, a, b);
      RefitReparametrises(plans, Telling(SlotOf(a), SlotOf(b)));
    }
  }

  lemma ReparametrisedUnconfusable(plans: seq<ActionPlan>, others: seq<ActionPlan>)
    requires Reparametrised(plans, others) && Unconfusable(plans)
    ensures Unconfusable(others)
  {
    forall b | Proposes(others, b) ensures exists a :: Proposes(plans, a) && SlotOf(a) == SlotOf(b) {
      var p, k :| 0 <= p < |others| && 0 <= k < |others[p].actions| && others[p].actions[k] == b;
      assert Proposes(plans, plans[p].actions[k]);
    }
  }

  /** The same for whatever the executor makes of that output, with any zones remembered and
      any replies from RIMAPI. */
  lemma PipelineLeavesResidualOnly(plans: seq<ActionPlan>, state: GameState, g: Guards, replies: seq<Reply>)
    requires Unconfusable(plans) && |replies| == |Resolution(Tags(plans, state))|
    ensures var os := RunOutcomes(g, Resolution(Tags(plans, state)), replies);
      OnlyResidue(os) && Flagged(os) == ResidualFlags(os)
  {
    var out := Resolution(Tags(plans, state));
    ResolutionSlotsApart(plans, state);
    RealWritesApart(out);
    OutcomesMatchWrites(g, out, replies);
    var os := RunOutcomes(g, out, replies);
    forall i | 0 <= i < |os| ensures OutcomeSlot(os[i]) == SlotOf(RealWrites(out)[i]) {
      assert os[i] == OutcomeOf(RealWrites(out)[i], os[i].success);
    }
    CompatibleResidue(os);
    ResidueFlagged(os);
  }
}
