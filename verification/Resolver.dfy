/** Conflict resolution for multi-agent plans: actions are grouped per pawn and endpoint,
    the least key wins a group, and `work_priority` groups are merged per work type. */
module Resolver {
  import opened Values
  import opened Seqs
  import opened Actions
  import opened Preflight
  import opened Numbers

  datatype Threat = Threat(threatType: string, threatLevel: real)
  datatype GameState = GameState(tick: int, threats: seq<Threat>, health: seq<real>)
  datatype Crisis = Crisis(raidActive: bool, medicalEmergency: bool)
  datatype Tagged = Tagged(action: Action, role: string, rolePriority: int, confidence: real, seqNo: int)
  datatype ResolverStats = ResolverStats(conflictsTotal: int, conflictsResolved: int)

  /** What two actions compete for: an endpoint on one pawn, or on the colony (`None`). */
  datatype Slot = Slot(target: Option<string>, kind: Endpoint)

  function SlotOf(a: Action): Slot {
    Slot(a.target, ResolveEndpoint(a.actionType))
  }

  // ---- Crisis detection and tagging ----

  function MaxOf(xs: seq<real>): real
    requires xs != []
  {
    var last := xs[|xs| - 1];
    if |xs| == 1 then last
    else
      var front := MaxOf(xs[..|xs| - 1]);
      if last > front then last else front
  }

  function Levels(threats: seq<Threat>): seq<real> {
    seq(|threats|, i requires 0 <= i < |threats| => threats[i].threatLevel)
  }

  function MaxThreat(threats: seq<Threat>): real {
    if threats == [] then 0.0 else MaxOf(Levels(threats))
  }

  function DetectCrisis(state: GameState): Crisis {
    var disease := exists i :: 0 <= i < |state.threats| && state.threats[i].threatType == "disease";
    var avgHealth := if state.health == [] then 1.0 else Mean(state.health);
    Crisis(MaxThreat(state.threats) > 0.5, disease || avgHealth < 0.5)
  }

  lemma {:induction false} MaxExceeds(xs: seq<real>, bound: real)
    requires xs != []
    ensures MaxOf(xs) > bound <==> exists i :: 0 <= i < |xs| && xs[i] > bound
  {
    if |xs| > 1 {
      var front := xs[..|xs| - 1];
      MaxExceeds(front, bound);
      if i :| 0 <= i < |front| && front[i] > bound {
        assert xs[i] > bound;
      }
      if i :| 0 <= i < |xs| && xs[i] > bound {
        assert i < |front| ==> front[i] > bound;
      }
    }
  }

  /** A raid is on exactly when some threat is above the threshold. */
  lemma RaidMeansThreat(state: GameState)
    ensures DetectCrisis(state).raidActive <==>
      exists i :: 0 <= i < |state.threats| && state.threats[i].threatLevel > 0.5
  {
    var levels := Levels(state.threats);
    if state.threats != [] {
      MaxExceeds(levels, 0.5);
      if i :| 0 <= i < |state.threats| && state.threats[i].threatLevel > 0.5 {
        assert levels[i] > 0.5;
      }
      if i :| 0 <= i < |levels| && levels[i] > 0.5 {
        assert state.threats[i].threatLevel > 0.5;
      }
    }
  }

  function RolePriority(role: string, crisis: Crisis): int {
    if crisis.raidActive && role == "defense_commander" then 1
    else if crisis.medicalEmergency && role == "medical_officer" then 1
    else match role
      case "map_analyst" => 10
      case "resource_manager" => 3
      case "defense_commander" => 3
      case "medical_officer" => 4
      case _ => 5
  }

  function TagPlan(plan: ActionPlan, crisis: Crisis, start: int): seq<Tagged> {
    seq(|plan.actions|, i requires 0 <= i < |plan.actions| =>
      Tagged(plan.actions[i], plan.role, RolePriority(plan.role, crisis), plan.confidence, start + i))
  }

  /** Every action in plan order, numbered from 0. */
  function Tag(plans: seq<ActionPlan>, crisis: Crisis): seq<Tagged> {
    if plans == [] then []
    else
      var front := Tag(plans[..|plans| - 1], crisis);
      front + TagPlan(plans[|plans| - 1], crisis, |front|)
  }

  // ---- The winner of a group ----

  /** `_winner_key(a) < _winner_key(b)` */
  predicate Beats(a: Tagged, b: Tagged) {
    if a.action.priority != b.action.priority then a.action.priority < b.action.priority
    else if a.rolePriority != b.rolePriority then a.rolePriority < b.rolePriority
    else if a.confidence != b.confidence then a.confidence > b.confidence
    else a.seqNo > b.seqNo
  }

  /** `min(candidates, key=_winner_key)` */
  function Winner(candidates: seq<Tagged>): Tagged
    requires candidates != []
  {
    var last := candidates[|candidates| - 1];
    if |candidates| == 1 then last
    else
      var best := Winner(candidates[..|candidates| - 1]);
      if Beats(last, best) then last else best
  }

  method MinByKey(candidates: seq<Tagged>) returns (best: Tagged)
    requires candidates != []
    ensures best == Winner(candidates)
  {
    best := candidates[0];
    for i := 1 to |candidates|
      invariant best == Winner(candidates[..i])
    {
      assert candidates[..i + 1][..i] == candidates[..i];
      if Beats(candidates[i], best) {
        best := candidates[i];
      }
    }
    assert candidates[..|candidates|] == candidates;
  }

  // ---- Merging work priorities ----

  predicate MentionsWork(t: Tagged, work: string) {
    work in Extract(t.action.parameters)
  }

  function Mentions(work: string): Tagged -> bool { (t: Tagged) => MentionsWork(t, work) }

  function Mentioning(candidates: seq<Tagged>, work: string): seq<Tagged> {
    Filter(Mentions(work), candidates)
  }

  /** Every work type some candidate mentions. */
  function Works(candidates: seq<Tagged>): set<string> {
    if candidates == [] then {}
    else Works(candidates[..|candidates| - 1]) + Extract(candidates[|candidates| - 1].action.parameters).Keys
  }

  lemma {:induction false} WorksMentioned(candidates: seq<Tagged>, work: string)
    ensures work in Works(candidates) <==> Mentioning(candidates, work) != []
    ensures work in Works(candidates) <==> exists t :: t in candidates && MentionsWork(t, work)
  {
    if candidates != [] {
      var front, last := candidates[..|candidates| - 1], candidates[|candidates| - 1];
      assert candidates == front + [last];
      WorksMentioned(front, work);
    }
  }

  /** The candidate whose value a work type keeps. */
  function Owner(candidates: seq<Tagged>, work: string): Tagged
    requires work in Works(candidates)
  {
    WorksMentioned(candidates, work);
    Winner(Mentioning(candidates, work))
  }

  lemma OwnerMentions(candidates: seq<Tagged>, work: string)
    requires work in Works(candidates)
    ensures Owner(candidates, work) in candidates && MentionsWork(Owner(candidates, work), work)
  {
    WorksMentioned(candidates, work);
    WinnerIn(Mentioning(candidates, work));
    FilterIn(Mentions(work), candidates, Owner(candidates, work));
  }

  function MergedValue(candidates: seq<Tagged>, work: string): int
    requires work in Works(candidates)
  {
    OwnerMentions(candidates, work);
    Extract(Owner(candidates, work).action.parameters)[work]
  }

  lemma {:induction false} WinnerIn(candidates: seq<Tagged>)
    requires candidates != []
    ensures Winner(candidates) in candidates
  {
    if |candidates| > 1 {
      WinnerIn(candidates[..|candidates| - 1]);
    }
  }

  function MergedWork(candidates: seq<Tagged>): map<string, int> {
    map w | w in Works(candidates) :: MergedValue(candidates, w)
  }

  function Merge(candidates: seq<Tagged>): Action
    requires candidates != []
  {
    var base := Winner(candidates).action;
    if Works(candidates) == {} then base
    else base.(parameters := IntParams(MergedWork(candidates)))
  }

  lemma OwnerStep(front: seq<Tagged>, last: Tagged, work: string)
    requires work in Works(front + [last])
    ensures work in Works(front) || MentionsWork(last, work)
    ensures Owner(front + [last], work) ==
      if !MentionsWork(last, work) then Owner(front, work)
      else if work !in Works(front) || Beats(last, Owner(front, work)) then last
      else Owner(front, work)
  {
    assert (front + [last])[..|front|] == front;
    WorksMentioned(front, work);
    FilterStep(Mentions(work), front, last);
    var group := Mentioning(front + [last], work);
    if MentionsWork(last, work) {
      assert group == Mentioning(front, work) + [last];
      assert group[..|group| - 1] == Mentioning(front, work);
    } else {
      assert group == Mentioning(front, work);
    }
  }

  /** Offer one candidate for every work type it mentions. */
  method OfferWork(byType: map<string, Tagged>, ta: Tagged) returns (r: map<string, Tagged>)
    ensures r.Keys == byType.Keys + Extract(ta.action.parameters).Keys
    ensures forall w :: w in r ==> 
      r[w] == (if MentionsWork(ta, w) && (w !in byType || Beats(ta, byType[w])) then ta else byType[w])
  {
    r := byType;
    var pairs := ExtractWorkPriorities(ta.action.parameters);
    var todo := pairs.Keys;
    while todo != {}
      invariant todo <= pairs.Keys
      invariant r.Keys == byType.Keys + (pairs.Keys - todo)
      invariant forall w :: w in r ==> 
        r[w] == (if w in pairs && w !in todo && (w !in byType || Beats(ta, byType[w])) then ta else byType[w])
      decreases todo
    {
      var work :| work in todo;
      if work !in r || Beats(ta, r[work]) {
        r := r[work := ta];
      }
      todo := todo - {work};
    }
  }

  method MergeWorkPriority(candidates: seq<Tagged>) returns (merged: Action)
    requires candidates != []
    ensures merged == Merge(candidates)
  {
    var byType: map<string, Tagged> := map[];
    for i := 0 to |candidates|
      invariant byType.Keys == Works(candidates[..i])
      invariant forall w :: w in byType ==> byType[w] == Owner(candidates[..i], w)
    {
      assert candidates[..i + 1] == candidates[..i] + [candidates[i]];
      assert candidates[..i + 1][..i] == candidates[..i];
      byType := OfferWork(byType, candidates[i]);
      forall w | w in byType ensures byType[w] == Owner(candidates[..i + 1], w) {
        OwnerStep(candidates[..i], candidates[i], w);
      }
    }
    assert candidates[..|candidates|] == candidates;
    var winner := MinByKey(candidates);
    merged := winner.action;
    if byType == map[] {
      return;
    }
    forall w | w in byType
      ensures MentionsWork(byType[w], w)
      ensures Extract(byType[w].action.parameters)[w] == MergedWork(candidates)[w]
    {
      OwnerMentions(candidates, w);
    }
    var parameters := MergedParameters(byType, MergedWork(candidates));
    merged := merged.(parameters := parameters);
  }

  /** `{work: value its owner gives it}` */
  method MergedParameters(byType: map<string, Tagged>, ghost values: map<string, int>)
    returns (parameters: Params)
    requires byType.Keys == values.Keys
    requires forall w :: w in byType ==>
      MentionsWork(byType[w], w) && Extract(byType[w].action.parameters)[w] == values[w]
    ensures parameters == IntParams(values)
  {
    parameters := map[];
    ghost var done: map<string, int> := map[];
    var todo := byType.Keys;
    while todo != {}
      invariant todo <= byType.Keys && done.Keys == byType.Keys - todo
      invariant parameters == IntParams(done)
      invariant forall w :: w in done ==> done[w] == values[w]
      decreases todo
    {
      var work :| work in todo;
      var pri := ValueFor(byType[work].action.parameters, work);
      IntParamsExtend(done, work, pri);
      parameters := parameters[work := Int(pri)];
      done := done[work := pri];
      todo := todo - {work};
    }
    assert done == values;
  }

  lemma IntParamsExtend(m: map<string, int>, work: string, pri: int)
    ensures IntParams(m[work := pri]) == IntParams(m)[work := Int(pri)]
  {
  }

  method ValueFor(params: Params, work: string) returns (pri: int)
    requires work in Extract(params)
    ensures pri == Extract(params)[work]
  {
    var pairs := ExtractWorkPriorities(params);
    pri := pairs[work];
  }

  // ---- Grouping ----

  /** The slots in order of first appearance. */
  function Slots(tagged: seq<Tagged>): seq<Slot> {
    if tagged == [] then []
    else
      var front, s := Slots(tagged[..|tagged| - 1]), SlotOf(tagged[|tagged| - 1].action);
      if s in front then front else front + [s]
  }

  function InSlot(s: Slot): Tagged -> bool { (t: Tagged) => SlotOf(t.action) == s }

  function Group(tagged: seq<Tagged>, s: Slot): seq<Tagged> {
    Filter(InSlot(s), tagged)
  }

  ghost predicate Grouped(tagged: seq<Tagged>, groups: map<Slot, seq<Tagged>>) {
    forall s: Slot :: if s in groups then groups[s] == Group(tagged, s) != [] else Group(tagged, s) == []
  }

  lemma GroupedStep(front: seq<Tagged>, t: Tagged, groups: map<Slot, seq<Tagged>>)
    requires Grouped(front, groups)
    ensures var s := SlotOf(t.action);
      Grouped(front + [t], groups[s := (if s in groups then groups[s] else []) + [t]])
  {
  }

  method GroupBySlot(tagged: seq<Tagged>) returns (order: seq<Slot>, groups: map<Slot, seq<Tagged>>)
    ensures order == Slots(tagged)
    ensures forall s :: s in groups <==> s in order
    ensures Grouped(tagged, groups)
  {
    order, groups := [], map[];
    for i := 0 to |tagged|
      invariant order == Slots(tagged[..i])
      invariant forall s :: s in groups <==> s in order
      invariant Grouped(tagged[..i], groups)
    {
      var s := SlotOf(tagged[i].action);
      GroupedStep(tagged[..i], tagged[i], groups);
      assert tagged[..i + 1] == tagged[..i] + [tagged[i]];
      assert tagged[..i + 1][..i] == tagged[..i];
      if s !in groups {
        order := order + [s];
      }
      groups := groups[s := (if s in groups then groups[s] else []) + [tagged[i]]];
    }
    assert tagged[..|tagged|] == tagged;
  }

  // ---- Resolution ----

  /** The one action a slot keeps. */
  function Choice(tagged: seq<Tagged>, s: Slot): Action
    requires Group(tagged, s) != []
  {
    if s.target.Some? && s.kind == WorkPriority then Merge(Group(tagged, s))
    else Winner(Group(tagged, s)).action
  }

  ghost predicate AllGrouped(tagged: seq<Tagged>, slots: seq<Slot>) {
    forall i :: 0 <= i < |slots| ==> Group(tagged, slots[i]) != []
  }

  function Choices(tagged: seq<Tagged>, slots: seq<Slot>): (out: seq<Action>)
    requires AllGrouped(tagged, slots)
    ensures |out| == |slots|
  {
    if slots == [] then []
    else Choices(tagged, slots[..|slots| - 1]) + [Choice(tagged, slots[|slots| - 1])]
  }

  lemma ChoicesStep(tagged: seq<Tagged>, slots: seq<Slot>, s: Slot)
    requires AllGrouped(tagged, slots) && Group(tagged, s) != []
    ensures AllGrouped(tagged, slots + [s])
    ensures Choices(tagged, slots + [s]) == Choices(tagged, slots) + [Choice(tagged, s)]
  {
  }

  lemma {:induction false} ChoicesAt(tagged: seq<Tagged>, slots: seq<Slot>, i: nat)
    requires AllGrouped(tagged, slots) && i < |slots|
    ensures Choices(tagged, slots)[i] == Choice(tagged, slots[i])
  {
    if i < |slots| - 1 {
      ChoicesAt(tagged, slots[..|slots| - 1], i);
    }
  }

  function Contested(tagged: seq<Tagged>): Slot -> bool { (s: Slot) => |Group(tagged, s)| > 1 }

  function ContestedAmong(tagged: seq<Tagged>, slots: seq<Slot>): nat {
    |Filter(Contested(tagged), slots)|
  }

  /** A pawn's `no_action` gives way to any other write on that pawn. */
  predicate Survives(slots: seq<Slot>, s: Slot) {
    s.kind == NoAction ==> forall q :: q in slots && q.target == s.target ==> q.kind == NoAction
  }

  function OnColony(): Slot -> bool { (s: Slot) => s.target.None? }

  function OnPawn(slots: seq<Slot>): Slot -> bool { (s: Slot) => s.target.Some? && Survives(slots, s) }

  /** Colony slots, then the surviving pawn slots. */
  function Kept(slots: seq<Slot>): seq<Slot> {
    Filter(OnColony(), slots) + Filter(OnPawn(slots), slots)
  }

  lemma {:induction false} SlotsGrouped(tagged: seq<Tagged>, s: Slot)
    ensures s in Slots(tagged) <==> Group(tagged, s) != []
  {
    if tagged != [] {
      SlotsGrouped(tagged[..|tagged| - 1], s);
    }
  }

  lemma {:induction false} SlotsDistinct(tagged: seq<Tagged>)
    ensures Distinct(Slots(tagged))
  {
    if tagged != [] {
      SlotsDistinct(tagged[..|tagged| - 1]);
    }
  }

  lemma KeptIn(slots: seq<Slot>, s: Slot)
    ensures s in Kept(slots) <==> s in slots && (s.target.None? || Survives(slots, s))
  {
    FilterIn(OnColony(), slots, s);
    FilterIn(OnPawn(slots), slots, s);
  }

  lemma KeptGrouped(tagged: seq<Tagged>)
    ensures AllGrouped(tagged, Kept(Slots(tagged)))
  {
    forall s | s in Kept(Slots(tagged)) ensures Group(tagged, s) != [] {
      KeptIn(Slots(tagged), s);
      SlotsGrouped(tagged, s);
    }
  }

  /** The merged action list. */
  function Resolution(tagged: seq<Tagged>): (out: seq<Action>)
    ensures |out| == |Kept(Slots(tagged))|
  {
    KeptGrouped(tagged);
    Choices(tagged, Kept(Slots(tagged)))
  }

  function Conflicts(tagged: seq<Tagged>): nat {
    ContestedAmong(tagged, Slots(tagged))
  }

  /** Whatever a slot keeps still belongs to that slot. */
  lemma ChoiceSlot(tagged: seq<Tagged>, s: Slot)
    requires Group(tagged, s) != []
    ensures SlotOf(Choice(tagged, s)) == s
  {
    WinnerIn(Group(tagged, s));
    FilterIn(InSlot(s), tagged, Winner(Group(tagged, s)));
  }

  lemma SlotHasAction(tagged: seq<Tagged>, s: Slot)
    requires s in Slots(tagged)
    ensures exists t :: t in tagged && SlotOf(t.action) == s
  {
  }

  /** One more slot: one more choice, and one more conflict when it is contested. */
  lemma TallyStep(tagged: seq<Tagged>, order: seq<Slot>, i: nat)
    requires i < |order| && AllGrouped(tagged, order)
    ensures AllGrouped(tagged, order[..i]) && AllGrouped(tagged, order[..i + 1])
    ensures Choices(tagged, order[..i + 1]) == Choices(tagged, order[..i]) + [Choice(tagged, order[i])]
    ensures ContestedAmong(tagged, order[..i + 1]) ==
      ContestedAmong(tagged, order[..i]) + if |Group(tagged, order[i])| > 1 then 1 else 0
  {
    assert order[..i + 1] == order[..i] + [order[i]];
    ChoicesStep(tagged, order[..i], order[i]);
    FilterStep(Contested(tagged), order[..i], order[i]);
  }

  lemma FilterGrouped(tagged: seq<Tagged>, keep: Slot -> bool, slots: seq<Slot>)
    requires AllGrouped(tagged, slots)
    ensures AllGrouped(tagged, Filter(keep, slots))
  {
  }

  method ResolvePawnConflicts(tagged: seq<Tagged>)
    returns (resolved: seq<Action>, detected: nat, resolvedCount: nat)
    requires forall t :: t in tagged ==> t.action.target.Some?
    ensures AllGrouped(tagged, Filter(OnPawn(Slots(tagged)), Slots(tagged)))
    ensures resolved == Choices(tagged, Filter(OnPawn(Slots(tagged)), Slots(tagged)))
    ensures detected == resolvedCount == ContestedAmong(tagged, Slots(tagged))
  {
    var order, groups := GroupBySlot(tagged);
    forall i | 0 <= i < |order| ensures Group(tagged, order[i]) != [] && order[i].target.Some? {
      SlotHasAction(tagged, order[i]);
    }
    var kept: seq<Action> := [];
    detected, resolvedCount := 0, 0;
    for i := 0 to |order|
      invariant kept == Choices(tagged, order[..i])
      invariant detected == resolvedCount == ContestedAmong(tagged, order[..i])
    {
      var s := order[i];
      TallyStep(tagged, order, i);
      if |groups[s]| > 1 {
        detected, resolvedCount := detected + 1, resolvedCount + 1;
      }
      if s.kind == WorkPriority {
        var merged := MergeWorkPriority(groups[s]);
        kept := kept + [merged];
      } else {
        var winner := MinByKey(groups[s]);
        kept := kept + [winner.action];
      }
    }
    assert order[..|order|] == order;
    FilterGrouped(tagged, OnPawn(order), order);
    resolved := DropShadowedNoAction(tagged, order, kept);
  }

  /** The pawns that a set of real writes names decide survival. */
  lemma RealPawnsDecide(slots: seq<Slot>, realPawns: set<string>, k: nat)
    requires k < |slots|
    requires forall i :: 0 <= i < |slots| ==> slots[i].target.Some?
    requires realPawns == RealTargets(slots)
    ensures Survives(slots, slots[k]) <==> slots[k].kind != NoAction || PawnOf(slots[k].target) !in realPawns
  {
    RealTargetsNamed(slots, PawnOf(slots[k].target));
  }

  /** The pawns that some real write in the slots targets. */
  function RealTargets(slots: seq<Slot>): set<string> {
    if slots == [] then {}
    else
      var last := slots[|slots| - 1];
      RealTargets(slots[..|slots| - 1]) + if last.kind != NoAction then {PawnOf(last.target)} else {}
  }

  lemma {:induction false} RealTargetsNamed(slots: seq<Slot>, pawn: string)
    ensures pawn in RealTargets(slots) <==>
      exists q :: q in slots && q.kind != NoAction && PawnOf(q.target) == pawn
  {
    if slots != [] {
      var front, last := slots[..|slots| - 1], slots[|slots| - 1];
      RealTargetsNamed(front, pawn);
      assert slots == front + [last];
    }
  }

  method RealPawns(ghost tagged: seq<Tagged>, ghost order: seq<Slot>, kept: seq<Action>) returns (pawns: set<string>)
    requires AllGrouped(tagged, order)
    requires forall i :: 0 <= i < |order| ==> order[i].target.Some?
    requires kept == Choices(tagged, order)
    ensures pawns == RealTargets(order)
  {
    pawns := {};
    for k := 0 to |kept|
      invariant pawns == RealTargets(order[..k])
    {
      assert order[..k + 1][..k] == order[..k];
      ChoicesAt(tagged, order, k);
      ChoiceSlot(tagged, order[k]);
      if ResolveEndpoint(kept[k].actionType) != NoAction {
        pawns := pawns + {PawnOf(kept[k].target)};
      }
    }
    assert order[..|order|] == order;
  }

  /** One more slot, kept or shadowed. */
  lemma SurvivorStep(tagged: seq<Tagged>, order: seq<Slot>, k: nat)
    requires k < |order| && AllGrouped(tagged, order)
    ensures var before, after := Filter(OnPawn(order), order[..k]), Filter(OnPawn(order), order[..k + 1]);
      AllGrouped(tagged, before) && AllGrouped(tagged, after) &&
      Choices(tagged, after) ==
        Choices(tagged, before) + if OnPawn(order)(order[k]) then [Choice(tagged, order[k])] else []
  {
    assert order[..k + 1] == order[..k] + [order[k]];
    FilterGrouped(tagged, OnPawn(order), order[..k]);
    FilterStep(OnPawn(order), order[..k], order[k]);
    var before, after := Filter(OnPawn(order), order[..k]), Filter(OnPawn(order), order[..k + 1]);
    if OnPawn(order)(order[k]) {
      assert after == before + [order[k]];
      ChoicesStep(tagged, before, order[k]);
    } else {
      assert after == before;
    }
  }

  /** The test the program makes on a kept action decides survival of its slot. */
  lemma KeepTest(tagged: seq<Tagged>, order: seq<Slot>, realPawns: set<string>, k: nat)
    requires k < |order| && AllGrouped(tagged, order) && realPawns == RealTargets(order)
    requires forall i :: 0 <= i < |order| ==> order[i].target.Some?
    ensures var a := Choices(tagged, order)[k];
      a == Choice(tagged, order[k]) &&
      (OnPawn(order)(order[k]) <==> ResolveEndpoint(a.actionType) != NoAction || PawnOf(a.target) !in realPawns)
  {
    ChoicesAt(tagged, order, k);
    ChoiceSlot(tagged, order[k]);
    RealPawnsDecide(order, realPawns, k);
  }

  /** Keep what is not a `no_action` on a pawn that some other kept write targets. */
  method DropShadowedNoAction(ghost tagged: seq<Tagged>, ghost order: seq<Slot>, kept: seq<Action>)
    returns (resolved: seq<Action>)
    requires AllGrouped(tagged, order) && AllGrouped(tagged, Filter(OnPawn(order), order))
    requires forall i :: 0 <= i < |order| ==> order[i].target.Some?
    requires kept == Choices(tagged, order)
    ensures resolved == Choices(tagged, Filter(OnPawn(order), order))
  {
    var realPawns := RealPawns(tagged, order, kept);
    resolved := [];
    for k := 0 to |kept|
      invariant AllGrouped(tagged, Filter(OnPawn(order), order[..k]))
      invariant resolved == Choices(tagged, Filter(OnPawn(order), order[..k]))
    {
      KeepTest(tagged, order, realPawns, k);
      SurvivorStep(tagged, order, k);
      if ResolveEndpoint(kept[k].actionType) != NoAction || PawnOf(kept[k].target) !in realPawns {
        resolved := resolved + [kept[k]];
      }
    }
    assert order[..|order|] == order;
  }

  method ResolveColonyActions(tagged: seq<Tagged>)
    returns (resolved: seq<Action>, detected: nat, resolvedCount: nat)
    requires forall t :: t in tagged ==> t.action.target.None?
    ensures AllGrouped(tagged, Slots(tagged))
    ensures resolved == Choices(tagged, Slots(tagged))
    ensures detected == resolvedCount == ContestedAmong(tagged, Slots(tagged))
  {
    var order, groups := GroupBySlot(tagged);
    forall i | 0 <= i < |order| ensures Group(tagged, order[i]) != [] && order[i].target.None? {
      SlotHasAction(tagged, order[i]);
    }
    resolved, detected, resolvedCount := [], 0, 0;
    for i := 0 to |order|
      invariant resolved == Choices(tagged, order[..i])
      invariant detected == resolvedCount == ContestedAmong(tagged, order[..i])
    {
      var s := order[i];
      TallyStep(tagged, order, i);
      if |groups[s]| > 1 {
        detected, resolvedCount := detected + 1, resolvedCount + 1;
      }
      var winner := MinByKey(groups[s]);
      resolved := resolved + [winner.action];
    }
    assert order[..|order|] == order;
  }

  // ---- The whole resolver ----

  function Untargeted(): Tagged -> bool { (t: Tagged) => t.action.target.None? }

  function Targeted(): Tagged -> bool { (t: Tagged) => t.action.target.Some? }

  function PawnSlot(): Slot -> bool { (s: Slot) => s.target.Some? }

  /** Grouping one side of the colony/pawn split is the same as splitting the groups. */
  lemma {:induction false} SplitSlots(side: Tagged -> bool, slotSide: Slot -> bool, tagged: seq<Tagged>)
    requires forall t: Tagged :: side(t) == slotSide(SlotOf(t.action))
    ensures Slots(Filter(side, tagged)) == Filter(slotSide, Slots(tagged))
  {
    if tagged != [] {
      var front, last := tagged[..|tagged| - 1], tagged[|tagged| - 1];
      var s := SlotOf(last.action);
      SplitSlots(side, slotSide, front);
      FilterIn(slotSide, Slots(front), s);
      FilterStep(slotSide, Slots(front), s);
      var kept := Filter(side, front);
      if side(last) {
        assert Filter(side, tagged) == kept + [last];
        assert (kept + [last])[..|kept|] == kept;
      } else {
        assert Filter(side, tagged) == kept;
      }
    }
  }

  lemma SplitGroup(side: Tagged -> bool, tagged: seq<Tagged>, s: Slot)
    requires forall t: Tagged :: SlotOf(t.action) == s ==> side(t)
    ensures Group(Filter(side, tagged), s) == Group(tagged, s)
  {
    FilterTwice(InSlot(s), side, InSlot(s), tagged);
  }

  lemma {:induction false} SplitChoices(side: Tagged -> bool, slotSide: Slot -> bool,
                                        tagged: seq<Tagged>, slots: seq<Slot>)
    requires forall t: Tagged :: side(t) == slotSide(SlotOf(t.action))
    requires forall i :: 0 <= i < |slots| ==> slotSide(slots[i])
    requires AllGrouped(Filter(side, tagged), slots)
    ensures AllGrouped(tagged, slots)
    ensures Choices(Filter(side, tagged), slots) == Choices(tagged, slots)
  {
    forall i | 0 <= i < |slots| ensures Group(tagged, slots[i]) == Group(Filter(side, tagged), slots[i]) {
      SplitGroup(side, tagged, slots[i]);
    }
    if slots != [] {
      SplitChoices(side, slotSide, tagged, slots[..|slots| - 1]);
    }
  }

  lemma SplitContested(side: Tagged -> bool, slotSide: Slot -> bool, tagged: seq<Tagged>, slots: seq<Slot>)
    requires forall t: Tagged :: side(t) == slotSide(SlotOf(t.action))
    requires forall i :: 0 <= i < |slots| ==> slotSide(slots[i])
    ensures ContestedAmong(Filter(side, tagged), slots) == ContestedAmong(tagged, slots)
  {
    forall i | 0 <= i < |slots|
      ensures Contested(Filter(side, tagged))(slots[i]) == Contested(tagged)(slots[i])
    {
      SplitGroup(side, tagged, slots[i]);
    }
    FilterSame(Contested(Filter(side, tagged)), Contested(tagged), slots);
  }

  lemma {:induction false} ChoicesAppend(tagged: seq<Tagged>, xs: seq<Slot>, ys: seq<Slot>)
    requires AllGrouped(tagged, xs) && AllGrouped(tagged, ys)
    ensures AllGrouped(tagged, xs + ys)
    ensures Choices(tagged, xs + ys) == Choices(tagged, xs) + Choices(tagged, ys)
  {
    if ys == [] {
      assert xs + ys == xs;
      assert Choices(tagged, ys) == [];
    } else {
      var front, s := ys[..|ys| - 1], ys[|ys| - 1];
      assert xs + ys == (xs + front) + [s] && ys == front + [s];
      ChoicesAppend(tagged, xs, front);
      ChoicesStep(tagged, xs + front, s);
      ChoicesStep(tagged, front, s);
      assert (Choices(tagged, xs) + Choices(tagged, front)) + [Choice(tagged, s)] ==
        Choices(tagged, xs) + (Choices(tagged, front) + [Choice(tagged, s)]);
    }
  }

  lemma {:induction false} CountSplit(keep: Slot -> bool, slots: seq<Slot>)
    ensures |Filter(keep, slots)| ==
      |Filter(keep, Filter(OnColony(), slots))| + |Filter(keep, Filter(PawnSlot(), slots))|
  {
    if slots != [] {
      var front, s := slots[..|slots| - 1], slots[|slots| - 1];
      assert slots == front + [s];
      CountSplit(keep, front);
      FilterStep(keep, front, s);
      var side := if s.target.None? then OnColony() else PawnSlot();
      var other := if s.target.None? then PawnSlot() else OnColony();
      assert side(s) && !other(s);
      FilterStep(side, front, s);
      FilterStep(other, front, s);
      FilterStep(keep, Filter(side, front), s);
      assert Filter(side, slots) == Filter(side, front) + [s];
      assert Filter(other, slots) == Filter(other, front);
    }
  }

  /** Resolving the two sides separately and joining them is `Resolution`. */
  lemma SidesMakeResolution(tagged: seq<Tagged>)
    ensures var colony, pawns := Filter(Untargeted(), tagged), Filter(Targeted(), tagged);
      AllGrouped(colony, Slots(colony)) && AllGrouped(pawns, Filter(OnPawn(Slots(pawns)), Slots(pawns))) ==>
        && Resolution(tagged) ==
             Choices(colony, Slots(colony)) + Choices(pawns, Filter(OnPawn(Slots(pawns)), Slots(pawns)))
        && Conflicts(tagged) == ContestedAmong(colony, Slots(colony)) + ContestedAmong(pawns, Slots(pawns))
  {
    var colony, pawns := Filter(Untargeted(), tagged), Filter(Targeted(), tagged);
    var slots := Slots(tagged);
    SplitSlots(Untargeted(), OnColony(), tagged);
    SplitSlots(Targeted(), PawnSlot(), tagged);
    var pawnSlots := Slots(pawns);
    SlotsInSide(OnColony(), slots);
    SlotsInSide(PawnSlot(), slots);
    forall i | 0 <= i < |pawnSlots| ensures Group(pawns, pawnSlots[i]) != [] {
      SlotsGrouped(pawns, pawnSlots[i]);
    }
    SurvivorsSplit(slots);
    if AllGrouped(colony, Slots(colony)) {
      SplitChoices(Untargeted(), OnColony(), tagged, Slots(colony));
      SplitContested(Untargeted(), OnColony(), tagged, Slots(colony));
      SplitContested(Targeted(), PawnSlot(), tagged, pawnSlots);
      CountSplit(Contested(tagged), slots);
      FilterGrouped(pawns, OnPawn(pawnSlots), pawnSlots);
      forall s | s in Filter(OnPawn(pawnSlots), pawnSlots) ensures s.target.Some? {
        FilterIn(OnPawn(pawnSlots), pawnSlots, s);
      }
      SplitChoices(Targeted(), PawnSlot(), tagged, Filter(OnPawn(pawnSlots), pawnSlots));
      ChoicesAppend(tagged, Slots(colony), Filter(OnPawn(pawnSlots), pawnSlots));
    }
  }

  lemma SlotsInSide(side: Slot -> bool, slots: seq<Slot>)
    ensures forall s :: s in Filter(side, slots) ==> side(s)
  {
  }

  /** Survival of a pawn slot depends on pawn slots only. */
  lemma SurvivorsSplit(slots: seq<Slot>)
    ensures var pawnSlots := Filter(PawnSlot(), slots);
      Filter(OnPawn(pawnSlots), pawnSlots) == Filter(OnPawn(slots), slots)
  {
    var pawnSlots := Filter(PawnSlot(), slots);
    forall s: Slot | s.target.Some? ensures Survives(pawnSlots, s) == Survives(slots, s) {
      forall q: Slot ensures q in pawnSlots <==> q in slots && q.target.Some? {
        FilterIn(PawnSlot(), slots, q);
      }
    }
    FilterTwice(OnPawn(pawnSlots), PawnSlot(), OnPawn(slots), slots);
  }

  method TagActions(plans: seq<ActionPlan>, crisis: Crisis) returns (tagged: seq<Tagged>)
    ensures tagged == Tag(plans, crisis)
  {
    tagged := [];
    var seqNo := 0;
    for p := 0 to |plans|
      invariant tagged == Tag(plans[..p], crisis) && seqNo == |tagged|
    {
      var plan := plans[p];
      var rolePriority := RolePriority(plan.role, crisis);
      ghost var before := tagged;
      for a := 0 to |plan.actions|
        invariant tagged == before + TagPlan(plan, crisis, |before|)[..a] && seqNo == |tagged|
      {
        tagged := tagged + [Tagged(plan.actions[a], plan.role, rolePriority, plan.confidence, seqNo)];
        seqNo := seqNo + 1;
      }
      assert plans[..p + 1][..p] == plans[..p];
    }
    assert plans[..|plans|] == plans;
  }

  function Confidences(plans: seq<ActionPlan>): seq<real> {
    seq(|plans|, i requires 0 <= i < |plans| => plans[i].confidence)
  }

  function Tags(plans: seq<ActionPlan>, state: GameState): seq<Tagged> {
    Tag(plans, DetectCrisis(state))
  }

  method SplitByTarget(tagged: seq<Tagged>) returns (colony: seq<Tagged>, pawns: seq<Tagged>)
    ensures colony == Filter(Untargeted(), tagged) && pawns == Filter(Targeted(), tagged)
    ensures forall t :: t in colony ==> t.action.target.None?
    ensures forall t :: t in pawns ==> t.action.target.Some?
  {
    colony, pawns := [], [];
    for i := 0 to |tagged|
      invariant colony == Filter(Untargeted(), tagged[..i]) && pawns == Filter(Targeted(), tagged[..i])
      invariant forall t :: t in colony ==> t.action.target.None?
      invariant forall t :: t in pawns ==> t.action.target.Some?
    {
      assert tagged[..i + 1] == tagged[..i] + [tagged[i]];
      FilterStep(Untargeted(), tagged[..i], tagged[i]);
      FilterStep(Targeted(), tagged[..i], tagged[i]);
      if tagged[i].action.target.None? {
        colony := colony + [tagged[i]];
      } else {
        pawns := pawns + [tagged[i]];
      }
    }
    assert tagged[..|tagged|] == tagged;
  }

  class ActionResolver {
    constructor () {}

    method Resolve(plans: seq<ActionPlan>, state: GameState) returns (plan: ActionPlan, stats: ResolverStats)
      ensures plan.role == "orchestrator" && plan.tick == state.tick
      ensures plan.summary == if plans == [] then "" else
        "Merged " + Decimal(|plans|) + " agent plans (" + Decimal(|plan.actions|) + " actions)"
      ensures plans == [] ==> plan.confidence == 0.5
      ensures plan.actions == Resolution(Tags(plans, state))
      ensures plans != [] ==> plan.confidence == Mean(Confidences(plans))
      ensures stats.conflictsTotal == stats.conflictsResolved == Conflicts(Tags(plans, state))
    {
      if plans == [] {
        return ActionPlan("orchestrator", state.tick, [], "", 0.5), ResolverStats(0, 0);
      }
      var tagged := TagActions(plans, DetectCrisis(state));
      var colony, pawns := SplitByTarget(tagged);
      var resolvedColony, colonyDetected, colonyResolved := ResolveColonyActions(colony);
      var resolvedPawn, pawnDetected, pawnResolved := ResolvePawnConflicts(pawns);
      SidesMakeResolution(tagged);
      plan := ActionPlan("orchestrator", state.tick, resolvedColony + resolvedPawn,
        "Merged " + Decimal(|plans|) + " agent plans (" + Decimal(|resolvedColony + resolvedPawn|) + " actions)",
        Mean(Confidences(plans)));
      stats := ResolverStats(colonyDetected + pawnDetected, colonyResolved + pawnResolved);
    }
  }
}
