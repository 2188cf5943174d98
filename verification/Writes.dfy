/** When a write of a run succeeds, in terms of its endpoint, target, parameters and reply. */
module Writes {
  import opened Values
  import opened Actions
  import opened Preflight
  import opened Rects
  import opened Coherence
  import opened Executor

  /** A pawn that is missing to the executor. */
  predicate NobodyIn(text: string) { text == "" || text == "0" }

  predicate Untargeted(a: Action) { a.target.None? || NobodyIn(a.target.value) }

  /** The patient that the parameters name: by `patient_pawn_id`, else by `patient_id`. */
  predicate Patient(params: Params, text: string) {
    if "patient_pawn_id" in params && Truthy(params["patient_pawn_id"]) then text == PyStr(params["patient_pawn_id"])
    else if "patient_id" in params && Truthy(params["patient_id"]) then text == PyStr(params["patient_id"])
    else text == ""
  }

  /** A write to a pawn endpoint that finds no pawn. */
  ghost predicate Skipped(a: Action) {
    Untargeted(a) &&
    (ResolveEndpoint(a.actionType) in {WorkPriority, Draft, Move, JobAssign, TimeAssignment, Equip, BedRest} ||
     (ResolveEndpoint(a.actionType) == Tend && exists text :: Patient(a.parameters, text) && NobodyIn(text)))
  }

  lemma SkippedIsMissing(a: Action)
    ensures Skipped(a) <==> NeedsPawn(ResolveEndpoint(a.actionType)) && NoPawn(CidOf(a))
  {
    var pawn, other := Get(a.parameters, "patient_pawn_id"), Get(a.parameters, "patient_id");
    var text := if Truthy(pawn) then PyStr(pawn) else if Truthy(other) then PyStr(other) else "";
    assert Patient(a.parameters, text);
  }

  /** Where the outcome of action `n` stands among the outcomes. */
  function Place(actions: seq<Action>, n: nat): nat
    requires n <= |actions|
  {
    |RealWrites(actions[..n])|
  }

  /** The outcome of action `n` stands at its place and is what its step made it. */
  ghost predicate OutcomeStands(g: Guards, actions: seq<Action>, replies: seq<Reply>, n: nat)
    requires |replies| == |actions| && n < |actions|
  {
    var outcomes, before := RunOutcomes(g, actions, replies), RunGuards(g, actions[..n], replies[..n]);
    Place(actions, n) < |outcomes| &&
    outcomes[Place(actions, n)] == OutcomeOf(actions[n], DispatchStep(before, actions[n], replies[n]).1)
  }

  lemma {:induction false} OutcomeAt(g: Guards, actions: seq<Action>, replies: seq<Reply>, n: nat)
    requires |replies| == |actions| && n < |actions| && !IsNoAction(actions[n])
    ensures OutcomeStands(g, actions, replies, n)
  {
    var m := |actions| - 1;
    if n < m {
      OutcomeAt(g, actions[..m], replies[..m], n);
      OutcomeStays(g, actions, replies, n);
    } else {
      LastOutcome(g, actions, replies);
    }
  }

  lemma OutcomeStays(g: Guards, actions: seq<Action>, replies: seq<Reply>, n: nat)
    requires |replies| == |actions| && n < |actions| - 1
    requires OutcomeStands(g, actions[..|actions| - 1], replies[..|actions| - 1], n)
    ensures OutcomeStands(g, actions, replies, n)
  {
    var m := |actions| - 1;
    assert actions[..m][..n] == actions[..n] && replies[..m][..n] == replies[..n];
    OutcomesExtend(g, actions, replies);
  }

  lemma OutcomesExtend(g: Guards, actions: seq<Action>, replies: seq<Reply>)
    requires |replies| == |actions| > 0
    ensures RunOutcomes(g, actions[..|actions| - 1], replies[..|actions| - 1]) <= RunOutcomes(g, actions, replies)
  {
  }

  lemma LastOutcome(g: Guards, actions: seq<Action>, replies: seq<Reply>)
    requires |replies| == |actions| > 0 && !IsNoAction(actions[|actions| - 1])
    ensures var m := |actions| - 1;
      var before := RunGuards(g, actions[..m], replies[..m]);
      var ok := DispatchStep(before, actions[m], replies[m]).1;
      Place(actions, m) == |RunOutcomes(g, actions[..m], replies[..m])| && RunOutcomes(g, actions, replies) ==
        RunOutcomes(g, actions[..m], replies[..m]) + [OutcomeOf(actions[m], ok)]
  {
    OutcomesMatchWrites(g, actions[..|actions| - 1], replies[..|actions| - 1]);
  }

  /** The step of one write, by what kind of write it is. */
  lemma StepSucceeds(g: Guards, a: Action, reply: Reply)
    requires !IsNoAction(a)
    ensures var ok := DispatchStep(g, a, reply).1;
      var e := ResolveEndpoint(a.actionType);
      (e == StockpileDelete ==> !ok) && (Skipped(a) ==> ok) &&
      (!Skipped(a) && e !in {StockpileDelete, WorkPriority, GrowingZone, StockpileZone} ==>
        (ok <==> reply.answer == Done))
  {
    SkippedIsMissing(a);
  }

  /** Over any run: a quarantined write never succeeds, one without its pawn always does, and any
      other, zones and work priorities apart, does exactly when RIMAPI takes it. */
  lemma WriteSucceedsIff(g: Guards, actions: seq<Action>, replies: seq<Reply>, n: nat)
    requires |replies| == |actions| && n < |actions| && ResolveEndpoint(actions[n].actionType) != NoAction
    ensures Place(actions, n) < |RunOutcomes(g, actions, replies)|
    ensures var a, o := actions[n], RunOutcomes(g, actions, replies)[Place(actions, n)];
      var e := ResolveEndpoint(a.actionType);
      o.actionType == a.actionType && o.target == a.target && o.parameters == a.parameters &&
      (e == StockpileDelete ==> !o.success) && (Skipped(a) ==> o.success) &&
      (!Skipped(a) && e !in {StockpileDelete, WorkPriority, GrowingZone, StockpileZone} ==>
        (o.success <==> replies[n].answer == Done))
  {
    OutcomeAt(g, actions, replies, n);
    StepSucceeds(RunGuards(g, actions[..n], replies[..n]), actions[n], replies[n]);
  }

  // ---- Zones ----

  /** The corners a zone handler works with: each coordinate under its key, else under the short
      one, else 0; the far ones else five beyond. */
  predicate NearCorner(params: Params, key: string, short: string, n: int) {
    if key in params then PyInt(params[key]) == Some(n)
    else if short in params then PyInt(params[short]) == Some(n)
    else n == 0
  }

  predicate FarCorner(params: Params, key: string, near: int, n: int) {
    if key in params then PyInt(params[key]) == Some(n) else n == near + 5
  }

  predicate CornersAre(params: Params, x1: int, z1: int, x2: int, z2: int) {
    NearCorner(params, "x1", "x", x1) && NearCorner(params, "z1", "z", z1) &&
    FarCorner(params, "x2", x1, x2) && FarCorner(params, "z2", z1, z2)
  }

  /** Both corners are integers. */
  ghost predicate HasCorners(params: Params) { exists x1, z1, x2, z2 :: CornersAre(params, x1, z1, x2, z2) }

  /** The handler's rectangle spans exactly those corners, and is there when they are. */
  lemma ZoneRectSpans(params: Params)
    ensures ZoneRect(params).Some? <==> HasCorners(params)
    ensures forall x1, z1, x2, z2 :: CornersAre(params, x1, z1, x2, z2) ==>
      ZoneRect(params) == Some(Rect(
        if x1 <= x2 then x1 else x2, if z1 <= z2 then z1 else z2,
        if x1 <= x2 then x2 else x1, if z1 <= z2 then z2 else z1))
  {
    if ZoneRect(params).Some? {
      var x1 := PyInt(GetOr(params, "x1", GetOr(params, "x", Int(0)))).value;
      var z1 := PyInt(GetOr(params, "z1", GetOr(params, "z", Int(0)))).value;
      var x2 := PyInt(GetOr(params, "x2", Int(x1 + 5))).value;
      var z2 := PyInt(GetOr(params, "z2", Int(z1 + 5))).value;
      assert CornersAre(params, x1, z1, x2, z2);
    }
  }

  predicate MapGiven(params: Params) { "map_id" in params ==> PyInt(params["map_id"]).Some? }

  /** Over any run: a growing zone succeeds exactly when its parameters are integers and it overlaps a
      remembered farm, or RIMAPI has it covered already or does not refuse it. */
  lemma GrowingSucceedsIff(g: Guards, actions: seq<Action>, replies: seq<Reply>, n: nat)
    requires |replies| == |actions| && n < |actions| && ResolveEndpoint(actions[n].actionType) == GrowingZone
    ensures Place(actions, n) < |RunOutcomes(g, actions, replies)|
    ensures var known := RunGuards(g, actions[..n], replies[..n]).growing;
      var params, rect := actions[n].parameters, ZoneRect(actions[n].parameters);
      RunOutcomes(g, actions, replies)[Place(actions, n)].success <==>
        HasCorners(params) && MapGiven(params) &&
        ((exists k :: 0 <= k < |known| && RectsOverlap(rect.value, known[k])) ||
         replies[n].zoneCovered || replies[n].answer in {Done, AlreadyCovered})
  {
    OutcomeAt(g, actions, replies, n);
    ZoneRectSpans(actions[n].parameters);
    GrowingStepSucceeds(RunGuards(g, actions[..n], replies[..n]), actions[n], replies[n]);
  }

  lemma GrowingStepSucceeds(g: Guards, a: Action, reply: Reply)
    requires ResolveEndpoint(a.actionType) == GrowingZone
    ensures DispatchStep(g, a, reply).1 == GrowingStep(g.growing, a.parameters, reply).1
  {
  }

  predicate FarmOn(o: ActionOutcome, r: Rect) {
    o.success && KindOf(o) == GrowingZone && ZoneRect(o.parameters) == Some(r)
  }

  /** Every farm that a run remembers is the rectangle of a growing zone that succeeded. */
  lemma {:induction false} FarmsSucceeded(g: Guards, actions: seq<Action>, replies: seq<Reply>, r: Rect)
    requires |replies| == |actions| && r in RunGuards(g, actions, replies).growing && r !in g.growing
    ensures exists o :: o in RunOutcomes(g, actions, replies) && FarmOn(o, r)
  {
    var m := |actions| - 1;
    var before := RunGuards(g, actions[..m], replies[..m]);
    if r in before.growing {
      FarmsSucceeded(g, actions[..m], replies[..m], r);
      var o :| o in RunOutcomes(g, actions[..m], replies[..m]) && FarmOn(o, r);
      assert o in RunOutcomes(g, actions, replies);
    } else {
      NewFarm(before, actions[m], replies[m], r);
      assert OutcomeOf(actions[m], true) in RunOutcomes(g, actions, replies);
    }
  }

  lemma NewFarm(g: Guards, a: Action, reply: Reply, r: Rect)
    requires r in DispatchStep(g, a, reply).0.growing && r !in g.growing
    ensures ResolveEndpoint(a.actionType) == GrowingZone && DispatchStep(g, a, reply).1
    ensures ZoneRect(a.parameters) == Some(r)
  {
  }

  // ---- Work priorities ----

  /** Over any run: a work-priority write that finds its pawn succeeds exactly when RIMAPI takes it
      and it is accepted under the work list remembered from then on: the one known before, else
      the one RIMAPI gives, else the vanilla one. */
  lemma WorkSucceedsIff(g: Guards, actions: seq<Action>, replies: seq<Reply>, n: nat)
    requires |replies| == |actions| && n < |actions| && ResolveEndpoint(actions[n].actionType) == WorkPriority
    requires !Untargeted(actions[n])
    ensures Place(actions, n) < |RunOutcomes(g, actions, replies)|
    ensures var known, list := RunGuards(g, actions[..n], replies[..n]).workTypes, replies[n].workList;
      var types := if known.Some? then known.value
                   else if list.Some? && |list.value| > 0 then list.value
                   else VANILLA_WORK_TYPES;
      RunGuards(g, actions[..n + 1], replies[..n + 1]).workTypes == Some(types) &&
      (RunOutcomes(g, actions, replies)[Place(actions, n)].success <==>
        Accepted(types, actions[n].parameters) && replies[n].answer == Done)
  {
    OutcomeAt(g, actions, replies, n);
    RunStep(g, actions, replies, n);
    WorkStepSucceeds(RunGuards(g, actions[..n], replies[..n]), actions[n], replies[n]);
  }

  lemma WorkStepSucceeds(g: Guards, a: Action, reply: Reply)
    requires ResolveEndpoint(a.actionType) == WorkPriority && !NoPawn(PawnOf(a.target))
    ensures var (workTypes, ok) := WorkStep(g.workTypes, a.parameters, reply);
      DispatchStep(g, a, reply) == (g.(workTypes := workTypes), ok)
  {
  }
}
