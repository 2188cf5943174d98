/** Dispatching actions to RIMAPI, with what is remembered over a run: the rectangles of the zones
    already created, and the work list. */
module Executor {
  import opened Values
  import opened Actions
  import opened Preflight
  import opened Rects
  import opened Coherence

  datatype Answer = Done | AlreadyCovered | Failed

  /** What RIMAPI says to one action: whether a zone owns the cells, the work list if it is asked
      for, then the write's answer. */
  datatype Reply = Reply(zoneCovered: bool, workList: Option<seq<string>>, answer: Answer)

  /** The remembered rectangles, and the work types once they were asked for. */
  datatype Guards = Guards(growing: seq<Rect>, stockpiles: seq<Rect>, workTypes: Option<seq<string>>)

  const NO_ZONES := Guards([], [], None)

  predicate NeedsPawn(e: Endpoint) {
    e in {WorkPriority, Draft, Move, JobAssign, TimeAssignment, Equip, BedRest, Tend}
  }

  /** The endpoints that act on a pawn, and no other. */
  lemma PawnEndpoints(e: Endpoint)
    ensures NeedsPawn(e) <==> e in {WorkPriority, Draft, Move, JobAssign, TimeAssignment, Equip, BedRest, Tend}
  {
  }

  predicate NoPawn(cid: string) { cid == "" || cid == "0" }

  /** The pawn an action is dispatched for; `tend` also looks in its parameters. */
  function CidOf(a: Action): string {
    var cid := PawnOf(a.target);
    if ResolveEndpoint(a.actionType) == Tend && NoPawn(cid) then
      var pawn, other := Get(a.parameters, "patient_pawn_id"), Get(a.parameters, "patient_id");
      if Truthy(pawn) then PyStr(pawn) else if Truthy(other) then PyStr(other) else ""
    else cid
  }

  /** The rectangle a zone handler works on; `None` when a coordinate is no integer. */
  function ZoneRect(params: Params): Option<Rect> {
    var x1 := PyInt(GetOr(params, "x1", GetOr(params, "x", Int(0))));
    var z1 := PyInt(GetOr(params, "z1", GetOr(params, "z", Int(0))));
    if x1.None? || z1.None? then None
    else
      var x2 := PyInt(GetOr(params, "x2", Int(x1.value + 5)));
      var z2 := PyInt(GetOr(params, "z2", Int(z1.value + 5)));
      if x2.None? || z2.None? then None
      else Some(Corners(x1.value, z1.value, x2.value, z2.value))
  }

  predicate MapIdOk(params: Params) { PyInt(GetOr(params, "map_id", Int(0))).Some? }

  predicate OverlapsAny(r: Rect, known: seq<Rect>) {
    exists k :: 0 <= k < |known| && RectsOverlap(r, known[k])
  }

  /** The growing-zone handler: the remembered rectangles and whether it succeeds. */
  function GrowingStep(growing: seq<Rect>, params: Params, reply: Reply): (seq<Rect>, bool) {
    var rect := ZoneRect(params);
    if rect.None? || !MapIdOk(params) then (growing, false)
    else if OverlapsAny(rect.value, growing) then (growing, true)
    else if reply.zoneCovered || reply.answer != Failed then (growing + [rect.value], true)
    else (growing, false)
  }

  /** The stockpile handler. */
  function StockpileStep(stockpiles: seq<Rect>, params: Params, reply: Reply): (seq<Rect>, bool) {
    var rect := ZoneRect(params);
    if rect.None? || OverlapsAny(rect.value, stockpiles) || !MapIdOk(params) || reply.answer != Done then
      (stockpiles, false)
    else (stockpiles + [rect.value], true)
  }

  /** `_allowed_work_types`: the list is asked for once, and the vanilla one stands in for it. */
  function WorkTypesOf(known: Option<seq<string>>, reply: Reply): seq<string> {
    if known.Some? then known.value
    else if reply.workList.Some? && reply.workList.value != [] then reply.workList.value
    else VANILLA_WORK_TYPES
  }

  /** The work-priority handler. */
  function WorkStep(known: Option<seq<string>>, params: Params, reply: Reply): (Option<seq<string>>, bool) {
    var types := WorkTypesOf(known, reply);
    (Some(types), Accepted(types, params) && reply.answer == Done)
  }

  /** One dispatch: the guards after it, and whether it succeeds. */
  function DispatchStep(g: Guards, a: Action, reply: Reply): (Guards, bool) {
    var endpoint := ResolveEndpoint(a.actionType);
    HandlerStep(g, endpoint, NeedsPawn(endpoint) && NoPawn(CidOf(a)), a.parameters, reply)
  }

  function HandlerStep(g: Guards, endpoint: Endpoint, skipped: bool, params: Params, reply: Reply): (Guards, bool) {
    if endpoint == StockpileDelete then (g, false)
    else if skipped then (g, true)
    else if endpoint == GrowingZone then
      var (growing, ok) := GrowingStep(g.growing, params, reply);
      (g.(growing := growing), ok)
    else if endpoint == StockpileZone then
      var (stockpiles, ok) := StockpileStep(g.stockpiles, params, reply);
      (g.(stockpiles := stockpiles), ok)
    else if endpoint == WorkPriority then
      var (workTypes, ok) := WorkStep(g.workTypes, params, reply);
      (g.(workTypes := workTypes), ok)
    else (g, reply.answer == Done)
  }

  predicate IsNoAction(a: Action) { ResolveEndpoint(a.actionType) == NoAction }

  function OutcomeOf(a: Action, success: bool): ActionOutcome {
    ActionOutcome(a.actionType, a.target, success, a.parameters)
  }

  /** The guards and outcomes after a list of actions. */
  function Run(g: Guards, actions: seq<Action>, replies: seq<Reply>): (Guards, seq<ActionOutcome>)
    requires |replies| == |actions|
  {
    if actions == [] then (g, [])
    else
      var n := |actions| - 1;
      var (before, outcomes) := Run(g, actions[..n], replies[..n]);
      if IsNoAction(actions[n]) then (before, outcomes)
      else
        var (after, ok) := DispatchStep(before, actions[n], replies[n]);
        (after, outcomes + [OutcomeOf(actions[n], ok)])
  }

  function RunGuards(g: Guards, actions: seq<Action>, replies: seq<Reply>): Guards
    requires |replies| == |actions|
  {
    Run(g, actions, replies).0
  }

  function RunOutcomes(g: Guards, actions: seq<Action>, replies: seq<Reply>): seq<ActionOutcome>
    requires |replies| == |actions|
  {
    Run(g, actions, replies).1
  }

  // ---- Laws of a whole run ----

  ghost predicate Apart(known: seq<Rect>) {
    (forall k :: 0 <= k < |known| ==> Proper(known[k])) &&
    forall j, k :: 0 <= j < k < |known| ==> !RectsOverlap(known[j], known[k])
  }

  /** No cell lies in two of the rectangles. */
  ghost predicate CellDisjoint(known: seq<Rect>) {
    forall j, k, x, z :: 0 <= j < k < |known| ==> !(Covers(known[j], x, z) && Covers(known[k], x, z))
  }

  lemma ApartIsCellDisjoint(known: seq<Rect>)
    requires Apart(known)
    ensures CellDisjoint(known)
  {
  }

  ghost predicate Separate(g: Guards) { Apart(g.growing) && Apart(g.stockpiles) }

  lemma GrowingStepApart(growing: seq<Rect>, params: Params, reply: Reply)
    requires Apart(growing)
    ensures Apart(GrowingStep(growing, params, reply).0)
  {
  }

  lemma StockpileStepApart(stockpiles: seq<Rect>, params: Params, reply: Reply)
    requires Apart(stockpiles)
    ensures Apart(StockpileStep(stockpiles, params, reply).0)
  {
  }

  lemma DispatchSeparate(g: Guards, a: Action, reply: Reply)
    requires Separate(g)
    ensures Separate(DispatchStep(g, a, reply).0)
  {
    var endpoint := ResolveEndpoint(a.actionType);
    HandlerSeparate(g, endpoint, NeedsPawn(endpoint) && NoPawn(CidOf(a)), a.parameters, reply);
  }

  lemma HandlerSeparate(g: Guards, endpoint: Endpoint, skipped: bool, params: Params, reply: Reply)
    requires Separate(g)
    ensures Separate(HandlerStep(g, endpoint, skipped, params, reply).0)
  {
    GrowingStepApart(g.growing, params, reply);
    StockpileStepApart(g.stockpiles, params, reply);
  }

  lemma {:induction false} RunSeparate(g: Guards, actions: seq<Action>, replies: seq<Reply>)
    requires |replies| == |actions| && Separate(g)
    ensures Separate(RunGuards(g, actions, replies))
  {
    if actions != [] {
      var n := |actions| - 1;
      RunSeparate(g, actions[..n], replies[..n]);
      DispatchSeparate(RunGuards(g, actions[..n], replies[..n]), actions[n], replies[n]);
    }
  }

  /** The work list is remembered, and a write that reached a pawn was accepted under it. */
  lemma DispatchWork(g: Guards, a: Action, reply: Reply)
    ensures var (after, ok) := DispatchStep(g, a, reply);
      (g.workTypes.Some? ==> after.workTypes == g.workTypes) &&
      (ok && ResolveEndpoint(a.actionType) == WorkPriority && !NoPawn(PawnOf(a.target)) ==>
        after.workTypes.Some? && Accepted(after.workTypes.value, a.parameters))
  {
  }

  /** Over any run, the executed `work_priority` writes that reached a pawn were all accepted under
      one work list. */
  lemma {:induction false} ExecutedWorkAccepted(g: Guards, actions: seq<Action>, replies: seq<Reply>, o: ActionOutcome)
    requires |replies| == |actions| && o in RunOutcomes(g, actions, replies)
    requires o.success && KindOf(o) == WorkPriority && !NoPawn(PawnOf(o.target))
    ensures var types := RunGuards(g, actions, replies).workTypes; types.Some? && Accepted(types.value, o.parameters)
  {
    var n := |actions| - 1;
    var before := RunGuards(g, actions[..n], replies[..n]);
    DispatchWork(before, actions[n], replies[n]);
    if o in RunOutcomes(g, actions[..n], replies[..n]) {
      ExecutedWorkAccepted(g, actions[..n], replies[..n], o);
    }
  }

  /** Over any run from a fresh executor, no map cell lies in two remembered stockpiles, nor
      in two remembered growing zones. */
  lemma ZonesStayDisjoint(actions: seq<Action>, replies: seq<Reply>)
    requires |replies| == |actions|
    ensures CellDisjoint(RunGuards(NO_ZONES, actions, replies).growing)
    ensures CellDisjoint(RunGuards(NO_ZONES, actions, replies).stockpiles)
  {
    RunSeparate(NO_ZONES, actions, replies);
    ApartIsCellDisjoint(RunGuards(NO_ZONES, actions, replies).growing);
    ApartIsCellDisjoint(RunGuards(NO_ZONES, actions, replies).stockpiles);
  }

  predicate Stockpiled(o: ActionOutcome) { o.success && KindOf(o) == StockpileZone && ZoneRect(o.parameters).Some? }

  /** The rectangles of the successful stockpile outcomes, in order. */
  function StockpileRects(os: seq<ActionOutcome>): seq<Rect> {
    if os == [] then []
    else
      var last := os[|os| - 1];
      StockpileRects(os[..|os| - 1]) + if Stockpiled(last) then [ZoneRect(last.parameters).value] else []
  }

  /** One dispatch remembers a stockpile exactly when its outcome is a success. */
  lemma DispatchRecords(g: Guards, a: Action, reply: Reply)
    ensures var (after, ok) := DispatchStep(g, a, reply);
      after.stockpiles == g.stockpiles + StockpileRects([OutcomeOf(a, ok)]) &&
      (ok && ResolveEndpoint(a.actionType) == StockpileZone ==> Stockpiled(OutcomeOf(a, ok)))
  {
    var (after, ok) := DispatchStep(g, a, reply);
    var o := OutcomeOf(a, ok);
    assert [o][..0] == [];
    assert StockpileRects([o]) == if Stockpiled(o) then [ZoneRect(a.parameters).value] else [];
    if ResolveEndpoint(a.actionType) != StockpileZone {
      assert after.stockpiles == g.stockpiles;
    }
  }

  lemma StockpileRectsStep(os: seq<ActionOutcome>, o: ActionOutcome)
    ensures StockpileRects(os + [o]) == StockpileRects(os) + StockpileRects([o])
  {
  }

  /** The stockpile guard is exactly the record of the stockpiles that succeeded. */
  lemma {:induction false} StockpilesRecorded(g: Guards, actions: seq<Action>, replies: seq<Reply>)
    requires |replies| == |actions|
    ensures RunGuards(g, actions, replies).stockpiles ==
      g.stockpiles + StockpileRects(RunOutcomes(g, actions, replies))
  {
    if actions != [] {
      var n := |actions| - 1;
      StockpilesRecorded(g, actions[..n], replies[..n]);
      if !IsNoAction(actions[n]) {
        var before, outcomes := RunGuards(g, actions[..n], replies[..n]), RunOutcomes(g, actions[..n], replies[..n]);
        RecordsStep(g.stockpiles, before, outcomes, actions[n], replies[n]);
      }
    }
  }

  lemma RecordsStep(known: seq<Rect>, before: Guards, outcomes: seq<ActionOutcome>, a: Action, reply: Reply)
    requires before.stockpiles == known + StockpileRects(outcomes)
    ensures var (after, ok) := DispatchStep(before, a, reply);
      after.stockpiles == known + StockpileRects(outcomes + [OutcomeOf(a, ok)])
  {
    var o := OutcomeOf(a, DispatchStep(before, a, reply).1);
    DispatchRecords(before, a, reply);
    StockpileRectsStep(outcomes, o);
  }

  /** Every stockpile that succeeded had a rectangle. */
  lemma {:induction false} StockpileHadRect(g: Guards, actions: seq<Action>, replies: seq<Reply>, o: ActionOutcome)
    requires |replies| == |actions| && o in RunOutcomes(g, actions, replies)
    requires o.success && KindOf(o) == StockpileZone
    ensures Stockpiled(o)
  {
    var n := |actions| - 1;
    if o in RunOutcomes(g, actions[..n], replies[..n]) {
      StockpileHadRect(g, actions[..n], replies[..n], o);
    } else {
      DispatchRecords(RunGuards(g, actions[..n], replies[..n]), actions[n], replies[n]);
    }
  }

  /** One dispatch forgets no growing zone, and a success leaves its rectangle covered. */
  lemma DispatchGrows(g: Guards, a: Action, reply: Reply)
    ensures var (after, ok) := DispatchStep(g, a, reply);
      g.growing <= after.growing &&
      (ok && ResolveEndpoint(a.actionType) == GrowingZone ==>
        ZoneRect(a.parameters).Some? && OverlapsAny(ZoneRect(a.parameters).value, after.growing))
  {
    GrowingStepGrows(g.growing, a.parameters, reply);
  }

  lemma GrowingStepGrows(growing: seq<Rect>, params: Params, reply: Reply)
    ensures var (after, ok) := GrowingStep(growing, params, reply);
      growing <= after && (ok ==> ZoneRect(params).Some? && OverlapsAny(ZoneRect(params).value, after))
  {
    var (after, ok) := GrowingStep(growing, params, reply);
    if |after| > |growing| {
      assert after[|growing|] == ZoneRect(params).value;
    }
  }

  lemma CoverageKept(r: Rect, known: seq<Rect>, more: seq<Rect>)
    requires known <= more && OverlapsAny(r, known)
    ensures OverlapsAny(r, more)
  {
  }

  /** A growing zone that succeeded overlaps a remembered one: the farm exists. */
  lemma {:induction false} GrowingCovered(g: Guards, actions: seq<Action>, replies: seq<Reply>, o: ActionOutcome)
    requires |replies| == |actions| && o in RunOutcomes(g, actions, replies)
    requires o.success && KindOf(o) == GrowingZone
    ensures ZoneRect(o.parameters).Some?
    ensures OverlapsAny(ZoneRect(o.parameters).value, RunGuards(g, actions, replies).growing)
  {
    var n := |actions| - 1;
    var before := RunGuards(g, actions[..n], replies[..n]);
    DispatchGrows(before, actions[n], replies[n]);
    if o in RunOutcomes(g, actions[..n], replies[..n]) {
      GrowingCovered(g, actions[..n], replies[..n], o);
      CoverageKept(ZoneRect(o.parameters).value, before.growing, RunGuards(g, actions, replies).growing);
    }
  }

  /** Two successful stockpile outcomes at different positions have their own rectangles in
      the record, in the same order. */
  lemma {:induction false} StockpileRectsAt(os: seq<ActionOutcome>, i: nat, j: nat) returns (a: nat, b: nat)
    requires i < j < |os| && Stockpiled(os[i]) && Stockpiled(os[j])
    ensures a < b < |StockpileRects(os)|
    ensures StockpileRects(os)[a] == ZoneRect(os[i].parameters).value
    ensures StockpileRects(os)[b] == ZoneRect(os[j].parameters).value
  {
    var front := os[..|os| - 1];
    if j < |front| {
      a, b := StockpileRectsAt(front, i, j);
    } else {
      a := StockpileRectIn(front, i);
      b := |StockpileRects(front)|;
    }
  }

  lemma {:induction false} StockpileRectIn(os: seq<ActionOutcome>, i: nat) returns (a: nat)
    requires i < |os| && Stockpiled(os[i])
    ensures a < |StockpileRects(os)| && StockpileRects(os)[a] == ZoneRect(os[i].parameters).value
  {
    var front := os[..|os| - 1];
    if i < |front| {
      a := StockpileRectIn(front, i);
    } else {
      a := |StockpileRects(front)|;
    }
  }

  /** Where the detector sees a rectangle, the executor worked on the same one. It sees the
      executor's exactly when every coordinate consulted is given, and by no boolean. */
  lemma DetectorSeesExecutorRect(params: Params)
    ensures RectOf(params).Some? ==> ZoneRect(params) == RectOf(params)
    ensures RectOf(params) == ZoneRect(params) <==> ZoneRect(params).None? || GivenCorners(params)
  {
  }

  /** Both coordinates of the first corner are given, and none that is consulted by a boolean. */
  predicate GivenCorners(params: Params) {
    ("x1" in params || "x" in params) && ("z1" in params || "z" in params) &&
    !GetOr(params, "x1", Get(params, "x")).Bool? && !GetOr(params, "z1", Get(params, "z")).Bool? &&
    !Get(params, "x2").Bool? && !Get(params, "z2").Bool?
  }

  /** An executed zone write had a rectangle. */
  lemma ZoneHadRect(g: Guards, actions: seq<Action>, replies: seq<Reply>, o: ActionOutcome)
    requires |replies| == |actions| && o in RunOutcomes(g, actions, replies)
    requires o.success && IsZone(KindOf(o))
    ensures ZoneRect(o.parameters).Some?
  {
    if KindOf(o) == GrowingZone {
      GrowingCovered(g, actions, replies, o);
    } else {
      StockpileHadRect(g, actions, replies, o);
    }
  }

  /** Of two executed zones that overlap, the detector notices exactly when both give their
      corners. */
  lemma OverlapSeenIff(g: Guards, actions: seq<Action>, replies: seq<Reply>, a: ActionOutcome, b: ActionOutcome)
    requires |replies| == |actions| && a in RunOutcomes(g, actions, replies) && b in RunOutcomes(g, actions, replies)
    requires a.success && b.success && IsZone(KindOf(a)) && IsZone(KindOf(b))
    ensures ZoneRect(a.parameters).Some? && ZoneRect(b.parameters).Some?
    ensures RectsOverlap(ZoneRect(a.parameters).value, ZoneRect(b.parameters).value) ==>
      (ZoneClash(a, b) <==> GivenCorners(a.parameters) && GivenCorners(b.parameters))
  {
    ZoneHadRect(g, actions, replies, a);
    ZoneHadRect(g, actions, replies, b);
    DetectorSeesExecutorRect(a.parameters);
    DetectorSeesExecutorRect(b.parameters);
  }

  /** A farm and a stockpile on the default rectangle: both executed, neither flagged. */
  lemma DefaultZonesUnseen(farm: Action, stockpile: Action, reply: Reply)
    requires ResolveEndpoint(farm.actionType) == GrowingZone && ResolveEndpoint(stockpile.actionType) == StockpileZone
    requires farm.parameters == stockpile.parameters == map[] && reply.answer == Done
    ensures var os := RunOutcomes(NO_ZONES, [farm, stockpile], [reply, reply]);
      os == [OutcomeOf(farm, true), OutcomeOf(stockpile, true)] &&
      ZoneRect(farm.parameters) == ZoneRect(stockpile.parameters) == Some(Rect(0, 0, 5, 5)) && Flagged(os) == {}
  {
    var a, b := OutcomeOf(farm, true), OutcomeOf(stockpile, true);
    DefaultZoneDone(NO_ZONES, farm, reply);
    DefaultZoneDone(DispatchStep(NO_ZONES, farm, reply).0, stockpile, reply);
    RunPair(NO_ZONES, farm, reply, stockpile, reply);
    DefaultZoneUnseen(a, b);
    FlaggedPair(a, b);
  }

  lemma DefaultZoneDone(g: Guards, a: Action, reply: Reply)
    requires IsZone(ResolveEndpoint(a.actionType)) && a.parameters == map[] && reply.answer == Done
    requires g.stockpiles == []
    ensures DispatchStep(g, a, reply).1 && ZoneRect(a.parameters) == Some(Rect(0, 0, 5, 5))
    ensures ResolveEndpoint(a.actionType) == GrowingZone ==> DispatchStep(g, a, reply).0.stockpiles == []
  {
  }

  /** A run of two actions. */
  lemma RunPair(g: Guards, a: Action, ra: Reply, b: Action, rb: Reply)
    requires !IsNoAction(a) && !IsNoAction(b)
    ensures var (mid, first) := DispatchStep(g, a, ra);
      var (after, second) := DispatchStep(mid, b, rb);
      RunGuards(g, [a, b], [ra, rb]) == after &&
      RunOutcomes(g, [a, b], [ra, rb]) == [OutcomeOf(a, first), OutcomeOf(b, second)]
  {
    assert [] + [a] == [a] && [] + [ra] == [ra] && [a] + [b] == [a, b] && [ra] + [rb] == [ra, rb];
    RunLast(g, [], [], a, ra);
    RunLast(g, [a], [ra], b, rb);
  }

  lemma DefaultZoneUnseen(a: ActionOutcome, b: ActionOutcome)
    requires IsZone(KindOf(a)) && IsZone(KindOf(b)) && a.parameters == map[]
    ensures !Clash(a, b)
  {
  }

  /** Over any run from a fresh executor, no two successful stockpile outcomes overlap. */
  lemma StockpilesNeverOverlap(actions: seq<Action>, replies: seq<Reply>, i: nat, j: nat)
    requires |replies| == |actions|
    requires var os := RunOutcomes(NO_ZONES, actions, replies);
      i < j < |os| && os[i].success && os[j].success && KindOf(os[i]) == KindOf(os[j]) == StockpileZone
    ensures var os := RunOutcomes(NO_ZONES, actions, replies);
      Stockpiled(os[i]) && Stockpiled(os[j]) &&
      !RectsOverlap(ZoneRect(os[i].parameters).value, ZoneRect(os[j].parameters).value)
  {
    var os := RunOutcomes(NO_ZONES, actions, replies);
    var known := RunGuards(NO_ZONES, actions, replies).stockpiles;
    assert known == StockpileRects(os) by {
      StockpilesRecorded(NO_ZONES, actions, replies);
    }
    StockpileHadRect(NO_ZONES, actions, replies, os[i]);
    StockpileHadRect(NO_ZONES, actions, replies, os[j]);
    assert Apart(known) by {
      RunSeparate(NO_ZONES, actions, replies);
    }
    var a, b := StockpileRectsAt(os, i, j);
  }

  /** So the detector never flags one stockpile against another. */
  lemma StockpilesNeverClash(actions: seq<Action>, replies: seq<Reply>, i: nat, j: nat)
    requires |replies| == |actions|
    requires var os := RunOutcomes(NO_ZONES, actions, replies);
      i < j < |os| && os[i].success && os[j].success && KindOf(os[i]) == KindOf(os[j]) == StockpileZone
    ensures var os := RunOutcomes(NO_ZONES, actions, replies); !Clash(os[i], os[j])
  {
    var os := RunOutcomes(NO_ZONES, actions, replies);
    StockpilesNeverOverlap(actions, replies, i, j);
    DetectorSeesExecutorRect(os[i].parameters);
    DetectorSeesExecutorRect(os[j].parameters);
    ZonesClashAsZones(os[i], os[j]);
  }

  /** No successful stockpile outcome overlaps `r`. */
  predicate FreeOfStockpiles(os: seq<ActionOutcome>, r: Rect) {
    forall k :: 0 <= k < |os| && Stockpiled(os[k]) ==> !RectsOverlap(r, ZoneRect(os[k].parameters).value)
  }

  lemma {:induction false} FreeOfRecorded(os: seq<ActionOutcome>, r: Rect)
    ensures FreeOfStockpiles(os, r) <==> !OverlapsAny(r, StockpileRects(os))
  {
    if os != [] {
      var front, last := os[..|os| - 1], os[|os| - 1];
      FreeOfRecorded(front, r);
      assert os == front + [last];
      assert FreeOfStockpiles(os, r) <==>
        FreeOfStockpiles(front, r) && (Stockpiled(last) ==> !RectsOverlap(r, ZoneRect(last.parameters).value));
      if Stockpiled(last) {
        var own := ZoneRect(last.parameters).value;
        OverlapsAnyAppend(r, StockpileRects(front), [own]);
        assert OverlapsAny(r, [own]) <==> RectsOverlap(r, own) by {
          assert [own][0] == own;
        }
      } else {
        assert StockpileRects(os) == StockpileRects(front);
      }
    }
  }

  lemma OverlapsAnyAppend(r: Rect, xs: seq<Rect>, ys: seq<Rect>)
    ensures OverlapsAny(r, xs + ys) <==> OverlapsAny(r, xs) || OverlapsAny(r, ys)
  {
    var both := xs + ys;
    forall k | 0 <= k < |both| ensures both[k] == if k < |xs| then xs[k] else ys[k - |xs|] {
    }
    if k :| 0 <= k < |xs| && RectsOverlap(r, xs[k]) {
      assert RectsOverlap(r, both[k]);
    }
    if k :| 0 <= k < |ys| && RectsOverlap(r, ys[k]) {
      assert both[|xs| + k] == ys[k];
    }
  }

  /** After any run a stockpile write succeeds exactly when its parameters are integers, RIMAPI
      accepts it, and no stockpile outcome that succeeded in the run overlaps it. */
  lemma StockpileSucceedsIff(actions: seq<Action>, replies: seq<Reply>, a: Action, reply: Reply)
    requires |replies| == |actions| && ResolveEndpoint(a.actionType) == StockpileZone
    ensures DispatchStep(RunGuards(NO_ZONES, actions, replies), a, reply).1 <==>
      ZoneRect(a.parameters).Some? && MapIdOk(a.parameters) && reply.answer == Done &&
      FreeOfStockpiles(RunOutcomes(NO_ZONES, actions, replies), ZoneRect(a.parameters).value)
  {
    var os := RunOutcomes(NO_ZONES, actions, replies);
    StockpilesRecorded(NO_ZONES, actions, replies);
    assert RunGuards(NO_ZONES, actions, replies).stockpiles == StockpileRects(os);
    if ZoneRect(a.parameters).Some? {
      FreeOfRecorded(os, ZoneRect(a.parameters).value);
    }
  }

  /** Executing one list after another is executing their concatenation, so a law of one run
      is a law of every sequence of `execute` calls. */
  lemma {:induction false} RunAppend(g: Guards, xs: seq<Action>, xr: seq<Reply>, ys: seq<Action>, yr: seq<Reply>)
    requires |xs| == |xr| && |ys| == |yr|
    ensures RunGuards(g, xs + ys, xr + yr) == RunGuards(RunGuards(g, xs, xr), ys, yr)
    ensures RunOutcomes(g, xs + ys, xr + yr) ==
      RunOutcomes(g, xs, xr) + RunOutcomes(RunGuards(g, xs, xr), ys, yr)
  {
    if ys == [] {
      assert xs + ys == xs && xr + yr == xr;
    } else {
      var front, last := ys[..|ys| - 1], ys[|ys| - 1];
      var frontReplies, reply := yr[..|yr| - 1], yr[|yr| - 1];
      assert xs + ys == (xs + front) + [last] && xr + yr == (xr + frontReplies) + [reply];
      assert ys == front + [last] && yr == frontReplies + [reply];
      RunAppend(g, xs, xr, front, frontReplies);
      RunLast(g, xs + front, xr + frontReplies, last, reply);
      RunLast(RunGuards(g, xs, xr), front, frontReplies, last, reply);
    }
  }

  lemma RunLast(g: Guards, actions: seq<Action>, replies: seq<Reply>, a: Action, reply: Reply)
    requires |replies| == |actions|
    ensures Run(g, actions + [a], replies + [reply]) ==
      var (before, outcomes) := Run(g, actions, replies);
      if IsNoAction(a) then (before, outcomes)
      else
        var (after, ok) := DispatchStep(before, a, reply);
        (after, outcomes + [OutcomeOf(a, ok)])
  {
  }

  /** One turn of the executor's loop, on prefixes of the plan. */
  lemma RunStep(g: Guards, actions: seq<Action>, replies: seq<Reply>, n: nat)
    requires n < |actions| == |replies|
    ensures var before := RunGuards(g, actions[..n], replies[..n]);
      var outcomes := RunOutcomes(g, actions[..n], replies[..n]);
      var (after, ok) := DispatchStep(before, actions[n], replies[n]);
      RunGuards(g, actions[..n + 1], replies[..n + 1]) == (if IsNoAction(actions[n]) then before else after) &&
      RunOutcomes(g, actions[..n + 1], replies[..n + 1]) ==
        (if IsNoAction(actions[n]) then outcomes else outcomes + [OutcomeOf(actions[n], ok)])
  {
    assert actions[..n + 1] == actions[..n] + [actions[n]] && replies[..n + 1] == replies[..n] + [replies[n]];
    RunLast(g, actions[..n], replies[..n], actions[n], replies[n]);
  }

  /** Real writes are the actions other than `no_action`; outcomes match them one for one. */
  function RealWrites(actions: seq<Action>): seq<Action> {
    if actions == [] then []
    else
      var last := actions[|actions| - 1];
      RealWrites(actions[..|actions| - 1]) + if IsNoAction(last) then [] else [last]
  }

  lemma {:induction false} OutcomesMatchWrites(g: Guards, actions: seq<Action>, replies: seq<Reply>)
    requires |replies| == |actions|
    ensures var os, writes := RunOutcomes(g, actions, replies), RealWrites(actions);
      |os| == |writes| && forall k :: 0 <= k < |os| ==> os[k] == OutcomeOf(writes[k], os[k].success)
  {
    if actions != [] {
      OutcomesMatchWrites(g, actions[..|actions| - 1], replies[..|actions| - 1]);
    }
  }

  class ActionExecutor {
    var createdGrowingZones: seq<Rect>
    var createdStockpileZones: seq<Rect>
    var workTypes: Option<seq<string>>

    /** The abstract state: the two lists of rectangles and the work types. */
    function View(): Guards
      reads this
    {
      Guards(createdGrowingZones, createdStockpileZones, workTypes)
    }

    ghost predicate Valid()
      reads this
    {
      Separate(View())
    }

    constructor ()
      ensures Valid() && View() == NO_ZONES
    {
      createdGrowingZones, createdStockpileZones, workTypes := [], [], None;
    }

    method Overlapping(rect: Rect, known: seq<Rect>) returns (found: bool)
      ensures found == OverlapsAny(rect, known)
    {
      for k := 0 to |known|
        invariant forall m :: 0 <= m < k ==> !RectsOverlap(rect, known[m])
      {
        if RectsOverlap(rect, known[k]) {
          return true;
        }
      }
      found := false;
    }

    method GrowingZone(params: Params, reply: Reply) returns (ok: bool)
      modifies this`createdGrowingZones
      ensures (createdGrowingZones, ok) == GrowingStep(old(createdGrowingZones), params, reply)
    {
      var rect := ZoneRect(params);
      if rect.None? || !MapIdOk(params) {
        return false;
      }
      var covered := Overlapping(rect.value, createdGrowingZones);
      if covered {
        return true;
      }
      if reply.zoneCovered {
        createdGrowingZones := createdGrowingZones + [rect.value];
        return true;
      }
      match reply.answer {
        case AlreadyCovered =>
          createdGrowingZones := createdGrowingZones + [rect.value];
          return true;
        case Failed => return false;
        case Done =>
      }
      createdGrowingZones := createdGrowingZones + [rect.value];
      ok := true;
    }

    method StockpileZone(params: Params, reply: Reply) returns (ok: bool)
      modifies this`createdStockpileZones
      ensures (createdStockpileZones, ok) == StockpileStep(old(createdStockpileZones), params, reply)
    {
      var rect := ZoneRect(params);
      if rect.None? {
        return false;
      }
      var covered := Overlapping(rect.value, createdStockpileZones);
      if covered || !MapIdOk(params) || reply.answer != Done {
        return false;
      }
      createdStockpileZones := createdStockpileZones + [rect.value];
      ok := true;
    }

    method AllowedWorkTypes(reply: Reply) returns (types: seq<string>)
      modifies this`workTypes
      ensures types == WorkTypesOf(old(workTypes), reply) && workTypes == Some(types)
    {
      if workTypes.None? {
        if reply.workList.Some? && reply.workList.value != [] {
          workTypes := reply.workList;
        } else {
          workTypes := Some(VANILLA_WORK_TYPES);
        }
      }
      types := workTypes.value;
    }

    method WorkPriority(params: Params, reply: Reply) returns (ok: bool)
      modifies this`workTypes
      ensures (workTypes, ok) == WorkStep(old(workTypes), params, reply)
    {
      var types := AllowedWorkTypes(reply);
      var pairs := ExtractWorkPriorities(params);
      var keys := AnyOrder(pairs);
      var settings := NormalizeWorkPriorities(params, types, keys);
      ok := settings.Some? && reply.answer == Done;
    }

    method Dispatch(a: Action, reply: Reply) returns (ok: bool)
      modifies this
      ensures (View(), ok) == DispatchStep(old(View()), a, reply)
    {
      var endpoint := ResolveEndpoint(a.actionType);
      if endpoint == StockpileDelete {
        return false;
      }
      if NeedsPawn(endpoint) && NoPawn(CidOf(a)) {
        return true;
      }
      if endpoint == Endpoint.GrowingZone {
        ok := GrowingZone(a.parameters, reply);
      } else if endpoint == Endpoint.StockpileZone {
        ok := StockpileZone(a.parameters, reply);
      } else if endpoint == Endpoint.WorkPriority {
        ok := WorkPriority(a.parameters, reply);
      } else {
        ok := reply.answer == Done;
      }
    }

    /** Executes a plan: counters, outcomes and remembered zones, with the zones of the whole
        run still pairwise disjoint. */
    method Execute(actions: seq<Action>, replies: seq<Reply>) returns (result: ExecutionResult)
      requires Valid() && |replies| == |actions|
      modifies this
      ensures Valid()
      ensures View() == RunGuards(old(View()), actions, replies)
      ensures result == Tally(RunOutcomes(old(View()), actions, replies))
    {
      ghost var start := View();
      var executed, failed, noActionCount := 0, 0, 0;
      var outcomes: seq<ActionOutcome> := [];
      for n := 0 to |actions|
        invariant View() == RunGuards(start, actions[..n], replies[..n])
        invariant outcomes == RunOutcomes(start, actions[..n], replies[..n])
        invariant executed == |Executed(outcomes)| && executed + failed == |outcomes|
        invariant |outcomes| + noActionCount == n
      {
        RunStep(start, actions, replies, n);
        if IsNoAction(actions[n]) {
          noActionCount := noActionCount + 1;
        } else {
          var ok := Dispatch(actions[n], replies[n]);
          ExecutedGrows(outcomes, OutcomeOf(actions[n], ok));
          outcomes := outcomes + [OutcomeOf(actions[n], ok)];
          if ok {
            executed := executed + 1;
          } else {
            failed := failed + 1;
          }
        }
      }
      assert actions[..|actions|] == actions && replies[..|replies|] == replies;
      RunSeparate(start, actions, replies);
      result := ExecutionResult(executed, failed, |actions| - noActionCount, outcomes);
    }
  }
}
