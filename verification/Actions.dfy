/** Actions, plans and outcomes, and the table of action-type aliases. */
module Actions {
  import opened Values

  /** A write endpoint. Endpoints whose name no modelled code inspects are `Catalog`. */
  datatype Endpoint =
    | WorkPriority | Draft | Move | JobAssign | TimeAssignment | Equip | BedRest | Tend
    | GrowingZone | StockpileZone | Blueprint | ResearchTarget | StockpileDelete | NoAction
    | Catalog(name: string)

  datatype Action = Action(
    actionType: string, target: Option<string>, parameters: Params, priority: int, reason: string)

  datatype ActionPlan = ActionPlan(
    role: string, tick: int, actions: seq<Action>, summary: string, confidence: real)

  datatype ActionOutcome = ActionOutcome(
    actionType: string, target: Option<string>, success: bool, parameters: Params)

  datatype ExecutionResult = ExecutionResult(
    executed: int, failed: int, total: int, outcomes: seq<ActionOutcome>)

  /** Legacy action types, then the catalog names themselves. */
  const ENDPOINT_NAMES: seq<(string, Endpoint)> := [
    ("set_work_priority", WorkPriority), ("haul_resource", WorkPriority),
    ("set_growing_zone", GrowingZone), ("create_growing_zone", GrowingZone),
    ("create_stockpile_zone", StockpileZone), ("create_stockpile", StockpileZone),
    ("draft_colonist", Draft), ("undraft_colonist", Draft), ("move_colonist", Move),
    ("set_research_target", ResearchTarget), ("assign_researcher", WorkPriority),
    ("set_recreation_policy", TimeAssignment), ("assign_social_activity", TimeAssignment),
    ("place_blueprint", Blueprint), ("cancel_blueprint", Catalog("designate_area")),
    ("assign_bed_rest", BedRest), ("administer_medicine", Tend),
    ("work_priority", WorkPriority), ("growing_zone", GrowingZone),
    ("stockpile_zone", StockpileZone), ("draft", Draft), ("move", Move),
    ("job_assign", JobAssign), ("research_target", ResearchTarget),
    ("time_assignment", TimeAssignment), ("blueprint", Blueprint), ("bed_rest", BedRest),
    ("tend", Tend), ("equip", Equip), ("stockpile_delete", StockpileDelete),
    ("no_action", NoAction)]

  function Lookup(table: seq<(string, Endpoint)>, name: string): Endpoint {
    if table == [] then Catalog(name)
    else if table[0].0 == name then table[0].1
    else Lookup(table[1..], name)
  }

  function ResolveEndpoint(actionType: string): Endpoint {
    Lookup(ENDPOINT_NAMES, actionType)
  }

  // ---- What the table says, name by name ----

  lemma {:induction false} LookupFirst(table: seq<(string, Endpoint)>, name: string, k: nat)
    requires k < |table| && table[k].0 == name && forall m :: 0 <= m < k ==> table[m].0 != name
    ensures Lookup(table, name) == table[k].1
  {
    if k > 0 {
      LookupFirst(table[1..], name, k - 1);
    }
  }

  lemma {:induction false} LookupNone(table: seq<(string, Endpoint)>, name: string)
    requires forall m :: 0 <= m < |table| ==> table[m].0 != name
    ensures Lookup(table, name) == Catalog(name)
  {
    if table != [] {
      LookupNone(table[1..], name);
    }
  }

  lemma WorkPriorityNames(name: string)
    requires name in {"set_work_priority", "haul_resource", "assign_researcher", "work_priority"}
    ensures ResolveEndpoint(name) == WorkPriority
  {
    var k := if name == "set_work_priority" then 0 else if name == "haul_resource" then 1
      else if name == "assign_researcher" then 10 else 17;
    LookupFirst(ENDPOINT_NAMES, name, k);
  }

  lemma DraftNames(name: string)
    requires name in {"draft_colonist", "undraft_colonist", "draft"}
    ensures ResolveEndpoint(name) == Draft
  {
    var k := if name == "draft_colonist" then 6 else if name == "undraft_colonist" then 7 else 20;
    LookupFirst(ENDPOINT_NAMES, name, k);
  }

  lemma MoveNames(name: string)
    requires name in {"move_colonist", "move"}
    ensures ResolveEndpoint(name) == Move
  {
    var k := if name == "move_colonist" then 8 else 21;
    LookupFirst(ENDPOINT_NAMES, name, k);
  }

  lemma JobAssignNames(name: string)
    requires name == "job_assign"
    ensures ResolveEndpoint(name) == JobAssign
  {
    LookupFirst(ENDPOINT_NAMES, name, 22);
  }

  lemma TimeAssignmentNames(name: string)
    requires name in {"set_recreation_policy", "assign_social_activity", "time_assignment"}
    ensures ResolveEndpoint(name) == TimeAssignment
  {
    var k := if name == "set_recreation_policy" then 11 else if name == "assign_social_activity" then 12 else 24;
    LookupFirst(ENDPOINT_NAMES, name, k);
  }

  lemma EquipNames(name: string)
    requires name == "equip"
    ensures ResolveEndpoint(name) == Equip
  {
    LookupFirst(ENDPOINT_NAMES, name, 28);
  }

  lemma BedRestNames(name: string)
    requires name in {"assign_bed_rest", "bed_rest"}
    ensures ResolveEndpoint(name) == BedRest
  {
    var k := if name == "assign_bed_rest" then 15 else 26;
    LookupFirst(ENDPOINT_NAMES, name, k);
  }

  lemma TendNames(name: string)
    requires name in {"administer_medicine", "tend"}
    ensures ResolveEndpoint(name) == Tend
  {
    var k := if name == "administer_medicine" then 16 else 27;
    LookupFirst(ENDPOINT_NAMES, name, k);
  }

  lemma GrowingZoneNames(name: string)
    requires name in {"set_growing_zone", "create_growing_zone", "growing_zone"}
    ensures ResolveEndpoint(name) == GrowingZone
  {
    var k := if name == "set_growing_zone" then 2 else if name == "create_growing_zone" then 3 else 18;
    LookupFirst(ENDPOINT_NAMES, name, k);
  }

  lemma StockpileZoneNames(name: string)
    requires name in {"create_stockpile_zone", "create_stockpile", "stockpile_zone"}
    ensures ResolveEndpoint(name) == StockpileZone
  {
    var k := if name == "create_stockpile_zone" then 4 else if name == "create_stockpile" then 5 else 19;
    LookupFirst(ENDPOINT_NAMES, name, k);
  }

  lemma BlueprintNames(name: string)
    requires name in {"place_blueprint", "blueprint"}
    ensures ResolveEndpoint(name) == Blueprint
  {
    var k := if name == "place_blueprint" then 13 else 25;
    LookupFirst(ENDPOINT_NAMES, name, k);
  }

  lemma ResearchTargetNames(name: string)
    requires name in {"set_research_target", "research_target"}
    ensures ResolveEndpoint(name) == ResearchTarget
  {
    var k := if name == "set_research_target" then 9 else 23;
    LookupFirst(ENDPOINT_NAMES, name, k);
  }

  lemma StockpileDeleteNames(name: string)
    requires name == "stockpile_delete"
    ensures ResolveEndpoint(name) == StockpileDelete
  {
    LookupFirst(ENDPOINT_NAMES, name, 29);
  }

  lemma NoActionNames(name: string)
    requires name == "no_action"
    ensures ResolveEndpoint(name) == NoAction
  {
    LookupFirst(ENDPOINT_NAMES, name, 30);
  }

  lemma DesignationNames(name: string)
    requires name == "cancel_blueprint"
    ensures ResolveEndpoint(name) == Catalog("designate_area")
  {
    LookupFirst(ENDPOINT_NAMES, name, 14);
  }

  /** The names that stand for each endpoint a law speaks of. */
  lemma AliasTable(name: string)
    ensures name in {"set_work_priority", "haul_resource", "assign_researcher", "work_priority"} ==>
      ResolveEndpoint(name) == WorkPriority
    ensures name in {"draft_colonist", "undraft_colonist", "draft"} ==> ResolveEndpoint(name) == Draft
    ensures name in {"move_colonist", "move"} ==> ResolveEndpoint(name) == Move
    ensures name == "job_assign" ==> ResolveEndpoint(name) == JobAssign
    ensures name in {"set_recreation_policy", "assign_social_activity", "time_assignment"} ==>
      ResolveEndpoint(name) == TimeAssignment
    ensures name == "equip" ==> ResolveEndpoint(name) == Equip
    ensures name in {"assign_bed_rest", "bed_rest"} ==> ResolveEndpoint(name) == BedRest
    ensures name in {"administer_medicine", "tend"} ==> ResolveEndpoint(name) == Tend
    ensures name in {"set_growing_zone", "create_growing_zone", "growing_zone"} ==>
      ResolveEndpoint(name) == GrowingZone
    ensures name in {"create_stockpile_zone", "create_stockpile", "stockpile_zone"} ==>
      ResolveEndpoint(name) == StockpileZone
    ensures name in {"place_blueprint", "blueprint"} ==> ResolveEndpoint(name) == Blueprint
    ensures name in {"set_research_target", "research_target"} ==> ResolveEndpoint(name) == ResearchTarget
    ensures name == "stockpile_delete" ==> ResolveEndpoint(name) == StockpileDelete
    ensures name == "no_action" ==> ResolveEndpoint(name) == NoAction
  {
    if name in {"set_work_priority", "haul_resource", "assign_researcher", "work_priority"} {
      WorkPriorityNames(name);
    }
    if name in {"draft_colonist", "undraft_colonist", "draft"} {
      DraftNames(name);
    }
    if name in {"move_colonist", "move"} {
      MoveNames(name);
    }
    if name == "job_assign" {
      JobAssignNames(name);
    }
    if name in {"set_recreation_policy", "assign_social_activity", "time_assignment"} {
      TimeAssignmentNames(name);
    }
    if name == "equip" {
      EquipNames(name);
    }
    if name in {"assign_bed_rest", "bed_rest"} {
      BedRestNames(name);
    }
    if name in {"administer_medicine", "tend"} {
      TendNames(name);
    }
    if name in {"set_growing_zone", "create_growing_zone", "growing_zone"} {
      GrowingZoneNames(name);
    }
    if name in {"create_stockpile_zone", "create_stockpile", "stockpile_zone"} {
      StockpileZoneNames(name);
    }
    if name in {"place_blueprint", "blueprint"} {
      BlueprintNames(name);
    }
    if name in {"set_research_target", "research_target"} {
      ResearchTargetNames(name);
    }
    if name == "stockpile_delete" {
      StockpileDeleteNames(name);
    }
    if name == "no_action" {
      NoActionNames(name);
    }
  }

  /** No other name stands for them: it is a catalog name of its own. */
  lemma OtherNames(name: string)
    requires name !in [
      "set_work_priority", "haul_resource", "assign_researcher", "work_priority", "draft_colonist",
      "undraft_colonist", "draft", "move_colonist", "move", "job_assign", "set_recreation_policy",
      "assign_social_activity", "time_assignment", "equip", "assign_bed_rest", "bed_rest",
      "administer_medicine", "tend", "set_growing_zone", "create_growing_zone", "growing_zone",
      "create_stockpile_zone", "create_stockpile", "stockpile_zone", "place_blueprint", "blueprint",
      "set_research_target", "research_target", "stockpile_delete", "no_action", "cancel_blueprint"]
    ensures ResolveEndpoint(name) == Catalog(name)
  {
    assert |ENDPOINT_NAMES| == 31;
    LookupNone(ENDPOINT_NAMES, name);
  }

  /** The pawn an outcome is about, `""` for none. */
  function PawnOf(target: Option<string>): string {
    if target.Some? then target.value else ""
  }
}
