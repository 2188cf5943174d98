/** The detector's verdict on two executed writes, kind by kind, in terms of what they say. */
module Verdicts {
  import opened Values
  import opened Actions
  import opened Rects
  import opened Coherence

  /** The verdict on many writes is that on pairs: a write is flagged exactly when it was executed and
      is flagged together with some other executed write alone. */
  lemma FlaggedByPairs(os: seq<ActionOutcome>, i: nat)
    ensures i in Flagged(os) <==>
      i < |os| && os[i].success && exists j :: 0 <= j < |os| && j != i && os[j].success && 0 in Flagged([os[i], os[j]])
  {
    forall j | 0 <= j < |os| && i < |os| && os[i].success && os[j].success
      ensures 0 in Flagged([os[i], os[j]]) <==> Clash(os[i], os[j])
    {
      FlaggedPair(os[i], os[j]);
    }
  }

  /** To the detector a missing target is the pawn `""`. */
  predicate SamePawn(a: ActionOutcome, b: ActionOutcome) {
    a.target == b.target || (a.target in {None, Some("")} && b.target in {None, Some("")})
  }

  /** A write clashes only as what it is. */
  lemma PawnKindClash(a: ActionOutcome, b: ActionOutcome)
    ensures KindOf(a) == Draft ==> (Clash(a, b) <==> DraftClash(a, b))
    ensures KindOf(a) == WorkPriority ==> (Clash(a, b) <==> WorkClash(a, b))
    ensures KindOf(a) in {Move, JobAssign} ==> (Clash(a, b) <==> MoveJobClash(a, b))
  {
  }

  lemma ColonyKindClash(a: ActionOutcome, b: ActionOutcome)
    ensures KindOf(a) == Blueprint ==> (Clash(a, b) <==> BlueprintClash(a, b))
    ensures KindOf(a) == ResearchTarget ==> (Clash(a, b) <==> ResearchClash(a, b))
  {
  }

  lemma PawnVerdict(a: ActionOutcome, b: ActionOutcome)
    ensures SamePawn(a, b) <==> PawnOf(a.target) == PawnOf(b.target)
  {
  }

  /** Drafts: the same pawn, once drafted and once not; a missing `is_drafted` drafts. */
  lemma DraftVerdict(a: ActionOutcome, b: ActionOutcome)
    requires a.success && b.success && KindOf(a) == Draft && KindOf(b) == Draft
    ensures Flagged([a, b]) ==
      if SamePawn(a, b) &&
        ("is_drafted" in a.parameters ==> Truthy(a.parameters["is_drafted"])) !=
        ("is_drafted" in b.parameters ==> Truthy(b.parameters["is_drafted"]))
      then {0, 1} else {}
  {
    FlaggedPair(a, b);
    PawnKindClash(a, b);
    PawnVerdict(a, b);
  }

  /** Moves and jobs: one of each on the same pawn. */
  lemma MoveJobVerdict(a: ActionOutcome, b: ActionOutcome)
    requires a.success && b.success && KindOf(a) in {Move, JobAssign} && KindOf(b) in {Move, JobAssign}
    ensures Flagged([a, b]) == if SamePawn(a, b) && KindOf(a) != KindOf(b) then {0, 1} else {}
  {
    FlaggedPair(a, b);
    PawnKindClash(a, b);
    PawnVerdict(a, b);
  }

  /** Work priorities: the same pawn, and some work type with two priorities. */
  lemma WorkVerdict(a: ActionOutcome, b: ActionOutcome)
    requires a.success && b.success && KindOf(a) == WorkPriority && KindOf(b) == WorkPriority
    ensures Flagged([a, b]) ==
      if SamePawn(a, b) && exists w, m, n ::
        m != n && (w, m) in WorkOf(a.parameters).Items && (w, n) in WorkOf(b.parameters).Items
      then {0, 1} else {}
  {
    FlaggedPair(a, b);
    PawnKindClash(a, b);
    PawnVerdict(a, b);
    var x, y := WorkOf(a.parameters), WorkOf(b.parameters);
    if w :| w in x && w in y && x[w] != y[w] {
      assert (w, x[w]) in x.Items && (w, y[w]) in y.Items;
    }
  }

  /** An integer to the detector; booleans are integers 0 and 1 where it asks no further. */
  predicate IntegerIs(v: Value, n: int) { v == Int(n) || (v == Bool(true) && n == 1) || (v == Bool(false) && n == 0) }

  /** Entry by entry, the work priorities that the detector sees. */
  lemma WorkSeen(params: Params, work: string, n: int)
    ensures (work, n) in WorkOf(params).Items <==>
      if "work_priorities" in params && params["work_priorities"].Obj? then
        work in params["work_priorities"].fields && IntegerIs(params["work_priorities"].fields[work], n)
      else if "work_type" in params then
        work == PyStr(params["work_type"]) &&
        (if "priority" in params then IntegerIs(params["priority"], n) else n == 1)
      else work in params && params[work] == Int(n)
  {
  }

  /** The parameter is there and `int` reads it as `n`. */
  predicate Reads(params: Params, key: string, n: int) { key in params && PyInt(params[key]) == Some(n) }

  /** Blueprints: the same cell, both coordinates given. */
  lemma BlueprintVerdict(a: ActionOutcome, b: ActionOutcome)
    requires a.success && b.success && KindOf(a) == Blueprint && KindOf(b) == Blueprint
    ensures Flagged([a, b]) == if exists x, z :: At(a.parameters, x, z) && At(b.parameters, x, z) then {0, 1} else {}
  {
    FlaggedPair(a, b);
    ColonyKindClash(a, b);
    CellIsRead(a.parameters);
    CellIsRead(b.parameters);
    if BlueprintClash(a, b) {
      var (x, z) := CellOf(a.parameters).value;
      assert At(a.parameters, x, z) && At(b.parameters, x, z);
    }
  }

  /** Both coordinates are there and read so. */
  predicate At(params: Params, x: int, z: int) { Reads(params, "x", x) && Reads(params, "z", z) }

  lemma CellIsRead(params: Params)
    ensures forall x, z :: At(params, x, z) <==> CellOf(params) == Some((x, z))
  {
  }

  /** The project is named by `project`, else by `name`, else not at all. */
  predicate Names(params: Params, project: string) {
    if "project" in params then project == PyStr(params["project"])
    else if "name" in params then project == PyStr(params["name"])
    else project == ""
  }

  /** Research: two different projects. */
  lemma ResearchVerdict(a: ActionOutcome, b: ActionOutcome)
    requires a.success && b.success && KindOf(a) == ResearchTarget && KindOf(b) == ResearchTarget
    ensures Flagged([a, b]) ==
      if exists p :: Names(a.parameters, p) && Names(b.parameters, p) then {} else {0, 1}
  {
    FlaggedPair(a, b);
    ColonyKindClash(a, b);
    assert Names(a.parameters, ProjectOf(a.parameters)) && Names(b.parameters, ProjectOf(b.parameters));
  }

  // ---- Zones ----

  /** An integer by the detector's lights: booleans do not count. */
  predicate IsNumber(v: Value, n: int) { !v.Bool? && PyInt(v) == Some(n) }

  /** A near coordinate: under its own key, else under the short one. */
  predicate Near(params: Params, key: string, short: string, n: int) {
    if key in params then IsNumber(params[key], n) else short in params && IsNumber(params[short], n)
  }

  /** A far coordinate: five beyond the near one unless given. */
  predicate Far(params: Params, key: string, near: int, n: int) {
    if key in params then IsNumber(params[key], n) else n == near + 5
  }

  predicate Within(u: int, v: int, n: int) { u <= n <= v || v <= n <= u }

  /** Cell `(x, z)` lies between the corners that the parameters give. */
  ghost predicate ZoneHas(params: Params, x: int, z: int) {
    exists x1, z1, x2, z2 ::
      Corner(params, x1, z1) && Opposite(params, x1, z1, x2, z2) && Within(x1, x2, x) && Within(z1, z2, z)
  }

  predicate Corner(params: Params, x1: int, z1: int) { Near(params, "x1", "x", x1) && Near(params, "z1", "z", z1) }

  predicate Opposite(params: Params, x1: int, z1: int, x2: int, z2: int) {
    Far(params, "x2", x1, x2) && Far(params, "z2", z1, z2)
  }

  lemma RectCorners(params: Params, x1: int, z1: int, x2: int, z2: int)
    ensures Corner(params, x1, z1) && Opposite(params, x1, z1, x2, z2) ==>
      RectOf(params) == Some(Corners(x1, z1, x2, z2))
  {
  }

  lemma RectHasCorners(params: Params) returns (x1: int, z1: int, x2: int, z2: int)
    requires RectOf(params).Some?
    ensures Corner(params, x1, z1) && Opposite(params, x1, z1, x2, z2)
    ensures RectOf(params) == Some(Corners(x1, z1, x2, z2))
  {
    x1 := LooseInt(GetOr(params, "x1", Get(params, "x"))).value;
    z1 := LooseInt(GetOr(params, "z1", Get(params, "z"))).value;
    x2 := LooseInt(GetOr(params, "x2", Int(x1 + 5))).value;
    z2 := LooseInt(GetOr(params, "z2", Int(z1 + 5))).value;
  }

  /** The rectangle is the cells between the corners. */
  lemma RectIsCells(params: Params, x: int, z: int)
    ensures ZoneHas(params, x, z) <==> RectOf(params).Some? && Covers(RectOf(params).value, x, z)
  {
    if RectOf(params).Some? {
      var x1, z1, x2, z2 := RectHasCorners(params);
      if ZoneHas(params, x, z) {
        var u1, v1, u2, v2 :|
          Corner(params, u1, v1) && Opposite(params, u1, v1, u2, v2) && Within(u1, u2, x) && Within(v1, v2, z);
        RectCorners(params, u1, v1, u2, v2);
      }
    } else if ZoneHas(params, x, z) {
      var u1, v1, u2, v2 :|
        Corner(params, u1, v1) && Opposite(params, u1, v1, u2, v2) && Within(u1, u2, x) && Within(v1, v2, z);
      RectCorners(params, u1, v1, u2, v2);
    }
  }

  /** Zones of either kind: some cell lies in both. */
  lemma ZoneVerdict(a: ActionOutcome, b: ActionOutcome)
    requires a.success && b.success
    requires KindOf(a) in {GrowingZone, StockpileZone} && KindOf(b) in {GrowingZone, StockpileZone}
    ensures Flagged([a, b]) ==
      if exists x, z :: ZoneHas(a.parameters, x, z) && ZoneHas(b.parameters, x, z) then {0, 1} else {}
  {
    FlaggedPair(a, b);
    SharedCells(a.parameters, b.parameters);
    ZonesClashAsZones(a, b);
  }

  lemma SharedCells(p: Params, q: Params)
    ensures (exists x, z :: ZoneHas(p, x, z) && ZoneHas(q, x, z)) <==>
      RectOf(p).Some? && RectOf(q).Some? && RectsOverlap(RectOf(p).value, RectOf(q).value)
  {
    forall x, z ensures ZoneHas(p, x, z) <==> RectOf(p).Some? && Covers(RectOf(p).value, x, z) {
      RectIsCells(p, x, z);
    }
    forall x, z ensures ZoneHas(q, x, z) <==> RectOf(q).Some? && Covers(RectOf(q).value, x, z) {
      RectIsCells(q, x, z);
    }
    if RectOf(p).Some? && RectOf(q).Some? {
      OverlapSharesCell(RectOf(p).value, RectOf(q).value);
      if x, z :| Covers(RectOf(p).value, x, z) && Covers(RectOf(q).value, x, z) {
        assert ZoneHas(p, x, z) && ZoneHas(q, x, z);
      }
    }
  }

  /** Writes of two kinds, other than a move with a job or a farm with a stockpile, never clash. */
  lemma TwoKindsVerdict(a: ActionOutcome, b: ActionOutcome)
    requires a.success && b.success && KindOf(a) != KindOf(b)
    requires !(KindOf(a) in {Move, JobAssign} && KindOf(b) in {Move, JobAssign})
    requires !(KindOf(a) in {GrowingZone, StockpileZone} && KindOf(b) in {GrowingZone, StockpileZone})
    ensures Flagged([a, b]) == {}
  {
    FlaggedPair(a, b);
    SameKindClashes(a, b);
  }

  lemma SameKindClashes(a: ActionOutcome, b: ActionOutcome)
    requires KindOf(a) != KindOf(b)
    ensures Clash(a, b) <==> MoveJobClash(a, b) || ZoneClash(a, b)
  {
  }

  /** Neither do two writes of a kind that is not listed here. */
  lemma OtherKindVerdict(a: ActionOutcome, b: ActionOutcome)
    requires a.success && b.success && KindOf(a) == KindOf(b)
    requires KindOf(a) !in {Draft, WorkPriority, Blueprint, ResearchTarget, GrowingZone, StockpileZone}
    ensures Flagged([a, b]) == {}
  {
    FlaggedPair(a, b);
  }
}
