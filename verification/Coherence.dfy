/** Contradiction detection over a tick's executed writes. The detector fills index dicts in
    one pass; it is proved to flag exactly the writes that clash with another one. */
module Coherence {
  import opened Values
  import opened Seqs
  import opened Actions
  import opened Rects

  /** `_int`: booleans and missing values are not coordinates. */
  function LooseInt(v: Value): Option<int> {
    if v.Bool? then None else PyInt(v)
  }

  /** `_rect` */
  function RectOf(params: Params): Option<Rect> {
    var x1 := LooseInt(GetOr(params, "x1", Get(params, "x")));
    var z1 := LooseInt(GetOr(params, "z1", Get(params, "z")));
    if x1.None? || z1.None? then None
    else
      var x2 := LooseInt(GetOr(params, "x2", Int(x1.value + 5)));
      var z2 := LooseInt(GetOr(params, "z2", Int(z1.value + 5)));
      if x2.None? || z2.None? then None
      else Some(Corners(x1.value, z1.value, x2.value, z2.value))
  }

  /** `isinstance(v, int)`, which booleans satisfy. */
  predicate IsInt(v: Value) { v.Int? || v.Bool? }

  function IntOf(v: Value): int
    requires IsInt(v)
  {
    PyInt(v).value
  }

  /** `_work_priorities`, tolerant of garbage. */
  function WorkOf(params: Params): map<string, int> {
    var nested := Get(params, "work_priorities");
    if nested.Obj? then
      map w | w in nested.fields && IsInt(nested.fields[w]) :: IntOf(nested.fields[w])
    else if "work_type" in params then
      var pri := GetOr(params, "priority", Int(1));
      if IsInt(pri) then map[PyStr(params["work_type"]) := IntOf(pri)] else map[]
    else map w | w in params && params[w].Int? :: params[w].i
  }

  /** The detector reads a flat integer map back as itself exactly when it has no `work_type`. */
  lemma DetectorReadsFlat(m: map<string, int>)
    ensures WorkOf(IntParams(m)) == m <==> "work_type" !in m
  {
  }

  function CellOf(params: Params): Option<(int, int)> {
    if "x" in params && "z" in params && PyInt(params["x"]).Some? && PyInt(params["z"]).Some? then
      Some((PyInt(params["x"]).value, PyInt(params["z"]).value))
    else None
  }

  function ProjectOf(params: Params): string {
    PyStr(GetOr(params, "project", GetOr(params, "name", Str(""))))
  }

  function KindOf(o: ActionOutcome): Endpoint { ResolveEndpoint(o.actionType) }

  predicate IsZone(e: Endpoint) { e == GrowingZone || e == StockpileZone }

  // ---- What a contradiction is ----

  predicate DraftClash(a: ActionOutcome, b: ActionOutcome) {
    KindOf(a) == Draft && KindOf(b) == Draft && PawnOf(a.target) == PawnOf(b.target) &&
    DraftState(a) != DraftState(b)
  }

  predicate DraftState(o: ActionOutcome) { Truthy(GetOr(o.parameters, "is_drafted", Bool(true))) }

  predicate MovesOrWorks(e: Endpoint) { e == Move || e == JobAssign }

  predicate MoveJobClash(a: ActionOutcome, b: ActionOutcome) {
    MovesOrWorks(KindOf(a)) && MovesOrWorks(KindOf(b)) && PawnOf(a.target) == PawnOf(b.target) &&
    KindOf(a) != KindOf(b)
  }

  predicate WorkClash(a: ActionOutcome, b: ActionOutcome) {
    KindOf(a) == WorkPriority && KindOf(b) == WorkPriority && PawnOf(a.target) == PawnOf(b.target) &&
    exists w :: w in WorkOf(a.parameters) && w in WorkOf(b.parameters) &&
      WorkOf(a.parameters)[w] != WorkOf(b.parameters)[w]
  }

  predicate ZoneClash(a: ActionOutcome, b: ActionOutcome) {
    IsZone(KindOf(a)) && IsZone(KindOf(b)) && RectOf(a.parameters).Some? && RectOf(b.parameters).Some? &&
    RectsOverlap(RectOf(a.parameters).value, RectOf(b.parameters).value)
  }

  predicate BlueprintClash(a: ActionOutcome, b: ActionOutcome) {
    KindOf(a) == Blueprint && KindOf(b) == Blueprint &&
    CellOf(a.parameters).Some? && CellOf(a.parameters) == CellOf(b.parameters)
  }

  predicate ResearchClash(a: ActionOutcome, b: ActionOutcome) {
    KindOf(a) == ResearchTarget && KindOf(b) == ResearchTarget &&
    ProjectOf(a.parameters) != ProjectOf(b.parameters)
  }

  predicate Clash(a: ActionOutcome, b: ActionOutcome) {
    DraftClash(a, b) || MoveJobClash(a, b) || WorkClash(a, b) || ZoneClash(a, b) ||
    BlueprintClash(a, b) || ResearchClash(a, b)
  }

  function Executed(outcomes: seq<ActionOutcome>): set<nat> {
    set i: nat | i < |outcomes| && outcomes[i].success
  }

  /** The executed writes that clash with another executed write. */
  function Flagged(outcomes: seq<ActionOutcome>): set<nat> {
    set i: nat | i in Executed(outcomes) &&
      exists j :: j in Executed(outcomes) && j != i && Clash(outcomes[i], outcomes[j])
  }

  // ---- Two-level index dicts ----

  type Index<!K, !S> = map<K, map<S, seq<nat>>>

  /** `index.setdefault(k, {}).setdefault(s, []).append(i)` */
  function Insert<K, S>(index: Index<K, S>, k: K, s: S, i: nat): Index<K, S> {
    var inner := if k in index then index[k] else map[];
    index[k := inner[s := (if s in inner then inner[s] else []) + [i]]]
  }

  predicate Holds<K, S>(index: Index<K, S>, k: K, s: S, i: nat) {
    k in index && s in index[k] && i in index[k][s]
  }

  lemma InsertHolds<K(!new), S(!new)>(index: Index<K, S>, k: K, s: S, i: nat)
    requires ProperLists(index) && !Holds(index, k, s, i)
    ensures ProperLists(Insert(index, k, s, i))
    ensures forall q, r, j :: Holds(Insert(index, k, s, i), q, r, j) <==>
      Holds(index, q, r, j) || (q == k && r == s && j == i)
  {
  }

  /** Lists are non-empty and free of repetition. */
  ghost predicate ProperLists<K(!new), S(!new)>(index: Index<K, S>) {
    forall k, s :: k in index && s in index[k] ==> index[k][s] != [] && Distinct(index[k][s])
  }

  /** The index lists write `i` under `k` and `s` exactly when `entry` says so, up to `n`. */
  ghost predicate Indexed<K(!new), S(!new)>(
    index: Index<K, S>, n: nat, os: seq<ActionOutcome>, entry: (ActionOutcome, K, S) -> bool)
    requires n <= |os|
  {
    ProperLists(index) &&
    forall k, s, i: nat :: Holds(index, k, s, i) <==> i < n && os[i].success && entry(os[i], k, s)
  }

  lemma IndexedInsert<K(!new), S(!new)>(
    index: Index<K, S>, n: nat, os: seq<ActionOutcome>, entry: (ActionOutcome, K, S) -> bool, k0: K, s0: S)
    requires n < |os| && os[n].success && Indexed(index, n, os, entry)
    requires forall k, s :: entry(os[n], k, s) <==> k == k0 && s == s0
    ensures Indexed(Insert(index, k0, s0, n), n + 1, os, entry)
  {
    assert !Holds(index, k0, s0, n);
    InsertHolds(index, k0, s0, n);
  }

  lemma IndexedSkip<K(!new), S(!new)>(
    index: Index<K, S>, n: nat, os: seq<ActionOutcome>, entry: (ActionOutcome, K, S) -> bool)
    requires n < |os| && Indexed(index, n, os, entry)
    requires !os[n].success || forall k, s :: !entry(os[n], k, s)
    ensures Indexed(index, n + 1, os, entry)
  {
  }

  ghost predicate SplitUnder<K, S(!new)>(index: Index<K, S>, k: K, i: nat) {
    exists s, r :: Holds(index, k, s, i) && r in index[k] && r != s
  }

  /** `i` sits under a key that holds two or more sub-keys. */
  ghost predicate Split<K(!new), S(!new)>(index: Index<K, S>, i: nat) {
    exists k :: SplitUnder(index, k, i)
  }

  /** In terms of the outcomes: some other write of the same key has another sub-key. */
  lemma SplitMeansClash<K(!new), S(!new)>(
    index: Index<K, S>, os: seq<ActionOutcome>, entry: (ActionOutcome, K, S) -> bool, i: nat)
    requires Indexed(index, |os|, os, entry)
    ensures Split(index, i) <==>
      i < |os| && os[i].success && exists j, k, s, r ::
        0 <= j < |os| && os[j].success && entry(os[i], k, s) && entry(os[j], k, r) && r != s
  {
    if Split(index, i) {
      var k :| SplitUnder(index, k, i);
      var s, r :| Holds(index, k, s, i) && r in index[k] && r != s;
      assert Holds(index, k, r, index[k][r][0]);
    }
    if i < |os| && os[i].success {
      forall j, k, s, r |
        0 <= j < |os| && os[j].success && entry(os[i], k, s) && entry(os[j], k, r) && r != s
        ensures Split(index, i)
      {
        assert Holds(index, k, s, i) && Holds(index, k, r, j);
        assert SplitUnder(index, k, i);
      }
    }
  }

  lemma TwoKeys<S>(inner: map<S, seq<nat>>, s: S)
    requires s in inner
    ensures |inner| > 1 <==> exists r :: r in inner && r != s
  {
    var rest := inner.Keys - {s};
    assert inner.Keys == rest + {s};
    if rest != {} {
      var r :| r in rest;
    }
  }

  /** Flag every write under the sub-keys of one key. */
  method FlagAll<S>(inner: map<S, seq<nat>>, flagged: set<nat>) returns (out: set<nat>)
    ensures forall i: nat :: i in out <==> i in flagged || exists s :: s in inner && i in inner[s]
  {
    out := flagged;
    var todo := inner.Keys;
    while todo != {}
      invariant todo <= inner.Keys
      invariant forall i: nat :: i in out <==> i in flagged || exists s :: s in inner && s !in todo && i in inner[s]
      decreases todo
    {
      var s :| s in todo;
      todo := todo - {s};
      out := out + set i | i in inner[s];
    }
  }

  lemma SplitUnderMeans<K, S(!new)>(index: Index<K, S>, k: K, i: nat)
    requires k in index
    ensures SplitUnder(index, k, i) <==> |index[k]| > 1 && exists s :: s in index[k] && i in index[k][s]
  {
    forall s | s in index[k] ensures |index[k]| > 1 <==> exists r :: r in index[k] && r != s {
      TwoKeys(index[k], s);
    }
    if s :| s in index[k] && i in index[k][s] && |index[k]| > 1 {
      var r :| r in index[k] && r != s;
      assert Holds(index, k, s, i);
    }
  }

  /** Flag every write under a key with two or more sub-keys. */
  method FlagSplit<K(!new), S(!new)>(index: Index<K, S>, flagged: set<nat>) returns (out: set<nat>)
    ensures forall i: nat :: i in out <==> i in flagged || Split(index, i)
  {
    out := flagged;
    var todo := index.Keys;
    while todo != {}
      invariant todo <= index.Keys
      invariant forall i: nat ::
        i in out <==> (i in flagged || exists k :: k in index && k !in todo && SplitUnder(index, k, i))
      decreases todo
    {
      var k :| k in todo;
      forall i: nat ensures SplitUnder(index, k, i) <==>
        |index[k]| > 1 && exists s :: s in index[k] && i in index[k][s]
      {
        SplitUnderMeans(index, k, i);
      }
      if |index[k]| > 1 {
        out := FlagAll(index[k], out);
      }
      todo := todo - {k};
    }
  }

  // ---- The detector ----

  function DraftEntry(): (ActionOutcome, string, bool) -> bool {
    (o: ActionOutcome, p: string, s: bool) => KindOf(o) == Draft && PawnOf(o.target) == p && DraftState(o) == s
  }

  function MoveEntry(): (ActionOutcome, string, Endpoint) -> bool {
    (o: ActionOutcome, p: string, e: Endpoint) => MovesOrWorks(KindOf(o)) && PawnOf(o.target) == p && KindOf(o) == e
  }

  function WorkEntry(): (ActionOutcome, (string, string), int) -> bool {
    (o: ActionOutcome, pw: (string, string), n: int) =>
      KindOf(o) == WorkPriority && PawnOf(o.target) == pw.0 &&
      pw.1 in WorkOf(o.parameters) && WorkOf(o.parameters)[pw.1] == n
  }

  function BlueprintEntry(): (ActionOutcome, (int, int), Endpoint) -> bool {
    (o: ActionOutcome, c: (int, int), e: Endpoint) =>
      KindOf(o) == Blueprint && CellOf(o.parameters) == Some(c) && e == Blueprint
  }

  function ResearchEntry(): (ActionOutcome, Endpoint, string) -> bool {
    (o: ActionOutcome, e: Endpoint, p: string) =>
      KindOf(o) == ResearchTarget && e == ResearchTarget && ProjectOf(o.parameters) == p
  }

  /** Zones in the order they were executed. */
  ghost predicate ZonesListed(zones: seq<(nat, Rect)>, n: nat, os: seq<ActionOutcome>)
    requires n <= |os|
  {
    (forall k :: 0 <= k < |zones| ==> zones[k].0 < n) &&
    (forall k, m :: 0 <= k < m < |zones| ==> zones[k].0 < zones[m].0) &&
    forall i: nat, r :: (i, r) in zones <==>
      i < n && os[i].success && IsZone(KindOf(os[i])) && RectOf(os[i].parameters) == Some(r)
  }

  /** The dicts of one detection pass. One-level dicts carry their endpoint as the other key. */
  datatype Books = Books(
    drafts: Index<string, bool>, moves: Index<string, Endpoint>, work: Index<(string, string), int>,
    zones: seq<(nat, Rect)>, blueprints: Index<(int, int), Endpoint>, research: Index<Endpoint, string>)

  ghost predicate Booked(b: Books, n: nat, os: seq<ActionOutcome>)
    requires n <= |os|
  {
    Indexed(b.drafts, n, os, DraftEntry()) && Indexed(b.moves, n, os, MoveEntry()) &&
    Indexed(b.work, n, os, WorkEntry()) && ZonesListed(b.zones, n, os) &&
    Indexed(b.blueprints, n, os, BlueprintEntry()) && Indexed(b.research, n, os, ResearchEntry())
  }

  /** Books the write `n` under each work type it sets. */
  method NoteWork(work: Index<(string, string), int>, n: nat, ghost os: seq<ActionOutcome>, o: ActionOutcome)
    returns (out: Index<(string, string), int>)
    requires n < |os| && os[n] == o && o.success && KindOf(o) == WorkPriority
    requires Indexed(work, n, os, WorkEntry())
    ensures Indexed(out, n + 1, os, WorkEntry())
  {
    out := work;
    var pawn, pairs := PawnOf(o.target), WorkOf(o.parameters);
    var todo := pairs.Keys;
    while todo != {}
      invariant todo <= pairs.Keys && ProperLists(out)
      invariant forall k, s, i: nat :: Holds(out, k, s, i) <==>
        (Holds(work, k, s, i) || (i == n && k.0 == pawn && k.1 in pairs && k.1 !in todo && pairs[k.1] == s))
      decreases todo
    {
      var w :| w in todo;
      ghost var before := out;
      assert !Holds(before, (pawn, w), pairs[w], n);
      InsertHolds(out, (pawn, w), pairs[w], n);
      out := Insert(out, (pawn, w), pairs[w], n);
      todo := todo - {w};
    }
  }

  method NoteWrite<K(!new), S(!new)>(
    index: Index<K, S>, n: nat, ghost os: seq<ActionOutcome>, ghost entry: (ActionOutcome, K, S) -> bool,
    applies: bool, k: K, s: S) returns (out: Index<K, S>)
    requires n < |os| && os[n].success && Indexed(index, n, os, entry)
    requires forall q, r :: entry(os[n], q, r) <==> applies && q == k && r == s
    ensures Indexed(out, n + 1, os, entry)
  {
    if applies {
      IndexedInsert(index, n, os, entry, k, s);
      return Insert(index, k, s, n);
    }
    IndexedSkip(index, n, os, entry);
    out := index;
  }

  method NoteZone(zones: seq<(nat, Rect)>, n: nat, os: seq<ActionOutcome>) returns (out: seq<(nat, Rect)>)
    requires n < |os| && os[n].success && ZonesListed(zones, n, os)
    ensures ZonesListed(out, n + 1, os)
  {
    out := zones;
    if IsZone(KindOf(os[n])) {
      var rect := RectOf(os[n].parameters);
      if rect.Some? {
        out := zones + [(n, rect.value)];
      }
    }
  }

  /** Books one executed write: at most one of the dicts takes it. */
  method Note(b: Books, n: nat, os: seq<ActionOutcome>) returns (out: Books)
    requires n < |os| && os[n].success && Booked(b, n, os)
    ensures Booked(out, n + 1, os)
  {
    var o := os[n];
    var endpoint, pawn := KindOf(o), PawnOf(o.target);
    var cell := CellOf(o.parameters);
    var drafts := NoteWrite(b.drafts, n, os, DraftEntry(), endpoint == Draft, pawn, DraftState(o));
    var moves := NoteWrite(b.moves, n, os, MoveEntry(), MovesOrWorks(endpoint), pawn, endpoint);
    var work := b.work;
    if endpoint == WorkPriority {
      work := NoteWork(work, n, os, o);
    } else {
      IndexedSkip(work, n, os, WorkEntry());
    }
    var zones := NoteZone(b.zones, n, os);
    var blueprints := NoteWrite(b.blueprints, n, os, BlueprintEntry(), endpoint == Blueprint && cell.Some?,
      if cell.Some? then cell.value else (0, 0), Blueprint);
    var research := NoteWrite(b.research, n, os, ResearchEntry(), endpoint == ResearchTarget,
      ResearchTarget, ProjectOf(o.parameters));
    out := Books(drafts, moves, work, zones, blueprints, research);
  }

  /** Some listed zone of `i` overlaps another listed zone. */
  ghost predicate ZonePaired(zones: seq<(nat, Rect)>, i: nat) {
    exists a, b ::
      0 <= a < |zones| && 0 <= b < |zones| && a != b && zones[a].0 == i && RectsOverlap(zones[a].1, zones[b].1)
  }

  /** Flag both zones of every overlapping pair. */
  method FlagZones(zones: seq<(nat, Rect)>, flagged: set<nat>) returns (out: set<nat>)
    ensures forall i: nat :: i in out <==> i in flagged || ZonePaired(zones, i)
  {
    out := flagged;
    for a := 0 to |zones|
      invariant forall i: nat :: i in out <==> i in flagged || exists p, q ::
        0 <= p < |zones| && 0 <= q < |zones| && p != q && Min(p, q) < a && zones[p].0 == i &&
        RectsOverlap(zones[p].1, zones[q].1)
    {
      for b := a + 1 to |zones|
        invariant forall i: nat :: i in out <==> i in flagged || exists p, q ::
          0 <= p < |zones| && 0 <= q < |zones| && p != q && zones[p].0 == i &&
          (Min(p, q) < a || (Min(p, q) == a && Max(p, q) < b)) && RectsOverlap(zones[p].1, zones[q].1)
      {
        if RectsOverlap(zones[a].1, zones[b].1) {
          out := out + {zones[a].0, zones[b].0};
        }
      }
    }
  }

  /** `i` shares its list with another write. */
  ghost predicate Crowded<K(!new), S(!new)>(index: Index<K, S>, i: nat) {
    exists k, s :: Holds(index, k, s, i) && |index[k][s]| > 1
  }

  lemma CrowdedMeansClash<K(!new), S(!new)>(
    index: Index<K, S>, os: seq<ActionOutcome>, entry: (ActionOutcome, K, S) -> bool, i: nat)
    requires Indexed(index, |os|, os, entry)
    ensures Crowded(index, i) <==>
      i < |os| && os[i].success && exists j, k, s ::
        0 <= j < |os| && os[j].success && entry(os[i], k, s) && entry(os[j], k, s) && j != i
  {
    if Crowded(index, i) {
      var k, s :| Holds(index, k, s, i) && |index[k][s]| > 1;
      var list := index[k][s];
      var j := if list[0] == i then list[1] else list[0];
      assert Holds(index, k, s, j) && j != i;
    }
    if i < |os| && os[i].success {
      forall j, k, s |
        0 <= j < |os| && os[j].success && entry(os[i], k, s) && entry(os[j], k, s) && j != i
        ensures Crowded(index, i)
      {
        assert Holds(index, k, s, i) && Holds(index, k, s, j);
      }
    }
  }

  /** `_all_conflicting` */
  method FlagCrowded<K(!new)>(index: Index<K, Endpoint>, only: Endpoint, flagged: set<nat>) returns (out: set<nat>)
    requires forall k, s :: k in index && s in index[k] ==> s == only
    ensures forall i: nat :: i in out <==> i in flagged || Crowded(index, i)
  {
    out := flagged;
    var todo := index.Keys;
    while todo != {}
      invariant todo <= index.Keys
      invariant forall i: nat :: i in out <==> (i in flagged || exists k ::
        k !in todo && Holds(index, k, only, i) && |index[k][only]| > 1)
      decreases todo
    {
      var k :| k in todo;
      todo := todo - {k};
      if only in index[k] && |index[k][only]| > 1 {
        out := out + set i | i in index[k][only];
      }
    }
  }

  /** Some other executed write clashes with `i` in the given way. */
  ghost predicate Clashes(os: seq<ActionOutcome>, i: nat, clash: (ActionOutcome, ActionOutcome) -> bool) {
    i in Executed(os) && exists j :: j in Executed(os) && j != i && clash(os[i], os[j])
  }

  lemma DraftsFound(index: Index<string, bool>, os: seq<ActionOutcome>, i: nat)
    requires Indexed(index, |os|, os, DraftEntry())
    ensures Split(index, i) <==> Clashes(os, i, DraftClash)
  {
    SplitMeansClash(index, os, DraftEntry(), i);
    if j :| Clashes(os, i, DraftClash) && j in Executed(os) && j != i && DraftClash(os[i], os[j]) {
      assert DraftEntry()(os[i], PawnOf(os[i].target), DraftState(os[i]));
      assert DraftEntry()(os[j], PawnOf(os[i].target), DraftState(os[j]));
    }
  }

  lemma MovesFound(index: Index<string, Endpoint>, os: seq<ActionOutcome>, i: nat)
    requires Indexed(index, |os|, os, MoveEntry())
    ensures Split(index, i) <==> Clashes(os, i, MoveJobClash)
  {
    SplitMeansClash(index, os, MoveEntry(), i);
    if j :| Clashes(os, i, MoveJobClash) && j in Executed(os) && j != i && MoveJobClash(os[i], os[j]) {
      assert MoveEntry()(os[i], PawnOf(os[i].target), KindOf(os[i]));
      assert MoveEntry()(os[j], PawnOf(os[i].target), KindOf(os[j]));
    }
  }

  lemma WorkFound(index: Index<(string, string), int>, os: seq<ActionOutcome>, i: nat)
    requires Indexed(index, |os|, os, WorkEntry())
    ensures Split(index, i) <==> Clashes(os, i, WorkClash)
  {
    SplitMeansClash(index, os, WorkEntry(), i);
    if j :| Clashes(os, i, WorkClash) && j in Executed(os) && j != i && WorkClash(os[i], os[j]) {
      var k, s, r := WorkClashEntries(os[i], os[j]);
      assert r != s;
    }
  }

  lemma WorkClashEntries(a: ActionOutcome, b: ActionOutcome) returns (k: (string, string), s: int, r: int)
    requires WorkClash(a, b)
    ensures WorkEntry()(a, k, s) && WorkEntry()(b, k, r) && r != s
  {
    var mine, theirs := WorkOf(a.parameters), WorkOf(b.parameters);
    var w :| w in mine && w in theirs && mine[w] != theirs[w];
    k, s, r := (PawnOf(a.target), w), mine[w], theirs[w];
  }

  lemma ResearchFound(index: Index<Endpoint, string>, os: seq<ActionOutcome>, i: nat)
    requires Indexed(index, |os|, os, ResearchEntry())
    ensures Split(index, i) <==> Clashes(os, i, ResearchClash)
  {
    SplitMeansClash(index, os, ResearchEntry(), i);
    if j :| Clashes(os, i, ResearchClash) && j in Executed(os) && j != i && ResearchClash(os[i], os[j]) {
      assert ResearchEntry()(os[i], ResearchTarget, ProjectOf(os[i].parameters));
      assert ResearchEntry()(os[j], ResearchTarget, ProjectOf(os[j].parameters));
    }
  }

  lemma BlueprintsFound(index: Index<(int, int), Endpoint>, os: seq<ActionOutcome>, i: nat)
    requires Indexed(index, |os|, os, BlueprintEntry())
    ensures Crowded(index, i) <==> Clashes(os, i, BlueprintClash)
    ensures forall k, s :: k in index && s in index[k] ==> s == Blueprint
  {
    CrowdedMeansClash(index, os, BlueprintEntry(), i);
    if j :| Clashes(os, i, BlueprintClash) && j in Executed(os) && j != i && BlueprintClash(os[i], os[j]) {
      assert BlueprintEntry()(os[i], CellOf(os[i].parameters).value, Blueprint);
      assert BlueprintEntry()(os[j], CellOf(os[i].parameters).value, Blueprint);
    }
    forall k, s | k in index && s in index[k] ensures s == Blueprint {
      assert Holds(index, k, s, index[k][s][0]);
    }
  }

  lemma ZonesFound(zones: seq<(nat, Rect)>, os: seq<ActionOutcome>, i: nat)
    requires ZonesListed(zones, |os|, os)
    ensures ZonePaired(zones, i) <==> Clashes(os, i, ZoneClash)
  {
  }

  lemma FlaggedByKind(os: seq<ActionOutcome>, i: nat)
    ensures i in Flagged(os) <==>
      Clashes(os, i, DraftClash) || Clashes(os, i, MoveJobClash) || Clashes(os, i, WorkClash) ||
      Clashes(os, i, ZoneClash) || Clashes(os, i, BlueprintClash) || Clashes(os, i, ResearchClash)
  {
  }

  lemma BooksFlag(b: Books, os: seq<ActionOutcome>, i: nat)
    requires Booked(b, |os|, os)
    ensures i in Flagged(os) <==>
      Split(b.drafts, i) || Split(b.moves, i) || Split(b.work, i) || ZonePaired(b.zones, i) ||
      Crowded(b.blueprints, i) || Split(b.research, i)
  {
    DraftsFound(b.drafts, os, i);
    MovesFound(b.moves, os, i);
    WorkFound(b.work, os, i);
    ZonesFound(b.zones, os, i);
    BlueprintsFound(b.blueprints, os, i);
    ResearchFound(b.research, os, i);
    FlaggedByKind(os, i);
  }

  /** Flag from the finished books. */
  method FlagBooks(b: Books, ghost os: seq<ActionOutcome>) returns (flagged: set<nat>)
    requires Booked(b, |os|, os)
    ensures flagged == Flagged(os)
  {
    BlueprintsFound(b.blueprints, os, 0);
    flagged := FlagSplit(b.drafts, {});
    flagged := FlagSplit(b.moves, flagged);
    flagged := FlagSplit(b.work, flagged);
    flagged := FlagZones(b.zones, flagged);
    flagged := FlagCrowded(b.blueprints, Blueprint, flagged);
    flagged := FlagSplit(b.research, flagged);
    forall i: nat ensures i in flagged <==> i in Flagged(os) {
      BooksFlag(b, os, i);
    }
  }

  lemma EmptyBooks(os: seq<ActionOutcome>)
    ensures Booked(Books(map[], map[], map[], [], map[], map[]), 0, os)
  {
  }

  /** The detector's two counts: the writes that clash with another executed write, and the
      executed writes. */
  method CountContradictions(outcomes: seq<ActionOutcome>) returns (contradictory: nat, executed: nat)
    ensures contradictory == |Flagged(outcomes)|
    ensures executed == |Executed(outcomes)|
  {
    var done: set<nat> := {};
    var books := Books(map[], map[], map[], [], map[], map[]);
    EmptyBooks(outcomes);
    for n := 0 to |outcomes|
      invariant done == Executed(outcomes[..n])
      invariant Booked(books, n, outcomes)
    {
      assert outcomes[..n + 1] == outcomes[..n] + [outcomes[n]];
      ExecutedGrows(outcomes[..n], outcomes[n]);
      if outcomes[n].success {
        done := done + {n};
        books := Note(books, n, outcomes);
      } else {
        SkipFailed(books, n, outcomes);
      }
    }
    assert outcomes[..|outcomes|] == outcomes;
    if done == {} {
      NothingToFlag(outcomes);
      return 0, 0;
    }
    var flagged := FlagBooks(books, outcomes);
    return |flagged|, |done|;
  }

  lemma NothingToFlag(os: seq<ActionOutcome>)
    requires Executed(os) == {}
    ensures |Flagged(os)| == 0
  {
  }

  lemma ExecutedGrows(os: seq<ActionOutcome>, o: ActionOutcome)
    ensures Executed(os + [o]) == Executed(os) + (if o.success then {|os|} else {})
    ensures |Executed(os + [o])| == |Executed(os)| + (if o.success then 1 else 0)
  {
  }

  lemma SkipFailed(b: Books, n: nat, os: seq<ActionOutcome>)
    requires n < |os| && !os[n].success && Booked(b, n, os)
    ensures Booked(b, n + 1, os)
  {
    IndexedSkip(b.drafts, n, os, DraftEntry());
    IndexedSkip(b.moves, n, os, MoveEntry());
    IndexedSkip(b.work, n, os, WorkEntry());
    IndexedSkip(b.blueprints, n, os, BlueprintEntry());
    IndexedSkip(b.research, n, os, ResearchEntry());
  }

  lemma ClashSymmetric(a: ActionOutcome, b: ActionOutcome)
    ensures Clash(a, b) ==> Clash(b, a)
  {
  }

  /** A zone clashes with nothing but zones. */
  lemma ZonesClashAsZones(a: ActionOutcome, b: ActionOutcome)
    requires IsZone(KindOf(a))
    ensures Clash(a, b) <==> ZoneClash(a, b)
  {
  }

  /** The verdict on two executed writes. */
  lemma FlaggedPair(a: ActionOutcome, b: ActionOutcome)
    requires a.success && b.success
    ensures Flagged([a, b]) == if Clash(a, b) then {0, 1} else {}
  {
    var os := [a, b];
    ClashSymmetric(a, b);
    ClashSymmetric(b, a);
    assert Executed(os) == {0, 1};
    forall i: nat ensures i in Flagged(os) <==> i < 2 && Clash(a, b) {
      if i < 2 && Clash(a, b) {
        assert Clash(os[i], os[1 - i]);
      }
    }
  }

  /** A flagged write's counterpart is flagged too. */
  lemma PartnerFlagged(os: seq<ActionOutcome>, i: nat) returns (j: nat)
    requires i in Flagged(os)
    ensures j in Flagged(os) && j != i
  {
    j :| j in Executed(os) && j != i && Clash(os[i], os[j]);
    ClashSymmetric(os[i], os[j]);
  }

  lemma SubsetSize(small: set<nat>, big: set<nat>)
    requires small <= big
    ensures |small| <= |big|
  {
    assert big == small + (big - small);
  }

  /** Contradictory writes are among the executed ones, and never exactly one. */
  lemma ContradictionsBounded(os: seq<ActionOutcome>)
    ensures |Flagged(os)| <= |Executed(os)| <= |os|
    ensures |Flagged(os)| != 1
  {
    SubsetSize(Flagged(os), Executed(os));
    IndicesBounded(Executed(os), |os|);
    if i :| i in Flagged(os) {
      var j := PartnerFlagged(os, i);
      SubsetSize({i, j}, Flagged(os));
    }
  }

  /** An execution result that counts its own outcomes. */
  predicate CountsItsOutcomes(e: ExecutionResult) {
    e.executed == |Executed(e.outcomes)| && e.executed + e.failed == e.total == |e.outcomes|
  }

  /** The result that counts these outcomes. */
  function Tally(outcomes: seq<ActionOutcome>): ExecutionResult {
    var executed := |Executed(outcomes)|;
    ExecutionResult(executed, |outcomes| - executed, |outcomes|, outcomes)
  }

  /** Then no more writes are executed than attempted. */
  lemma ExecutedWithinTotal(e: ExecutionResult)
    requires CountsItsOutcomes(e)
    ensures 0 <= e.executed <= e.total
  {
    ContradictionsBounded(e.outcomes);
  }

  lemma {:induction false} IndicesBounded(s: set<nat>, n: nat)
    requires forall i :: i in s ==> i < n
    ensures |s| <= n
  {
    if n == 0 {
      assert s == {};
    } else {
      IndicesBounded(s - {n - 1}, n - 1);
    }
  }
}
