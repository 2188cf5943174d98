/** What the resolver guarantees of its output, for every set of plans. */
module ResolverLaws {
  import opened Values
  import opened Seqs
  import opened Actions
  import opened Preflight
  import opened Resolver

  // ---- Least keys ----

  /** Tagged actions carry distinct sequence numbers. */
  ghost predicate NumberedApart(candidates: seq<Tagged>) {
    forall x, y :: x in candidates && y in candidates && x.seqNo == y.seqNo ==> x == y
  }

  /** `t` has the least key of the candidates. */
  ghost predicate IsLeast(candidates: seq<Tagged>, t: Tagged) {
    t in candidates && forall u :: u in candidates && u != t ==> Beats(t, u)
  }

  lemma {:induction false} WinnerUnbeaten(candidates: seq<Tagged>)
    requires candidates != []
    ensures Winner(candidates) in candidates
    ensures forall u :: u in candidates ==> !Beats(u, Winner(candidates))
  {
    if |candidates| > 1 {
      var front, last := candidates[..|candidates| - 1], candidates[|candidates| - 1];
      WinnerUnbeaten(front);
      forall u | u in candidates ensures !Beats(u, Winner(candidates)) {
        assert u in front || u == last;
      }
    }
  }

  /** `min` over the key finds the least candidate, and there is only one. */
  lemma WinnerIsLeast(candidates: seq<Tagged>, t: Tagged)
    requires candidates != [] && NumberedApart(candidates)
    ensures IsLeast(candidates, t) <==> t == Winner(candidates)
  {
    WinnerUnbeaten(candidates);
  }

  lemma {:induction false} TagNumbers(plans: seq<ActionPlan>, crisis: Crisis)
    ensures forall i :: 0 <= i < |Tag(plans, crisis)| ==> Tag(plans, crisis)[i].seqNo == i
  {
    if plans != [] {
      TagNumbers(plans[..|plans| - 1], crisis);
    }
  }

  lemma TagsApart(plans: seq<ActionPlan>, state: GameState)
    ensures NumberedApart(Tags(plans, state))
  {
    TagNumbers(plans, DetectCrisis(state));
  }

  lemma GroupMembers(tagged: seq<Tagged>, s: Slot)
    ensures forall t :: t in Group(tagged, s) <==> t in tagged && SlotOf(t.action) == s
  {
    forall t ensures t in Group(tagged, s) <==> t in tagged && SlotOf(t.action) == s {
      FilterIn(InSlot(s), tagged, t);
    }
  }

  // ---- Merging ----

  /** `t` has the least key of the candidates that mention `work`. */
  ghost predicate IsLeastMention(candidates: seq<Tagged>, work: string, t: Tagged) {
    t in candidates && MentionsWork(t, work) &&
    forall u :: u in candidates && MentionsWork(u, work) && u != t ==> Beats(t, u)
  }

  lemma OwnerIsLeastMention(candidates: seq<Tagged>, work: string, t: Tagged)
    requires NumberedApart(candidates) && work in Works(candidates)
    ensures IsLeastMention(candidates, work, t) <==> t == Owner(candidates, work)
  {
    WorksMentioned(candidates, work);
    var group := Mentioning(candidates, work);
    forall u ensures u in group <==> u in candidates && MentionsWork(u, work) {
      FilterIn(Mentions(work), candidates, u);
    }
    WinnerIsLeast(group, t);
  }

  /** A work type is merged exactly when some candidate mentions it, and carries the value
      of the least-key candidate mentioning it; everything else is the winner's. */
  lemma MergePreservesMeaning(candidates: seq<Tagged>, work: string, t: Tagged)
    requires candidates != [] && NumberedApart(candidates)
    ensures work in MergedWork(candidates) <==> exists u :: u in candidates && MentionsWork(u, work)
    ensures IsLeastMention(candidates, work, t) ==>
      work in MergedWork(candidates) && MergedWork(candidates)[work] == Extract(t.action.parameters)[work]
    ensures Merge(candidates).(parameters := map[]) == Winner(candidates).action.(parameters := map[])
  {
    WorksMentioned(candidates, work);
    if IsLeastMention(candidates, work, t) {
      OwnerIsLeastMention(candidates, work, t);
    }
  }

  /** The executor reads the merged payload back as the merged map exactly when no merged
      work type bears a reserved key's name. */
  lemma MergeReadsBack(candidates: seq<Tagged>)
    requires candidates != []
    ensures Extract(Merge(candidates).parameters) == MergedWork(candidates) <==> Works(candidates) !! RESERVED
  {
    if Works(candidates) == {} {
      WinnerIn(candidates);
      if w: string :| w in Extract(Merge(candidates).parameters) {
        WorksMentioned(candidates, w);
        assert MentionsWork(Winner(candidates), w);
      }
      assert Extract(Merge(candidates).parameters) == map[];
    } else {
      FlatReadsBack(MergedWork(candidates));
    }
  }

  /** Only the nested shape can smuggle a reserved name in. */
  lemma OnlyNestedNamesReserved(candidates: seq<Tagged>, work: string)
    requires work in Works(candidates) && work in RESERVED
    ensures exists t :: t in candidates && Get(t.action.parameters, "work_priorities").Obj?
  {
  }

  /** A nested reserved name is merged, then lost when the merged payload is read. */
  lemma ReservedNameIsLost()
    ensures exists t: Tagged ::
              "reason" in MergedWork([t]) && Extract(Merge([t]).parameters) != MergedWork([t])
  {
    var fields: map<string, Value> := map["reason" := Int(1)];
    var a := Action("work_priority", Some("7"), map["work_priorities" := Obj(fields, "")], 5, "");
    var t := Tagged(a, "resource_manager", 3, 0.5, 0);
    assert "reason" in NestedMap(fields);
    assert MentionsWork(t, "reason");
    assert [t][..0] == [];
    assert "reason" in Works([t]);
    MergeReadsBack([t]);
    assert "reason" in RESERVED;
  }

  lemma {:induction false} WinnerOrderFree(xs: seq<Tagged>, ys: seq<Tagged>)
    requires NumberedApart(xs) && xs != [] && ys != []
    requires forall t :: t in xs <==> t in ys
    ensures Winner(xs) == Winner(ys)
  {
    WinnerIsLeast(xs, Winner(xs));
    WinnerIsLeast(ys, Winner(xs));
  }

  lemma ValuesOrderFree(xs: seq<Tagged>, ys: seq<Tagged>)
    requires NumberedApart(xs) && forall t :: t in xs <==> t in ys
    ensures MergedWork(xs) == MergedWork(ys)
  {
    forall w ensures w in Works(xs) <==> w in Works(ys) {
      WorksMentioned(xs, w);
      WorksMentioned(ys, w);
    }
    forall w | w in Works(xs) ensures MergedValue(xs, w) == MergedValue(ys, w) {
      OwnerIsLeastMention(xs, w, Owner(xs, w));
      OwnerIsLeastMention(ys, w, Owner(xs, w));
    }
  }

  /** Reordering the candidates, their sequence numbers fixed, changes nothing. */
  lemma MergeOrderFree(xs: seq<Tagged>, ys: seq<Tagged>)
    requires NumberedApart(xs) && xs != [] && multiset(xs) == multiset(ys)
    ensures ys != [] && Merge(xs) == Merge(ys)
  {
    assert xs[0] in multiset(ys);
    assert forall t :: t in xs <==> t in ys by {
      forall t ensures t in xs <==> t in ys {
        assert t in xs <==> t in multiset(xs);
      }
    }
    WinnerOrderFree(xs, ys);
    ValuesOrderFree(xs, ys);
    assert Works(xs) == MergedWork(xs).Keys && Works(ys) == MergedWork(ys).Keys;
  }

  // ---- Canonical form ----

  /** A pawn's `no_action` next to a real write on the same pawn. */
  ghost predicate Shadowed(tagged: seq<Tagged>, s: Slot) {
    s.target.Some? && s.kind == NoAction &&
    exists u :: u in tagged && u.action.target == s.target && ResolveEndpoint(u.action.actionType) != NoAction
  }

  lemma SlotsCover(tagged: seq<Tagged>, s: Slot)
    ensures s in Slots(tagged) <==> exists t :: t in tagged && SlotOf(t.action) == s
  {
  }

  lemma KeptUnlessShadowed(tagged: seq<Tagged>, s: Slot)
    ensures s in Kept(Slots(tagged)) <==>
      (exists t :: t in tagged && SlotOf(t.action) == s) && !Shadowed(tagged, s)
  {
    KeptIn(Slots(tagged), s);
    SlotsCover(tagged, s);
    if s in Slots(tagged) && s.target.Some? && s.kind == NoAction {
      if q :| q in Slots(tagged) && q.target == s.target && q.kind != NoAction {
        SlotsCover(tagged, q);
      }
      if u :| u in tagged && u.action.target == s.target && ResolveEndpoint(u.action.actionType) != NoAction {
        SlotsCover(tagged, SlotOf(u.action));
      }
    }
  }

  lemma KeptDistinct(tagged: seq<Tagged>)
    ensures Distinct(Kept(Slots(tagged)))
  {
    var slots := Slots(tagged);
    SlotsDistinct(tagged);
    FilterDistinct(OnColony(), slots);
    FilterDistinct(OnPawn(slots), slots);
    SidesOfKept(slots);
  }

  lemma SidesOfKept(slots: seq<Slot>)
    ensures forall i :: 0 <= i < |Filter(OnColony(), slots)| ==> Filter(OnColony(), slots)[i].target.None?
    ensures forall i :: 0 <= i < |Filter(OnPawn(slots), slots)| ==>
      Filter(OnPawn(slots), slots)[i].target.Some? && Survives(slots, Filter(OnPawn(slots), slots)[i])
  {
    SlotsInSide(OnColony(), slots);
    SlotsInSide(OnPawn(slots), slots);
    forall i | 0 <= i < |Filter(OnColony(), slots)| ensures Filter(OnColony(), slots)[i].target.None? {
      assert OnColony()(Filter(OnColony(), slots)[i]);
    }
    forall i | 0 <= i < |Filter(OnPawn(slots), slots)|
      ensures Filter(OnPawn(slots), slots)[i].target.Some? && Survives(slots, Filter(OnPawn(slots), slots)[i])
    {
      assert OnPawn(slots)(Filter(OnPawn(slots), slots)[i]);
    }
  }

  lemma ResolutionAt(tagged: seq<Tagged>, i: nat)
    requires i < |Resolution(tagged)|
    ensures var s := Kept(Slots(tagged))[i];
      Group(tagged, s) != [] && Resolution(tagged)[i] == Choice(tagged, s) && SlotOf(Resolution(tagged)[i]) == s
  {
    KeptGrouped(tagged);
    ChoicesAt(tagged, Kept(Slots(tagged)), i);
    ChoiceSlot(tagged, Kept(Slots(tagged))[i]);
  }

  lemma GroupApart(tagged: seq<Tagged>, s: Slot)
    requires NumberedApart(tagged)
    ensures NumberedApart(Group(tagged, s))
  {
    GroupMembers(tagged, s);
  }

  /** The least-key input of a slot. */
  ghost predicate IsLeastInSlot(tagged: seq<Tagged>, s: Slot, t: Tagged) {
    t in tagged && SlotOf(t.action) == s &&
    forall u :: u in tagged && SlotOf(u.action) == s && u != t ==> Beats(t, u)
  }

  /** At most one action per pawn and endpoint. */
  lemma AtMostOnePerSlot(plans: seq<ActionPlan>, state: GameState, i: nat, j: nat)
    requires var out := Resolution(Tags(plans, state)); i < j < |out|
    ensures var out := Resolution(Tags(plans, state)); SlotOf(out[i]) != SlotOf(out[j])
  {
    var tagged := Tags(plans, state);
    KeptDistinct(tagged);
    ResolutionAt(tagged, i);
    ResolutionAt(tagged, j);
  }

  /** Every output action is the least-key input of its slot, unless it is a merged payload,
      which differs from that input in its parameters only. */
  lemma OutputIsLeast(plans: seq<ActionPlan>, state: GameState, i: nat)
    requires i < |Resolution(Tags(plans, state))|
    ensures var tagged := Tags(plans, state);
      var out := Resolution(tagged)[i];
      var s := SlotOf(out);
      exists t :: IsLeastInSlot(tagged, s, t) && Group(tagged, s) != [] &&
        (if s.target.Some? && s.kind == WorkPriority then
           out == Merge(Group(tagged, s)) && out.(parameters := map[]) == t.action.(parameters := map[])
         else out == t.action)
  {
    var tagged := Tags(plans, state);
    TagsApart(plans, state);
    ResolutionAt(tagged, i);
    var s := Kept(Slots(tagged))[i];
    GroupApart(tagged, s);
    GroupMembers(tagged, s);
    var t := Winner(Group(tagged, s));
    WinnerIsLeast(Group(tagged, s), t);
    assert IsLeastInSlot(tagged, s, t);
  }

  /** Every slot some input asks for survives, except a shadowed pawn `no_action`. */
  lemma EverySlotSurvives(plans: seq<ActionPlan>, state: GameState, s: Slot)
    ensures var tagged := Tags(plans, state);
      (exists a :: a in Resolution(tagged) && SlotOf(a) == s) <==>
      (exists t :: t in tagged && SlotOf(t.action) == s) && !Shadowed(tagged, s)
  {
    var tagged := Tags(plans, state);
    var out := Resolution(tagged);
    KeptUnlessShadowed(tagged, s);
    if a :| a in out && SlotOf(a) == s {
      var i :| 0 <= i < |out| && out[i] == a;
      ResolutionAt(tagged, i);
    }
    if s in Kept(Slots(tagged)) {
      var i :| 0 <= i < |out| && Kept(Slots(tagged))[i] == s;
      ResolutionAt(tagged, i);
      assert out[i] in out;
    }
  }

  /** Two or more inputs compete for `s`. */
  ghost predicate InConflict(tagged: seq<Tagged>, s: Slot) {
    exists i, j :: 0 <= i < j < |tagged| && SlotOf(tagged[i].action) == s && SlotOf(tagged[j].action) == s
  }

  lemma GroupEmpty(tagged: seq<Tagged>, s: Slot)
    ensures Group(tagged, s) == [] <==> forall i :: 0 <= i < |tagged| ==> SlotOf(tagged[i].action) != s
  {
    GroupMembers(tagged, s);
    if Group(tagged, s) != [] {
      assert Group(tagged, s)[0] in tagged;
    }
    forall i | 0 <= i < |tagged| && SlotOf(tagged[i].action) == s ensures Group(tagged, s) != [] {
      assert tagged[i] in Group(tagged, s);
    }
  }

  lemma ConflictStep(front: seq<Tagged>, last: Tagged, s: Slot)
    ensures InConflict(front + [last], s) <==>
      InConflict(front, s) || (SlotOf(last.action) == s && Group(front, s) != [])
  {
    var tagged := front + [last];
    GroupEmpty(front, s);
    if i, j :| 0 <= i < j < |front| && SlotOf(front[i].action) == s && SlotOf(front[j].action) == s {
      assert SlotOf(tagged[i].action) == s && SlotOf(tagged[j].action) == s;
    }
    if i :| 0 <= i < |front| && SlotOf(front[i].action) == s && SlotOf(last.action) == s {
      assert SlotOf(tagged[i].action) == s && SlotOf(tagged[|front|].action) == s;
    }
  }

  lemma {:induction false} GroupSize(tagged: seq<Tagged>, s: Slot)
    ensures |Group(tagged, s)| > 1 <==> InConflict(tagged, s)
  {
    if tagged != [] {
      var front, last := tagged[..|tagged| - 1], tagged[|tagged| - 1];
      GroupSize(front, s);
      ConflictStep(front, last, s);
      assert tagged == front + [last];
    }
  }

  lemma {:induction false} DistinctSize<T>(xs: seq<T>)
    requires Distinct(xs)
    ensures |set x | x in xs| == |xs|
  {
    if xs == [] {
      assert (set x | x in xs) == {};
    } else {
      var front, last := xs[..|xs| - 1], xs[|xs| - 1];
      DistinctSize(front);
      assert xs == front + [last];
      assert (set x | x in xs) == (set x | x in front) + {last};
    }
  }

  /** The conflict count is the number of slots two or more inputs compete for. */
  lemma ConflictsCountContestedSlots(plans: seq<ActionPlan>, state: GameState)
    ensures var tagged := Tags(plans, state);
      Conflicts(tagged) == |set s | s in Slots(tagged) && InConflict(tagged, s)|
  {
    var tagged := Tags(plans, state);
    var contested := Filter(Contested(tagged), Slots(tagged));
    SlotsDistinct(tagged);
    FilterDistinct(Contested(tagged), Slots(tagged));
    DistinctSize(contested);
    forall s ensures s in contested <==> s in Slots(tagged) && InConflict(tagged, s) {
      FilterIn(Contested(tagged), Slots(tagged), s);
      GroupSize(tagged, s);
    }
    assert (set s | s in contested) == set s | s in Slots(tagged) && InConflict(tagged, s);
  }

  // ---- Resolving twice ----

  /** A single plan tags its actions in order. */
  lemma TagOne(plan: ActionPlan, state: GameState)
    ensures |Tags([plan], state)| == |plan.actions|
    ensures forall i :: 0 <= i < |plan.actions| ==> Tags([plan], state)[i].action == plan.actions[i]
  {
    var plans := [plan];
    var front := Tag(plans[..|plans| - 1], DetectCrisis(state));
    assert front == [];
    assert Tags(plans, state) == front + TagPlan(plan, DetectCrisis(state), |front|);
  }

  /** Tagged actions of pairwise different slots: the slots are theirs in order. */
  lemma {:induction false} SlotsOfDistinct(tagged: seq<Tagged>, slots: seq<Slot>)
    requires |tagged| == |slots| && Distinct(slots)
    requires forall i :: 0 <= i < |slots| ==> SlotOf(tagged[i].action) == slots[i]
    ensures Slots(tagged) == slots
  {
    if tagged != [] {
      SlotsOfDistinct(tagged[..|tagged| - 1], slots[..|slots| - 1]);
      assert slots == slots[..|slots| - 1] + [slots[|slots| - 1]];
    }
  }

  lemma {:induction false} GroupOfDistinct(tagged: seq<Tagged>, slots: seq<Slot>, i: nat)
    requires |tagged| == |slots| && Distinct(slots) && i < |slots|
    requires forall k :: 0 <= k < |slots| ==> SlotOf(tagged[k].action) == slots[k]
    ensures Group(tagged, slots[i]) == [tagged[i]]
  {
    var front, last := tagged[..|tagged| - 1], tagged[|tagged| - 1];
    if i < |tagged| - 1 {
      GroupOfDistinct(front, slots[..|slots| - 1], i);
    } else {
      FilterNone(InSlot(slots[i]), front);
    }
  }

  /** Keeping the kept slots drops nothing. */
  lemma KeptTwice(slots: seq<Slot>)
    ensures Kept(Kept(slots)) == Kept(slots)
  {
    var colony, pawns := Filter(OnColony(), slots), Filter(OnPawn(slots), slots);
    var kept := colony + pawns;
    SidesOfKept(slots);
    forall q ensures q in kept ==> q in slots {
      KeptIn(slots, q);
    }
    forall i | 0 <= i < |pawns| ensures OnPawn(kept)(pawns[i]) {
      assert Survives(slots, pawns[i]);
      assert Survives(kept, pawns[i]);
    }
    assert Filter(OnColony(), kept) == colony by {
      FilterAppend(OnColony(), colony, pawns);
      FilterAll(OnColony(), colony);
      FilterNone(OnColony(), pawns);
    }
    assert Filter(OnPawn(kept), kept) == pawns by {
      FilterAppend(OnPawn(kept), colony, pawns);
      FilterNone(OnPawn(kept), colony);
      FilterAll(OnPawn(kept), pawns);
    }
  }

  /** The names merged for one slot can be resolved again without loss. */
  predicate StableNames(names: set<string>) {
    names !! RESERVED || names <= InertNames()
  }

  /** Work types named for a pawn by any input. */
  function NamesFor(tagged: seq<Tagged>, s: Slot): set<string> {
    Works(Group(tagged, s))
  }

  predicate StableSlot(tagged: seq<Tagged>, s: Slot) {
    s.target.Some? && s.kind == WorkPriority ==> StableNames(NamesFor(tagged, s))
  }

  predicate AllNamesStable(tagged: seq<Tagged>) {
    forall s :: s in Slots(tagged) ==> StableSlot(tagged, s)
  }

  lemma MergeSingle(t: Tagged)
    ensures Merge([t]) == t.action <==>
      Extract(t.action.parameters) == map[] || IntParams(Extract(t.action.parameters)) == t.action.parameters
  {
    var pairs := Extract(t.action.parameters);
    assert [t][..0] == [];
    assert Works([t]) == {} + pairs.Keys;
    assert MergedWork([t]) == pairs by {
      forall w | w in pairs ensures MergedValue([t], w) == pairs[w] {
        OwnerMentions([t], w);
      }
    }
  }

  lemma IntParamsInjective(m: map<string, int>, n: map<string, int>)
    ensures IntParams(m) == IntParams(n) <==> m == n
  {
    if IntParams(m) == IntParams(n) {
      assert m.Keys == IntParams(m).Keys == n.Keys;
      forall w | w in m ensures m[w] == n[w] {
        assert IntParams(m)[w] == Int(m[w]);
      }
    }
  }

  /** A merged action merges to itself exactly when its names are stable. */
  lemma MergeAgain(candidates: seq<Tagged>, again: Tagged)
    requires candidates != [] && again.action == Merge(candidates)
    ensures Merge([again]) == again.action <==> StableNames(Works(candidates))
  {
    MergeSingle(again);
    var m := MergedWork(candidates);
    if Works(candidates) == {} {
      WinnerIn(candidates);
      if w: string :| w in Extract(again.action.parameters) {
        WorksMentioned(candidates, w);
        assert MentionsWork(Winner(candidates), w);
      }
      assert Extract(again.action.parameters) == map[];
    } else {
      FlatReadsBack(m);
      IntParamsInjective(Extract(IntParams(m)), m);
    }
  }

  /** Actions of pairwise different slots that are already kept resolve slot by slot. */
  lemma ResolveDistinct(tagged: seq<Tagged>, kept: seq<Slot>)
    requires |tagged| == |kept| && Distinct(kept) && Kept(kept) == kept
    requires forall i :: 0 <= i < |kept| ==> SlotOf(tagged[i].action) == kept[i]
    ensures Conflicts(tagged) == 0 && |Resolution(tagged)| == |kept|
    ensures forall i :: 0 <= i < |kept| ==>
      Resolution(tagged)[i] ==
        if kept[i].target.Some? && kept[i].kind == WorkPriority then Merge([tagged[i]]) else tagged[i].action
  {
    SlotsOfDistinct(tagged, kept);
    forall i | 0 <= i < |kept|
      ensures Group(tagged, kept[i]) == [tagged[i]]
      ensures Resolution(tagged)[i] ==
        if kept[i].target.Some? && kept[i].kind == WorkPriority then Merge([tagged[i]]) else tagged[i].action
    {
      GroupOfDistinct(tagged, kept, i);
      ResolutionAt(tagged, i);
    }
    FilterNone(Contested(tagged), kept);
  }

  /** `work_priority` slots are always kept, so stability can be asked of the kept ones. */
  lemma StableKept(tagged: seq<Tagged>)
    ensures AllNamesStable(tagged) <==> forall s :: s in Kept(Slots(tagged)) ==> StableSlot(tagged, s)
  {
    forall s ensures s in Kept(Slots(tagged)) ==> s in Slots(tagged) {
      KeptIn(Slots(tagged), s);
    }
    forall s | s in Slots(tagged) ensures s in Kept(Slots(tagged)) || StableSlot(tagged, s) {
      KeptIn(Slots(tagged), s);
    }
  }

  /** Resolving the resolver's own output as a single plan finds no conflict, and returns the
      same action list exactly when the names merged for each pawn are stable. */
  lemma ResolveTwice(plans: seq<ActionPlan>, state: GameState, again: ActionPlan, later: GameState)
    requires again.actions == Resolution(Tags(plans, state))
    ensures Conflicts(Tags([again], later)) == 0
    ensures Resolution(Tags([again], later)) == again.actions <==> AllNamesStable(Tags(plans, state))
  {
    var tagged, tagged2 := Tags(plans, state), Tags([again], later);
    var kept := Kept(Slots(tagged));
    var out2 := Resolution(tagged2);
    TagOne(again, later);
    KeptDistinct(tagged);
    KeptTwice(Slots(tagged));
    forall i | 0 <= i < |kept| ensures SlotOf(tagged2[i].action) == kept[i] {
      ResolutionAt(tagged, i);
    }
    ResolveDistinct(tagged2, kept);
    forall i | 0 <= i < |kept| ensures out2[i] == again.actions[i] <==> StableSlot(tagged, kept[i]) {
      AgainAt(tagged, i, tagged2[i]);
    }
    StableKept(tagged);
    SameOrUnstable(tagged, kept, out2, again.actions);
  }

  lemma AgainAt(tagged: seq<Tagged>, i: nat, again: Tagged)
    requires i < |Kept(Slots(tagged))| && again.action == Resolution(tagged)[i]
    ensures var s := Kept(Slots(tagged))[i];
      (if s.target.Some? && s.kind == WorkPriority then Merge([again]) else again.action) == again.action
      <==> StableSlot(tagged, s)
  {
    ResolutionAt(tagged, i);
    var s := Kept(Slots(tagged))[i];
    if s.target.Some? && s.kind == WorkPriority {
      MergeAgain(Group(tagged, s), again);
    }
  }

  lemma SameOrUnstable(tagged: seq<Tagged>, kept: seq<Slot>, xs: seq<Action>, ys: seq<Action>)
    requires |xs| == |ys| == |kept|
    requires forall i :: 0 <= i < |kept| ==> (xs[i] == ys[i] <==> StableSlot(tagged, kept[i]))
    ensures xs == ys <==> forall s :: s in kept ==> StableSlot(tagged, s)
  {
  }
}
