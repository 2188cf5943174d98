/** Who wins a slot, in terms of what the plans say, and in what order the winners come out. */
module Precedence {
  import opened Values
  import opened Seqs
  import opened Actions
  import opened Preflight
  import opened Numbers
  import opened Resolver
  import opened ResolverLaws

  // ---- Tagged actions and the plans they come from ----

  /** Plan `p` has an action `k`. */
  predicate Has(plans: seq<ActionPlan>, p: nat, k: nat) { p < |plans| && k < |plans[p].actions| }

  function ActionsBefore(plans: seq<ActionPlan>, p: nat): nat
    requires p <= |plans|
  {
    if p == 0 then 0 else ActionsBefore(plans, p - 1) + |plans[p - 1].actions|
  }

  lemma {:induction false} BeforeInPrefix(plans: seq<ActionPlan>, n: nat, p: nat)
    requires p <= n <= |plans|
    ensures ActionsBefore(plans[..n], p) == ActionsBefore(plans, p)
  {
    if p > 0 {
      BeforeInPrefix(plans, n, p - 1);
    }
  }

  lemma {:induction false} TagLength(plans: seq<ActionPlan>, crisis: Crisis)
    ensures |Tag(plans, crisis)| == ActionsBefore(plans, |plans|)
  {
    if plans != [] {
      var n := |plans| - 1;
      TagLength(plans[..n], crisis);
      BeforeInPrefix(plans, n, n);
    }
  }

  /** Every action of every plan is tagged with its plan's role, that role's rank and the plan's
      confidence, and numbered in plan order. */
  lemma {:induction false} TagAt(plans: seq<ActionPlan>, crisis: Crisis, p: nat, k: nat)
    requires Has(plans, p, k)
    ensures var n := ActionsBefore(plans, p) + k;
      n < |Tag(plans, crisis)| && Tag(plans, crisis)[n] ==
        Tagged(plans[p].actions[k], plans[p].role, RolePriority(plans[p].role, crisis), plans[p].confidence, n)
  {
    var m := |plans| - 1;
    TagLength(plans[..m], crisis);
    BeforeInPrefix(plans, m, m);
    BeforeInPrefix(plans, m, p);
    if p < m {
      TagAt(plans[..m], crisis, p, k);
    }
  }

  lemma {:induction false} TagFrom(plans: seq<ActionPlan>, crisis: Crisis, n: nat) returns (p: nat, k: nat)
    requires n < |Tag(plans, crisis)|
    ensures Has(plans, p, k) && n == ActionsBefore(plans, p) + k
  {
    var m := |plans| - 1;
    TagLength(plans[..m], crisis);
    if n < |Tag(plans[..m], crisis)| {
      p, k := TagFrom(plans[..m], crisis, n);
      BeforeInPrefix(plans, m, p);
    } else {
      BeforeInPrefix(plans, m, m);
      p, k := m, n - |Tag(plans[..m], crisis)|;
    }
  }

  lemma {:induction false} BeforeGrows(plans: seq<ActionPlan>, p: nat, q: nat)
    requires p < q <= |plans|
    ensures ActionsBefore(plans, p) + |plans[p].actions| <= ActionsBefore(plans, q)
  {
    if p < q - 1 {
      BeforeGrows(plans, p, q - 1);
    }
  }

  /** The numbering is the order of the plans, then of their actions. */
  lemma NumberOrder(plans: seq<ActionPlan>, p: nat, k: nat, q: nat, l: nat)
    requires Has(plans, p, k) && Has(plans, q, l)
    ensures ActionsBefore(plans, p) + k <= ActionsBefore(plans, q) + l <==> p < q || (p == q && k <= l)
  {
    if p < q {
      BeforeGrows(plans, p, q);
    } else if q < p {
      BeforeGrows(plans, q, p);
    }
  }

  /** Action `k` of plan `p` is a write to the slot of `a`. */
  predicate Rivals(plans: seq<ActionPlan>, p: nat, k: nat, a: Action) {
    Has(plans, p, k) && plans[p].actions[k].target == a.target &&
    ResolveEndpoint(plans[p].actions[k].actionType) == ResolveEndpoint(a.actionType)
  }

  // ---- The winner ----

  /** Action `k` of plan `p` prevails over action `l` of plan `q`: by the lower priority number, then
      the better rank of the role, then the higher confidence, then by coming later. */
  predicate Prevails(plans: seq<ActionPlan>, crisis: Crisis, p: nat, k: nat, q: nat, l: nat)
    requires Has(plans, p, k) && Has(plans, q, l)
  {
    var a, b := plans[p].actions[k].priority, plans[q].actions[l].priority;
    var r, s := RolePriority(plans[p].role, crisis), RolePriority(plans[q].role, crisis);
    var c, d := plans[p].confidence, plans[q].confidence;
    a < b || (a == b && (r < s || (r == s && (c > d || (c == d && (q < p || (q == p && l <= k)))))))
  }

  /** On tagged actions the same order picks the winner. */
  lemma LeastPrevails(plans: seq<ActionPlan>, crisis: Crisis, p: nat, k: nat, q: nat, l: nat)
    requires Has(plans, p, k) && Has(plans, q, l)
    requires var t, u := TaggedAs(plans, crisis, p, k), TaggedAs(plans, crisis, q, l); t == u || Beats(t, u)
    ensures Prevails(plans, crisis, p, k, q, l)
  {
    NumberOrder(plans, p, k, q, l);
    NumberOrder(plans, q, l, p, k);
  }

  function TaggedAs(plans: seq<ActionPlan>, crisis: Crisis, p: nat, k: nat): Tagged
    requires Has(plans, p, k)
  {
    Tagged(plans[p].actions[k], plans[p].role, RolePriority(plans[p].role, crisis), plans[p].confidence,
      ActionsBefore(plans, p) + k)
  }

  lemma TaggedIn(plans: seq<ActionPlan>, crisis: Crisis, p: nat, k: nat)
    requires Has(plans, p, k)
    ensures TaggedAs(plans, crisis, p, k) in Tag(plans, crisis)
  {
    TagAt(plans, crisis, p, k);
  }

  lemma TaggedSource(plans: seq<ActionPlan>, crisis: Crisis, t: Tagged) returns (p: nat, k: nat)
    requires t in Tag(plans, crisis)
    ensures Has(plans, p, k) && t == TaggedAs(plans, crisis, p, k)
  {
    var n :| 0 <= n < |Tag(plans, crisis)| && Tag(plans, crisis)[n] == t;
    p, k := TagFrom(plans, crisis, n);
    TagAt(plans, crisis, p, k);
  }

  /** An output of a slot that is not merged. */
  predicate Unmerged(a: Action) { a.target.None? || ResolveEndpoint(a.actionType) != WorkPriority }

  /** An output is the action of some plan that prevails over every write to its slot, up to the
      parameters when it is merged. */
  lemma WinnerByFields(plans: seq<ActionPlan>, state: GameState, i: nat) returns (p: nat, k: nat)
    requires i < |Resolution(Tags(plans, state))|
    ensures var a := Resolution(Tags(plans, state))[i];
      Rivals(plans, p, k, a) && plans[p].actions[k] == a.(parameters := plans[p].actions[k].parameters) &&
      (Unmerged(a) ==> plans[p].actions[k] == a)
    ensures forall q: nat, l: nat :: Rivals(plans, q, l, Resolution(Tags(plans, state))[i]) ==>
      Prevails(plans, DetectCrisis(state), p, k, q, l)
  {
    var tagged, crisis := Tags(plans, state), DetectCrisis(state);
    OutputIsLeast(plans, state, i);
    var s := SlotOf(Resolution(tagged)[i]);
    var t :| IsLeastInSlot(tagged, s, t) && t.action == Resolution(tagged)[i].(parameters := t.action.parameters) &&
      (Unmerged(Resolution(tagged)[i]) ==> t.action == Resolution(tagged)[i]);
    p, k := TaggedSource(plans, crisis, t);
    forall q: nat, l: nat | Rivals(plans, q, l, Resolution(tagged)[i]) ensures Prevails(plans, crisis, p, k, q, l) {
      TaggedIn(plans, crisis, q, l);
      LeastPrevails(plans, crisis, p, k, q, l);
    }
  }

  /** Action `k` of plan `p` is a write to the slot of `a` that mentions the work type. */
  predicate RivalsOn(plans: seq<ActionPlan>, p: nat, k: nat, a: Action, work: string) {
    Rivals(plans, p, k, a) && work in Extract(plans[p].actions[k].parameters)
  }

  /** The owner of a merged type prevails over every write to its slot that mentions the type. */
  lemma OwnerPrevails(plans: seq<ActionPlan>, state: GameState, a: Action, work: string) returns (p: nat, k: nat)
    requires work in Works(Group(Tags(plans, state), SlotOf(a)))
    ensures RivalsOn(plans, p, k, a, work)
    ensures MergedWork(Group(Tags(plans, state), SlotOf(a)))[work] == Extract(plans[p].actions[k].parameters)[work]
    ensures forall q: nat, l: nat :: RivalsOn(plans, q, l, a, work) ==>
      Prevails(plans, DetectCrisis(state), p, k, q, l)
  {
    var tagged, crisis := Tags(plans, state), DetectCrisis(state);
    var group := Group(tagged, SlotOf(a));
    GroupMembers(tagged, SlotOf(a));
    TagsApart(plans, state);
    GroupApart(tagged, SlotOf(a));
    var t := Owner(group, work);
    OwnerMentions(group, work);
    OwnerIsLeastMention(group, work, t);
    p, k := TaggedSource(plans, crisis, t);
    forall q: nat, l: nat | RivalsOn(plans, q, l, a, work) ensures Prevails(plans, crisis, p, k, q, l) {
      TaggedIn(plans, crisis, q, l);
      assert MentionsWork(TaggedAs(plans, crisis, q, l), work);
      LeastPrevails(plans, crisis, p, k, q, l);
    }
  }

  lemma MentionedInGroup(plans: seq<ActionPlan>, state: GameState, a: Action, work: string, q: nat, l: nat)
    requires RivalsOn(plans, q, l, a, work)
    ensures work in Works(Group(Tags(plans, state), SlotOf(a)))
  {
    var t := TaggedAs(plans, DetectCrisis(state), q, l);
    TaggedIn(plans, DetectCrisis(state), q, l);
    GroupMembers(Tags(plans, state), SlotOf(a));
    assert MentionsWork(t, work);
    WorksMentioned(Group(Tags(plans, state), SlotOf(a)), work);
  }

  /** A merged output gives each work type that some write to its slot mentions the value of the
      write that prevails over all of those. */
  lemma OwnerByFields(plans: seq<ActionPlan>, state: GameState, i: nat, work: string, q: nat, l: nat)
    returns (p: nat, k: nat)
    requires i < |Resolution(Tags(plans, state))| && !Unmerged(Resolution(Tags(plans, state))[i])
    requires RivalsOn(plans, q, l, Resolution(Tags(plans, state))[i], work)
    ensures RivalsOn(plans, p, k, Resolution(Tags(plans, state))[i], work)
    ensures Get(Resolution(Tags(plans, state))[i].parameters, work) ==
      Int(Extract(plans[p].actions[k].parameters)[work])
    ensures forall u: nat, v: nat :: RivalsOn(plans, u, v, Resolution(Tags(plans, state))[i], work) ==>
      Prevails(plans, DetectCrisis(state), p, k, u, v)
  {
    var out := Resolution(Tags(plans, state))[i];
    MentionedInGroup(plans, state, out, work, q, l);
    p, k := OwnerPrevails(plans, state, out, work);
    OutputIsLeast(plans, state, i);
    MergedParameter(Group(Tags(plans, state), SlotOf(out)), work);
  }

  lemma MergedParameter(candidates: seq<Tagged>, work: string)
    requires candidates != [] && work in Works(candidates)
    ensures Get(Merge(candidates).parameters, work) == Int(MergedWork(candidates)[work])
  {
  }

  // ---- Crises ----

  /** A medical emergency is a disease, or a mean health below one half. */
  lemma MedicalEmergencyMeans(state: GameState)
    ensures DetectCrisis(state).medicalEmergency <==>
      (exists i :: 0 <= i < |state.threats| && state.threats[i].threatType == "disease") ||
      (state.health != [] && Sum(state.health) < 0.5 * |state.health| as real)
  {
    if state.health != [] {
      BelowHalf(Sum(state.health), |state.health| as real);
    }
  }

  lemma BelowHalf(a: real, n: real)
    requires n > 0.0
    ensures a / n < 0.5 <==> a < 0.5 * n
  {
  }

  /** The rank of a role, in and out of a crisis. */
  lemma RoleRanks(role: string, crisis: Crisis)
    ensures crisis.raidActive ==> RolePriority("defense_commander", crisis) == 1
    ensures crisis.medicalEmergency ==> RolePriority("medical_officer", crisis) == 1
    ensures !crisis.raidActive ==> RolePriority("defense_commander", crisis) == 3
    ensures !crisis.medicalEmergency ==> RolePriority("medical_officer", crisis) == 4
    ensures RolePriority("resource_manager", crisis) == 3 && RolePriority("map_analyst", crisis) == 10
    ensures role !in {"defense_commander", "medical_officer", "resource_manager", "map_analyst"} ==>
      RolePriority(role, crisis) == 5
    ensures RolePriority(role, crisis) == 1 <==> Promoted(role, crisis)
    ensures RolePriority(role, crisis) >= 1
  {
  }

  predicate Promoted(role: string, crisis: Crisis) {
    (crisis.raidActive && role == "defense_commander") || (crisis.medicalEmergency && role == "medical_officer")
  }

  /** In a raid the commander's write, and in a medical emergency the officer's, prevails over any
      write of its slot that is not more urgent. */
  lemma CrisisDecides(plans: seq<ActionPlan>, state: GameState, i: nat, q: nat, l: nat) returns (p: nat, k: nat)
    requires i < |Resolution(Tags(plans, state))|
    requires var a := Resolution(Tags(plans, state))[i];
      Rivals(plans, q, l, a) &&
      forall u: nat, v: nat :: Rivals(plans, u, v, a) ==> plans[q].actions[l].priority <= plans[u].actions[v].priority
    requires Promoted(plans[q].role, DetectCrisis(state))
    ensures Rivals(plans, p, k, Resolution(Tags(plans, state))[i])
    ensures Unmerged(Resolution(Tags(plans, state))[i]) ==> plans[p].actions[k] == Resolution(Tags(plans, state))[i]
    ensures Promoted(plans[p].role, DetectCrisis(state))
  {
    p, k := WinnerByFields(plans, state, i);
    RoleRanks(plans[p].role, DetectCrisis(state));
    RoleRanks(plans[q].role, DetectCrisis(state));
  }

  // ---- The order of the output ----

  lemma {:induction false} FilterOrder<T>(keep: T -> bool, xs: seq<T>, i: nat, j: nat) returns (a: nat, b: nat)
    requires i < j < |Filter(keep, xs)|
    ensures a < b < |xs| && xs[a] == Filter(keep, xs)[i] && xs[b] == Filter(keep, xs)[j]
  {
    var n := |xs| - 1;
    var front := Filter(keep, xs[..n]);
    if j < |front| {
      a, b := FilterOrder(keep, xs[..n], i, j);
    } else {
      FilterIn(keep, xs[..n], front[i]);
      a :| 0 <= a < n && xs[..n][a] == front[i];
      b := n;
    }
  }

  /** Slots stand in the order in which they were first asked for. */
  lemma {:induction false} SlotsOrder(tagged: seq<Tagged>, i: nat, j: nat) returns (m: nat)
    requires i < j < |Slots(tagged)|
    ensures m < |tagged| && SlotOf(tagged[m].action) == Slots(tagged)[i]
    ensures forall n :: 0 <= n < |tagged| && SlotOf(tagged[n].action) == Slots(tagged)[j] ==> m < n
  {
    var front := tagged[..|tagged| - 1];
    SlotsDistinct(tagged);
    if j < |Slots(front)| {
      m := SlotsOrder(front, i, j);
      assert forall n :: 0 <= n < |front| ==> front[n] == tagged[n];
    } else {
      SlotsCover(front, Slots(front)[i]);
      var t :| t in front && SlotOf(t.action) == Slots(front)[i];
      m :| 0 <= m < |front| && front[m] == t;
      forall n | 0 <= n < |tagged| && SlotOf(tagged[n].action) == Slots(tagged)[j] ensures m < n {
        if n < |front| {
          assert front[n] in front;
          SlotsCover(front, Slots(tagged)[j]);
        }
      }
    }
  }

  /** Of two slots on one side, the one kept first was asked for first. */
  lemma KeptOrder(tagged: seq<Tagged>, i: nat, j: nat) returns (m: nat)
    requires i < j < |Kept(Slots(tagged))|
    requires Kept(Slots(tagged))[i].target.None? == Kept(Slots(tagged))[j].target.None?
    ensures m < |tagged| && SlotOf(tagged[m].action) == Kept(Slots(tagged))[i]
    ensures forall n :: 0 <= n < |tagged| && SlotOf(tagged[n].action) == Kept(Slots(tagged))[j] ==> m < n
  {
    var a, b := SideOrder(Slots(tagged), i, j);
    m := SlotsOrder(tagged, a, b);
  }

  /** Keeping one side does not change its order. */
  lemma SideOrder(slots: seq<Slot>, i: nat, j: nat) returns (a: nat, b: nat)
    requires i < j < |Kept(slots)| && Kept(slots)[i].target.None? == Kept(slots)[j].target.None?
    ensures a < b < |slots| && slots[a] == Kept(slots)[i] && slots[b] == Kept(slots)[j]
  {
    var colony := Filter(OnColony(), slots);
    SidesOfKept(slots);
    if j < |colony| {
      a, b := FilterOrder(OnColony(), slots, i, j);
    } else {
      a, b := FilterOrder(OnPawn(slots), slots, i - |colony|, j - |colony|);
    }
  }

  lemma ColonyFirst(slots: seq<Slot>, i: nat, j: nat)
    requires i < j < |Kept(slots)| && Kept(slots)[j].target.None?
    ensures Kept(slots)[i].target.None?
  {
    SidesOfKept(slots);
  }

  /** Colony writes come first, then pawn writes, each side in the order in which its slots were
      first asked for. */
  lemma OutputOrder(plans: seq<ActionPlan>, state: GameState, i: nat, j: nat) returns (p: nat, k: nat)
    requires i < j < |Resolution(Tags(plans, state))|
    ensures var out := Resolution(Tags(plans, state));
      (out[i].target.None? && out[j].target.Some?) ||
      (out[i].target.None? == out[j].target.None? && Rivals(plans, p, k, out[i]) &&
       forall q: nat, l: nat :: Rivals(plans, q, l, out[j]) ==> p < q || (p == q && k < l))
  {
    var tagged, crisis := Tags(plans, state), DetectCrisis(state);
    var out := Resolution(tagged);
    ResolutionAt(tagged, i);
    ResolutionAt(tagged, j);
    p, k := 0, 0;
    if out[j].target.None? {
      ColonyFirst(Slots(tagged), i, j);
    }
    if out[i].target.None? == out[j].target.None? {
      var m := KeptOrder(tagged, i, j);
      p, k := FirstRival(plans, crisis, m, out[i], out[j]);
    }
  }

  /** A tagged action of one slot before all of another, in terms of the plans. */
  lemma FirstRival(plans: seq<ActionPlan>, crisis: Crisis, m: nat, a: Action, b: Action) returns (p: nat, k: nat)
    requires m < |Tag(plans, crisis)| && SlotOf(Tag(plans, crisis)[m].action) == SlotOf(a)
    requires forall n :: 0 <= n < |Tag(plans, crisis)| && SlotOf(Tag(plans, crisis)[n].action) == SlotOf(b) ==> m < n
    ensures Rivals(plans, p, k, a)
    ensures forall q: nat, l: nat :: Rivals(plans, q, l, b) ==> p < q || (p == q && k < l)
  {
    p, k := TagFrom(plans, crisis, m);
    TagAt(plans, crisis, p, k);
    forall q: nat, l: nat | Rivals(plans, q, l, b) ensures p < q || (p == q && k < l) {
      TagAt(plans, crisis, q, l);
      NumberOrder(plans, q, l, p, k);
    }
  }
}
