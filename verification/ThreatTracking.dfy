/** Threat-response bookkeeping of the game loop, against the trace of the whole run. */
module ThreatTracking {
  import opened Values
  import opened Actions
  import opened Rects
  import opened Coherence

  datatype Threat = Threat(id: string, enemyCount: int, level: real)

  /** What one tick contributes: the state read and the outcomes executed. */
  datatype Tick = Tick(threats: seq<Threat>, colonistDrafted: seq<bool>, outcomes: seq<ActionOutcome>)

  /** Null incident placeholders are no threats. */
  predicate IsThreat(t: Threat) { t.enemyCount > 0 || t.level > 0.0 }

  /** The tick's state shows the threat. */
  predicate Shows(tick: Tick, id: string) { Lists(tick.threats, id) }

  predicate AlreadyDrafted(tick: Tick) { true in tick.colonistDrafted }

  /** `o` is a successful draft that does not undraft. */
  predicate Drafts(o: ActionOutcome) {
    o.success && ResolveEndpoint(o.actionType) == Draft && GetOr(o.parameters, "is_drafted", Bool(true)) != Bool(false)
  }

  predicate DraftExecuted(outcomes: seq<ActionOutcome>) {
    exists k :: 0 <= k < |outcomes| && Drafts(outcomes[k])
  }

  /** The detector reads `is_drafted` by its truth value, the game loop by not being `False`. They
      agree exactly on what is true or `False`. */
  lemma DraftReadingsAgree(o: ActionOutcome)
    requires o.success && KindOf(o) == Draft
    ensures var drafted := GetOr(o.parameters, "is_drafted", Bool(true));
      (Drafts(o) <==> DraftState(o)) <==> (Truthy(drafted) || drafted == Bool(false))
  {
  }

  /** So `is_drafted: 0` answers a threat, and contradicts a draft of the same pawn. */
  lemma ZeroReadBothWays(draft: string, target: Option<string>)
    requires ResolveEndpoint(draft) == Draft
    ensures var off := ActionOutcome(draft, target, true, map["is_drafted" := Int(0)]);
      var on := ActionOutcome(draft, target, true, map["is_drafted" := Bool(true)]);
      DraftExecuted([off]) && Flagged([off, on]) == {0, 1}
  {
    var off := ActionOutcome(draft, target, true, map["is_drafted" := Int(0)]);
    var on := ActionOutcome(draft, target, true, map["is_drafted" := Bool(true)]);
    assert Drafts([off][0]);
    assert DraftClash(off, on);
    FlaggedPair(off, on);
  }

  // ---- The meaning of the bookkeeping, on the trace ----

  /** `n` is the first tick showing the threat. */
  ghost predicate FirstShown(trace: seq<Tick>, id: string, n: int) {
    0 <= n < |trace| && Shows(trace[n], id) && forall k :: 0 <= k < n ==> !Shows(trace[k], id)
  }

  /** `d` is the first tick strictly after `n` with a successful draft. */
  ghost predicate FirstDraftAfter(trace: seq<Tick>, n: int, d: int) {
    0 <= n < d < |trace| && DraftExecuted(trace[d].outcomes) &&
    forall k :: n < k < d ==> !DraftExecuted(trace[k].outcomes)
  }

  /** The response delay of a threat first shown at `n`. */
  ghost predicate DelayOf(trace: seq<Tick>, n: int, v: int) {
    0 <= n < |trace| &&
    if AlreadyDrafted(trace[n]) then v == 0 else FirstDraftAfter(trace, n, n + v)
  }

  datatype Context = Context(seenTick: map<string, int>, firstDraft: map<string, int>)

  /** The maps are exactly what the trace says. */
  ghost predicate Faithful(ctx: Context, trace: seq<Tick>) {
    (forall id, n :: (id in ctx.seenTick && ctx.seenTick[id] == n) <==> FirstShown(trace, id, n)) &&
    (forall id :: id in ctx.firstDraft ==> id in ctx.seenTick) &&
    (forall id, v :: id in ctx.seenTick ==>
      ((id in ctx.firstDraft && ctx.firstDraft[id] == v) <==> DelayOf(trace, ctx.seenTick[id], v)))
  }

  // ---- One tick ----

  /** `_record_draft_response` at tick `n`. */
  function DraftResponse(ctx: Context, executed: bool, n: int): Context {
    if !executed then ctx
    else
      ctx.(firstDraft := map id | id in ctx.firstDraft.Keys + ctx.seenTick.Keys ::
        if id in ctx.firstDraft then ctx.firstDraft[id] else Max(0, n - ctx.seenTick[id]))
  }

  /** The threats of a state that were not seen before the tick. */
  function NewThreats(ctx: Context, threats: seq<Threat>): set<string> {
    if threats == [] then {}
    else
      var last := threats[|threats| - 1];
      NewThreats(ctx, threats[..|threats| - 1]) +
        if IsThreat(last) && last.id !in ctx.seenTick then {last.id} else {}
  }

  predicate Lists(threats: seq<Threat>, id: string) {
    exists k :: 0 <= k < |threats| && threats[k].id == id && IsThreat(threats[k])
  }

  lemma {:induction false} NewThreatsListed(ctx: Context, threats: seq<Threat>, id: string)
    ensures id in NewThreats(ctx, threats) <==> id !in ctx.seenTick && Lists(threats, id)
  {
    if threats != [] {
      var front, last := threats[..|threats| - 1], threats[|threats| - 1];
      NewThreatsListed(ctx, front, id);
      if Lists(front, id) {
        var k :| 0 <= k < |front| && front[k].id == id && IsThreat(front[k]);
        assert threats[k] == front[k];
      }
      if Lists(threats, id) && !Lists(front, id) {
        assert threats == front + [last];
        assert forall k :: 0 <= k < |front| ==> front[k] == threats[k];
      }
    }
  }

  /** The maps with newly shown threats entered. */
  function WithShown(ctx: Context, shown: set<string>, drafted: bool, n: int): Context {
    Context(
      map id | id in ctx.seenTick.Keys + shown :: if id in shown then n else ctx.seenTick[id],
      map id | id in ctx.firstDraft.Keys + (if drafted then shown else {}) ::
        if id in shown && drafted then 0 else ctx.firstDraft[id])
  }

  /** `_update_metric_context` at tick `n`. */
  function ThreatsSeen(ctx: Context, threats: seq<Threat>, drafted: bool, n: int): Context {
    WithShown(ctx, NewThreats(ctx, threats), drafted, n)
  }

  /** Draft responses are recorded before the tick's threats are. */
  function NextContext(ctx: Context, tick: Tick, n: int): Context {
    ThreatsSeen(DraftResponse(ctx, DraftExecuted(tick.outcomes), n), tick.threats, AlreadyDrafted(tick), n)
  }

  function ContextAfter(trace: seq<Tick>): Context {
    if trace == [] then Context(map[], map[])
    else NextContext(ContextAfter(trace[..|trace| - 1]), trace[|trace| - 1], |trace| - 1)
  }

  lemma ShownStep(trace: seq<Tick>, tick: Tick, id: string, n: int)
    ensures FirstShown(trace + [tick], id, n) <==>
      FirstShown(trace, id, n) ||
      (n == |trace| && Shows(tick, id) && forall k :: 0 <= k < |trace| ==> !Shows(trace[k], id))
  {
    var longer := trace + [tick];
    if FirstShown(longer, id, n) {
      forall k | 0 <= k < |trace| && k < n ensures !Shows(trace[k], id) {
        assert longer[k] == trace[k];
      }
    }
  }

  lemma {:induction false} ShownHasFirst(trace: seq<Tick>, id: string, k: nat)
    requires k < |trace| && Shows(trace[k], id)
    ensures exists n :: FirstShown(trace, id, n)
  {
    if j :| 0 <= j < k && Shows(trace[j], id) {
      ShownHasFirst(trace, id, j);
    } else {
      assert FirstShown(trace, id, k);
    }
  }

  lemma DelayStep(trace: seq<Tick>, tick: Tick, n: int, v: int)
    requires 0 <= n < |trace|
    ensures DelayOf(trace + [tick], n, v) <==>
      DelayOf(trace, n, v) ||
      (n + v == |trace| && !AlreadyDrafted(trace[n]) && DraftExecuted(tick.outcomes) &&
       forall k :: n < k < |trace| ==> !DraftExecuted(trace[k].outcomes))
  {
    var longer := trace + [tick];
    assert longer[n] == trace[n];
    if FirstDraftAfter(longer, n, n + v) {
      forall k | n < k < |trace| && k < n + v ensures !DraftExecuted(trace[k].outcomes) {
        assert longer[k] == trace[k];
      }
    }
  }

  lemma {:induction false} DraftHasFirst(trace: seq<Tick>, n: int, k: int)
    requires 0 <= n < k < |trace| && DraftExecuted(trace[k].outcomes)
    ensures exists d :: FirstDraftAfter(trace, n, d)
    decreases k
  {
    if j :| n < j < k && DraftExecuted(trace[j].outcomes) {
      DraftHasFirst(trace, n, j);
    } else {
      assert FirstDraftAfter(trace, n, k);
    }
  }

  /** A recorded threat was first shown in an earlier tick, so the delay is at least 1 and the
      `max(0, ...)` never clamps. */
  lemma DelayNeverClamped(ctx: Context, trace: seq<Tick>, id: string)
    requires Faithful(ctx, trace) && id in ctx.seenTick
    ensures 1 <= |trace| - ctx.seenTick[id]
    ensures Max(0, |trace| - ctx.seenTick[id]) == |trace| - ctx.seenTick[id]
  {
    assert FirstShown(trace, id, ctx.seenTick[id]);
  }

  lemma SeenStep(ctx: Context, trace: seq<Tick>, tick: Tick, id: string, n: int)
    requires Faithful(ctx, trace)
    ensures var after := NextContext(ctx, tick, |trace|);
      (id in after.seenTick && after.seenTick[id] == n) <==> FirstShown(trace + [tick], id, n)
  {
    var after := NextContext(ctx, tick, |trace|);
    NewThreatsListed(DraftResponse(ctx, DraftExecuted(tick.outcomes), |trace|), tick.threats, id);
    ShownStep(trace, tick, id, n);
    if id in ctx.seenTick {
      assert FirstShown(trace, id, ctx.seenTick[id]);
    } else {
      assert id in after.seenTick <==> Shows(tick, id);
      forall k | 0 <= k < |trace| ensures !Shows(trace[k], id) {
        if Shows(trace[k], id) {
          ShownHasFirst(trace, id, k);
        }
      }
    }
  }

  lemma NoDraftYet(ctx: Context, trace: seq<Tick>, id: string)
    requires Faithful(ctx, trace) && id in ctx.seenTick && id !in ctx.firstDraft
    ensures var n := ctx.seenTick[id];
      0 <= n < |trace| && !AlreadyDrafted(trace[n]) &&
      forall k :: n < k < |trace| ==> !DraftExecuted(trace[k].outcomes)
  {
    var n := ctx.seenTick[id];
    assert FirstShown(trace, id, n);
    assert !DelayOf(trace, n, 0);
    if k :| n < k < |trace| && DraftExecuted(trace[k].outcomes) {
      DraftHasFirst(trace, n, k);
      var d :| FirstDraftAfter(trace, n, d);
      assert DelayOf(trace, n, d - n);
    }
  }

  lemma DelayUnique(trace: seq<Tick>, n: int, v: int, w: int)
    requires DelayOf(trace, n, v) && DelayOf(trace, n, w)
    ensures v == w
  {
  }

  /** Once set, a delay is final. */
  lemma DelayFinal(trace: seq<Tick>, tick: Tick, n: int, v: int, w: int)
    requires DelayOf(trace, n, v)
    ensures DelayOf(trace + [tick], n, w) <==> w == v
  {
    DelayStep(trace, tick, n, v);
    if DelayOf(trace + [tick], n, w) {
      DelayUnique(trace + [tick], n, v, w);
    }
  }

  /** A tick changes no entry that is there. */
  lemma NextKeeps(ctx: Context, tick: Tick, n: int)
    requires forall id :: id in ctx.firstDraft ==> id in ctx.seenTick
    ensures var after := NextContext(ctx, tick, n);
      (forall id :: id in ctx.seenTick ==> id in after.seenTick && after.seenTick[id] == ctx.seenTick[id]) &&
      (forall id :: id in ctx.firstDraft ==> id in after.firstDraft && after.firstDraft[id] == ctx.firstDraft[id])
  {
    var mid := DraftResponse(ctx, DraftExecuted(tick.outcomes), n);
    forall id | id in ctx.seenTick ensures id !in NewThreats(mid, tick.threats) {
      NewThreatsListed(mid, tick.threats, id);
    }
  }

  lemma DraftStep(ctx: Context, trace: seq<Tick>, tick: Tick, id: string, v: int)
    requires Faithful(ctx, trace) && id in ctx.seenTick
    ensures var after := NextContext(ctx, tick, |trace|);
      id in after.seenTick && after.seenTick[id] == ctx.seenTick[id] &&
      ((id in after.firstDraft && after.firstDraft[id] == v) <==> DelayOf(trace + [tick], ctx.seenTick[id], v))
  {
    var n := ctx.seenTick[id];
    assert FirstShown(trace, id, n);
    NextKeeps(ctx, tick, |trace|);
    NewThreatsListed(DraftResponse(ctx, DraftExecuted(tick.outcomes), |trace|), tick.threats, id);
    if id in ctx.firstDraft {
      assert DelayOf(trace, n, ctx.firstDraft[id]);
      DelayFinal(trace, tick, n, ctx.firstDraft[id], v);
    } else {
      NoDraftYet(ctx, trace, id);
      DelayStep(trace, tick, n, v);
      DelayNeverClamped(ctx, trace, id);
      assert !DelayOf(trace, n, v);
    }
  }

  lemma NewDraftStep(ctx: Context, trace: seq<Tick>, tick: Tick, id: string, v: int)
    requires Faithful(ctx, trace) && id !in ctx.seenTick
    requires id in NextContext(ctx, tick, |trace|).seenTick
    ensures var after := NextContext(ctx, tick, |trace|);
      after.seenTick[id] == |trace| &&
      ((id in after.firstDraft && after.firstDraft[id] == v) <==> DelayOf(trace + [tick], |trace|, v))
  {
  }

  lemma NextFaithful(ctx: Context, trace: seq<Tick>, tick: Tick)
    requires Faithful(ctx, trace)
    ensures Faithful(NextContext(ctx, tick, |trace|), trace + [tick])
  {
    var after := NextContext(ctx, tick, |trace|);
    forall id, n ensures (id in after.seenTick && after.seenTick[id] == n) <==> FirstShown(trace + [tick], id, n) {
      SeenStep(ctx, trace, tick, id, n);
    }
    forall id, v | id in after.seenTick
      ensures (id in after.firstDraft && after.firstDraft[id] == v) <==> DelayOf(trace + [tick], after.seenTick[id], v)
    {
      if id in ctx.seenTick {
        DraftStep(ctx, trace, tick, id, v);
      } else {
        NewDraftStep(ctx, trace, tick, id, v);
      }
    }
  }

  /** After any run the bookkeeping is what the trace says. */
  lemma {:induction false} BookkeepingIsFaithful(trace: seq<Tick>)
    ensures Faithful(ContextAfter(trace), trace)
  {
    if trace != [] {
      var n := |trace| - 1;
      BookkeepingIsFaithful(trace[..n]);
      NextFaithful(ContextAfter(trace[..n]), trace[..n], trace[n]);
      assert trace == trace[..n] + [trace[n]];
    }
  }

  /** A threat is entered exactly when some tick shows it with an enemy or a level above 0; a
      placeholder with neither never is. */
  lemma EnteredIff(trace: seq<Tick>, id: string)
    ensures id in ContextAfter(trace).seenTick <==>
      exists n, k :: 0 <= n < |trace| && 0 <= k < |trace[n].threats| && trace[n].threats[k].id == id &&
        (trace[n].threats[k].enemyCount >= 1 || trace[n].threats[k].level > 0.0)
  {
    BookkeepingIsFaithful(trace);
    var ctx := ContextAfter(trace);
    if id in ctx.seenTick {
      assert FirstShown(trace, id, ctx.seenTick[id]);
    }
    if n, k :| 0 <= n < |trace| && 0 <= k < |trace[n].threats| && trace[n].threats[k].id == id &&
               (trace[n].threats[k].enemyCount >= 1 || trace[n].threats[k].level > 0.0)
    {
      assert IsThreat(trace[n].threats[k]);
      ShownHasFirst(trace, id, n);
      var m :| FirstShown(trace, id, m);
    }
  }

  /** Entries never change once set, however the run goes on. */
  lemma {:induction false} EntriesNeverChange(trace: seq<Tick>, m: nat)
    requires m <= |trace|
    ensures forall id :: id in ContextAfter(trace[..m]).seenTick ==>
      id in ContextAfter(trace).seenTick && ContextAfter(trace).seenTick[id] == ContextAfter(trace[..m]).seenTick[id]
    ensures forall id :: id in ContextAfter(trace[..m]).firstDraft ==>
      id in ContextAfter(trace).firstDraft &&
      ContextAfter(trace).firstDraft[id] == ContextAfter(trace[..m]).firstDraft[id]
  {
    if m == |trace| {
      assert trace[..m] == trace;
    } else {
      var n := |trace| - 1;
      assert trace[..n][..m] == trace[..m];
      EntriesNeverChange(trace[..n], m);
      BookkeepingIsFaithful(trace[..n]);
      NextKeeps(ContextAfter(trace[..n]), trace[n], n);
    }
  }

  // ---- The game loop's own state ----

  function Ids(seen: seq<Threat>): set<string> {
    if seen == [] then {} else Ids(seen[..|seen| - 1]) + {seen[|seen| - 1].id}
  }

  lemma IdsStep(seen: seq<Threat>, threat: Threat)
    ensures Ids(seen + [threat]) == Ids(seen) + {threat.id}
  {
  }

  /** Responses filled in for some of the seen threats. */
  function Responded(ctx: Context, ids: set<string>, n: int): map<string, int>
    requires ids <= ctx.seenTick.Keys
  {
    map id | id in ctx.firstDraft.Keys + ids ::
      if id in ctx.firstDraft then ctx.firstDraft[id] else Max(0, n - ctx.seenTick[id])
  }

  class GameLoop {
    var threatsSeen: seq<Threat>
    var threatSeenTick: map<string, int>
    var firstDraftTick: map<string, int>
    var ticksRun: nat
    ghost var trace: seq<Tick>

    function View(): Context
      reads this
    {
      Context(threatSeenTick, firstDraftTick)
    }

    ghost predicate Valid()
      reads this
    {
      View() == ContextAfter(trace) && ticksRun == |trace| && SeenListed()
    }

    /** The list and the map hold the same threats. */
    ghost predicate SeenListed()
      reads this
    {
      Ids(threatsSeen) == threatSeenTick.Keys
    }

    constructor ()
      ensures Valid() && trace == []
    {
      threatsSeen, threatSeenTick, firstDraftTick, ticksRun, trace := [], map[], map[], 0, [];
    }

    method RecordDraftResponse(outcomes: seq<ActionOutcome>, n: nat)
      requires SeenListed()
      modifies this`firstDraftTick
      ensures View() == DraftResponse(old(View()), DraftExecuted(outcomes), n)
    {
      if !DraftExecuted(outcomes) {
        return;
      }
      RespondToSeen(n);
      RespondedToAll(old(View()), n);
    }

    /** Fills in the delay of every seen threat that has none. */
    method RespondToSeen(n: nat)
      requires SeenListed()
      modifies this`firstDraftTick
      ensures firstDraftTick == Responded(old(View()), threatSeenTick.Keys, n)
    {
      ghost var start := View();
      for k := 0 to |threatsSeen|
        invariant Ids(threatsSeen[..k]) <= start.seenTick.Keys
        invariant firstDraftTick == Responded(start, Ids(threatsSeen[..k]), n)
      {
        var id := threatsSeen[k].id;
        IdOf(threatsSeen, k);
        RespondedStep(start, threatsSeen, k, n);
        if id !in firstDraftTick {
          firstDraftTick := firstDraftTick[id := Max(0, n - threatSeenTick[id])];
        }
      }
      assert threatsSeen[..|threatsSeen|] == threatsSeen;
    }

    /** Enters one threat first shown at `n`. */
    method Enter(threat: Threat, drafted: bool, n: nat)
      requires SeenListed()
      modifies this`threatsSeen, this`threatSeenTick, this`firstDraftTick
      ensures View() == OneShown(old(View()), threat.id, drafted, n) && SeenListed()
    {
      IdsStep(threatsSeen, threat);
      threatsSeen := threatsSeen + [threat];
      threatSeenTick := threatSeenTick[threat.id := n];
      if drafted {
        firstDraftTick := firstDraftTick[threat.id := 0];
      }
    }

    method UpdateMetricContext(tick: Tick, n: nat)
      requires SeenListed()
      modifies this`threatsSeen, this`threatSeenTick, this`firstDraftTick
      ensures View() == ThreatsSeen(old(View()), tick.threats, AlreadyDrafted(tick), n) && SeenListed()
    {
      ghost var start := View();
      var alreadyDrafted := AlreadyDrafted(tick);
      var seenIds := threatSeenTick.Keys;
      for k := 0 to |tick.threats|
        invariant SeenListed()
        invariant View() == ThreatsSeen(start, tick.threats[..k], alreadyDrafted, n)
      {
        var threat := tick.threats[k];
        ThreatsSeenStep(start, tick.threats, k, alreadyDrafted, n);
        if IsThreat(threat) && threat.id !in seenIds {
          Enter(threat, alreadyDrafted, n);
        }
      }
      assert tick.threats[..|tick.threats|] == tick.threats;
    }

    /** One tick: the draft response first, then the threats the tick's state shows. */
    method RunTick(tick: Tick)
      requires Valid()
      modifies this
      ensures Valid() && trace == old(trace) + [tick]
      ensures Faithful(View(), trace)
    {
      RecordDraftResponse(tick.outcomes, ticksRun);
      UpdateMetricContext(tick, ticksRun);
      ticksRun := ticksRun + 1;
      trace := trace + [tick];
      BookkeepingIsFaithful(trace);
    }
  }

  lemma RespondedToAll(ctx: Context, n: int)
    ensures DraftResponse(ctx, true, n) == ctx.(firstDraft := Responded(ctx, ctx.seenTick.Keys, n))
  {
  }

  lemma RespondedStep(ctx: Context, seen: seq<Threat>, k: nat, n: int)
    requires k < |seen| && Ids(seen[..k]) <= ctx.seenTick.Keys && seen[k].id in ctx.seenTick
    ensures Ids(seen[..k + 1]) <= ctx.seenTick.Keys
    ensures var id, before := seen[k].id, Responded(ctx, Ids(seen[..k]), n);
      Responded(ctx, Ids(seen[..k + 1]), n) ==
        if id in before then before else before[id := Max(0, n - ctx.seenTick[id])]
  {
    assert seen[..k + 1] == seen[..k] + [seen[k]];
    IdsStep(seen[..k], seen[k]);
  }

  /** The maps after one more shown threat. */
  function OneShown(ctx: Context, id: string, drafted: bool, n: int): Context {
    Context(ctx.seenTick[id := n], if drafted then ctx.firstDraft[id := 0] else ctx.firstDraft)
  }

  lemma WithShownStep(ctx: Context, shown: set<string>, id: string, drafted: bool, n: int)
    ensures WithShown(ctx, shown + {id}, drafted, n) == OneShown(WithShown(ctx, shown, drafted, n), id, drafted, n)
  {
  }

  lemma ThreatsSeenStep(ctx: Context, threats: seq<Threat>, k: nat, drafted: bool, n: int)
    requires k < |threats|
    ensures var before := ThreatsSeen(ctx, threats[..k], drafted, n);
      ThreatsSeen(ctx, threats[..k + 1], drafted, n) ==
        if IsThreat(threats[k]) && threats[k].id !in ctx.seenTick then OneShown(before, threats[k].id, drafted, n)
        else before
  {
    assert threats[..k + 1][..k] == threats[..k];
    assert NewThreats(ctx, threats[..k]) + {} == NewThreats(ctx, threats[..k]);
    WithShownStep(ctx, NewThreats(ctx, threats[..k]), threats[k].id, drafted, n);
  }

  lemma {:induction false} IdOf(seen: seq<Threat>, k: nat)
    requires k < |seen|
    ensures seen[k].id in Ids(seen)
  {
    if k < |seen| - 1 {
      IdOf(seen[..|seen| - 1], k);
    }
  }
}
