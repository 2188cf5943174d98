/** The tool session: writes are dispatched, executed elsewhere while other steps interleave,
    and recorded in the shared ledger when they complete. */
module Session {
  import opened Values
  import opened Actions
  import opened Coherence
  import opened Executor
  import opened Ledger

  datatype Status = Success | TurnTimeout | AgentError

  /** One atomic step. `ActComplete` is the resumption of a dispatched write. */
  datatype Event =
    | BeginTick(tick: int, gameTick: int)
    | ActStart(action: Action)
    | ActComplete(call: nat, success: bool)
    | EndTurn(summary: string)
    | FinishStep(status: Status)

  datatype LogEntry = LogEntry(tick: int, status: Status, numActions: nat)

  /** Calls are numbered in the order they were dispatched. `settled` lists recorded calls with
      the tick they went to, `dropped` those that completed between ticks. */
  datatype World = World(
    ledger: LedgerState, calls: nat, inFlight: map<nat, Action>, settled: seq<(nat, int)>, dropped: seq<nat>,
    results: seq<StepResult>, log: seq<LogEntry>, successes: nat, failures: nat)

  const INITIAL := World(IDLE, 0, map[], [], [], [], [], 0, 0)

  predicate Missing(target: Option<string>) { PawnOf(target) == "" }

  /** `tend` takes its patient from the parameters when no target is given. */
  function Prepared(a: Action): Action {
    if ResolveEndpoint(a.actionType) == Tend && Missing(a.target) then
      var pawn, other := Get(a.parameters, "patient_pawn_id"), Get(a.parameters, "patient_id");
      var patient := if Truthy(pawn) then PyStr(pawn) else if Truthy(other) then PyStr(other) else "";
      a.(target := if patient == "" then None else Some(patient))
    else a
  }

  /** Recorded at once, without the executor. */
  predicate Immediate(a: Action) {
    IsNoAction(a) || (NeedsPawn(ResolveEndpoint(a.actionType)) && Missing(a.target))
  }

  function ImmediateOutcome(a: Action): Option<ActionOutcome> {
    if IsNoAction(a) then None else Some(ActionOutcome(a.actionType, None, false, a.parameters))
  }

  /** What an event records while a tick is active. */
  function Record(w: World, e: Event): Option<(nat, Action, Option<ActionOutcome>)> {
    match e
    case ActStart(a) =>
      if w.ledger.active && Immediate(Prepared(a)) then
        Some((w.calls, Prepared(a), ImmediateOutcome(Prepared(a))))
      else None
    case ActComplete(call, success) =>
      if call in w.inFlight then
        Some((call, w.inFlight[call], Some(OutcomeOf(w.inFlight[call], success))))
      else None
    case _ => None
  }

  function Next(name: string, w: World, e: Event): World {
    match e
    case BeginTick(tick, gameTick) => w.(ledger := Begun(tick, gameTick))
    case EndTurn(summary) => w.(ledger := TurnEnded(w.ledger, summary))
    case ActStart(a) =>
      if !w.ledger.active then w
      else if Record(w, e).None? then
        TakenOff(w, Prepared(a))
      else
        Settle(w, Record(w, e).value).(calls := w.calls + 1)
    case ActComplete(call, success) =>
      if Record(w, e).None? then w
      else
        Settle(w, Record(w, e).value).(inFlight := w.inFlight - {call})
    case FinishStep(status) =>
      var step := Packaged(name, w.ledger);
      w.(ledger := w.ledger.(active := false), results := w.results + [step],
         log := w.log + [LogEntry(w.ledger.tick, status, |step.plan.actions|)],
         successes := w.successes + (if status == Success then 1 else 0),
         failures := w.failures + (if status == Success then 0 else 1))
  }

  /** A write goes to the active tick, or nowhere. */
  function Settle(w: World, r: (nat, Action, Option<ActionOutcome>)): World {
    if w.ledger.active then
      w.(ledger := Recorded(w.ledger, r.1, r.2), settled := w.settled + [(r.0, w.ledger.tick)])
    else w.(dropped := w.dropped + [r.0])
  }

  /** The world after any interleaving of steps. */
  function After(name: string, trace: seq<Event>): World {
    if trace == [] then INITIAL
    else Next(name, After(name, trace[..|trace| - 1]), trace[|trace| - 1])
  }

  // ---- Every dispatched write is recorded, dropped or in flight ----

  predicate SettledCall(w: World, call: nat) { exists k :: 0 <= k < |w.settled| && w.settled[k].0 == call }

  /** Where a call is: exactly one of the three, and in each list at most once. */
  ghost predicate Accounted(w: World) {
    (forall j, k :: 0 <= j < k < |w.settled| ==> w.settled[j].0 != w.settled[k].0) &&
    (forall j, k :: 0 <= j < k < |w.dropped| ==> w.dropped[j] != w.dropped[k]) &&
    (forall call: nat :: call < w.calls <==> SettledCall(w, call) || call in w.dropped || call in w.inFlight) &&
    (forall call: nat :: !(SettledCall(w, call) && call in w.dropped)) &&
    (forall call: nat :: call in w.inFlight ==> !SettledCall(w, call) && call !in w.dropped) &&
    |w.settled| + |w.dropped| + |w.inFlight| == w.calls
  }

  lemma SettleAccounted(w: World, r: (nat, Action, Option<ActionOutcome>))
    requires Accounted(w) && !SettledCall(w, r.0) && r.0 !in w.dropped
    ensures var v := Settle(w, r);
      && |v.settled| + |v.dropped| == |w.settled| + |w.dropped| + 1
      && (forall j, k :: 0 <= j < k < |v.settled| ==> v.settled[j].0 != v.settled[k].0)
      && (forall j, k :: 0 <= j < k < |v.dropped| ==> v.dropped[j] != v.dropped[k])
      && (forall call: nat :: SettledCall(v, call) || call in v.dropped <==>
            SettledCall(w, call) || call in w.dropped || call == r.0)
      && (forall call: nat :: !(SettledCall(v, call) && call in v.dropped))
  {
    var v := Settle(w, r);
    if w.ledger.active {
      forall call: nat ensures SettledCall(v, call) <==> SettledCall(w, call) || call == r.0 {
        if SettledCall(w, call) {
          var k :| 0 <= k < |w.settled| && w.settled[k].0 == call;
          assert v.settled[k].0 == call;
        }
        assert v.settled[|w.settled|].0 == r.0;
      }
    } else {
      forall call: nat ensures SettledCall(v, call) <==> SettledCall(w, call) {
        assert v.settled == w.settled;
      }
    }
  }

  lemma SameSettled(v: World, w: World)
    requires v.settled == w.settled
    ensures forall call: nat :: SettledCall(v, call) == SettledCall(w, call)
  {
  }

  /** A write that is recorded at once takes the next number. */
  lemma LandAccounted(w: World, r: (nat, Action, Option<ActionOutcome>))
    requires Accounted(w) && r.0 == w.calls
    ensures Accounted(Settle(w, r).(calls := w.calls + 1))
  {
    assert !SettledCall(w, w.calls) && w.calls !in w.dropped && w.calls !in w.inFlight;
    SettleAccounted(w, r);
    SameSettled(Settle(w, r).(calls := w.calls + 1), Settle(w, r));
  }

  function TakenOff(w: World, a: Action): World {
    w.(calls := w.calls + 1, inFlight := w.inFlight[w.calls := a])
  }

  /** A dispatched write is in flight under the next number. */
  lemma TakeOffAccounted(w: World, a: Action)
    requires Accounted(w)
    ensures Accounted(TakenOff(w, a))
  {
    var v := TakenOff(w, a);
    SameSettled(v, w);
    assert w.calls !in w.inFlight && v.inFlight.Keys == w.inFlight.Keys + {w.calls};
  }

  lemma StartAccounted(name: string, w: World, a: Action)
    requires Accounted(w)
    ensures Accounted(Next(name, w, ActStart(a)))
  {
    var r := Record(w, ActStart(a));
    StartedWorld(name, w, a);
    if w.ledger.active {
      if r.Some? {
        LandAccounted(w, r.value);
      } else {
        TakeOffAccounted(w, Prepared(a));
      }
    }
  }

  lemma StartedWorld(name: string, w: World, a: Action)
    ensures var r := Record(w, ActStart(a));
      Next(name, w, ActStart(a)) ==
        if !w.ledger.active then w
        else if r.Some? then Settle(w, r.value).(calls := w.calls + 1)
        else TakenOff(w, Prepared(a))
    ensures Record(w, ActStart(a)).Some? ==> Record(w, ActStart(a)).value.0 == w.calls
  {
  }

  lemma CompleteAccounted(name: string, w: World, call: nat, success: bool)
    requires Accounted(w)
    ensures Accounted(Next(name, w, ActComplete(call, success)))
  {
    var v, r := Next(name, w, ActComplete(call, success)), Record(w, ActComplete(call, success));
    if r.Some? {
      SettleAccounted(w, r.value);
      SameSettled(v, Settle(w, r.value));
      assert w.inFlight.Keys == v.inFlight.Keys + {call};
    }
  }

  lemma NextAccounted(name: string, w: World, e: Event)
    requires Accounted(w)
    ensures Accounted(Next(name, w, e))
  {
    match e
    case ActStart(a) => StartAccounted(name, w, a);
    case ActComplete(call, success) => CompleteAccounted(name, w, call, success);
    case _ => SameSettled(Next(name, w, e), w);
  }

  /** Under every interleaving each dispatched write is recorded, dropped or in flight: one of
      the three, once. */
  lemma {:induction false} WritesAreAccounted(name: string, trace: seq<Event>)
    ensures Accounted(After(name, trace))
  {
    if trace == [] {
      assert forall call: nat :: !SettledCall(INITIAL, call);
    } else {
      WritesAreAccounted(name, trace[..|trace| - 1]);
      NextAccounted(name, After(name, trace[..|trace| - 1]), trace[|trace| - 1]);
    }
  }

  // ---- A write goes to the tick that is active when it completes ----

  /** Step `b` began a tick that no later step began or finished. */
  ghost predicate Open(trace: seq<Event>, b: nat) {
    b < |trace| && trace[b].BeginTick? &&
    forall k :: b < k < |trace| ==> !trace[k].BeginTick? && !trace[k].FinishStep?
  }

  lemma OpenStep(trace: seq<Event>, e: Event, b: nat)
    ensures Open(trace + [e], b) <==>
      if e.BeginTick? then b == |trace| else !e.FinishStep? && Open(trace, b)
  {
    var longer := trace + [e];
    if Open(longer, b) && b < |trace| {
      assert longer[|trace|] == e;
      forall k | b < k < |trace| ensures !trace[k].BeginTick? && !trace[k].FinishStep? {
        assert longer[k] == trace[k];
      }
    }
  }

  /** No tick is open. */
  ghost predicate Between(trace: seq<Event>) { forall b: nat :: !Open(trace, b) }

  lemma NextActive(name: string, w: World, e: Event)
    ensures Next(name, w, e).ledger.active <==> e.BeginTick? || (w.ledger.active && !e.FinishStep?)
  {
  }

  lemma {:induction false} OpenIsActive(name: string, trace: seq<Event>)
    ensures After(name, trace).ledger.active <==> !Between(trace)
  {
    if trace != [] {
      var front, e := trace[..|trace| - 1], trace[|trace| - 1];
      OpenIsActive(name, front);
      assert trace == front + [e];
      BetweenStep(front, e);
      NextActive(name, After(name, front), e);
    }
  }

  lemma BetweenStep(trace: seq<Event>, e: Event)
    ensures Between(trace + [e]) <==> !e.BeginTick? && (e.FinishStep? || Between(trace))
  {
    var longer := trace + [e];
    forall b: nat ensures Open(longer, b) <==> if e.BeginTick? then b == |trace| else !e.FinishStep? && Open(trace, b) {
      OpenStep(trace, e, b);
    }
    if e.BeginTick? {
      assert Open(longer, |trace|);
    } else if !e.FinishStep? && !Between(trace) {
      var b: nat :| Open(trace, b);
      assert Open(longer, b);
    }
  }

  lemma {:induction false} OpenTick(name: string, trace: seq<Event>, b: nat)
    requires Open(trace, b)
    ensures After(name, trace).ledger.active
    ensures After(name, trace).ledger.tick == trace[b].tick && After(name, trace).ledger.gameTick == trace[b].gameTick
  {
    var front, e := trace[..|trace| - 1], trace[|trace| - 1];
    assert trace == front + [e];
    OpenStep(front, e, b);
    if !e.BeginTick? {
      OpenTick(name, front, b);
    }
  }

  /** Call `call` completes at step `n`. */
  ghost predicate Completes(name: string, trace: seq<Event>, n: nat, call: nat) {
    n < |trace| && Record(After(name, trace[..n]), trace[n]).Some? &&
    Record(After(name, trace[..n]), trace[n]).value.0 == call
  }

  lemma CompletesStep(name: string, trace: seq<Event>, e: Event, n: nat, call: nat)
    ensures Completes(name, trace + [e], n, call) <==>
      if n == |trace| then Record(After(name, trace), e).Some? && Record(After(name, trace), e).value.0 == call
      else Completes(name, trace, n, call)
  {
    if n <= |trace| {
      assert (trace + [e])[..n] == trace[..n];
    }
    assert trace[..|trace|] == trace;
  }

  /** A completion at step `n` while the tick begun at step `b` is open. */
  ghost predicate CompletesIn(name: string, trace: seq<Event>, n: nat, call: nat, b: nat) {
    Completes(name, trace, n, call) && Open(trace[..n], b)
  }

  lemma CompletesInStep(name: string, trace: seq<Event>, e: Event, n: nat, call: nat, b: nat)
    ensures CompletesIn(name, trace + [e], n, call, b) <==>
      if n == |trace| then
        Record(After(name, trace), e).Some? && Record(After(name, trace), e).value.0 == call && Open(trace, b)
      else CompletesIn(name, trace, n, call, b)
  {
    CompletesStep(name, trace, e, n, call);
    if n <= |trace| {
      assert (trace + [e])[..n] == trace[..n];
    }
    assert trace[..|trace|] == trace;
  }

  /** Some completion of `call` happens in a tick numbered `tick`. */
  ghost predicate CompletesInTick(name: string, trace: seq<Event>, call: nat, tick: int) {
    exists n: nat, b: nat :: CompletesIn(name, trace, n, call, b) && trace[b].tick == tick
  }

  ghost predicate OpenAs(trace: seq<Event>, tick: int) {
    exists b: nat :: Open(trace, b) && trace[b].tick == tick
  }

  lemma CompletesInTickStep(name: string, trace: seq<Event>, e: Event, call: nat, tick: int)
    ensures var r := Record(After(name, trace), e);
      CompletesInTick(name, trace + [e], call, tick) <==>
        CompletesInTick(name, trace, call, tick) || (r.Some? && r.value.0 == call && OpenAs(trace, tick))
  {
    var longer := trace + [e];
    forall n: nat, b: nat ensures CompletesIn(name, longer, n, call, b) <==>
      if n == |trace| then
        Record(After(name, trace), e).Some? && Record(After(name, trace), e).value.0 == call && Open(trace, b)
      else CompletesIn(name, trace, n, call, b)
    {
      CompletesInStep(name, trace, e, n, call, b);
    }
    if n: nat, b: nat :| CompletesIn(name, trace, n, call, b) && trace[b].tick == tick {
      assert CompletesIn(name, longer, n, call, b) && longer[b].tick == tick;
    }
    if b: nat :| Open(trace, b) && trace[b].tick == tick {
      assert CompletesIn(name, longer, |trace|, call, b) <==>
        Record(After(name, trace), e).Some? && Record(After(name, trace), e).value.0 == call;
      assert longer[b].tick == tick;
    }
  }

  lemma OpenAsActive(name: string, trace: seq<Event>, tick: int)
    ensures OpenAs(trace, tick) <==> After(name, trace).ledger.active && After(name, trace).ledger.tick == tick
  {
    OpenIsActive(name, trace);
    if b: nat :| Open(trace, b) {
      OpenTick(name, trace, b);
      forall c: nat | Open(trace, c) ensures trace[c].tick == trace[b].tick {
        OpenTick(name, trace, c);
      }
    }
  }

  lemma SettledStep(name: string, w: World, e: Event, call: nat, tick: int)
    ensures (call, tick) in Next(name, w, e).settled <==>
      (call, tick) in w.settled ||
      (Record(w, e).Some? && Record(w, e).value.0 == call && w.ledger.active && w.ledger.tick == tick)
  {
  }

  /** A write is recorded in a tick exactly when it completes while that tick is open. */
  lemma {:induction false} RecordedWhereItCompletes(name: string, trace: seq<Event>, call: nat, tick: int)
    ensures (call, tick) in After(name, trace).settled <==> CompletesInTick(name, trace, call, tick)
  {
    if trace != [] {
      var front, e := trace[..|trace| - 1], trace[|trace| - 1];
      RecordedWhereItCompletes(name, front, call, tick);
      assert trace == front + [e];
      CompletesInTickStep(name, front, e, call, tick);
      OpenAsActive(name, front, tick);
      SettledStep(name, After(name, front), e, call, tick);
    }
  }

  /** A completion at step `n` with no tick open. */
  ghost predicate CompletesOutside(name: string, trace: seq<Event>, n: nat, call: nat) {
    Completes(name, trace, n, call) && Between(trace[..n])
  }

  lemma CompletesOutsideStep(name: string, trace: seq<Event>, e: Event, n: nat, call: nat)
    ensures CompletesOutside(name, trace + [e], n, call) <==>
      if n == |trace| then
        Record(After(name, trace), e).Some? && Record(After(name, trace), e).value.0 == call && Between(trace)
      else CompletesOutside(name, trace, n, call)
  {
    CompletesStep(name, trace, e, n, call);
    if n <= |trace| {
      assert (trace + [e])[..n] == trace[..n];
    }
    assert trace[..|trace|] == trace;
  }

  /** Some completion of `call` happens with no tick open. */
  ghost predicate CompletesBetween(name: string, trace: seq<Event>, call: nat) {
    exists n: nat :: CompletesOutside(name, trace, n, call)
  }

  lemma CompletesBetweenStep(name: string, trace: seq<Event>, e: Event, call: nat)
    ensures var r := Record(After(name, trace), e);
      CompletesBetween(name, trace + [e], call) <==>
        CompletesBetween(name, trace, call) || (r.Some? && r.value.0 == call && Between(trace))
  {
    forall n: nat ensures CompletesOutside(name, trace + [e], n, call) <==>
      if n == |trace| then
        Record(After(name, trace), e).Some? && Record(After(name, trace), e).value.0 == call && Between(trace)
      else CompletesOutside(name, trace, n, call)
    {
      CompletesOutsideStep(name, trace, e, n, call);
    }
    if n: nat :| CompletesOutside(name, trace, n, call) {
      assert CompletesOutside(name, trace + [e], n, call);
    }
    assert CompletesOutside(name, trace + [e], |trace|, call) ==> CompletesBetween(name, trace + [e], call);
  }

  lemma DroppedStep(name: string, w: World, e: Event, call: nat)
    ensures call in Next(name, w, e).dropped <==>
      call in w.dropped || (Record(w, e).Some? && Record(w, e).value.0 == call && !w.ledger.active)
  {
  }

  /** A straggler is dropped exactly when it completes between ticks. */
  lemma {:induction false} DroppedBetweenTicks(name: string, trace: seq<Event>, call: nat)
    ensures call in After(name, trace).dropped <==> CompletesBetween(name, trace, call)
  {
    if trace != [] {
      var front, e := trace[..|trace| - 1], trace[|trace| - 1];
      DroppedBetweenTicks(name, front, call);
      OpenIsActive(name, front);
      assert trace == front + [e];
      CompletesBetweenStep(name, front, e, call);
      DroppedStep(name, After(name, front), e, call);
    }
  }

  // ---- A step result holds exactly the writes of its tick ----

  type Entry = (nat, Action, Option<ActionOutcome>)

  /** What the steps from `from` on recorded or would record. */
  function Window(name: string, trace: seq<Event>, from: nat): seq<Entry> {
    if |trace| <= from then []
    else
      var front, e := trace[..|trace| - 1], trace[|trace| - 1];
      Window(name, front, from) +
        if Record(After(name, front), e).Some? then [Record(After(name, front), e).value] else []
  }

  function EntryActions(entries: seq<Entry>): seq<Action> {
    if entries == [] then []
    else EntryActions(entries[..|entries| - 1]) + [entries[|entries| - 1].1]
  }

  function EntryOutcomes(entries: seq<Entry>): seq<ActionOutcome> {
    if entries == [] then []
    else EntryOutcomes(entries[..|entries| - 1]) + Listed(entries[|entries| - 1].2)
  }

  function NoActions(actions: seq<Action>): seq<Action> {
    if actions == [] then []
    else
      var last := actions[|actions| - 1];
      NoActions(actions[..|actions| - 1]) + if IsNoAction(last) then [last] else []
  }

  /** A write to a pawn endpoint that names no pawn. */
  predicate Pawnless(a: Action) {
    a.target in {None, Some("")} &&
    ResolveEndpoint(a.actionType) in {WorkPriority, Draft, Move, JobAssign, TimeAssignment, Equip, BedRest, Tend}
  }

  /** `o` is the outcome of `a`: a failure without target when it names no pawn, else one for its
      target. */
  predicate Reports(a: Action, o: ActionOutcome) {
    o.actionType == a.actionType && o.parameters == a.parameters &&
    if Pawnless(a) then o.target.None? && !o.success else o.target == a.target
  }

  /** A `no_action` comes without an outcome, any other action with its own. */
  predicate Honest(r: Entry) {
    if IsNoAction(r.1) then r.2.None? else r.2.Some? && Reports(r.1, r.2.value)
  }

  /** No `no_action` awaits the executor, nor a write that names no pawn. */
  ghost predicate RealInFlight(w: World) {
    forall call :: call in w.inFlight ==> !IsNoAction(w.inFlight[call]) && !Pawnless(w.inFlight[call])
  }

  lemma StaysReal(name: string, w: World, e: Event)
    requires RealInFlight(w)
    ensures RealInFlight(Next(name, w, e))
  {
    if e.ActStart? && Record(w, e).None? && w.ledger.active {
      assert !IsNoAction(Prepared(e.action)) && !Pawnless(Prepared(e.action));
    }
  }

  lemma {:induction false} InFlightReal(name: string, trace: seq<Event>)
    ensures RealInFlight(After(name, trace))
  {
    if trace != [] {
      var front, e := trace[..|trace| - 1], trace[|trace| - 1];
      InFlightReal(name, front);
      StaysReal(name, After(name, front), e);
    }
  }

  lemma RecordHonest(name: string, trace: seq<Event>, e: Event)
    ensures Record(After(name, trace), e).Some? ==> Honest(Record(After(name, trace), e).value)
  {
    InFlightReal(name, trace);
  }

  lemma {:induction false} WindowHonest(name: string, trace: seq<Event>, from: nat)
    ensures forall k :: 0 <= k < |Window(name, trace, from)| ==> Honest(Window(name, trace, from)[k])
  {
    if |trace| > from {
      var front := trace[..|trace| - 1];
      WindowHonest(name, front, from);
      RecordHonest(name, front, trace[|trace| - 1]);
    }
  }

  lemma EntriesStep(entries: seq<Entry>, r: Entry)
    ensures EntryActions(entries + [r]) == EntryActions(entries) + [r.1]
    ensures EntryOutcomes(entries + [r]) == EntryOutcomes(entries) + Listed(r.2)
  {
  }

  /** Outcomes match the actions other than `no_action` one for one. */
  ghost predicate Matched(actions: seq<Action>, outcomes: seq<ActionOutcome>) {
    |outcomes| == |RealWrites(actions)| && |actions| == |outcomes| + |NoActions(actions)| &&
    forall k :: 0 <= k < |outcomes| ==> Reports(RealWrites(actions)[k], outcomes[k])
  }

  lemma MatchedStep(actions: seq<Action>, outcomes: seq<ActionOutcome>, r: Entry)
    requires Matched(actions, outcomes) && Honest(r)
    ensures Matched(actions + [r.1], outcomes + Listed(r.2))
  {
  }

  lemma {:induction false} EntriesMatch(entries: seq<Entry>)
    requires forall k :: 0 <= k < |entries| ==> Honest(entries[k])
    ensures Matched(EntryActions(entries), EntryOutcomes(entries))
  {
    if entries != [] {
      var front, last := entries[..|entries| - 1], entries[|entries| - 1];
      EntriesMatch(front);
      MatchedStep(EntryActions(front), EntryOutcomes(front), last);
    }
  }

  /** What a step within a tick adds to the ledger. */
  lemma StepAddsEntry(name: string, w: World, e: Event)
    requires w.ledger.active && !e.BeginTick? && !e.FinishStep?
    ensures var l := Next(name, w, e).ledger; var r := Record(w, e);
      l.active && l.actions == w.ledger.actions + (if r.Some? then [r.value.1] else []) &&
      l.outcomes == w.ledger.outcomes + (if r.Some? then Listed(r.value.2) else [])
  {
  }

  lemma {:induction false} LedgerHoldsWindow(name: string, trace: seq<Event>, b: nat)
    requires Open(trace, b)
    ensures After(name, trace).ledger.active
    ensures After(name, trace).ledger.actions == EntryActions(Window(name, trace, b + 1))
    ensures After(name, trace).ledger.outcomes == EntryOutcomes(Window(name, trace, b + 1))
  {
    var front, e := trace[..|trace| - 1], trace[|trace| - 1];
    assert trace == front + [e];
    OpenStep(front, e, b);
    if e.BeginTick? {
      assert Window(name, trace, b + 1) == [];
    } else {
      var r := Record(After(name, front), e);
      LedgerHoldsWindow(name, front, b);
      StepAddsEntry(name, After(name, front), e);
      if r.Some? {
        EntriesStep(Window(name, front, b + 1), r.value);
        assert Window(name, trace, b + 1) == Window(name, front, b + 1) + [r.value];
      } else {
        assert Window(name, trace, b + 1) == Window(name, front, b + 1);
      }
    }
  }

  /** The turn counts as ended exactly when some step since `from` ended it. */
  ghost predicate EndedSince(trace: seq<Event>, from: nat) {
    exists k :: from <= k < |trace| && trace[k].EndTurn?
  }

  lemma EndedSinceStep(trace: seq<Event>, e: Event, from: nat)
    requires from <= |trace|
    ensures EndedSince(trace + [e], from) <==> EndedSince(trace, from) || e.EndTurn?
  {
    var longer := trace + [e];
    if k :| from <= k < |trace| && trace[k].EndTurn? {
      assert longer[k].EndTurn?;
    }
    assert longer[|trace|] == e;
  }

  /** The last non-empty summary given since `from`. */
  function LastSummary(trace: seq<Event>, from: nat): string {
    if |trace| <= from then ""
    else
      var e := trace[|trace| - 1];
      if e.EndTurn? && e.summary != "" then e.summary else LastSummary(trace[..|trace| - 1], from)
  }

  lemma {:induction false} LedgerKnowsTurnEnd(name: string, trace: seq<Event>, b: nat)
    requires Open(trace, b)
    ensures After(name, trace).ledger.turnDone <==> EndedSince(trace, b + 1)
    ensures After(name, trace).ledger.summary == LastSummary(trace, b + 1)
  {
    var front, e := trace[..|trace| - 1], trace[|trace| - 1];
    assert trace == front + [e];
    OpenStep(front, e, b);
    if !e.BeginTick? {
      LedgerKnowsTurnEnd(name, front, b);
      EndedSinceStep(front, e, b + 1);
    }
  }

  /** Each step result holds exactly the writes recorded between its begin and its finish. */
  lemma StepResultHoldsItsTick(name: string, trace: seq<Event>, b: nat, status: Status)
    requires Open(trace, b)
    ensures var w := After(name, trace + [FinishStep(status)]);
      var entries := Window(name, trace, b + 1);
      w.log == After(name, trace).log + [LogEntry(trace[b].tick, status, |EntryActions(entries)|)] &&
      w.results == After(name, trace).results + [w.results[|w.results| - 1]] &&
      var step := w.results[|w.results| - 1];
      && step.plan.role == name && step.plan.tick == trace[b].gameTick && step.plan.confidence == 0.5
      && step.plan.actions == EntryActions(entries)
      && step.execution.outcomes == EntryOutcomes(entries)
      && step.execution.executed == |Executed(step.execution.outcomes)|
      && step.execution.executed + step.execution.failed == step.execution.total
      && Matched(step.plan.actions, step.execution.outcomes)
      && |step.plan.actions| == step.execution.total + |NoActions(step.plan.actions)|
      && (step.turnEnded <==> EndedSince(trace, b + 1))
      && step.plan.summary == (if LastSummary(trace, b + 1) != "" then LastSummary(trace, b + 1)
                               else Decimal(|step.plan.actions|) + " tool call(s)")
  {
    assert (trace + [FinishStep(status)])[..|trace|] == trace;
    LedgerHoldsWindow(name, trace, b);
    LedgerKnowsTurnEnd(name, trace, b);
    OpenTick(name, trace, b);
    WindowHonest(name, trace, b + 1);
    EntriesMatch(Window(name, trace, b + 1));
  }

  function SuccessfulSteps(log: seq<LogEntry>): set<nat> {
    set k: nat | k < |log| && log[k].status == Success
  }

  lemma SuccessfulStepsGrow(log: seq<LogEntry>, entry: LogEntry)
    ensures |SuccessfulSteps(log + [entry])| == |SuccessfulSteps(log)| + if entry.status == Success then 1 else 0
  {
    assert SuccessfulSteps(log + [entry]) ==
      SuccessfulSteps(log) + if entry.status == Success then {|log|} else {};
  }

  /** Every finished step is counted once as a success or a failure and logged with the number
      of actions in its result. */
  lemma {:induction false} StepsAreAccounted(name: string, trace: seq<Event>)
    ensures var w := After(name, trace);
      w.successes + w.failures == |w.results| == |w.log| && w.successes == |SuccessfulSteps(w.log)| &&
      forall k :: 0 <= k < |w.log| ==> w.log[k].numActions == |w.results[k].plan.actions|
  {
    if trace != [] {
      var front, e := trace[..|trace| - 1], trace[|trace| - 1];
      var w := After(name, front);
      StepsAreAccounted(name, front);
      if e.FinishStep? {
        var step := Packaged(name, w.ledger);
        SuccessfulStepsGrow(w.log, LogEntry(w.ledger.tick, e.status, |step.plan.actions|));
      }
    }
  }

  /** The executor always returns an outcome for a dispatched write, so `act` never meets the
      "skipped by executor" case. */
  lemma DispatchedWriteHasOutcome(a: Action, g: Guards, reply: Reply)
    requires !Immediate(a)
    ensures exists success :: RunOutcomes(g, [a], [reply]) == [OutcomeOf(a, success)]
  {
    OutcomesMatchWrites(g, [a], [reply]);
    assert [a][..0] == [];
    assert RealWrites([a]) == [a];
    var os := RunOutcomes(g, [a], [reply]);
    assert os == [OutcomeOf(a, os[0].success)];
  }

  // ---- The session object ----

  class McpSession {
    const ledger: TickLedger
    var calls: nat
    var inFlight: map<nat, Action>
    ghost var trace: seq<Event>
    ghost var results: seq<StepResult>

    /** The object is where its steps so far lead. */
    ghost predicate Valid()
      reads this, ledger
    {
      var w := After(ledger.harnessName, trace);
      ledger.View() == w.ledger && calls == w.calls && inFlight == w.inFlight && results == w.results
    }

    constructor (name: string)
      ensures Valid() && trace == [] && fresh(ledger) && ledger.harnessName == name
    {
      ledger := new TickLedger(name);
      calls, inFlight, trace, results := 0, map[], [], [];
    }

    method Begin(tick: int, gameTick: int)
      requires Valid()
      modifies this, ledger
      ensures Valid() && trace == old(trace) + [BeginTick(tick, gameTick)]
    {
      ledger.Begin(tick, gameTick);
      trace := trace + [BeginTick(tick, gameTick)];
    }

    /** The part of `act` before the await. `None` is NoActiveTickError. */
    method StartAct(a: Action) returns (call: Option<nat>)
      requires Valid()
      modifies this, ledger
      ensures Valid() && trace == old(trace) + [ActStart(a)]
      ensures call == if old(ledger.active) then Some(old(calls)) else None
    {
      ghost var w := After(ledger.harnessName, trace);
      if !ledger.active {
        trace := trace + [ActStart(a)];
        return None;
      }
      var action := Prepared(a);
      call := Some(calls);
      if Immediate(action) {
        var _ := ledger.Record(action, ImmediateOutcome(action));
      } else {
        inFlight := inFlight[calls := action];
      }
      calls := calls + 1;
      trace := trace + [ActStart(a)];
    }

    /** The part of `act` after the await. `false` is NoActiveTickError. */
    method CompleteAct(call: nat, success: bool) returns (recorded: bool)
      requires Valid() && call in inFlight
      modifies this, ledger
      ensures Valid() && trace == old(trace) + [ActComplete(call, success)]
      ensures recorded == old(ledger.active)
    {
      recorded := ledger.Record(inFlight[call], Some(OutcomeOf(inFlight[call], success)));
      inFlight := inFlight - {call};
      trace := trace + [ActComplete(call, success)];
    }

    method End(summary: string)
      requires Valid()
      modifies this, ledger
      ensures Valid() && trace == old(trace) + [EndTurn(summary)]
    {
      ledger.EndTurn(summary);
      trace := trace + [EndTurn(summary)];
    }

    method Finish(status: Status) returns (step: StepResult)
      requires Valid()
      modifies this, ledger
      ensures Valid() && trace == old(trace) + [FinishStep(status)]
      ensures results == old(results) + [step]
    {
      step := ledger.Finish();
      results := results + [step];
      trace := trace + [FinishStep(status)];
    }
  }
}
