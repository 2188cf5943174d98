/** Where every tool call ends up: which tick's batch it joins, and what becomes of the batch. */
module Attribution {
  import opened Values
  import opened Actions
  import opened Executor
  import opened Ledger
  import opened Session
  import opened Writes

  // ---- Every call number stands for one dispatched action ----

  /** Step `n` dispatched `a` as number `call`. */
  ghost predicate DispatchedAt(name: string, trace: seq<Event>, n: nat, call: nat, a: Action) {
    n < |trace| && trace[n].ActStart? && Prepared(trace[n].action) == a &&
    After(name, trace[..n]).ledger.active && After(name, trace[..n]).calls == call
  }

  ghost predicate Dispatched(name: string, trace: seq<Event>, call: nat, a: Action) {
    exists n: nat :: DispatchedAt(name, trace, n, call, a)
  }

  lemma DispatchedStep(name: string, trace: seq<Event>, e: Event, call: nat, a: Action)
    requires Dispatched(name, trace, call, a) ||
      (e.ActStart? && After(name, trace).ledger.active && call == After(name, trace).calls && a == Prepared(e.action))
    ensures Dispatched(name, trace + [e], call, a)
  {
    var longer := trace + [e];
    if n: nat :| DispatchedAt(name, trace, n, call, a) {
      assert longer[..n] == trace[..n];
      assert DispatchedAt(name, longer, n, call, a);
    } else {
      assert longer[..|trace|] == trace;
      assert DispatchedAt(name, longer, |trace|, call, a);
    }
  }

  /** What is in flight under a number is what was dispatched under it. */
  lemma {:induction false} InFlightDispatched(name: string, trace: seq<Event>, call: nat)
    requires call in After(name, trace).inFlight
    ensures Dispatched(name, trace, call, After(name, trace).inFlight[call])
  {
    var front, e := trace[..|trace| - 1], trace[|trace| - 1];
    assert trace == front + [e];
    if call in After(name, front).inFlight && After(name, trace).inFlight[call] == After(name, front).inFlight[call] {
      InFlightDispatched(name, front, call);
    }
    DispatchedStep(name, front, e, call, After(name, trace).inFlight[call]);
  }

  lemma RecordDispatched(name: string, trace: seq<Event>, e: Event)
    requires Record(After(name, trace), e).Some?
    ensures var r := Record(After(name, trace), e).value; Dispatched(name, trace + [e], r.0, r.1)
  {
    var r := Record(After(name, trace), e).value;
    if e.ActComplete? {
      InFlightDispatched(name, trace, r.0);
    }
    DispatchedStep(name, trace, e, r.0, r.1);
  }

  lemma {:induction false} CallsGrow(name: string, trace: seq<Event>, m: nat)
    requires m <= |trace|
    ensures After(name, trace[..m]).calls <= After(name, trace).calls
  {
    if m == |trace| {
      assert trace[..m] == trace;
    } else {
      var front := trace[..|trace| - 1];
      assert front[..m] == trace[..m];
      CallsGrow(name, front, m);
    }
  }

  /** A number is dispatched once. */
  lemma DispatchedOnce(name: string, trace: seq<Event>, call: nat, m: nat, a: Action, n: nat, b: Action)
    requires DispatchedAt(name, trace, m, call, a) && DispatchedAt(name, trace, n, call, b)
    ensures m == n && a == b
  {
    if m < n {
      NumberTaken(name, trace, call, m, n, a);
    } else if n < m {
      NumberTaken(name, trace, call, n, m, b);
    }
  }

  lemma NumberTaken(name: string, trace: seq<Event>, call: nat, m: nat, n: nat, a: Action)
    requires m < n <= |trace| && DispatchedAt(name, trace, m, call, a)
    ensures After(name, trace[..n]).calls > call
  {
    assert trace[..m + 1] == trace[..m] + [trace[m]];
    assert trace[..n][..m + 1] == trace[..m + 1];
    CallsGrow(name, trace[..n], m + 1);
  }

  // ---- What a step records ----

  /** `tend` finds its patient in the parameters when it has no target; other writes stay as they are. */
  lemma TendFindsPatient(a: Action, text: string)
    requires Patient(a.parameters, text)
    ensures Prepared(a) ==
      if ResolveEndpoint(a.actionType) == Tend && a.target in {None, Some("")}
      then a.(target := if text == "" then None else Some(text)) else a
  {
  }

  /** What the dispatch of an action does while a tick is active: a `no_action` is recorded without
      outcome, a write that names no pawn as a failure, and any other goes in flight. */
  lemma DispatchRecorded(name: string, trace: seq<Event>, a: Action)
    requires After(name, trace).ledger.active
    ensures var w, v, b := After(name, trace), After(name, trace + [ActStart(a)]), Prepared(a);
      v.calls == w.calls + 1 &&
      if ResolveEndpoint(b.actionType) == NoAction then
        v.inFlight == w.inFlight && v.ledger.actions == w.ledger.actions + [b] &&
        v.ledger.outcomes == w.ledger.outcomes
      else if Pawnless(b) then
        v.inFlight == w.inFlight && v.ledger.actions == w.ledger.actions + [b] &&
        v.ledger.outcomes == w.ledger.outcomes + [ActionOutcome(b.actionType, None, false, b.parameters)]
      else
        v.inFlight == w.inFlight[w.calls := b] && v.ledger == w.ledger
  {
    assert (trace + [ActStart(a)])[..|trace|] == trace;
    PawnlessIsImmediate(Prepared(a));
  }

  lemma PawnlessIsImmediate(a: Action)
    ensures Immediate(a) <==> ResolveEndpoint(a.actionType) == NoAction || Pawnless(a)
  {
    PawnEndpoints(ResolveEndpoint(a.actionType));
    assert Missing(a.target) <==> a.target in {None, Some("")};
  }

  /** A completion records the dispatched action with the success it reports. */
  lemma CompletionRecorded(name: string, trace: seq<Event>, call: nat, success: bool)
    requires var w := After(name, trace); w.ledger.active && call in w.inFlight
    ensures var w, v := After(name, trace), After(name, trace + [ActComplete(call, success)]);
      var a := w.inFlight[call];
      v.ledger.actions == w.ledger.actions + [a] &&
      v.ledger.outcomes == w.ledger.outcomes + [ActionOutcome(a.actionType, a.target, success, a.parameters)] &&
      v.inFlight == w.inFlight - {call}
  {
    assert (trace + [ActComplete(call, success)])[..|trace|] == trace;
  }

  // ---- Batches ----

  /** What becomes of the writes of a tick. */
  datatype Fate = Pending | InResult(k: nat) | Discarded

  /** The writes recorded since one begin. */
  datatype Batch = Batch(entries: seq<Entry>, fate: Fate)

  function Last(bs: seq<Batch>): Batch
    requires bs != []
  {
    bs[|bs| - 1]
  }

  predicate Unfinished(bs: seq<Batch>) { bs != [] && Last(bs).fate.Pending? }

  function SetLast(bs: seq<Batch>, b: Batch): seq<Batch>
    requires bs != []
  {
    bs[..|bs| - 1] + [b]
  }

  function Close(bs: seq<Batch>, fate: Fate): seq<Batch> {
    if Unfinished(bs) then SetLast(bs, Last(bs).(fate := fate)) else bs
  }

  function Put(bs: seq<Batch>, r: Entry): seq<Batch>
    requires bs != []
  {
    SetLast(bs, Last(bs).(entries := Last(bs).entries + [r]))
  }

  /** A begin opens a batch and throws away one that is still open; a finish hands the open one
      over; a record goes to the open one. */
  function NextBatches(bs: seq<Batch>, w: World, e: Event): seq<Batch> {
    match e
    case BeginTick(_, _) => Close(bs, Discarded) + [Batch([], Pending)]
    case FinishStep(_) => Close(bs, InResult(|w.results|))
    case _ => if Unfinished(bs) && Record(w, e).Some? then Put(bs, Record(w, e).value) else bs
  }

  function Batches(name: string, trace: seq<Event>): seq<Batch> {
    if trace == [] then []
    else
      var front := trace[..|trace| - 1];
      NextBatches(Batches(name, front), After(name, front), trace[|trace| - 1])
  }

  predicate Lies(bs: seq<Batch>, i: nat, j: nat, call: nat) {
    i < |bs| && j < |bs[i].entries| && bs[i].entries[j].0 == call
  }

  ghost predicate Placed(bs: seq<Batch>, call: nat) { exists i: nat, j: nat :: Lies(bs, i, j, call) }

  /** A batch holds what its step result, or the open ledger, reports. */
  predicate Carries(w: World, b: Batch) {
    match b.fate
    case Pending =>
      w.ledger.actions == EntryActions(b.entries) && w.ledger.outcomes == EntryOutcomes(b.entries)
    case InResult(k) =>
      k < |w.results| && w.results[k].plan.actions == EntryActions(b.entries) &&
      w.results[k].execution.outcomes == EntryOutcomes(b.entries)
    case Discarded => true
  }

  /** Only the last batch may be open, and is when the ledger is active; step results take one
      batch each, in order. */
  ghost predicate Attributed(w: World, bs: seq<Batch>) {
    (w.ledger.active <==> Unfinished(bs)) &&
    (forall i :: 0 <= i < |bs| ==> Carries(w, bs[i])) &&
    (forall i :: 0 <= i < |bs| - 1 ==> !bs[i].fate.Pending?) &&
    forall i, j :: 0 <= i < j < |bs| && bs[i].fate.InResult? && bs[j].fate.InResult? ==> bs[i].fate.k < bs[j].fate.k
  }

  /** Recording in the open batch, with the ledger as it then is. */
  lemma PutAttributed(w: World, bs: seq<Batch>, r: Entry, ledger: LedgerState)
    requires Attributed(w, bs) && w.ledger.active && ledger.active
    requires ledger.actions == w.ledger.actions + [r.1] && ledger.outcomes == w.ledger.outcomes + Listed(r.2)
    ensures Attributed(w.(ledger := ledger), Put(bs, r))
  {
    EntriesStep(Last(bs).entries, r);
  }

  /** Only the ledger's contents and the results matter. */
  lemma AttributedSame(v: World, w: World, bs: seq<Batch>)
    requires Attributed(w, bs) && v.results == w.results && v.ledger.active == w.ledger.active
    requires v.ledger.actions == w.ledger.actions && v.ledger.outcomes == w.ledger.outcomes
    ensures Attributed(v, bs)
  {
  }

  lemma WithinTick(name: string, w: World, bs: seq<Batch>, e: Event)
    requires Attributed(w, bs) && !e.BeginTick? && !e.FinishStep?
    ensures Attributed(Next(name, w, e), NextBatches(bs, w, e))
  {
    var v, r := Next(name, w, e), Record(w, e);
    if w.ledger.active {
      StepAddsEntry(name, w, e);
      if r.Some? {
        PutAttributed(w, bs, r.value, v.ledger);
        AttributedSame(v, w.(ledger := v.ledger), Put(bs, r.value));
      } else {
        AttributedSame(v, w, bs);
      }
    } else {
      AttributedSame(v, w, bs);
    }
  }

  /** Closing the open batch, with the results as they then are. */
  lemma CloseAttributed(w: World, bs: seq<Batch>, fate: Fate, results: seq<StepResult>)
    requires Attributed(w, bs) && !fate.Pending? && w.results <= results
    requires fate.InResult? ==>
      fate.k == |w.results| < |results| && results[fate.k].plan.actions == w.ledger.actions &&
      results[fate.k].execution.outcomes == w.ledger.outcomes
    ensures Attributed(w.(results := results, ledger := w.ledger.(active := false)), Close(bs, fate))
  {
  }

  lemma NextAttributed(name: string, w: World, bs: seq<Batch>, e: Event)
    requires Attributed(w, bs)
    ensures Attributed(Next(name, w, e), NextBatches(bs, w, e))
  {
    match e
    case BeginTick(_, _) =>
      CloseAttributed(w, bs, Discarded, w.results);
    case FinishStep(_) =>
      CloseAttributed(w, bs, InResult(|w.results|), Next(name, w, e).results);
    case _ =>
      WithinTick(name, w, bs, e);
  }

  /** After any run every batch is where its fate says: the open one in the ledger, a finished
      one in a step result of its own. */
  lemma {:induction false} BatchesAttributed(name: string, trace: seq<Event>)
    ensures Attributed(After(name, trace), Batches(name, trace))
  {
    if trace != [] {
      var front := trace[..|trace| - 1];
      BatchesAttributed(name, front);
      NextAttributed(name, After(name, front), Batches(name, front), trace[|trace| - 1]);
    }
  }

  // ---- Every recorded call is in one batch, once ----

  /** Each call lies in at most one place. */
  ghost predicate PlacedOnce(bs: seq<Batch>) {
    forall call: nat, i: nat, j: nat, k: nat, l: nat ::
      Lies(bs, i, j, call) && Lies(bs, k, l, call) ==> i == k && j == l
  }

  lemma CloseLies(bs: seq<Batch>, fate: Fate)
    ensures forall i: nat, j: nat, call: nat :: Lies(Close(bs, fate), i, j, call) <==> Lies(bs, i, j, call)
  {
  }

  lemma OpenLies(bs: seq<Batch>)
    ensures forall i: nat, j: nat, call: nat :: Lies(bs + [Batch([], Pending)], i, j, call) <==> Lies(bs, i, j, call)
  {
  }

  lemma PutLies(bs: seq<Batch>, r: Entry)
    requires bs != []
    ensures forall i: nat, j: nat, call: nat :: Lies(Put(bs, r), i, j, call) <==>
      Lies(bs, i, j, call) || (i == |bs| - 1 && j == |Last(bs).entries| && call == r.0)
  {
  }

  lemma {:induction false} RecordedLies(name: string, trace: seq<Event>)
    ensures PlacedOnce(Batches(name, trace))
    ensures forall call: nat :: Placed(Batches(name, trace), call) <==> SettledCall(After(name, trace), call)
  {
    if trace != [] {
      var front, e := trace[..|trace| - 1], trace[|trace| - 1];
      RecordedLies(name, front);
      WritesAreAccounted(name, front);
      BatchesAttributed(name, front);
      StepLies(name, After(name, front), Batches(name, front), e);
    }
  }

  lemma StepSettled(name: string, w: World, e: Event, call: nat)
    ensures SettledCall(Next(name, w, e), call) <==>
      SettledCall(w, call) || (w.ledger.active && Record(w, e).Some? && Record(w, e).value.0 == call)
  {
    var v := Next(name, w, e);
    if w.ledger.active && Record(w, e).Some? {
      var r := Record(w, e).value;
      assert v.settled == w.settled + [(r.0, w.ledger.tick)];
      assert v.settled[|w.settled|].0 == r.0;
      if k :| 0 <= k < |w.settled| && w.settled[k].0 == call {
        assert v.settled[k].0 == call;
      }
    } else {
      SameSettled(v, w);
    }
  }

  lemma StepLies(name: string, w: World, bs: seq<Batch>, e: Event)
    requires Attributed(w, bs) && Accounted(w) && PlacedOnce(bs)
    requires forall call: nat :: Placed(bs, call) <==> SettledCall(w, call)
    ensures PlacedOnce(NextBatches(bs, w, e))
    ensures forall call: nat :: Placed(NextBatches(bs, w, e), call) <==> SettledCall(Next(name, w, e), call)
  {
    forall call: nat ensures SettledCall(Next(name, w, e), call) <==>
      SettledCall(w, call) || (w.ledger.active && Record(w, e).Some? && Record(w, e).value.0 == call)
    {
      StepSettled(name, w, e, call);
    }
    if e.BeginTick? {
      CloseLies(bs, Discarded);
      OpenLies(Close(bs, Discarded));
      SamePlaced(bs, NextBatches(bs, w, e));
    } else if e.FinishStep? {
      CloseLies(bs, InResult(|w.results|));
      SamePlaced(bs, NextBatches(bs, w, e));
    } else if w.ledger.active && Record(w, e).Some? {
      RecordNew(w, e);
      PutPlaced(bs, Record(w, e).value);
    }
  }

  lemma SamePlaced(bs: seq<Batch>, cs: seq<Batch>)
    requires forall i: nat, j: nat, call: nat :: Lies(cs, i, j, call) <==> Lies(bs, i, j, call)
    ensures PlacedOnce(bs) ==> PlacedOnce(cs)
    ensures forall call: nat :: Placed(cs, call) <==> Placed(bs, call)
  {
  }

  /** A step records no call that is recorded already. */
  lemma RecordNew(w: World, e: Event)
    requires Accounted(w) && Record(w, e).Some?
    ensures !SettledCall(w, Record(w, e).value.0)
  {
  }

  lemma PutPlaced(bs: seq<Batch>, r: Entry)
    requires bs != [] && PlacedOnce(bs) && !Placed(bs, r.0)
    ensures PlacedOnce(Put(bs, r))
    ensures forall call: nat :: Placed(Put(bs, r), call) <==> Placed(bs, call) || call == r.0
  {
    PutLies(bs, r);
    assert Lies(Put(bs, r), |bs| - 1, |Last(bs).entries|, r.0);
    forall call: nat | Placed(bs, call) ensures Placed(Put(bs, r), call) {
      var i: nat, j: nat :| Lies(bs, i, j, call);
      assert Lies(Put(bs, r), i, j, call);
    }
  }

  /** Step `n` recorded the entry: a call that ended there, with the outcome reported there. */
  ghost predicate RecordedAt(name: string, trace: seq<Event>, n: nat, r: Entry) {
    n < |trace| && After(name, trace[..n]).ledger.active && Record(After(name, trace[..n]), trace[n]) == Some(r)
  }

  ghost predicate RecordedSometime(name: string, trace: seq<Event>, r: Entry) {
    exists n: nat :: RecordedAt(name, trace, n, r)
  }

  lemma RecordedStep(name: string, trace: seq<Event>, e: Event, r: Entry)
    requires RecordedSometime(name, trace, r) ||
      (After(name, trace).ledger.active && Record(After(name, trace), e) == Some(r))
    ensures RecordedSometime(name, trace + [e], r)
  {
    var longer := trace + [e];
    if n: nat :| RecordedAt(name, trace, n, r) {
      assert longer[..n] == trace[..n];
      assert RecordedAt(name, longer, n, r);
    } else {
      assert longer[..|trace|] == trace;
      assert RecordedAt(name, longer, |trace|, r);
    }
  }

  lemma {:induction false} SettledStays(name: string, trace: seq<Event>, m: nat, call: nat)
    requires m <= |trace| && SettledCall(After(name, trace[..m]), call)
    ensures SettledCall(After(name, trace), call)
  {
    if m == |trace| {
      assert trace[..m] == trace;
    } else {
      var front := trace[..|trace| - 1];
      assert front[..m] == trace[..m];
      SettledStays(name, front, m, call);
      StepSettled(name, After(name, front), trace[|trace| - 1], call);
    }
  }

  /** A call is recorded at one step only, so with one outcome. */
  lemma RecordedOnce(name: string, trace: seq<Event>, m: nat, r: Entry, n: nat, q: Entry)
    requires RecordedAt(name, trace, m, r) && RecordedAt(name, trace, n, q) && r.0 == q.0
    ensures m == n && r == q
  {
    if m < n {
      RecordedNoMore(name, trace, m, r, n);
    } else if n < m {
      RecordedNoMore(name, trace, n, q, m);
    }
  }

  lemma RecordedNoMore(name: string, trace: seq<Event>, m: nat, r: Entry, n: nat)
    requires RecordedAt(name, trace, m, r) && m < n < |trace|
    ensures forall q: Entry :: Record(After(name, trace[..n]), trace[n]) == Some(q) ==> q.0 != r.0
  {
    assert trace[..m + 1] == trace[..m] + [trace[m]];
    assert trace[..n][..m + 1] == trace[..m + 1];
    StepSettled(name, After(name, trace[..m]), trace[m], r.0);
    SettledStays(name, trace[..n], m + 1, r.0);
    WritesAreAccounted(name, trace[..n]);
    if Record(After(name, trace[..n]), trace[n]).Some? {
      RecordNew(After(name, trace[..n]), trace[n]);
    }
  }

  /** Under every interleaving a call is recorded exactly when it lies in one batch, at one
      position, under the action that was dispatched and with the outcome its completion reported:
      in one step result, in the open ledger, or in a tick that a second begin threw away. */
  lemma {:induction false} RecordedCallsPlaced(name: string, trace: seq<Event>, call: nat)
    ensures var bs := Batches(name, trace);
      (SettledCall(After(name, trace), call) <==> Placed(bs, call)) && PlacedOnce(bs) &&
      forall i: nat, j: nat :: Lies(bs, i, j, call) ==>
        RecordedSometime(name, trace, bs[i].entries[j]) && Dispatched(name, trace, call, bs[i].entries[j].1)
  {
    RecordedLies(name, trace);
    var bs := Batches(name, trace);
    forall i: nat, j: nat | Lies(bs, i, j, call)
      ensures RecordedSometime(name, trace, bs[i].entries[j]) && Dispatched(name, trace, call, bs[i].entries[j].1)
    {
      EntryGenuine(name, trace, i, j);
    }
  }

  lemma OldEntry(w: World, bs: seq<Batch>, e: Event, i: nat, j: nat)
    requires i < |bs| && j < |bs[i].entries|
    ensures var cs := NextBatches(bs, w, e);
      i < |cs| && j < |cs[i].entries| && cs[i].entries[j] == bs[i].entries[j]
  {
  }

  lemma NewEntry(w: World, bs: seq<Batch>, e: Event, i: nat, j: nat)
    requires var cs := NextBatches(bs, w, e); i < |cs| && j < |cs[i].entries|
    requires i < |bs| ==> j >= |bs[i].entries|
    ensures Record(w, e) == Some(NextBatches(bs, w, e)[i].entries[j])
  {
  }

  lemma {:induction false} EntryGenuine(name: string, trace: seq<Event>, i: nat, j: nat)
    requires i < |Batches(name, trace)| && j < |Batches(name, trace)[i].entries|
    ensures var r := Batches(name, trace)[i].entries[j];
      RecordedSometime(name, trace, r) && Dispatched(name, trace, r.0, r.1)
  {
    var front, e := trace[..|trace| - 1], trace[|trace| - 1];
    assert trace == front + [e];
    var bs, r := Batches(name, front), Batches(name, trace)[i].entries[j];
    if i < |bs| && j < |bs[i].entries| {
      OldEntry(After(name, front), bs, e, i, j);
      EntryGenuine(name, front, i, j);
      DispatchedStep(name, front, e, r.0, r.1);
    } else {
      NewEntry(After(name, front), bs, e, i, j);
      BatchesAttributed(name, front);
      RecordDispatched(name, front, e);
    }
    RecordedStep(name, front, e, r);
  }

  /** Whatever lies in a batch under an action that names no pawn is a failure without target; and
      what a completion recorded has the success it reported. */
  lemma EntryOutcome(name: string, trace: seq<Event>, n: nat, r: Entry)
    requires RecordedAt(name, trace, n, r)
    ensures Pawnless(r.1) ==> r.2 == Some(ActionOutcome(r.1.actionType, None, false, r.1.parameters))
    ensures trace[n].ActComplete? ==>
      r.2 == Some(ActionOutcome(r.1.actionType, r.1.target, trace[n].success, r.1.parameters))
  {
    RecordHonest(name, trace[..n], trace[n]);
  }

  // ---- Step results and batches ----

  /** Every finish found a tick open. */
  ghost predicate FinishesOpen(trace: seq<Event>) {
    forall n :: 0 <= n < |trace| && trace[n].FinishStep? ==> !Between(trace[..n])
  }

  ghost predicate Delivered(bs: seq<Batch>, k: nat) { exists i :: 0 <= i < |bs| && bs[i].fate == InResult(k) }

  lemma FinishesOpenStep(trace: seq<Event>, e: Event)
    ensures FinishesOpen(trace + [e]) <==> FinishesOpen(trace) && (e.FinishStep? ==> !Between(trace))
  {
    var longer := trace + [e];
    assert longer[..|trace|] == trace && longer[|trace|] == e;
    forall n | 0 <= n < |trace| ensures longer[..n] == trace[..n] && longer[n] == trace[n] {
    }
  }

  lemma CloseDelivers(bs: seq<Batch>, fate: Fate, k: nat)
    requires !fate.Pending?
    ensures Delivered(Close(bs, fate), k) <==> Delivered(bs, k) || (Unfinished(bs) && fate == InResult(k))
  {
    var cs := Close(bs, fate);
    if i :| 0 <= i < |bs| && bs[i].fate == InResult(k) {
      assert cs[i].fate == InResult(k);
    }
    if Unfinished(bs) {
      assert cs[|bs| - 1].fate == fate;
    }
  }

  lemma StepDelivers(w: World, bs: seq<Batch>, e: Event, k: nat)
    ensures Delivered(NextBatches(bs, w, e), k) <==>
      Delivered(bs, k) || (e.FinishStep? && Unfinished(bs) && k == |w.results|)
  {
    match e
    case BeginTick(_, _) =>
      var cs := Close(bs, Discarded);
      CloseDelivers(bs, Discarded, k);
      if i :| 0 <= i < |cs| && cs[i].fate == InResult(k) {
        assert NextBatches(bs, w, e)[i].fate == InResult(k);
      }
    case FinishStep(_) => CloseDelivers(bs, InResult(|w.results|), k);
    case _ =>
      if i :| 0 <= i < |bs| && bs[i].fate == InResult(k) {
        assert NextBatches(bs, w, e)[i].fate == InResult(k);
      }
  }

  /** Each of the first `n` results reports some batch. */
  ghost predicate AllDelivered(bs: seq<Batch>, n: nat) { forall k: nat :: k < n ==> Delivered(bs, k) }

  lemma AllDeliveredStep(bs: seq<Batch>, cs: seq<Batch>, n: nat, finish: bool, found: bool)
    requires !Delivered(bs, n)
    requires forall k: nat :: Delivered(cs, k) <==> Delivered(bs, k) || (finish && found && k == n)
    ensures AllDelivered(cs, if finish then n + 1 else n) <==> AllDelivered(bs, n) && (finish ==> found)
  {
    if AllDelivered(cs, if finish then n + 1 else n) {
      assert finish ==> Delivered(cs, n);
      forall k: nat | k < n ensures Delivered(bs, k) {
        assert Delivered(cs, k);
      }
    }
  }

  /** Every step result reports a batch of its own exactly when every finish found a tick open,
      as the harness sees to; a finish between ticks packages the old ledger once more. */
  lemma {:induction false} ResultsAreBatches(name: string, trace: seq<Event>)
    ensures AllDelivered(Batches(name, trace), |After(name, trace).results|) <==> FinishesOpen(trace)
  {
    if trace != [] {
      var front, e := trace[..|trace| - 1], trace[|trace| - 1];
      var w, bs := After(name, front), Batches(name, front);
      assert trace == front + [e];
      ResultsAreBatches(name, front);
      FinishesOpenStep(front, e);
      BatchesAttributed(name, front);
      OpenIsActive(name, front);
      forall k: nat ensures Delivered(Batches(name, trace), k) <==>
        Delivered(bs, k) || (e.FinishStep? && Unfinished(bs) && k == |w.results|)
      {
        StepDelivers(w, bs, e, k);
      }
      AllDeliveredStep(bs, Batches(name, trace), |w.results|, e.FinishStep?, Unfinished(bs));
    }
  }
}
