/** The per-tick write ledger shared by the tool handlers and the harness. */
module Ledger {
  import opened Values
  import opened Actions
  import opened Coherence

  datatype StepResult = StepResult(plan: ActionPlan, execution: ExecutionResult, turnEnded: bool)

  datatype LedgerState = LedgerState(
    active: bool, tick: int, gameTick: int, actions: seq<Action>, outcomes: seq<ActionOutcome>,
    summary: string, turnDone: bool)

  const IDLE := LedgerState(false, -1, 0, [], [], "", false)

  function Begun(tick: int, gameTick: int): LedgerState {
    LedgerState(true, tick, gameTick, [], [], "", false)
  }

  function Recorded(l: LedgerState, action: Action, outcome: Option<ActionOutcome>): LedgerState {
    if !l.active then l
    else l.(actions := l.actions + [action], outcomes := l.outcomes + Listed(outcome))
  }

  function Listed(outcome: Option<ActionOutcome>): seq<ActionOutcome> {
    if outcome.Some? then [outcome.value] else []
  }

  function TurnEnded(l: LedgerState, summary: string): LedgerState {
    l.(summary := if summary != "" then summary else l.summary, turnDone := true)
  }

  function Packaged(name: string, l: LedgerState): StepResult {
    StepResult(
      ActionPlan(name, l.gameTick, l.actions,
        if l.summary != "" then l.summary else Decimal(|l.actions|) + " tool call(s)", 0.5),
      Tally(l.outcomes), l.turnDone)
  }

  /** A packaged step counts its outcomes, as an executed plan does. */
  lemma PackagedCounts(name: string, l: LedgerState)
    ensures CountsItsOutcomes(Packaged(name, l).execution)
  {
  }

  class TickLedger {
    const harnessName: string
    var active: bool
    var tick: int
    var gameTick: int
    var actions: seq<Action>
    var outcomes: seq<ActionOutcome>
    var summary: string
    var turnDone: bool

    function View(): LedgerState
      reads this
    {
      LedgerState(active, tick, gameTick, actions, outcomes, summary, turnDone)
    }

    constructor (name: string)
      ensures View() == IDLE && harnessName == name
    {
      harnessName := name;
      active, tick, gameTick, actions, outcomes, summary, turnDone := false, -1, 0, [], [], "", false;
    }

    method Begin(tick: int, gameTick: int)
      modifies this
      ensures View() == Begun(tick, gameTick)
    {
      active, this.tick, this.gameTick := true, tick, gameTick;
      actions, outcomes, summary, turnDone := [], [], "", false;
    }

    /** `false` is NoActiveTickError: the write is lost to the ledger. */
    method Record(action: Action, outcome: Option<ActionOutcome>) returns (ok: bool)
      modifies this
      ensures View() == Recorded(old(View()), action, outcome) && ok == old(active)
    {
      if !active {
        return false;
      }
      actions := actions + [action];
      if outcome.Some? {
        outcomes := outcomes + [outcome.value];
      }
      ok := true;
    }

    method EndTurn(text: string)
      modifies this
      ensures View() == TurnEnded(old(View()), text)
    {
      if text != "" {
        summary := text;
      }
      turnDone := true;
    }

    method Finish() returns (step: StepResult)
      modifies this
      ensures View() == old(View()).(active := false)
      ensures step == Packaged(harnessName, old(View()))
    {
      active := false;
      var executed := 0;
      for i := 0 to |outcomes|
        invariant View() == old(View()).(active := false)
        invariant executed == |Executed(outcomes[..i])|
      {
        assert outcomes[..i + 1] == outcomes[..i] + [outcomes[i]];
        ExecutedGrows(outcomes[..i], outcomes[i]);
        if outcomes[i].success {
          executed := executed + 1;
        }
      }
      assert outcomes[..|outcomes|] == outcomes;
      var plan := ActionPlan(harnessName, gameTick, actions,
        if summary != "" then summary else Decimal(|actions|) + " tool call(s)", 0.5);
      step := StepResult(plan, ExecutionResult(executed, |outcomes| - executed, |outcomes|, outcomes), turnDone);
    }
  }
}
