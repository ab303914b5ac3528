/** Cycle states, events, artifacts and the append-only log of one research cycle. */
module CycleEvents {
  import opened Wrappers
  import opened Decisions
  import opened PolicyGateway
  import opened ExecutionReports
  import opened LiveEvents

  datatype State =
    IDLE | OBSERVING | HYPOTHESIZING | SCRUTINIZING | RESEARCHING | AUDITING | DECIDING | REPORTING | ERROR

  const VALID_TRANSITIONS: set<(State, State)> := {
    (IDLE, OBSERVING),
    (OBSERVING, HYPOTHESIZING),
    (HYPOTHESIZING, SCRUTINIZING), (HYPOTHESIZING, IDLE),
    (SCRUTINIZING, RESEARCHING), (SCRUTINIZING, IDLE),
    (RESEARCHING, AUDITING), (RESEARCHING, IDLE),
    (AUDITING, DECIDING), (AUDITING, IDLE),
    (DECIDING, REPORTING), (DECIDING, IDLE),
    (REPORTING, IDLE),
    (IDLE, ERROR), (OBSERVING, ERROR), (HYPOTHESIZING, ERROR), (SCRUTINIZING, ERROR), (RESEARCHING, ERROR),
    (AUDITING, ERROR), (DECIDING, ERROR), (REPORTING, ERROR), (ERROR, ERROR),
    (ERROR, IDLE)
  }

  datatype BudgetKind = Token | Wallclock

  /** Why a cycle stopped early; an executor or price provider failure counts as an agent failure. */
  datatype Halt =
    | AgentFailure(source: string, error: string)
    | BudgetBreach(kind: BudgetKind, tokens: nat, elapsed: real)

  datatype CycleEvent =
    | CycleStarted
    | IdentifierResolved(ticker: string, issuer: Option<string>)
    | AgentInvoked(agent: string, runId: string)
    | AgentSucceeded(agent: string, runId: string, tokenIn: nat, tokenOut: nat)
    | AgentFailed(agent: string, runId: string, error: string)
    | StateTransition(src: State, dst: State)
    | BudgetExceeded(kind: BudgetKind, consumed: int, cap: int)
    | PolicyGatewayApplied(decisionRunId: string, action: DecisionAction, violationCount: nat)
    | BrokerExecuted(decisionRunId: string, status: ExecutionStatus, fillCount: nat, reason: Option<string>)
    | BrokerLive(event: LiveEvent)
    | CycleCompleted(terminal: State, artifactsEmitted: nat, totalTokenIn: nat, totalTokenOut: nat)
    | CycleAborted(halt: Halt, atState: State)

  datatype SkepticVerdict = Proceed | RequireRevision | Kill

  datatype AuditVerdict = Pass | Fail

  datatype Artifacts = Artifacts(
    observer: Option<string>, hypothesis: Option<string>, skeptic: Option<SkepticVerdict>, research: Option<string>,
    backtest: Option<string>, audit: Option<AuditVerdict>, decision: Option<StrategyDecision>,
    feasible: Option<FeasibleAction>, execution: Option<ExecutionReport>)

  const NoArtifacts := Artifacts(None, None, None, None, None, None, None, None, None)

  function One(filled: bool): nat {
    if filled then 1 else 0
  }

  function Count(a: Artifacts): nat {
    One(a.observer.Some?) + One(a.hypothesis.Some?) + One(a.skeptic.Some?) + One(a.research.Some?)
    + One(a.backtest.Some?) + One(a.audit.Some?) + One(a.decision.Some?) + One(a.feasible.Some?)
    + One(a.execution.Some?)
  }

  datatype CycleResult = CycleResult(
    terminal: State, artifacts: Artifacts, aborted: Option<Halt>, totalTokenIn: nat, totalTokenOut: nat)

  class EventLog {
    var events: seq<CycleEvent>

    constructor ()
      ensures events == []
    {
      events := [];
    }

    method Append(e: CycleEvent)
      modifies this
      ensures events == old(events) + [e]
    {
      events := events + [e];
    }
  }

  /** The whitelist machine with the runner's one listener, which logs every accepted move. */
  class OrchestratorStateMachine {
    var state: State
    const listener: EventLog

    constructor (listener: EventLog)
      ensures state == IDLE && this.listener == listener
    {
      state := IDLE;
      this.listener := listener;
    }

    method Transition(target: State) returns (ok: bool)
      modifies this, listener
      ensures ok == ((old(state), target) in VALID_TRANSITIONS)
      ensures state == (if ok then target else old(state))
      ensures listener.events
           == old(listener.events) + (if ok then [StateTransition(old(state), target)] else [])
    {
      if (state, target) !in VALID_TRANSITIONS {
        return false;
      }
      var record := StateTransition(state, target);
      state := target;
      listener.Append(record);
      ok := true;
    }
  }

  // ---- the budget guard ----

  datatype Budget = Budget(tokenCap: nat, wallclockCap: real)

  /** Token breaches are reported first. */
  function Classify(b: Budget, tokens: nat, elapsed: real): Option<BudgetKind> {
    if tokens > b.tokenCap then Some(Token)
    else if elapsed > b.wallclockCap then Some(Wallclock)
    else None
  }

  function BreachEvent(b: Budget, kind: BudgetKind, tokens: nat, elapsed: real): CycleEvent {
    match kind
    case Token => BudgetExceeded(Token, tokens, b.tokenCap)
    case Wallclock => BudgetExceeded(Wallclock, elapsed.Floor, b.wallclockCap.Floor)
  }

  class BudgetGuard {
    const budget: Budget
    const log: EventLog
    var tokensConsumed: nat
    var exceededEmitted: bool

    constructor (budget: Budget, log: EventLog)
      ensures this.budget == budget && this.log == log && tokensConsumed == 0 && !exceededEmitted
    {
      this.budget, this.log := budget, log;
      tokensConsumed, exceededEmitted := 0, false;
    }

    /** None is OK; the first breach, and only the first, is logged. */
    method Check(elapsed: real) returns (status: Option<BudgetKind>)
      modifies this`exceededEmitted, log
      ensures status == Classify(budget, tokensConsumed, elapsed)
      ensures exceededEmitted == (old(exceededEmitted) || status.Some?)
      ensures log.events == old(log.events)
              + (if status.Some? && !old(exceededEmitted)
                 then [BreachEvent(budget, status.value, tokensConsumed, elapsed)]
                 else [])
    {
      status := Classify(budget, tokensConsumed, elapsed);
      if status.Some? && !exceededEmitted {
        exceededEmitted := true;
        log.Append(BreachEvent(budget, status.value, tokensConsumed, elapsed));
      }
    }

    method Consume(tokenIn: nat, tokenOut: nat, elapsed: real) returns (status: Option<BudgetKind>)
      modifies this, log
      ensures tokensConsumed == old(tokensConsumed) + tokenIn + tokenOut
      ensures status == Classify(budget, tokensConsumed, elapsed)
      ensures exceededEmitted == (old(exceededEmitted) || status.Some?)
      ensures log.events == old(log.events)
              + (if status.Some? && !old(exceededEmitted)
                 then [BreachEvent(budget, status.value, tokensConsumed, elapsed)]
                 else [])
    {
      tokensConsumed := tokensConsumed + tokenIn + tokenOut;
      status := Check(elapsed);
    }
  }
}
