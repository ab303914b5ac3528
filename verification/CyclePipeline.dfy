/** What one research cycle does, as a recursion over its agents. */
module CyclePipeline {
  import opened Wrappers
  import opened Decisions
  import opened PolicyGateway
  import opened ExecutionReports
  import opened Portfolio
  import opened LiveEvents
  import opened CycleEvents

  datatype Agent = Observer | Hypothesis | Skeptic | Research | Auditor | Decider

  const UNKNOWN_ERROR := "unknown error"

  datatype Reply<T> = Output(value: T, tokenIn: nat, tokenOut: nat) | Failure(error: Option<string>)

  datatype Resolution = Resolution(ticker: string, issuer: Option<string>)

  /** A live broker logs its own events; a paper broker leaves that to the runner. */
  datatype Broker =
    | Paper(execute: (FeasibleAction, Prices) -> ExecutionReport)
    | Live(executeLive: (FeasibleAction, Prices) -> (ExecutionReport, seq<LiveEvent>))

  /** Everything outside the runner: what agents, executors and clocks answer in this cycle. */
  datatype Script = Script(
    budget: Budget,
    resolutions: Option<seq<Resolution>>,
    observer: Reply<string>,
    hypothesis: Reply<string>,
    skeptic: Reply<SkepticVerdict>,
    research: Reply<string>,
    backtest: Result<string, string>,
    auditor: Reply<AuditVerdict>,
    decider: Reply<StrategyDecision>,
    gateway: Option<PolicyGatewayConfig>,
    broker: Option<Broker>,
    prices: Option<FeasibleAction -> Result<Prices, string>>,
    runIds: Agent -> string,
    elapsed: Agent -> real)

  /** The decider hands over a validated decision. */
  ghost predicate ValidScript(s: Script) {
    s.decider.Output? ==> WellFormed(s.decider.value)
  }

  function AgentName(a: Agent): string {
    match a
    case Observer => "observer"
    case Hypothesis => "hypothesis"
    case Skeptic => "skeptic"
    case Research => "research"
    case Auditor => "auditor"
    case Decider => "decider"
  }

  function StateOf(a: Agent): State {
    match a
    case Observer => OBSERVING
    case Hypothesis => HYPOTHESIZING
    case Skeptic => SCRUTINIZING
    case Research => RESEARCHING
    case Auditor => AUDITING
    case Decider => DECIDING
  }

  function ErrorText(error: Option<string>): string {
    if error.Some? && error.value != "" then error.value else UNKNOWN_ERROR
  }

  /** What the runner carries through a cycle; the guard has consumed what the totals add up to. */
  datatype Context = Context(state: State, artifacts: Artifacts, tokenIn: nat, tokenOut: nat)

  /** The rest of a cycle: events still to come, and the result. */
  datatype Ending = Ending(events: seq<CycleEvent>, result: CycleResult)

  function Prepend(events: seq<CycleEvent>, rest: Ending): Ending {
    Ending(events + rest.events, rest.result)
  }

  function Abort(c: Context, halt: Halt): Ending {
    Ending([StateTransition(c.state, ERROR), CycleAborted(halt, c.state)],
           CycleResult(ERROR, c.artifacts, Some(halt), c.tokenIn, c.tokenOut))
  }

  function Complete(c: Context, terminal: State): Ending {
    Ending([StateTransition(c.state, IDLE), CycleCompleted(terminal, Count(c.artifacts), c.tokenIn, c.tokenOut)],
           CycleResult(terminal, c.artifacts, None, c.tokenIn, c.tokenOut))
  }

  // ---- one agent ----

  /** A call's events, then the context after it or the halt it ends in. */
  datatype Call = Call(events: seq<CycleEvent>, tokenIn: nat, tokenOut: nat, halt: Option<Halt>)

  function CallAgent<T>(b: Budget, c: Context, name: string, runId: string, reply: Reply<T>, elapsed: real): Call {
    match reply
    case Failure(error) =>
      Call([AgentInvoked(name, runId), AgentFailed(name, runId, ErrorText(error))],
           c.tokenIn, c.tokenOut, Some(AgentFailure(name, ErrorText(error))))
    case Output(_, tokenIn, tokenOut) =>
      var tokens := c.tokenIn + c.tokenOut + tokenIn + tokenOut;
      var answered := [AgentInvoked(name, runId), AgentSucceeded(name, runId, tokenIn, tokenOut)];
      match Classify(b, tokens, elapsed)
      case None => Call(answered, c.tokenIn + tokenIn, c.tokenOut + tokenOut, None)
      case Some(kind) =>
        Call(answered + [BreachEvent(b, kind, tokens, elapsed)], c.tokenIn + tokenIn, c.tokenOut + tokenOut,
             Some(BudgetBreach(kind, tokens, elapsed)))
  }

  function CallOf(s: Script, a: Agent, c: Context): Call {
    var name, runId, elapsed := AgentName(a), s.runIds(a), s.elapsed(a);
    match a
    case Observer => CallAgent(s.budget, c, name, runId, s.observer, elapsed)
    case Hypothesis => CallAgent(s.budget, c, name, runId, s.hypothesis, elapsed)
    case Skeptic => CallAgent(s.budget, c, name, runId, s.skeptic, elapsed)
    case Research => CallAgent(s.budget, c, name, runId, s.research, elapsed)
    case Auditor => CallAgent(s.budget, c, name, runId, s.auditor, elapsed)
    case Decider => CallAgent(s.budget, c, name, runId, s.decider, elapsed)
  }

  /** The agent's output in its slot, when it has one. */
  function WithOutput(s: Script, a: Agent, artifacts: Artifacts): Artifacts {
    match a
    case Observer => if s.observer.Output? then artifacts.(observer := Some(s.observer.value)) else artifacts
    case Hypothesis => if s.hypothesis.Output? then artifacts.(hypothesis := Some(s.hypothesis.value)) else artifacts
    case Skeptic => if s.skeptic.Output? then artifacts.(skeptic := Some(s.skeptic.value)) else artifacts
    case Research => if s.research.Output? then artifacts.(research := Some(s.research.value)) else artifacts
    case Auditor => if s.auditor.Output? then artifacts.(audit := Some(s.auditor.value)) else artifacts
    case Decider => if s.decider.Output? then artifacts.(decision := Some(s.decider.value)) else artifacts
  }

  // ---- the whole cycle ----

  function Order(a: Agent): nat {
    match a
    case Observer => 0
    case Hypothesis => 1
    case Skeptic => 2
    case Research => 3
    case Auditor => 4
    case Decider => 5
  }

  function After(a: Agent): (b: Agent)
    requires a != Decider
    ensures Order(b) == Order(a) + 1
  {
    match a
    case Observer => Hypothesis
    case Hypothesis => Skeptic
    case Skeptic => Research
    case Research => Auditor
    case Auditor => Decider
  }

  /** The cycle from the moment an agent is about to be invoked. */
  ghost function From(s: Script, a: Agent, c: Context): Ending
    requires ValidScript(s)
    decreases 5 - Order(a), 1
  {
    var call := CallOf(s, a, c);
    var c' := c.(tokenIn := call.tokenIn, tokenOut := call.tokenOut);
    Prepend(call.events,
            if call.halt.Some? then Abort(c', call.halt.value)
            else Judged(s, a, c'.(artifacts := WithOutput(s, a, c'.artifacts))))
  }

  /** The cycle from the moment an agent's output was stored: some verdicts end it, an executor may fail it. */
  ghost function Judged(s: Script, a: Agent, c: Context): Ending
    requires ValidScript(s)
    decreases 5 - Order(a), 0
  {
    if a == Decider then Settle(s, c)
    else if (a == Skeptic && c.artifacts.skeptic != Some(Proceed)) || (a == Auditor && c.artifacts.audit != Some(Pass))
    then Complete(c, StateOf(a))
    else if a == Research && s.backtest.Err? then Abort(c, AgentFailure("backtest_executor", s.backtest.error))
    else
      var b := After(a);
      var c' := if a == Research then c.(artifacts := c.artifacts.(backtest := Some(s.backtest.value))) else c;
      Prepend([StateTransition(c.state, StateOf(b))], From(s, b, c'.(state := StateOf(b))))
  }

  /** Gateway and broker, each optional, then completion. */
  ghost function Settle(s: Script, c: Context): Ending
    requires ValidScript(s)
  {
    if s.gateway.None? || s.decider.Failure? then Complete(c, DECIDING)
    else
      var action := ApplyPolicyGateway(s.decider.value, s.gateway.value);
      var c' := c.(artifacts := c.artifacts.(feasible := Some(action)));
      Prepend([PolicyGatewayApplied(s.decider.value.runId, action.action, |action.violations|)],
              Trade(s, c', action))
  }

  function LiveEventsOf(events: seq<LiveEvent>): seq<CycleEvent> {
    seq(|events|, i requires 0 <= i < |events| => BrokerLive(events[i]))
  }

  function Executed(b: Broker, action: FeasibleAction, prices: Prices): (ExecutionReport, seq<CycleEvent>) {
    match b
    case Paper(execute) =>
      var report := execute(action, prices);
      (report, [BrokerExecuted(action.sourceDecisionRunId, report.status, |report.fills|, report.reason)])
    case Live(execute) =>
      var (report, events) := execute(action, prices);
      (report, LiveEventsOf(events))
  }

  function Trade(s: Script, c: Context, action: FeasibleAction): Ending {
    if s.broker.None? || s.prices.None? then Complete(c, DECIDING)
    else
      match s.prices.value(action)
      case Err(error) => Abort(c, AgentFailure("price_provider", error))
      case Ok(prices) =>
        var (report, events) := Executed(s.broker.value, action, prices);
        Prepend(events, Complete(c.(artifacts := c.artifacts.(execution := Some(report))), DECIDING))
  }

  function Resolved(resolutions: seq<Resolution>): seq<CycleEvent> {
    seq(|resolutions|, i requires 0 <= i < |resolutions| =>
      IdentifierResolved(resolutions[i].ticker, resolutions[i].issuer))
  }

  function Opening(s: Script): seq<CycleEvent> {
    [CycleStarted, StateTransition(IDLE, OBSERVING)]
    + (if s.resolutions.Some? then Resolved(s.resolutions.value) else [])
  }

  ghost function Cycle(s: Script): Ending
    requires ValidScript(s)
  {
    Prepend(Opening(s), From(s, Observer, Context(OBSERVING, NoArtifacts, 0, 0)))
  }
}
