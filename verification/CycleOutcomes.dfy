/** How a cycle ends, told from what its agents and executors answer: who ran, what was stored, what was traded. */
module CycleOutcomes {
  import opened Wrappers
  import opened Decisions
  import opened PolicyGateway
  import opened ExecutionReports
  import opened Portfolio
  import opened LiveEvents
  import opened CycleEvents
  import opened CyclePipeline
  import opened CycleTraces
  import Seqs

  // ---- what the agents answer ----

  function ValueOf<T>(r: Reply<T>): Option<T> {
    if r.Output? then Some(r.value) else None
  }

  function ErrorOf<T>(r: Reply<T>): Option<string> {
    if r.Output? then None
    else if r.error.Some? && r.error.value != "" then r.error
    else Some("unknown error")
  }

  function SpentBy<T>(r: Reply<T>): (nat, nat) {
    if r.Output? then (r.tokenIn, r.tokenOut) else (0, 0)
  }

  /** The agents in the order of the pipeline. */
  const AGENTS := [Observer, Hypothesis, Skeptic, Research, Auditor, Decider]

  const NAMES := ["observer", "hypothesis", "skeptic", "research", "auditor", "decider"]

  /** Where an agent stands. */
  function Place(a: Agent): (n: nat)
    ensures n < 6 && AGENTS[n] == a
  {
    match a
    case Observer => 0
    case Hypothesis => 1
    case Skeptic => 2
    case Research => 3
    case Auditor => 4
    case Decider => 5
  }

  function SpentOf(s: Script, a: Agent): (nat, nat) {
    match a
    case Observer => SpentBy(s.observer)
    case Hypothesis => SpentBy(s.hypothesis)
    case Skeptic => SpentBy(s.skeptic)
    case Research => SpentBy(s.research)
    case Auditor => SpentBy(s.auditor)
    case Decider => SpentBy(s.decider)
  }

  /** Tokens in and out of the first n agents. */
  function Spent(s: Script, n: nat): (nat, nat)
    requires n <= 6
  {
    if n == 0 then (0, 0)
    else
      var (i, o) := SpentOf(s, AGENTS[n - 1]);
      (Spent(s, n - 1).0 + i, Spent(s, n - 1).1 + o)
  }

  /** The agent's own error text, when it failed. */
  function FailureOf(s: Script, a: Agent): Option<string> {
    match a
    case Observer => ErrorOf(s.observer)
    case Hypothesis => ErrorOf(s.hypothesis)
    case Skeptic => ErrorOf(s.skeptic)
    case Research => ErrorOf(s.research)
    case Auditor => ErrorOf(s.auditor)
    case Decider => ErrorOf(s.decider)
  }

  /** The halt that a call ends in: the agent's failure, too many tokens so far, or too much time, in that order. */
  function HaltOf(s: Script, a: Agent): Option<Halt> {
    var (i, o) := Spent(s, Place(a) + 1);
    if FailureOf(s, a).Some? then Some(AgentFailure(NAMES[Place(a)], FailureOf(s, a).value))
    else if i + o > s.budget.tokenCap then Some(BudgetBreach(Token, i + o, s.elapsed(a)))
    else if s.elapsed(a) > s.budget.wallclockCap then Some(BudgetBreach(Wallclock, i + o, s.elapsed(a)))
    else None
  }

  /** The cycle goes on after this agent. */
  predicate Passes(s: Script, a: Agent) {
    && HaltOf(s, a).None? && a != Decider
    && (a == Skeptic ==> ValueOf(s.skeptic) == Some(Proceed))
    && (a == Auditor ==> ValueOf(s.auditor) == Some(Pass))
    && (a == Research ==> s.backtest.Ok?)
  }

  /** Every earlier agent lets the cycle go on. */
  predicate Reached(s: Script, a: Agent) {
    forall b: Agent :: Place(b) < Place(a) ==> Passes(s, b)
  }

  /** The agent at which the cycle ends. */
  predicate EndsAt(s: Script, a: Agent) {
    Reached(s, a) && !Passes(s, a)
  }

  // ---- what the result says ----

  /** The answers of the first n agents are stored as they were given, and the backtest once research is done. */
  predicate Stored(s: Script, x: Artifacts, n: nat, backtested: bool) {
    && x.observer == (if n > 0 then ValueOf(s.observer) else None)
    && x.hypothesis == (if n > 1 then ValueOf(s.hypothesis) else None)
    && x.skeptic == (if n > 2 then ValueOf(s.skeptic) else None)
    && x.research == (if n > 3 then ValueOf(s.research) else None)
    && x.backtest == (if backtested && s.backtest.Ok? then Some(s.backtest.value) else None)
    && x.audit == (if n > 4 then ValueOf(s.auditor) else None)
    && x.decision == (if n > 5 then ValueOf(s.decider) else None)
  }

  predicate IsTrade(e: CycleEvent) {
    e.PolicyGatewayApplied? || e.BrokerExecuted? || e.BrokerLive?
  }

  ghost predicate NoTrade(events: seq<CycleEvent>) {
    forall e <- events :: !IsTrade(e)
  }

  /** What the broker itself answers, and what it has logged by then: its own events, or one on its behalf. */
  ghost predicate Answers(b: Broker, action: FeasibleAction, prices: Prices, report: ExecutionReport,
                          told: seq<CycleEvent>) {
    match b
    case Paper(execute) =>
      && report == execute(action, prices)
      && told == [BrokerExecuted(action.sourceDecisionRunId, report.status, |report.fills|, report.reason)]
    case Live(execute) =>
      var (r, own) := execute(action, prices);
      report == r && |told| == |own| && forall i :: 0 <= i < |own| ==> told[i] == BrokerLive(own[i])
  }

  /** From a stored decision on: the gateway's projection, the broker's answer to it, and what was logged of both. */
  ghost predicate Settled(s: Script, decision: StrategyDecision, events: seq<CycleEvent>, r: CycleResult)
    requires WellFormed(decision)
  {
    match s.gateway
    case None => r.artifacts.feasible.None? && r.artifacts.execution.None? && CompletesWith(events, [], r)
    case Some(config) =>
      var action := ApplyPolicyGateway(decision, config);
      var applied := PolicyGatewayApplied(decision.runId, action.action, |action.violations|);
      r.artifacts.feasible == Some(action) && Executes(s, action, applied, events, r)
  }

  /** The broker's part: its own answer at the provider's prices when both are there, an abort without prices. */
  ghost predicate Executes(s: Script, action: FeasibleAction, applied: CycleEvent, events: seq<CycleEvent>,
                           r: CycleResult) {
    if s.broker.None? || s.prices.None? then r.artifacts.execution.None? && CompletesWith(events, [applied], r)
    else
      match s.prices.value(action)
      case Err(error) =>
        && r.artifacts.execution.None? && r.terminal == ERROR
        && r.aborted == Some(AgentFailure("price_provider", error)) && EndsWith(events, [applied], 2)
      case Ok(prices) =>
        && r.artifacts.execution.Some?
        && exists told :: Answers(s.broker.value, action, prices, r.artifacts.execution.value, told)
                          && CompletesWith(events, [applied] + told, r)
  }

  /** The events end with these about trading, followed by that many about closing, and no others are about trading. */
  ghost predicate EndsWith(events: seq<CycleEvent>, traded: seq<CycleEvent>, closing: nat) {
    && |events| >= |traded| + closing
    && var from, to := |events| - closing - |traded|, |events| - closing;
       events[from..to] == traded && NoTrade(events[..from]) && NoTrade(events[to..])
  }

  ghost predicate CompletesWith(events: seq<CycleEvent>, traded: seq<CycleEvent>, r: CycleResult) {
    r.terminal == DECIDING && r.aborted.None? && EndsWith(events, traded, 2)
  }

  /** What a cycle that ends at this agent comes to. */
  ghost predicate Comes(s: Script, a: Agent, events: seq<CycleEvent>, r: CycleResult)
    requires ValidScript(s)
  {
    var n := if HaltOf(s, a).None? then Place(a) + 1 else Place(a);
    && Stored(s, r.artifacts, n, n > 3)
    && (r.totalTokenIn, r.totalTokenOut) == Spent(s, Place(a) + 1)
    && if HaltOf(s, a).Some? then Stops(events, r) && r.terminal == ERROR && r.aborted == HaltOf(s, a)
       else if a == Decider then s.decider.Output? && Settled(s, s.decider.value, events, r)
       else if a == Research then
         && Stops(events, r) && r.terminal == ERROR
         && s.backtest.Err? && r.aborted == Some(AgentFailure("backtest_executor", s.backtest.error))
       else Stops(events, r) && r.aborted.None? && r.terminal == if a == Skeptic then SCRUTINIZING else AUDITING
  }

  ghost predicate Stops(events: seq<CycleEvent>, r: CycleResult) {
    NoTrade(events) && r.artifacts.feasible.None? && r.artifacts.execution.None?
  }

  // ---- events in front ----

  lemma NoTradeBoth(a: seq<CycleEvent>, b: seq<CycleEvent>)
    requires NoTrade(a) && NoTrade(b)
    ensures NoTrade(a + b)
  {
  }

  lemma EndsWithInFront(pre: seq<CycleEvent>, events: seq<CycleEvent>, traded: seq<CycleEvent>, closing: nat)
    requires NoTrade(pre) && EndsWith(events, traded, closing)
    ensures EndsWith(pre + events, traded, closing)
  {
    var from, to := |events| - closing - |traded|, |events| - closing;
    var all := pre + events;
    assert all[|pre| + from..|pre| + to] == events[from..to];
    assert all[..|pre| + from] == pre + events[..from];
    assert all[|pre| + to..] == events[to..];
  }

  lemma EndsWithParts(traded: seq<CycleEvent>, closing: seq<CycleEvent>)
    requires NoTrade(closing)
    ensures EndsWith(traded + closing, traded, |closing|)
  {
    var all := traded + closing;
    assert all[0..|traded|] == traded && all[..0] == [] && all[|traded|..] == closing;
  }

  lemma SettledInFront(s: Script, decision: StrategyDecision, pre: seq<CycleEvent>, events: seq<CycleEvent>,
                       r: CycleResult)
    requires WellFormed(decision) && NoTrade(pre) && Settled(s, decision, events, r)
    ensures Settled(s, decision, pre + events, r)
  {
    if s.gateway.None? {
      EndsWithInFront(pre, events, [], 2);
    } else {
      var action := ApplyPolicyGateway(decision, s.gateway.value);
      ExecutesInFront(s, action, PolicyGatewayApplied(decision.runId, action.action, |action.violations|), pre,
                      events, r);
    }
  }

  lemma ExecutesInFront(s: Script, action: FeasibleAction, applied: CycleEvent, pre: seq<CycleEvent>,
                        events: seq<CycleEvent>, r: CycleResult)
    requires NoTrade(pre) && Executes(s, action, applied, events, r)
    ensures Executes(s, action, applied, pre + events, r)
  {
    if s.broker.None? || s.prices.None? || s.prices.value(action).Err? {
      EndsWithInFront(pre, events, [applied], 2);
    } else {
      var told :| Answers(s.broker.value, action, s.prices.value(action).value, r.artifacts.execution.value, told)
                  && CompletesWith(events, [applied] + told, r);
      EndsWithInFront(pre, events, [applied] + told, 2);
    }
  }

  lemma ComesInFront(s: Script, a: Agent, pre: seq<CycleEvent>, events: seq<CycleEvent>, r: CycleResult)
    requires ValidScript(s) && NoTrade(pre) && Comes(s, a, events, r)
    ensures Comes(s, a, pre + events, r)
  {
    if HaltOf(s, a).None? && a == Decider {
      SettledInFront(s, s.decider.value, pre, events, r);
    } else {
      NoTradeBoth(pre, events);
    }
  }

  // ---- the recursion comes to that ----

  lemma TradeExecutes(s: Script, c: Context, action: FeasibleAction, applied: CycleEvent)
    requires c.state == DECIDING && c.artifacts.execution.None?
    ensures var ending := Trade(s, c, action);
            && Executes(s, action, applied, [applied] + ending.events, ending.result)
            && ending.result.artifacts == c.artifacts.(execution := ending.result.artifacts.execution)
            && ending.result.totalTokenIn == c.tokenIn && ending.result.totalTokenOut == c.tokenOut
  {
    if s.broker.None? || s.prices.None? || s.prices.value(action).Err? {
      UnpricedExecutes(s, c, action, applied, Trade(s, c, action));
    } else {
      var prices := s.prices.value(action).value;
      var (report, told) := Executed(s.broker.value, action, prices);
      ExecutedAnswers(s.broker.value, action, prices);
      PricedExecutes(s, c, action, applied, prices, report, told, Trade(s, c, action));
    }
  }

  lemma UnpricedExecutes(s: Script, c: Context, action: FeasibleAction, applied: CycleEvent, ending: Ending)
    requires c.state == DECIDING && c.artifacts.execution.None? && ending == Trade(s, c, action)
    requires s.broker.None? || s.prices.None? || s.prices.value(action).Err?
    ensures Executes(s, action, applied, [applied] + ending.events, ending.result)
  {
    assert NoTrade(ending.events) && |ending.events| == 2;
    EndsWithParts([applied], ending.events);
  }

  lemma PricedExecutes(s: Script, c: Context, action: FeasibleAction, applied: CycleEvent, prices: Prices,
                       report: ExecutionReport, told: seq<CycleEvent>, ending: Ending)
    requires s.broker.Some? && s.prices.Some? && s.prices.value(action) == Ok(prices)
    requires Answers(s.broker.value, action, prices, report, told)
    requires ending == Prepend(told, Complete(c.(artifacts := c.artifacts.(execution := Some(report))), DECIDING))
    ensures Executes(s, action, applied, [applied] + ending.events, ending.result)
  {
    ExecutedCompletes(c, report, applied, told, ending);
    assert ending.result.artifacts.execution == Some(report);
  }

  lemma ExecutedCompletes(c: Context, report: ExecutionReport, applied: CycleEvent, told: seq<CycleEvent>,
                          ending: Ending)
    requires ending == Prepend(told, Complete(c.(artifacts := c.artifacts.(execution := Some(report))), DECIDING))
    ensures CompletesWith([applied] + ending.events, [applied] + told, ending.result)
  {
    var closing := Complete(c.(artifacts := c.artifacts.(execution := Some(report))), DECIDING).events;
    EndsWithParts([applied] + told, closing);
    Seqs.Assoc([applied], told, closing);
  }

  lemma ExecutedAnswers(b: Broker, action: FeasibleAction, prices: Prices)
    ensures var (report, told) := Executed(b, action, prices); Answers(b, action, prices, report, told)
  {
  }

  lemma SettleSettles(s: Script, c: Context)
    requires ValidScript(s) && s.decider.Output? && c.state == DECIDING
    requires c.artifacts.feasible.None? && c.artifacts.execution.None?
    ensures var ending := Settle(s, c);
            var (x, y) := (c.artifacts, ending.result.artifacts);
            && Settled(s, s.decider.value, ending.events, ending.result)
            && y == x.(feasible := y.feasible, execution := y.execution)
            && ending.result.totalTokenIn == c.tokenIn && ending.result.totalTokenOut == c.tokenOut
  {
    if s.gateway.None? {
      var closing := Complete(c, DECIDING).events;
      EndsWithParts([], closing);
      assert [] + closing == closing;
    } else {
      var action := ApplyPolicyGateway(s.decider.value, s.gateway.value);
      TradeExecutes(s, c.(artifacts := c.artifacts.(feasible := Some(action))), action,
                    PolicyGatewayApplied(s.decider.value.runId, action.action, |action.violations|));
    }
  }

  lemma CallComes(s: Script, a: Agent, c: Context)
    requires (c.tokenIn, c.tokenOut) == Spent(s, Place(a))
    ensures var call := CallOf(s, a, c);
            && call.halt == HaltOf(s, a) && (call.tokenIn, call.tokenOut) == Spent(s, Place(a) + 1)
            && NoTrade(call.events)
  {
    CallReplies(s, a, c);
  }

  lemma CallReplies(s: Script, a: Agent, c: Context)
    ensures Replies(CallOf(s, a, c), s.budget, c, NAMES[Place(a)], FailureOf(s, a), SpentOf(s, a), s.elapsed(a))
  {
    var name, runId, elapsed := AgentName(a), s.runIds(a), s.elapsed(a);
    match a
    case Observer => ReplyComes(s.budget, c, name, runId, s.observer, elapsed);
    case Hypothesis => ReplyComes(s.budget, c, name, runId, s.hypothesis, elapsed);
    case Skeptic => ReplyComes(s.budget, c, name, runId, s.skeptic, elapsed);
    case Research => ReplyComes(s.budget, c, name, runId, s.research, elapsed);
    case Auditor => ReplyComes(s.budget, c, name, runId, s.auditor, elapsed);
    case Decider => ReplyComes(s.budget, c, name, runId, s.decider, elapsed);
  }

  /** What a call comes to, told from the failure, the tokens and the time of the reply. */
  ghost predicate Replies(call: Call, b: Budget, c: Context, name: string, failure: Option<string>, spent: (nat, nat),
                          elapsed: real) {
    var i, o := c.tokenIn + spent.0, c.tokenOut + spent.1;
    && call.tokenIn == i && call.tokenOut == o && NoTrade(call.events)
    && call.halt == if failure.Some? then Some(AgentFailure(name, failure.value))
                    else if i + o > b.tokenCap then Some(BudgetBreach(Token, i + o, elapsed))
                    else if elapsed > b.wallclockCap then Some(BudgetBreach(Wallclock, i + o, elapsed))
                    else None
  }

  lemma ReplyComes<T>(b: Budget, c: Context, name: string, runId: string, reply: Reply<T>, elapsed: real)
    ensures Replies(CallAgent(b, c, name, runId, reply, elapsed), b, c, name, ErrorOf(reply), SpentBy(reply), elapsed)
  {
  }

  /** A context before an agent's call: what earlier agents said, nothing of trading yet. */
  ghost predicate Ready(s: Script, a: Agent, c: Context) {
    && c.state == StateOf(a) && (c.tokenIn, c.tokenOut) == Spent(s, Place(a))
    && Stored(s, c.artifacts, Place(a), Place(a) > 3)
    && c.artifacts.feasible.None? && c.artifacts.execution.None?
  }

  /** A context after an agent's answer was stored. */
  ghost predicate Heard(s: Script, a: Agent, c: Context) {
    && c.state == StateOf(a) && (c.tokenIn, c.tokenOut) == Spent(s, Place(a) + 1)
    && Stored(s, c.artifacts, Place(a) + 1, Place(a) > 3)
    && c.artifacts.feasible.None? && c.artifacts.execution.None?
  }

  lemma OutputStored(s: Script, a: Agent, c: Context, c': Context)
    requires Ready(s, a, c) && HaltOf(s, a).None?
    requires (c'.tokenIn, c'.tokenOut) == Spent(s, Place(a) + 1)
    requires c' == c.(tokenIn := c'.tokenIn, tokenOut := c'.tokenOut, artifacts := WithOutput(s, a, c.artifacts))
    ensures Heard(s, a, c')
  {
  }

  lemma {:induction false} FromComes(s: Script, a: Agent, c: Context, last: Agent)
    requires ValidScript(s) && Ready(s, a, c) && EndsAt(s, last) && Place(a) <= Place(last)
    ensures Comes(s, last, From(s, a, c).events, From(s, a, c).result)
    decreases 5 - Order(a), 1
  {
    var call := CallOf(s, a, c);
    var c' := c.(tokenIn := call.tokenIn, tokenOut := call.tokenOut);
    CallComes(s, a, c);
    if call.halt.Some? {
      assert a == last;
      NoTradeBoth(call.events, Abort(c', call.halt.value).events);
    } else {
      var c'' := c'.(artifacts := WithOutput(s, a, c'.artifacts));
      OutputStored(s, a, c, c'');
      JudgedComes(s, a, c'', last);
      ComesInFront(s, last, call.events, Judged(s, a, c'').events, Judged(s, a, c'').result);
    }
  }

  lemma {:induction false} JudgedComes(s: Script, a: Agent, c: Context, last: Agent)
    requires ValidScript(s) && Heard(s, a, c) && HaltOf(s, a).None? && EndsAt(s, last) && Place(a) <= Place(last)
    ensures Comes(s, last, Judged(s, a, c).events, Judged(s, a, c).result)
    decreases 5 - Order(a), 0
  {
    if a == Decider {
      SettleSettles(s, c);
    } else if Passes(s, a) {
      assert Place(a) < Place(last);
      var b := After(a);
      var c' := if a == Research then c.(artifacts := c.artifacts.(backtest := Some(s.backtest.value))) else c;
      var c'' := c'.(state := StateOf(b));
      HeardIsReady(s, a, c, c'');
      JudgedGoesOn(s, a, c, b, c'');
      FromComes(s, b, c'', last);
      ComesInFront(s, last, [StateTransition(c.state, StateOf(b))], From(s, b, c'').events, From(s, b, c'').result);
    } else {
      assert a == last;
      StopsHere(s, a, c);
    }
  }

  lemma JudgedGoesOn(s: Script, a: Agent, c: Context, b: Agent, c': Context)
    requires ValidScript(s) && Heard(s, a, c) && Passes(s, a) && b == After(a)
    requires c' == c.(state := StateOf(b), artifacts :=
                        if a == Research then c.artifacts.(backtest := Some(s.backtest.value)) else c.artifacts)
    ensures Judged(s, a, c) == Prepend([StateTransition(c.state, StateOf(b))], From(s, b, c'))
  {
  }

  lemma HeardIsReady(s: Script, a: Agent, c: Context, c': Context)
    requires Heard(s, a, c) && Passes(s, a)
    requires c' == c.(state := StateOf(After(a)), artifacts :=
                        if a == Research then c.artifacts.(backtest := Some(s.backtest.value)) else c.artifacts)
    ensures Ready(s, After(a), c')
  {
  }

  /** The verdict on an answer, or the backtest after it, ends the cycle. */
  lemma StopsHere(s: Script, a: Agent, c: Context)
    requires ValidScript(s) && Heard(s, a, c) && HaltOf(s, a).None? && !Passes(s, a) && a != Decider
    ensures Comes(s, a, Judged(s, a, c).events, Judged(s, a, c).result)
  {
  }

  /** Exactly one agent is the one at which the cycle ends. */
  lemma SomeAgentEnds(s: Script) returns (a: Agent)
    ensures EndsAt(s, a) && forall b :: EndsAt(s, b) ==> b == a
  {
    if !Passes(s, Observer) {
      a := Observer;
    } else if !Passes(s, Hypothesis) {
      a := Hypothesis;
    } else if !Passes(s, Skeptic) {
      a := Skeptic;
    } else if !Passes(s, Research) {
      a := Research;
    } else if !Passes(s, Auditor) {
      a := Auditor;
    } else {
      a := Decider;
    }
  }

  /** A cycle comes to what its agents, gateway, prices and broker answer, up to the agent at which it ends. */
  lemma CycleComesTo(s: Script, a: Agent)
    requires ValidScript(s) && EndsAt(s, a)
    ensures Comes(s, a, Cycle(s).events, Cycle(s).result)
  {
    var c := Context(OBSERVING, NoArtifacts, 0, 0);
    FromComes(s, Observer, c, a);
    OpeningIsQuiet(s);
    ComesInFront(s, a, Opening(s), From(s, Observer, c).events, From(s, Observer, c).result);
  }

  // ---- the moves ----

  /** How far along the pipeline a state is; ERROR is off it. */
  function Stage(state: State): nat {
    match state
    case IDLE => 0
    case OBSERVING => 1
    case HYPOTHESIZING => 2
    case SCRUTINIZING => 3
    case RESEARCHING => 4
    case AUDITING => 5
    case DECIDING => 6
    case REPORTING => 7
    case ERROR => 9
  }

  /** The machine moves one state on, to ERROR from anywhere, and back to IDLE from all but the first two states. */
  lemma MovesAllowed(src: State, dst: State)
    ensures (src, dst) in VALID_TRANSITIONS
       <==> dst == ERROR || Stage(dst) == Stage(src) + 1 || (dst == IDLE && src != IDLE && src != OBSERVING)
  {
    match src
    case ERROR => assert (src, dst) in VALID_TRANSITIONS <==> dst == ERROR || dst == IDLE;
    case IDLE => assert (src, dst) in VALID_TRANSITIONS <==> dst == ERROR || dst == OBSERVING;
    case _ =>
  }

  // ---- what was logged ----

  /** Anything but trading. */
  predicate IsOwn(e: CycleEvent) {
    !IsTrade(e)
  }

  const STATES := [OBSERVING, HYPOTHESIZING, SCRUTINIZING, RESEARCHING, AUDITING, DECIDING]

  /** What the log has of an agent: it was invoked, what it answered or why it failed, and the budget if it broke. */
  function Logged(s: Script, a: Agent): seq<CycleEvent> {
    var name, id, failure, spent := NAMES[Place(a)], s.runIds(a), FailureOf(s, a), SpentOf(s, a);
    [AgentInvoked(name, id)]
    + [if failure.Some? then AgentFailed(name, id, failure.value) else AgentSucceeded(name, id, spent.0, spent.1)]
    + (if failure.Some? || HaltOf(s, a).None? then []
       else
         var (i, o) := Spent(s, Place(a) + 1);
         [if HaltOf(s, a).value.kind == Token then BudgetExceeded(Token, i + o, s.budget.tokenCap)
          else BudgetExceeded(Wallclock, s.elapsed(a).Floor, s.budget.wallclockCap.Floor)])
  }

  /** The move out of the state the cycle ended in, and the verdict on it. */
  function ClosingOf(r: CycleResult, last: nat): seq<CycleEvent>
    requires last < 6
  {
    if r.aborted.Some? then [StateTransition(STATES[last], ERROR), CycleAborted(r.aborted.value, STATES[last])]
    else
      [StateTransition(STATES[last], IDLE),
       CycleCompleted(r.terminal, Count(r.artifacts), r.totalTokenIn, r.totalTokenOut)]
  }

  /** What the log has from one agent up to the last one: their calls, the moves between them, and the closing. */
  function LoggedFrom(s: Script, from: nat, last: nat, closing: seq<CycleEvent>): seq<CycleEvent>
    requires from <= last < 6
    decreases last - from
  {
    Logged(s, AGENTS[from]) + MovedOn(s, from, last, closing)
  }

  /** The same once the first of them has answered. */
  function MovedOn(s: Script, from: nat, last: nat, closing: seq<CycleEvent>): seq<CycleEvent>
    requires from <= last < 6
    decreases last - from, 0
  {
    if from == last then closing
    else [StateTransition(STATES[from], STATES[from + 1])] + LoggedFrom(s, from + 1, last, closing)
  }

  /** What a call logs, told from the failure, the tokens and the halt. */
  ghost predicate Logs(events: seq<CycleEvent>, b: Budget, name: string, id: string, failure: Option<string>,
                       spent: (nat, nat), total: nat, halt: Option<Halt>, elapsed: real) {
    events
    == [AgentInvoked(name, id)]
       + [if failure.Some? then AgentFailed(name, id, failure.value) else AgentSucceeded(name, id, spent.0, spent.1)]
       + (if failure.Some? || halt.None? then []
          else [if halt == Some(BudgetBreach(Token, total, elapsed)) then BudgetExceeded(Token, total, b.tokenCap)
                else BudgetExceeded(Wallclock, elapsed.Floor, b.wallclockCap.Floor)])
  }

  lemma ReplyLogs<T>(b: Budget, c: Context, name: string, runId: string, reply: Reply<T>, elapsed: real)
    ensures var call := CallAgent(b, c, name, runId, reply, elapsed);
            Logs(call.events, b, name, runId, ErrorOf(reply), SpentBy(reply), call.tokenIn + call.tokenOut, call.halt,
                 elapsed)
  {
  }

  lemma CallLogs(s: Script, a: Agent, c: Context)
    requires (c.tokenIn, c.tokenOut) == Spent(s, Place(a))
    ensures CallOf(s, a, c).events == Logged(s, a)
  {
    var name, runId, elapsed := AgentName(a), s.runIds(a), s.elapsed(a);
    CallComes(s, a, c);
    match a
    case Observer => ReplyLogs(s.budget, c, name, runId, s.observer, elapsed);
    case Hypothesis => ReplyLogs(s.budget, c, name, runId, s.hypothesis, elapsed);
    case Skeptic => ReplyLogs(s.budget, c, name, runId, s.skeptic, elapsed);
    case Research => ReplyLogs(s.budget, c, name, runId, s.research, elapsed);
    case Auditor => ReplyLogs(s.budget, c, name, runId, s.auditor, elapsed);
    case Decider => ReplyLogs(s.budget, c, name, runId, s.decider, elapsed);
  }

  lemma OwnThen(own: seq<CycleEvent>, rest: seq<CycleEvent>)
    requires NoTrade(own)
    ensures Seqs.Filter(own + rest, IsOwn) == own + Seqs.Filter(rest, IsOwn)
  {
    Seqs.FilterAppend(own, rest, IsOwn);
    Seqs.FilterAll(own, IsOwn);
  }

  lemma TradesThen(trades: seq<CycleEvent>, rest: seq<CycleEvent>)
    requires forall e <- trades :: IsTrade(e)
    ensures Seqs.Filter(trades + rest, IsOwn) == Seqs.Filter(rest, IsOwn)
  {
    Seqs.FilterAppend(trades, rest, IsOwn);
    Seqs.FilterNone(trades, IsOwn);
  }

  /** The log of an ending is that of its result, closed from the state of the last agent. */
  ghost predicate Closes(ending: Ending, last: Agent) {
    Seqs.Filter(ending.events, IsOwn) == ClosingOf(ending.result, Place(last))
  }

  lemma StatesInOrder(a: Agent)
    ensures STATES[Place(a)] == StateOf(a) && (a != Decider ==> STATES[Place(a) + 1] == StateOf(After(a)))
    ensures a != Decider ==> Place(After(a)) == Place(a) + 1
  {
  }

  lemma AbortCloses(c: Context, halt: Halt, last: Agent)
    requires c.state == StateOf(last)
    ensures Closes(Abort(c, halt), last)
  {
    StatesInOrder(last);
    Seqs.FilterAll(Abort(c, halt).events, IsOwn);
  }

  lemma CompleteCloses(c: Context, terminal: State, last: Agent)
    requires c.state == StateOf(last)
    ensures Closes(Complete(c, terminal), last)
  {
    StatesInOrder(last);
    Seqs.FilterAll(Complete(c, terminal).events, IsOwn);
  }

  lemma TradeCloses(s: Script, c: Context, action: FeasibleAction)
    requires c.state == DECIDING
    ensures Closes(Trade(s, c, action), Decider)
  {
    if s.broker.None? || s.prices.None? {
      CompleteCloses(c, DECIDING, Decider);
    } else {
      match s.prices.value(action)
      case Err(error) => AbortCloses(c, AgentFailure("price_provider", error), Decider);
      case Ok(prices) =>
        var (report, events) := Executed(s.broker.value, action, prices);
        var c' := c.(artifacts := c.artifacts.(execution := Some(report)));
        ExecutedTrades(s.broker.value, action, prices);
        CompleteCloses(c', DECIDING, Decider);
        TradesThen(events, Complete(c', DECIDING).events);
    }
  }

  lemma ExecutedTrades(b: Broker, action: FeasibleAction, prices: Prices)
    ensures forall e <- Executed(b, action, prices).1 :: IsTrade(e)
  {
  }

  lemma SettleCloses(s: Script, c: Context)
    requires ValidScript(s) && c.state == DECIDING
    ensures Closes(Settle(s, c), Decider)
  {
    if s.gateway.None? || s.decider.Failure? {
      CompleteCloses(c, DECIDING, Decider);
    } else {
      var action := ApplyPolicyGateway(s.decider.value, s.gateway.value);
      var c' := c.(artifacts := c.artifacts.(feasible := Some(action)));
      TradeCloses(s, c', action);
      TradesThen([PolicyGatewayApplied(s.decider.value.runId, action.action, |action.violations|)],
                 Trade(s, c', action).events);
    }
  }

  lemma EndCloses(s: Script, a: Agent, c: Context)
    requires ValidScript(s) && Heard(s, a, c) && HaltOf(s, a).None? && !Passes(s, a)
    ensures Closes(Judged(s, a, c), a)
  {
    if a == Decider {
      SettleCloses(s, c);
    } else if a == Research {
      AbortCloses(c, AgentFailure("backtest_executor", s.backtest.error), a);
    } else {
      CompleteCloses(c, StateOf(a), a);
    }
  }

  ghost predicate LogsFrom(s: Script, ending: Ending, a: Agent, last: Agent) {
    && Place(a) <= Place(last)
    && Seqs.Filter(ending.events, IsOwn)
       == LoggedFrom(s, Place(a), Place(last), ClosingOf(ending.result, Place(last)))
  }

  ghost predicate LogsAfter(s: Script, ending: Ending, a: Agent, last: Agent) {
    && Place(a) <= Place(last)
    && Seqs.Filter(ending.events, IsOwn)
       == MovedOn(s, Place(a), Place(last), ClosingOf(ending.result, Place(last)))
  }

  lemma CallThen(s: Script, a: Agent, c: Context, rest: Ending, last: Agent)
    requires (c.tokenIn, c.tokenOut) == Spent(s, Place(a)) && LogsAfter(s, rest, a, last)
    ensures LogsFrom(s, Prepend(CallOf(s, a, c).events, rest), a, last)
  {
    CallLogs(s, a, c);
    CallComes(s, a, c);
    OwnThen(CallOf(s, a, c).events, rest.events);
  }

  lemma MoveThen(s: Script, a: Agent, rest: Ending, last: Agent)
    requires Place(a) < Place(last) && LogsFrom(s, rest, After(a), last)
    ensures LogsAfter(s, Prepend([StateTransition(StateOf(a), StateOf(After(a)))], rest), a, last)
  {
    StatesInOrder(a);
    OwnThen([StateTransition(StateOf(a), StateOf(After(a)))], rest.events);
  }

  lemma {:induction false} FromLogs(s: Script, a: Agent, c: Context, last: Agent)
    requires ValidScript(s) && Ready(s, a, c) && EndsAt(s, last) && Place(a) <= Place(last)
    ensures LogsFrom(s, From(s, a, c), a, last)
    decreases 5 - Order(a), 1
  {
    var call := CallOf(s, a, c);
    var c' := c.(tokenIn := call.tokenIn, tokenOut := call.tokenOut);
    CallComes(s, a, c);
    if call.halt.Some? {
      assert a == last;
      AbortCloses(c', call.halt.value, a);
      CallThen(s, a, c, Abort(c', call.halt.value), last);
    } else {
      var c'' := c'.(artifacts := WithOutput(s, a, c'.artifacts));
      OutputStored(s, a, c, c'');
      JudgedLogs(s, a, c'', last);
      CallThen(s, a, c, Judged(s, a, c''), last);
    }
  }

  lemma {:induction false} JudgedLogs(s: Script, a: Agent, c: Context, last: Agent)
    requires ValidScript(s) && Heard(s, a, c) && HaltOf(s, a).None? && EndsAt(s, last) && Place(a) <= Place(last)
    ensures LogsAfter(s, Judged(s, a, c), a, last)
    decreases 5 - Order(a), 0
  {
    if Passes(s, a) {
      assert Place(a) < Place(last);
      var b := After(a);
      var c' := if a == Research then c.(artifacts := c.artifacts.(backtest := Some(s.backtest.value))) else c;
      var c'' := c'.(state := StateOf(b));
      StatesInOrder(a);
      HeardIsReady(s, a, c, c'');
      JudgedGoesOn(s, a, c, b, c'');
      FromLogs(s, b, c'', last);
      MoveThen(s, a, From(s, b, c''), last);
    } else {
      assert a == last;
      EndCloses(s, a, c);
    }
  }

  /** The opening of a cycle: its start, the first move, and one event for each identifier resolved. */
  ghost predicate Opens(s: Script, opening: seq<CycleEvent>) {
    && |opening| == 2 + (if s.resolutions.Some? then |s.resolutions.value| else 0)
    && opening[0] == CycleStarted && opening[1] == StateTransition(IDLE, OBSERVING)
    && forall i :: 2 <= i < |opening| ==>
         opening[i] == IdentifierResolved(ticker := s.resolutions.value[i - 2].ticker,
                                          issuer := s.resolutions.value[i - 2].issuer)
  }

  /** Trading apart, the log is the opening, the calls of the agents up to the last with a move between, the closing. */
  lemma CycleLogsExactly(s: Script, a: Agent) returns (opening: seq<CycleEvent>)
    requires ValidScript(s) && EndsAt(s, a)
    ensures Opens(s, opening)
    ensures Seqs.Filter(Cycle(s).events, IsOwn)
         == opening + LoggedFrom(s, 0, Place(a), ClosingOf(Cycle(s).result, Place(a)))
  {
    var c := Context(OBSERVING, NoArtifacts, 0, 0);
    opening := Opening(s);
    FromLogs(s, Observer, c, a);
    OpeningIsQuiet(s);
    OwnThen(opening, From(s, Observer, c).events);
  }

  lemma OpeningIsQuiet(s: Script)
    ensures NoTrade(Opening(s))
  {
  }
}
