/** The cycle runner: six agents in a row, each boundary a possible end. */
module CycleRunner {
  import opened Wrappers
  import opened Decisions
  import opened PolicyGateway
  import opened ExecutionReports
  import opened Portfolio
  import opened LiveEvents
  import opened CycleEvents
  import opened CyclePipeline
  import Seqs

  /** The mutable context of one run. */
  class RunContext {
    const machine: OrchestratorStateMachine
    const guard: BudgetGuard
    const log: EventLog
    var artifacts: Artifacts
    var tokenIn: nat
    var tokenOut: nat

    function View(): Context
      reads this, machine
    {
      Context(machine.state, artifacts, tokenIn, tokenOut)
    }

    /** Everything logs to one log; the guard has consumed the totals and has not reported a breach. */
    ghost predicate Valid()
      reads this, guard
    {
      && machine.listener == log && guard.log == log
      && guard.tokensConsumed == tokenIn + tokenOut
    }

    constructor (budget: Budget, log: EventLog)
      ensures Valid() && fresh(this) && fresh(machine) && fresh(guard)
      ensures this.log == log && guard.budget == budget && !guard.exceededEmitted
      ensures View() == Context(IDLE, NoArtifacts, 0, 0)
    {
      machine := new OrchestratorStateMachine(log);
      guard := new BudgetGuard(budget, log);
      this.log := log;
      artifacts := NoArtifacts;
      tokenIn, tokenOut := 0, 0;
    }
  }

  /** The events logged so far and those of the rest of the cycle make up the whole. */
  ghost predicate OnTrack(logged: seq<CycleEvent>, rest: Ending, whole: Ending, before: seq<CycleEvent>) {
    logged + rest.events == before + whole.events && rest.result == whole.result
  }

  lemma Advance(logged: seq<CycleEvent>, events: seq<CycleEvent>, rest: Ending, whole: Ending, before: seq<CycleEvent>)
    requires OnTrack(logged, Prepend(events, rest), whole, before)
    ensures OnTrack(logged + events, rest, whole, before)
  {
    assert logged + events + rest.events == logged + (events + rest.events);
  }

  lemma Called(s: Script, a: Agent, c: Context, logged: seq<CycleEvent>, whole: Ending, before: seq<CycleEvent>)
    requires ValidScript(s) && OnTrack(logged, From(s, a, c), whole, before)
    ensures var call := CallOf(s, a, c);
            var c' := c.(tokenIn := call.tokenIn, tokenOut := call.tokenOut);
            OnTrack(logged + call.events,
                    if call.halt.Some? then Abort(c', call.halt.value)
                    else Judged(s, a, c'.(artifacts := WithOutput(s, a, c'.artifacts))),
                    whole, before)
  {
    var call := CallOf(s, a, c);
    var c' := c.(tokenIn := call.tokenIn, tokenOut := call.tokenOut);
    Advance(logged, call.events,
            if call.halt.Some? then Abort(c', call.halt.value)
            else Judged(s, a, c'.(artifacts := WithOutput(s, a, c'.artifacts))),
            whole, before);
  }

  lemma Moved(s: Script, a: Agent, c: Context, logged: seq<CycleEvent>, whole: Ending, before: seq<CycleEvent>)
    requires ValidScript(s) && OnTrack(logged, Judged(s, a, c), whole, before)
    requires a != Decider && (a == Skeptic ==> c.artifacts.skeptic == Some(Proceed))
    requires (a == Auditor ==> c.artifacts.audit == Some(Pass)) && (a == Research ==> s.backtest.Ok?)
    ensures var c' := if a == Research then c.(artifacts := c.artifacts.(backtest := Some(s.backtest.value))) else c;
            OnTrack(logged + [StateTransition(c.state, StateOf(After(a)))],
                    From(s, After(a), c'.(state := StateOf(After(a)))), whole, before)
  {
    var c' := if a == Research then c.(artifacts := c.artifacts.(backtest := Some(s.backtest.value))) else c;
    Advance(logged, [StateTransition(c.state, StateOf(After(a)))],
            From(s, After(a), c'.(state := StateOf(After(a)))), whole, before);
  }

  class CycleRunner {
    const script: Script
    const log: EventLog

    constructor (script: Script, log: EventLog)
      ensures this.script == script && this.log == log
    {
      this.script, this.log := script, log;
    }

    /** One invocation, its answer, and the budget check on success. */
    method CallAgent<T>(ctx: RunContext, name: string, runId: string, reply: Reply<T>, elapsed: real)
      returns (halt: Option<Halt>)
      requires ctx.Valid() && !ctx.guard.exceededEmitted
      modifies ctx`tokenIn, ctx`tokenOut, ctx.guard, ctx.log
      ensures ctx.Valid() && ctx.guard.exceededEmitted == (halt.Some? && halt.value.BudgetBreach?)
      ensures var call := CyclePipeline.CallAgent(ctx.guard.budget, old(ctx.View()), name, runId, reply, elapsed);
              && halt == call.halt && ctx.log.events == old(ctx.log.events) + call.events
              && ctx.View() == old(ctx.View()).(tokenIn := call.tokenIn, tokenOut := call.tokenOut)
    {
      ctx.log.Append(AgentInvoked(name, runId));
      if reply.Failure? {
        ctx.log.Append(AgentFailed(name, runId, ErrorText(reply.error)));
        return Some(AgentFailure(name, ErrorText(reply.error)));
      }
      ctx.log.Append(AgentSucceeded(name, runId, reply.tokenIn, reply.tokenOut));
      ctx.tokenIn := ctx.tokenIn + reply.tokenIn;
      ctx.tokenOut := ctx.tokenOut + reply.tokenOut;
      var status := ctx.guard.Consume(reply.tokenIn, reply.tokenOut, elapsed);
      halt := if status.Some? then Some(BudgetBreach(status.value, ctx.guard.tokensConsumed, elapsed)) else None;
    }

    method Complete(ctx: RunContext, terminal: State) returns (result: CycleResult)
      requires ctx.Valid() && (ctx.machine.state, IDLE) in VALID_TRANSITIONS
      modifies ctx.machine, ctx.log
      ensures result == CyclePipeline.Complete(old(ctx.View()), terminal).result
      ensures ctx.log.events == old(ctx.log.events) + CyclePipeline.Complete(old(ctx.View()), terminal).events
    {
      var ok := ctx.machine.Transition(IDLE);
      ctx.log.Append(CycleCompleted(terminal, Count(ctx.artifacts), ctx.tokenIn, ctx.tokenOut));
      result := CycleResult(terminal, ctx.artifacts, None, ctx.tokenIn, ctx.tokenOut);
    }

    method Finalize(ctx: RunContext, halt: Halt) returns (result: CycleResult)
      requires ctx.Valid()
      modifies ctx.machine, ctx.log
      ensures result == Abort(old(ctx.View()), halt).result
      ensures ctx.log.events == old(ctx.log.events) + Abort(old(ctx.View()), halt).events
    {
      var atState := ctx.machine.state;
      var ok := ctx.machine.Transition(ERROR);
      ctx.log.Append(CycleAborted(halt, atState));
      result := CycleResult(ERROR, ctx.artifacts, Some(halt), ctx.tokenIn, ctx.tokenOut);
    }

    method ResolveIdentifiers()
      modifies log
      ensures log.events
           == old(log.events) + (if script.resolutions.Some? then Resolved(script.resolutions.value) else [])
    {
      if script.resolutions.Some? {
        var rs := script.resolutions.value;
        for i := 0 to |rs|
          invariant log.events == old(log.events) + Resolved(rs)[..i]
        {
          log.Append(IdentifierResolved(rs[i].ticker, rs[i].issuer));
        }
      }
    }

    method Run() returns (result: CycleResult)
      requires ValidScript(script)
      modifies log
      ensures log.events == old(log.events) + Cycle(script).events
      ensures result == Cycle(script).result
    {
      var ctx := Start();
      var early := Observe(ctx);
      if early.Some? {
        return early.value;
      }
      early := Hypothesize(ctx);
      if early.Some? {
        return early.value;
      }
      early := Scrutinize(ctx);
      if early.Some? {
        return early.value;
      }
      early := Examine(ctx);
      if early.Some? {
        return early.value;
      }
      early := Audit(ctx);
      if early.Some? {
        return early.value;
      }
      result := Decide(ctx);
    }

    /** A context of its own, the start event, the first transition, and the identifiers resolved. */
    method Start() returns (ctx: RunContext)
      requires ValidScript(script)
      modifies log
      ensures fresh(ctx) && fresh(ctx.machine) && fresh(ctx.guard) && Before(ctx, OBSERVING)
      ensures OnTrack(log.events, From(script, Observer, ctx.View()), Cycle(script), old(log.events))
    {
      ghost var before := log.events;
      ctx := new RunContext(script.budget, log);
      log.Append(CycleStarted);
      var moved := ctx.machine.Transition(OBSERVING);
      ResolveIdentifiers();
      ghost var rest := From(script, Observer, ctx.View());
      assert log.events == before + Opening(script);
      Advance(before, Opening(script), rest, Cycle(script), before);
    }

    /** The run stands before the agent that works in this state, nothing exceeded so far. */
    ghost predicate Before(ctx: RunContext, state: State)
      reads ctx, ctx.machine, ctx.guard
    {
      && ctx.Valid() && ctx.log == log && !ctx.guard.exceededEmitted && ctx.guard.budget == script.budget
      && ctx.machine.state == state
    }

    /** The observer: the cycle's result if it ends here. */
    method Observe(ctx: RunContext) returns (ended: Option<CycleResult>)
      requires Before(ctx, OBSERVING) && ValidScript(script)
      modifies ctx, ctx.machine, ctx.guard, log
      ensures var rest := From(script, Observer, old(ctx.View()));
              if ended.Some? then log.events == old(log.events) + rest.events && ended.value == rest.result
              else
                && Before(ctx, HYPOTHESIZING)
                && OnTrack(log.events, From(script, Hypothesis, ctx.View()), rest, old(log.events))
    {
      ghost var whole := From(script, Observer, ctx.View());
      ghost var logged, c := log.events, ctx.View();
      var halt := CallAgent(ctx, "observer", script.runIds(Observer), script.observer, script.elapsed(Observer));
      Called(script, Observer, c, logged, whole, old(log.events));
      if halt.Some? {
        var r := Finalize(ctx, halt.value);
        return Some(r);
      }
      ctx.artifacts := ctx.artifacts.(observer := Some(script.observer.value));
      Moved(script, Observer, ctx.View(), log.events, whole, old(log.events));
      var moved := ctx.machine.Transition(HYPOTHESIZING);
      ended := None;
    }

    /** The hypothesis: the cycle's result if it ends here. */
    method Hypothesize(ctx: RunContext) returns (ended: Option<CycleResult>)
      requires Before(ctx, HYPOTHESIZING) && ValidScript(script)
      modifies ctx, ctx.machine, ctx.guard, log
      ensures var rest := From(script, Hypothesis, old(ctx.View()));
              if ended.Some? then log.events == old(log.events) + rest.events && ended.value == rest.result
              else
                && Before(ctx, SCRUTINIZING)
                && OnTrack(log.events, From(script, Skeptic, ctx.View()), rest, old(log.events))
    {
      ghost var whole := From(script, Hypothesis, ctx.View());
      ghost var logged, c := log.events, ctx.View();
      var halt := CallAgent(ctx, "hypothesis", script.runIds(Hypothesis), script.hypothesis,
                            script.elapsed(Hypothesis));
      Called(script, Hypothesis, c, logged, whole, old(log.events));
      if halt.Some? {
        var r := Finalize(ctx, halt.value);
        return Some(r);
      }
      ctx.artifacts := ctx.artifacts.(hypothesis := Some(script.hypothesis.value));
      Moved(script, Hypothesis, ctx.View(), log.events, whole, old(log.events));
      var moved := ctx.machine.Transition(SCRUTINIZING);
      ended := None;
    }

    /** The skeptic: the cycle's result unless the hypothesis may proceed. */
    method Scrutinize(ctx: RunContext) returns (ended: Option<CycleResult>)
      requires Before(ctx, SCRUTINIZING) && ValidScript(script)
      modifies ctx, ctx.machine, ctx.guard, log
      ensures var rest := From(script, Skeptic, old(ctx.View()));
              if ended.Some? then log.events == old(log.events) + rest.events && ended.value == rest.result
              else
                && Before(ctx, RESEARCHING)
                && OnTrack(log.events, From(script, Research, ctx.View()), rest, old(log.events))
    {
      ghost var whole := From(script, Skeptic, ctx.View());
      ghost var logged, c := log.events, ctx.View();
      var halt := CallAgent(ctx, "skeptic", script.runIds(Skeptic), script.skeptic, script.elapsed(Skeptic));
      Called(script, Skeptic, c, logged, whole, old(log.events));
      if halt.Some? {
        var r := Finalize(ctx, halt.value);
        return Some(r);
      }
      ctx.artifacts := ctx.artifacts.(skeptic := Some(script.skeptic.value));
      if script.skeptic.value != Proceed {
        var r := Complete(ctx, SCRUTINIZING);
        return Some(r);
      }
      Moved(script, Skeptic, ctx.View(), log.events, whole, old(log.events));
      var moved := ctx.machine.Transition(RESEARCHING);
      ended := None;
    }

    /** Research and backtest: the cycle's result if either fails. */
    method Examine(ctx: RunContext) returns (ended: Option<CycleResult>)
      requires Before(ctx, RESEARCHING) && ValidScript(script)
      modifies ctx, ctx.machine, ctx.guard, log
      ensures var rest := From(script, Research, old(ctx.View()));
              if ended.Some? then log.events == old(log.events) + rest.events && ended.value == rest.result
              else
                && Before(ctx, AUDITING)
                && OnTrack(log.events, From(script, Auditor, ctx.View()), rest, old(log.events))
    {
      ghost var whole := From(script, Research, ctx.View());
      ghost var logged, c := log.events, ctx.View();
      var halt := CallAgent(ctx, "research", script.runIds(Research), script.research, script.elapsed(Research));
      Called(script, Research, c, logged, whole, old(log.events));
      if halt.Some? {
        var r := Finalize(ctx, halt.value);
        return Some(r);
      }
      ctx.artifacts := ctx.artifacts.(research := Some(script.research.value));
      if script.backtest.Err? {
        var r := Finalize(ctx, AgentFailure("backtest_executor", script.backtest.error));
        return Some(r);
      }
      Moved(script, Research, ctx.View(), log.events, whole, old(log.events));
      ctx.artifacts := ctx.artifacts.(backtest := Some(script.backtest.value));
      var moved := ctx.machine.Transition(AUDITING);
      ended := None;
    }

    /** The auditor: the cycle's result unless the backtest passes. */
    method Audit(ctx: RunContext) returns (ended: Option<CycleResult>)
      requires Before(ctx, AUDITING) && ValidScript(script)
      modifies ctx, ctx.machine, ctx.guard, log
      ensures var rest := From(script, Auditor, old(ctx.View()));
              if ended.Some? then log.events == old(log.events) + rest.events && ended.value == rest.result
              else
                && Before(ctx, DECIDING)
                && OnTrack(log.events, From(script, Decider, ctx.View()), rest, old(log.events))
    {
      ghost var whole := From(script, Auditor, ctx.View());
      ghost var logged, c := log.events, ctx.View();
      var halt := CallAgent(ctx, "auditor", script.runIds(Auditor), script.auditor, script.elapsed(Auditor));
      Called(script, Auditor, c, logged, whole, old(log.events));
      if halt.Some? {
        var r := Finalize(ctx, halt.value);
        return Some(r);
      }
      ctx.artifacts := ctx.artifacts.(audit := Some(script.auditor.value));
      if script.auditor.value != Pass {
        var r := Complete(ctx, AUDITING);
        return Some(r);
      }
      Moved(script, Auditor, ctx.View(), log.events, whole, old(log.events));
      var moved := ctx.machine.Transition(DECIDING);
      ended := None;
    }

    /** The decider, then the decision's way out. */
    method Decide(ctx: RunContext) returns (result: CycleResult)
      requires Before(ctx, DECIDING) && ValidScript(script)
      modifies ctx, ctx.machine, ctx.guard, log
      ensures var rest := From(script, Decider, old(ctx.View()));
              log.events == old(log.events) + rest.events && result == rest.result
    {
      ghost var whole := From(script, Decider, ctx.View());
      ghost var logged, c := log.events, ctx.View();
      var halt := CallAgent(ctx, "decider", script.runIds(Decider), script.decider, script.elapsed(Decider));
      Called(script, Decider, c, logged, whole, old(log.events));
      if halt.Some? {
        result := Finalize(ctx, halt.value);
        return;
      }
      ctx.artifacts := ctx.artifacts.(decision := Some(script.decider.value));
      result := SettleDecision(ctx, script.decider.value);
    }

    /** The policy gateway and the broker, each only if configured. */
    method SettleDecision(ctx: RunContext, decision: StrategyDecision) returns (result: CycleResult)
      requires ctx.Valid() && ctx.log == log && ctx.machine.state == DECIDING
      requires ValidScript(script) && script.decider.Output? && script.decider.value == decision
      modifies ctx`artifacts, ctx.machine, log
      ensures var ending := Settle(script, old(ctx.View()));
              result == ending.result && log.events == old(log.events) + ending.events
    {
      if script.gateway.None? {
        result := Complete(ctx, DECIDING);
        return;
      }
      ghost var before := log.events;
      var action := ApplyPolicyGateway(decision, script.gateway.value);
      ctx.artifacts := ctx.artifacts.(feasible := Some(action));
      var applied := PolicyGatewayApplied(decision.runId, action.action, |action.violations|);
      log.Append(applied);
      ghost var rest := Trade(script, ctx.View(), action);
      result := RunBroker(ctx, action);
      Seqs.Assoc(before, [applied], rest.events);
    }

    method RunBroker(ctx: RunContext, action: FeasibleAction) returns (result: CycleResult)
      requires ctx.Valid() && ctx.log == log && ctx.machine.state == DECIDING
      modifies ctx`artifacts, ctx.machine, log
      ensures var ending := Trade(script, old(ctx.View()), action);
              result == ending.result && log.events == old(log.events) + ending.events
    {
      if script.broker.Some? && script.prices.Some? {
        var prices := script.prices.value(action);
        if prices.Err? {
          result := Finalize(ctx, AgentFailure("price_provider", prices.error));
          return;
        }
        match script.broker.value
        case Live(execute) =>
          var (report, events) := execute(action, prices.value);
          for i := 0 to |events|
            invariant log.events == old(log.events) + LiveEventsOf(events)[..i]
            invariant ctx.Valid() && ctx.View() == old(ctx.View())
          {
            log.Append(BrokerLive(events[i]));
          }
          ctx.artifacts := ctx.artifacts.(execution := Some(report));
        case Paper(execute) =>
          var report := execute(action, prices.value);
          ctx.artifacts := ctx.artifacts.(execution := Some(report));
          log.Append(BrokerExecuted(action.sourceDecisionRunId, report.status, |report.fills|, report.reason));
      }
      result := Complete(ctx, DECIDING);
    }
  }
}
