/** The grammar of a cycle's events, what it implies, and that every run obeys it. */
module CycleTraces {
  import opened Wrappers
  import opened Decisions
  import opened PolicyGateway
  import opened CycleEvents
  import opened CyclePipeline
  import Seqs

  // ---- the grammar ----

  datatype Health = Fine | AgentDown | OverBudget

  datatype Phase =
    | NotStarted
    | Working(state: State, tokenIn: nat, tokenOut: nat, health: Health)
    | Waiting(state: State, tokenIn: nat, tokenOut: nat, agent: string, runId: string)
    | Failed(at: State, tokenIn: nat, tokenOut: nat, health: Health)
    | Closed(completed: bool, tokenIn: nat, tokenOut: nat, health: Health, closing: CycleEvent)
    | Illegal

  function Next(p: Phase, e: CycleEvent): Phase {
    match p
    case NotStarted => if e.CycleStarted? then Working(IDLE, 0, 0, Fine) else Illegal
    case Waiting(state, tokenIn, tokenOut, agent, runId) =>
      (match e
       case AgentSucceeded(a, r, i, o) =>
         if a == agent && r == runId then Working(state, tokenIn + i, tokenOut + o, Fine) else Illegal
       case AgentFailed(a, r, _) =>
         if a == agent && r == runId then Working(state, tokenIn, tokenOut, AgentDown) else Illegal
       case _ => Illegal)
    case Working(state, tokenIn, tokenOut, health) =>
      (match e
       case StateTransition(src, dst) =>
         if src != state || (src, dst) !in VALID_TRANSITIONS then Illegal
         else if dst == ERROR then Failed(src, tokenIn, tokenOut, health)
         else if health == Fine then Working(dst, tokenIn, tokenOut, health) else Illegal
       case AgentInvoked(agent, runId) =>
         if health == Fine then Waiting(state, tokenIn, tokenOut, agent, runId) else Illegal
       case BudgetExceeded(_, _, _) => if health == Fine then Working(state, tokenIn, tokenOut, OverBudget) else Illegal
       case CycleCompleted(_, _, totalIn, totalOut) =>
         if health == Fine && state == IDLE && totalIn == tokenIn && totalOut == tokenOut
         then Closed(true, tokenIn, tokenOut, health, e) else Illegal
       case IdentifierResolved(_, _) => if health == Fine then p else Illegal
       case PolicyGatewayApplied(_, _, _) => if health == Fine then p else Illegal
       case BrokerExecuted(_, _, _, _) => if health == Fine then p else Illegal
       case BrokerLive(_) => if health == Fine then p else Illegal
       case _ => Illegal)
    case Failed(at, tokenIn, tokenOut, health) =>
      (match e
       case CycleAborted(_, atState) => if atState == at then Closed(false, tokenIn, tokenOut, health, e) else Illegal
       case _ => Illegal)
    case Closed(_, _, _, _, _) => Illegal
    case Illegal => Illegal
  }

  function Scan(p: Phase, t: seq<CycleEvent>): Phase {
    if t == [] then p else Next(Scan(p, t[..|t| - 1]), t[|t| - 1])
  }

  lemma {:induction false} ScanConcat(p: Phase, a: seq<CycleEvent>, b: seq<CycleEvent>)
    ensures Scan(p, a + b) == Scan(Scan(p, a), b)
  {
    if b == [] {
      assert a + b == a;
    } else {
      var n := |b| - 1;
      ScanConcat(p, a, b[..n]);
      Seqs.PrefixOfConcat(a, b, |a| + n);
      ScanLast(p, a + b, a + b[..n], b[n]);
    }
  }

  lemma ScanLast(p: Phase, t: seq<CycleEvent>, before: seq<CycleEvent>, e: CycleEvent)
    requires t != [] && t[..|t| - 1] == before && t[|t| - 1] == e
    ensures Scan(p, t) == Next(Scan(p, before), e)
  {
  }

  // ---- what the grammar implies ----

  /** A legal trace has only legal prefixes, and is closed by nothing but its last event. */
  lemma {:induction false} LegalPrefix(t: seq<CycleEvent>, i: nat)
    requires i <= |t| && Scan(NotStarted, t) != Illegal
    ensures Scan(NotStarted, t[..i]) != Illegal
    ensures i < |t| ==> !Scan(NotStarted, t[..i]).Closed?
    ensures i > 0 ==> !Scan(NotStarted, t[..i]).NotStarted?
    decreases |t|
  {
    var n := |t| - 1;
    if i < |t| {
      LegalPrefix(t[..n], i);
      assert t[..n][..i] == t[..i];
    } else {
      Seqs.FullPrefix(t);
      if t != [] {
        LegalPrefix(t[..n], n);
        Seqs.FullPrefix(t[..n]);
      }
    }
  }

  lemma ScanStep(t: seq<CycleEvent>, i: nat)
    requires i < |t|
    ensures Scan(NotStarted, t[..i + 1]) == Next(Scan(NotStarted, t[..i]), t[i])
  {
    assert t[..i + 1][..i] == t[..i];
  }

  predicate IsTerminal(e: CycleEvent) {
    e.CycleCompleted? || e.CycleAborted?
  }

  /** CYCLE_STARTED comes first and only there; one terminal event comes last and only there. */
  lemma StartedFirstTerminalLast(t: seq<CycleEvent>, i: nat)
    requires Scan(NotStarted, t).Closed? && i < |t|
    ensures t[i].CycleStarted? <==> i == 0
    ensures IsTerminal(t[i]) <==> i == |t| - 1
  {
    LegalPrefix(t, i);
    LegalPrefix(t, i + 1);
    ScanStep(t, i);
    if i == |t| - 1 {
      Seqs.FullPrefix(t);
    }
  }

  predicate IsAnswer(e: CycleEvent, agent: string, runId: string) {
    (e.AgentSucceeded? || e.AgentFailed?) && e.agent == agent && e.runId == runId
  }

  lemma InvokedThenAnswered(t: seq<CycleEvent>, i: nat)
    requires Scan(NotStarted, t).Closed? && i < |t| && t[i].AgentInvoked?
    ensures i + 1 < |t| && IsAnswer(t[i + 1], t[i].agent, t[i].runId)
  {
    StartedFirstTerminalLast(t, i);
    LegalPrefix(t, i + 1);
    ScanStep(t, i);
    InvokedWaits(Scan(NotStarted, t[..i]), t[i]);
    LegalPrefix(t, i + 2);
    ScanStep(t, i + 1);
    OnlyAnswersEndWaiting(Scan(NotStarted, t[..i + 1]), t[i + 1]);
  }

  lemma InvokedWaits(p: Phase, e: CycleEvent)
    requires e.AgentInvoked? && Next(p, e) != Illegal
    ensures Next(p, e).Waiting? && Next(p, e).agent == e.agent && Next(p, e).runId == e.runId
  {
  }

  lemma OnlyAnswersEndWaiting(p: Phase, e: CycleEvent)
    requires p.Waiting? && Next(p, e) != Illegal
    ensures IsAnswer(e, p.agent, p.runId)
  {
  }

  lemma AnswerFollowsInvocation(t: seq<CycleEvent>, i: nat)
    requires Scan(NotStarted, t).Closed? && i < |t| && (t[i].AgentSucceeded? || t[i].AgentFailed?)
    ensures i > 0 && t[i - 1] == AgentInvoked(t[i].agent, t[i].runId)
  {
    StartedFirstTerminalLast(t, 0);
    LegalPrefix(t, i + 1);
    ScanStep(t, i);
    assert Scan(NotStarted, t[..i]).Waiting?;
    ScanStep(t, i - 1);
    WaitingMeansInvoked(Scan(NotStarted, t[..i - 1]), t[i - 1]);
  }

  lemma WaitingMeansInvoked(p: Phase, e: CycleEvent)
    requires Next(p, e).Waiting?
    ensures e == AgentInvoked(Next(p, e).agent, Next(p, e).runId)
  {
  }

  /** Every invocation is answered by the very next event, and every answer follows its invocation. */
  lemma AnsweredAtOnce(t: seq<CycleEvent>, i: nat)
    requires Scan(NotStarted, t).Closed? && i < |t|
    ensures t[i].AgentInvoked? ==> i + 1 < |t| && IsAnswer(t[i + 1], t[i].agent, t[i].runId)
    ensures t[i].AgentSucceeded? || t[i].AgentFailed? ==>
              i > 0 && t[i - 1] == AgentInvoked(t[i].agent, t[i].runId)
  {
    if t[i].AgentInvoked? {
      InvokedThenAnswered(t, i);
    } else if t[i].AgentSucceeded? || t[i].AgentFailed? {
      AnswerFollowsInvocation(t, i);
    }
  }

  function Moves(t: seq<CycleEvent>): seq<CycleEvent> {
    Seqs.Filter(t, (e: CycleEvent) => e.StateTransition?)
  }

  /** Consecutive valid transitions leading from one state to another. */
  predicate Chain(src: State, moves: seq<CycleEvent>, dst: State) {
    if moves == [] then src == dst
    else
      var last := moves[|moves| - 1];
      && last.StateTransition? && last.dst == dst && (last.src, last.dst) in VALID_TRANSITIONS
      && Chain(src, moves[..|moves| - 1], last.src)
  }

  /** The transitions chain from IDLE to where the machine is now. */
  lemma {:induction false} TransitionsChain(t: seq<CycleEvent>)
    requires Scan(NotStarted, t) != Illegal
    ensures var p := Scan(NotStarted, t);
            && (p.NotStarted? ==> t == [])
            && (p.Working? || p.Waiting? ==> Chain(IDLE, Moves(t), p.state))
            && (p.Failed? ==> Chain(IDLE, Moves(t), ERROR))
            && (p.Closed? ==> Chain(IDLE, Moves(t), if p.completed then IDLE else ERROR))
  {
    if t != [] {
      var n := |t| - 1;
      TransitionsChain(t[..n]);
      var q := Scan(NotStarted, t[..n]);
      if t[n].StateTransition? {
        assert Moves(t) == Moves(t[..n]) + [t[n]];
        assert (Moves(t[..n]) + [t[n]])[..|Moves(t[..n])|] == Moves(t[..n]);
      } else {
        assert Moves(t) == Moves(t[..n]);
      }
    }
  }

  /** An aborted trace ends by leaving a state for ERROR and naming it; its transitions had led there. */
  ghost predicate AbortsWhereItWas(t: seq<CycleEvent>) {
    && |t| >= 2 && t[|t| - 1].CycleAborted? && t[|t| - 2] == StateTransition(t[|t| - 1].atState, ERROR)
    && Chain(IDLE, Moves(t[..|t| - 2]), t[|t| - 1].atState)
  }

  lemma AbortNamesTheStateLeft(t: seq<CycleEvent>)
    requires Scan(NotStarted, t).Closed? && !Scan(NotStarted, t).completed
    ensures AbortsWhereItWas(t)
  {
    var n := |t| - 1;
    var before := t[..n];
    var at := ClosedByAbort(t, before, t[n]);
    var earlier := before[..n - 1];
    FailedByTransition(before, earlier, before[n - 1], at);
    TransitionsChain(earlier);
    assert t[..n - 1] == earlier && t[n - 1] == before[n - 1];
  }

  lemma ClosedByAbort(t: seq<CycleEvent>, before: seq<CycleEvent>, e: CycleEvent) returns (at: State)
    requires Scan(NotStarted, t).Closed? && !Scan(NotStarted, t).completed
    requires t != [] && t[..|t| - 1] == before && t[|t| - 1] == e
    ensures e.CycleAborted? && e.atState == at
    ensures Scan(NotStarted, before).Failed? && Scan(NotStarted, before).at == at && before != []
  {
    ScanLast(NotStarted, t, before, e);
    at := Scan(NotStarted, before).at;
  }

  lemma FailedByTransition(t: seq<CycleEvent>, before: seq<CycleEvent>, e: CycleEvent, at: State)
    requires Scan(NotStarted, t).Failed? && Scan(NotStarted, t).at == at
    requires t != [] && t[..|t| - 1] == before && t[|t| - 1] == e
    ensures e == StateTransition(at, ERROR)
    ensures Scan(NotStarted, before).Working? && Scan(NotStarted, before).state == at
  {
    ScanLast(NotStarted, t, before, e);
  }

  function SpentIn(t: seq<CycleEvent>): nat {
    if t == [] then 0
    else SpentIn(t[..|t| - 1]) + (if t[|t| - 1].AgentSucceeded? then t[|t| - 1].tokenIn else 0)
  }

  function SpentOut(t: seq<CycleEvent>): nat {
    if t == [] then 0
    else SpentOut(t[..|t| - 1]) + (if t[|t| - 1].AgentSucceeded? then t[|t| - 1].tokenOut else 0)
  }

  /** The running totals are the sums over AGENT_SUCCEEDED. */
  lemma {:induction false} TotalsAreSums(t: seq<CycleEvent>)
    requires var p := Scan(NotStarted, t); p != Illegal && p != NotStarted
    ensures var p := Scan(NotStarted, t); p.tokenIn == SpentIn(t) && p.tokenOut == SpentOut(t)
  {
    if |t| > 1 {
      TotalsAreSums(t[..|t| - 1]);
    } else {
      assert t[..0] == [];
    }
  }

  function Breaches(t: seq<CycleEvent>): nat {
    if t == [] then 0 else Breaches(t[..|t| - 1]) + (if t[|t| - 1].BudgetExceeded? then 1 else 0)
  }

  /** At most one BUDGET_EXCEEDED, and it stands for the health of the trace. */
  lemma {:induction false} OneBreachAtMost(t: seq<CycleEvent>)
    requires Scan(NotStarted, t) != Illegal
    ensures var p := Scan(NotStarted, t);
            && (p.NotStarted? || p.Waiting? ==> Breaches(t) == 0)
            && (p.Working? || p.Failed? || p.Closed? ==> Breaches(t) == if p.health == OverBudget then 1 else 0)
  {
    if t != [] {
      OneBreachAtMost(t[..|t| - 1]);
    }
  }

  // ---- every run obeys the grammar ----

  function Ready(c: Context): Phase {
    Working(c.state, c.tokenIn, c.tokenOut, Fine)
  }

  lemma Scan2(p: Phase, x: CycleEvent, y: CycleEvent)
    ensures Scan(p, [x, y]) == Next(Next(p, x), y)
  {
    assert [x, y][..1] == [x];
    Scan1(p, x);
  }

  lemma Scan1(p: Phase, x: CycleEvent)
    ensures Scan(p, [x]) == Next(p, x)
  {
    assert [x][..0] == [];
  }

  lemma CallScan<T>(b: Budget, c: Context, name: string, runId: string, reply: Reply<T>, elapsed: real)
    ensures var call := CallAgent(b, c, name, runId, reply, elapsed);
            Scan(Ready(c), call.events)
            == Working(c.state, call.tokenIn, call.tokenOut,
                       if call.halt.None? then Fine
                       else if call.halt.value.BudgetBreach? then OverBudget else AgentDown)
  {
    var call := CallAgent(b, c, name, runId, reply, elapsed);
    if reply.Failure? {
      Scan2(Ready(c), call.events[0], call.events[1]);
    } else {
      var answered := [AgentInvoked(name, runId), AgentSucceeded(name, runId, reply.tokenIn, reply.tokenOut)];
      Scan2(Ready(c), answered[0], answered[1]);
      if call.halt.Some? {
        ScanConcat(Ready(c), answered, [call.events[2]]);
        Scan1(Scan(Ready(c), answered), call.events[2]);
      }
    }
  }

  /** How a cycle that ends this way leaves the grammar; an agent failure may or may not have been an event. */
  predicate ClosesAs(p: Phase, r: CycleResult) {
    && p.Closed? && p.completed == r.aborted.None?
    && p.tokenIn == r.totalTokenIn && p.tokenOut == r.totalTokenOut
    && (p.health == OverBudget <==> r.aborted.Some? && r.aborted.value.BudgetBreach?)
    && if r.aborted.Some? then p.closing.CycleAborted? && p.closing.halt == r.aborted.value
       else p.closing == CycleCompleted(r.terminal, Count(r.artifacts), r.totalTokenIn, r.totalTokenOut)
  }

  /** The closing event of a legal trace is its last. */
  lemma ClosingIsLast(t: seq<CycleEvent>)
    requires Scan(NotStarted, t).Closed?
    ensures t != [] && t[|t| - 1] == Scan(NotStarted, t).closing
  {
  }

  lemma AbortScan(p: Phase, c: Context, halt: Halt)
    requires p.Working? && p.state == c.state && p.tokenIn == c.tokenIn && p.tokenOut == c.tokenOut
    requires p.health == OverBudget <==> halt.BudgetBreach?
    requires c.state != IDLE
    ensures ClosesAs(Scan(p, Abort(c, halt).events), Abort(c, halt).result)
  {
    Scan2(p, Abort(c, halt).events[0], Abort(c, halt).events[1]);
  }

  lemma CompleteScan(c: Context, terminal: State)
    requires (c.state, IDLE) in VALID_TRANSITIONS
    ensures ClosesAs(Scan(Ready(c), Complete(c, terminal).events), Complete(c, terminal).result)
  {
    Scan2(Ready(c), Complete(c, terminal).events[0], Complete(c, terminal).events[1]);
  }

  lemma {:induction false} SideEvents(p: Phase, events: seq<CycleEvent>)
    requires p.Working? && p.health == Fine
    requires forall e <- events ::
      e.IdentifierResolved? || e.BrokerLive? || e.BrokerExecuted? || e.PolicyGatewayApplied?
    ensures Scan(p, events) == p
  {
    if events != [] {
      var n := |events| - 1;
      assert events[n] in events && forall e <- events[..n] :: e in events;
      SideEvents(p, events[..n]);
      assert Next(p, events[n]) == p;
    }
  }

  lemma TradeScan(s: Script, c: Context, action: FeasibleAction)
    requires c.state == DECIDING
    ensures ClosesAs(Scan(Ready(c), Trade(s, c, action).events), Trade(s, c, action).result)
  {
    if s.broker.None? || s.prices.None? {
      CompleteScan(c, DECIDING);
    } else {
      var prices := s.prices.value(action);
      if prices.Err? {
        AbortScan(Ready(c), c, AgentFailure("price_provider", prices.error));
      } else {
        var (report, events) := Executed(s.broker.value, action, prices.value);
        var c' := c.(artifacts := c.artifacts.(execution := Some(report)));
        SideEvents(Ready(c), events);
        CompleteScan(c', DECIDING);
        ScanConcat(Ready(c), events, Complete(c', DECIDING).events);
      }
    }
  }

  lemma SettleScan(s: Script, c: Context)
    requires ValidScript(s) && c.state == DECIDING
    ensures ClosesAs(Scan(Ready(c), Settle(s, c).events), Settle(s, c).result)
  {
    if s.gateway.None? || s.decider.Failure? {
      CompleteScan(c, DECIDING);
    } else {
      var action := ApplyPolicyGateway(s.decider.value, s.gateway.value);
      var c' := c.(artifacts := c.artifacts.(feasible := Some(action)));
      var applied := [PolicyGatewayApplied(s.decider.value.runId, action.action, |action.violations|)];
      SideEvents(Ready(c), applied);
      TradeScan(s, c', action);
      ScanConcat(Ready(c), applied, Trade(s, c', action).events);
    }
  }

  lemma CallOfScan(s: Script, a: Agent, c: Context)
    ensures var call := CallOf(s, a, c);
            Scan(Ready(c), call.events)
            == Working(c.state, call.tokenIn, call.tokenOut,
                       if call.halt.None? then Fine
                       else if call.halt.value.BudgetBreach? then OverBudget else AgentDown)
  {
    var name, runId, elapsed := AgentName(a), s.runIds(a), s.elapsed(a);
    match a
    case Observer => CallScan(s.budget, c, name, runId, s.observer, elapsed);
    case Hypothesis => CallScan(s.budget, c, name, runId, s.hypothesis, elapsed);
    case Skeptic => CallScan(s.budget, c, name, runId, s.skeptic, elapsed);
    case Research => CallScan(s.budget, c, name, runId, s.research, elapsed);
    case Auditor => CallScan(s.budget, c, name, runId, s.auditor, elapsed);
    case Decider => CallScan(s.budget, c, name, runId, s.decider, elapsed);
  }

  lemma {:induction false} FromScan(s: Script, a: Agent, c: Context)
    requires ValidScript(s) && c.state == StateOf(a)
    ensures ClosesAs(Scan(Ready(c), From(s, a, c).events), From(s, a, c).result)
    decreases 5 - Order(a), 1
  {
    var call := CallOf(s, a, c);
    var c' := c.(tokenIn := call.tokenIn, tokenOut := call.tokenOut);
    CallOfScan(s, a, c);
    var p := Scan(Ready(c), call.events);
    if call.halt.Some? {
      AbortScan(p, c', call.halt.value);
      ScanConcat(Ready(c), call.events, Abort(c', call.halt.value).events);
    } else {
      var c'' := c'.(artifacts := WithOutput(s, a, c'.artifacts));
      JudgedScan(s, a, c'');
      ScanConcat(Ready(c), call.events, Judged(s, a, c'').events);
    }
  }

  lemma {:induction false} JudgedScan(s: Script, a: Agent, c: Context)
    requires ValidScript(s) && c.state == StateOf(a)
    ensures ClosesAs(Scan(Ready(c), Judged(s, a, c).events), Judged(s, a, c).result)
    decreases 5 - Order(a), 0
  {
    if a == Decider {
      SettleScan(s, c);
    } else if (a == Skeptic && c.artifacts.skeptic != Some(Proceed))
        || (a == Auditor && c.artifacts.audit != Some(Pass)) {
      CompleteScan(c, StateOf(a));
    } else if a == Research && s.backtest.Err? {
      AbortScan(Ready(c), c, AgentFailure("backtest_executor", s.backtest.error));
    } else {
      var b := After(a);
      var c' := if a == Research then c.(artifacts := c.artifacts.(backtest := Some(s.backtest.value))) else c;
      var c'' := c'.(state := StateOf(b));
      FromScan(s, b, c'');
      MoveScan(c, c'', From(s, b, c''));
    }
  }

  lemma MoveScan(c: Context, c': Context, rest: Ending)
    requires c'.tokenIn == c.tokenIn && c'.tokenOut == c.tokenOut
    requires (c.state, c'.state) in VALID_TRANSITIONS && c'.state != ERROR
    requires ClosesAs(Scan(Ready(c'), rest.events), rest.result)
    ensures ClosesAs(Scan(Ready(c), Prepend([StateTransition(c.state, c'.state)], rest).events), rest.result)
  {
    var move := [StateTransition(c.state, c'.state)];
    Scan1(Ready(c), move[0]);
    ScanConcat(Ready(c), move, rest.events);
  }

  lemma OpeningScan(s: Script)
    ensures Scan(NotStarted, Opening(s)) == Working(OBSERVING, 0, 0, Fine)
  {
    var start := [CycleStarted, StateTransition(IDLE, OBSERVING)];
    var resolved := if s.resolutions.Some? then Resolved(s.resolutions.value) else [];
    Scan2(NotStarted, start[0], start[1]);
    SideEvents(Working(OBSERVING, 0, 0, Fine), resolved);
    ScanConcat(NotStarted, start, resolved);
  }

  /** The last event says how the cycle ended, and an abort where the transitions had led. */
  ghost predicate EndsAs(t: seq<CycleEvent>, r: CycleResult) {
    && t != []
    && var last := t[|t| - 1];
       if r.aborted.Some? then last.CycleAborted? && last.halt == r.aborted.value && AbortsWhereItWas(t)
       else last == CycleCompleted(r.terminal, Count(r.artifacts), r.totalTokenIn, r.totalTokenOut)
  }

  lemma ClosedTraceEnds(t: seq<CycleEvent>, r: CycleResult)
    requires ClosesAs(Scan(NotStarted, t), r)
    ensures EndsAs(t, r)
  {
    ClosingIsLast(t);
    if r.aborted.Some? {
      AbortNamesTheStateLeft(t);
    }
  }

  /** Whatever the agents, executors and clocks answer, the run's events are one closed trace matching its result. */
  lemma EveryCycleIsWellFormed(s: Script)
    requires ValidScript(s)
    ensures ClosesAs(Scan(NotStarted, Cycle(s).events), Cycle(s).result)
    ensures EndsAs(Cycle(s).events, Cycle(s).result)
  {
    CycleCloses(s, Opening(s), From(s, Observer, Context(OBSERVING, NoArtifacts, 0, 0)), Cycle(s));
    ClosedTraceEnds(Cycle(s).events, Cycle(s).result);
  }

  lemma CycleCloses(s: Script, opening: seq<CycleEvent>, rest: Ending, whole: Ending)
    requires ValidScript(s) && opening == Opening(s) && whole == Prepend(opening, rest)
    requires rest == From(s, Observer, Context(OBSERVING, NoArtifacts, 0, 0))
    ensures ClosesAs(Scan(NotStarted, whole.events), whole.result)
  {
    OpeningScan(s);
    FromScan(s, Observer, Context(OBSERVING, NoArtifacts, 0, 0));
    ScanConcat(NotStarted, opening, rest.events);
  }

  // ---- what a result says about its run ----

  /** BUDGET_EXCEEDED is logged exactly when the budget ended the cycle, and then once. */
  lemma BudgetEventIffBudgetAbort(s: Script)
    requires ValidScript(s)
    ensures var (events, r) := (Cycle(s).events, Cycle(s).result);
            Breaches(events) == if r.aborted.Some? && r.aborted.value.BudgetBreach? then 1 else 0
    ensures var (events, r) := (Cycle(s).events, Cycle(s).result);
            r.totalTokenIn == SpentIn(events) && r.totalTokenOut == SpentOut(events)
  {
    EveryCycleIsWellFormed(s);
    OneBreachAtMost(Cycle(s).events);
    TotalsAreSums(Cycle(s).events);
  }

  /** The filled slots are the first k of the pipeline. */
  predicate FilledUpTo(a: Artifacts, k: nat) {
    && (a.observer.Some? <==> k > 0) && (a.hypothesis.Some? <==> k > 1) && (a.skeptic.Some? <==> k > 2)
    && (a.research.Some? <==> k > 3) && (a.backtest.Some? <==> k > 4) && (a.audit.Some? <==> k > 5)
    && (a.decision.Some? <==> k > 6) && (a.feasible.Some? <==> k > 7) && (a.execution.Some? <==> k > 8)
  }

  /** The backtest sits between research and audit. */
  function SlotOf(a: Agent): nat {
    if Order(a) <= 3 then Order(a) else Order(a) + 1
  }

  /** A finished cycle: a prefix of the pipeline, within budget unless it was aborted, ended where the verdicts say. */
  predicate Sound(b: Budget, r: CycleResult) {
    && FilledUpTo(r.artifacts, Count(r.artifacts))
    && (r.terminal == ERROR <==> r.aborted.Some?)
    && (r.aborted.Some? && r.aborted.value.BudgetBreach? ==>
          && r.aborted.value.tokens == r.totalTokenIn + r.totalTokenOut
          && Classify(b, r.aborted.value.tokens, r.aborted.value.elapsed) == Some(r.aborted.value.kind))
    && (r.aborted.None? ==>
          && r.totalTokenIn + r.totalTokenOut <= b.tokenCap
          && (r.terminal == SCRUTINIZING || r.terminal == AUDITING || r.terminal == DECIDING)
          && (r.terminal == SCRUTINIZING <==> r.artifacts.skeptic.Some? && r.artifacts.skeptic.value != Proceed)
          && (r.terminal == AUDITING <==> r.artifacts.audit.Some? && r.artifacts.audit.value != Pass)
          && (r.terminal == DECIDING <==> r.artifacts.decision.Some?))
  }

  lemma SettleSound(s: Script, c: Context)
    requires ValidScript(s) && c.state == DECIDING && FilledUpTo(c.artifacts, 7)
    requires c.tokenIn + c.tokenOut <= s.budget.tokenCap
    requires c.artifacts.skeptic == Some(Proceed) && c.artifacts.audit == Some(Pass)
    ensures Sound(s.budget, Settle(s, c).result)
  {
  }

  /** The verdicts already passed on the way to an agent. */
  predicate Cleared(a: Agent, artifacts: Artifacts) {
    && (Order(a) > 2 ==> artifacts.skeptic == Some(Proceed))
    && (Order(a) > 4 ==> artifacts.audit == Some(Pass))
  }

  lemma FilledNext(s: Script, a: Agent, artifacts: Artifacts)
    requires FilledUpTo(artifacts, SlotOf(a)) && CallSucceeds(s, a)
    ensures FilledUpTo(WithOutput(s, a, artifacts), SlotOf(a) + 1)
    ensures Cleared(a, artifacts) ==> Cleared(a, WithOutput(s, a, artifacts))
  {
  }

  predicate CallSucceeds(s: Script, a: Agent) {
    match a
    case Observer => s.observer.Output?
    case Hypothesis => s.hypothesis.Output?
    case Skeptic => s.skeptic.Output?
    case Research => s.research.Output?
    case Auditor => s.auditor.Output?
    case Decider => s.decider.Output?
  }

  lemma CallFacts(s: Script, a: Agent, c: Context)
    ensures var call := CallOf(s, a, c);
            && (call.halt.None? ==> CallSucceeds(s, a) && call.tokenIn + call.tokenOut <= s.budget.tokenCap)
            && (call.halt.Some? && call.halt.value.BudgetBreach? ==>
                  && call.halt.value.tokens == call.tokenIn + call.tokenOut
                  && Classify(s.budget, call.halt.value.tokens, call.halt.value.elapsed) == Some(call.halt.value.kind))
  {
  }

  lemma {:induction false} FromSound(s: Script, a: Agent, c: Context)
    requires ValidScript(s) && c.state == StateOf(a) && FilledUpTo(c.artifacts, SlotOf(a)) && Cleared(a, c.artifacts)
    ensures Sound(s.budget, From(s, a, c).result)
    decreases 5 - Order(a), 1
  {
    var call := CallOf(s, a, c);
    CallFacts(s, a, c);
    var c' := c.(tokenIn := call.tokenIn, tokenOut := call.tokenOut);
    if call.halt.Some? {
      assert Count(c.artifacts) == SlotOf(a);
    } else {
      FilledNext(s, a, c.artifacts);
      JudgedSound(s, a, c'.(artifacts := WithOutput(s, a, c'.artifacts)));
    }
  }

  lemma {:induction false} JudgedSound(s: Script, a: Agent, c: Context)
    requires ValidScript(s) && c.state == StateOf(a) && FilledUpTo(c.artifacts, SlotOf(a) + 1)
    requires Cleared(a, c.artifacts) && c.tokenIn + c.tokenOut <= s.budget.tokenCap
    ensures Sound(s.budget, Judged(s, a, c).result)
    decreases 5 - Order(a), 0
  {
    assert Count(c.artifacts) == SlotOf(a) + 1;
    if a == Decider {
      SettleSound(s, c);
    } else if !((a == Skeptic && c.artifacts.skeptic != Some(Proceed))
                || (a == Auditor && c.artifacts.audit != Some(Pass)))
           && !(a == Research && s.backtest.Err?) {
      var b := After(a);
      var c' := if a == Research then c.(artifacts := c.artifacts.(backtest := Some(s.backtest.value))) else c;
      assert FilledUpTo(c'.artifacts, SlotOf(b));
      FromSound(s, b, c'.(state := StateOf(b)));
    }
  }

  /** Every result: artifacts a prefix of the pipeline, completed cycles within the token cap, verdicts respected. */
  lemma EveryResultIsSound(s: Script)
    requires ValidScript(s)
    ensures Sound(s.budget, Cycle(s).result)
  {
    FromSound(s, Observer, Context(OBSERVING, NoArtifacts, 0, 0));
  }
}
