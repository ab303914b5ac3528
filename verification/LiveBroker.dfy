/** The live broker adapter: kill switch, default-off flag, daily loss cap, paper pre-flight, submission. */
module LiveBroker {
  import opened Wrappers
  import opened Decisions
  import opened PolicyGateway
  import opened ExecutionReports
  import opened Portfolio
  import opened PaperExecution
  import opened LiveEvents
  import opened LiveJournal
  import opened LiveSubmission
  import PaperBroker
  import Seqs

  // ---- on values ----

  /** What never changes once the broker is built. */
  datatype Setup = Setup(lossCap: real, hasClient: bool, digest: Ticket -> string, oracle: Oracle)

  datatype Live = Live(enabled: bool, lossToday: real, book: Book, desk: Desk)

  function SkippedReport(runId: string, reason: string): ExecutionReport {
    ExecutionReport(runId, Skipped, [], Some(reason))
  }

  function Skip(l: Live, runId: string, reason: string): (Live, Outcome) {
    (l.(desk := Emit(l.desk, LiveRejected(CycleName(l.desk), runId, reason))), Reported(SkippedReport(runId, reason)))
  }

  function StatusName(status: ExecutionStatus): string {
    match status
    case Filled => "filled"
    case Skipped => "skipped"
    case Rejected => "rejected"
    case Submitted => "submitted"
  }

  function PreflightReason(report: ExecutionReport): string {
    "paper pre-flight " + StatusName(report.status) + ": "
    + (if report.reason.Some? && report.reason.value != "" then report.reason.value else "no reason given")
  }

  function BatchFor(s: Setup, a: FeasibleAction, prices: Prices): Batch {
    Batch(a.sourceDecisionRunId, prices, s.digest)
  }

  function Finish(l: Live, b: Batch, p: Progress): (Live, Outcome) {
    match p
    case Going(desk, fills) => (l.(desk := desk), Reported(SubmittedReport(b, fills)))
    case Stopped(desk, outcome) => (l.(desk := desk), outcome)
  }

  /** The pre-flight moves the paper book whatever the venue then says. */
  ghost function ExecuteLive(s: Setup, l: Live, a: FeasibleAction, prices: Prices): (Live, Outcome) {
    if l.desk.killed then Skip(l, a.sourceDecisionRunId, "kill switch engaged")
    else if !l.enabled then Skip(l, a.sourceDecisionRunId, "live orders disabled")
    else
      var paper := ReportFor(l.book, a, prices);
      var l' := l.(book := ExecuteBook(l.book, a, prices));
      if paper.status != ExecutionStatus.Filled then Skip(l', a.sourceDecisionRunId, PreflightReason(paper))
      else if !s.hasClient then (l', NoClient)
      else Finish(l', BatchFor(s, a, prices), SubmitLegs(s.oracle, l'.desk, BatchFor(s, a, prices), paper.fills))
  }

  function KillNow(d: Desk, reason: string): Desk {
    Emit(d.(killed := true), LiveKillSwitch(CycleName(d), reason))
  }

  function AddLoss(s: Setup, l: Live, amount: real): Live {
    var l' := l.(lossToday := l.lossToday + amount);
    if l'.lossToday > s.lossCap && !l.desk.killed then l'.(desk := KillNow(l.desk, "cap_breach")) else l'
  }

  const ENV_PREFIX := "LIVE_BROKER_"

  predicate HasPrefix(s: string, prefix: string) {
    |prefix| <= |s| && s[..|prefix|] == prefix
  }

  /** Two factors: a non-empty environment value under the broker's own prefix, and the same value typed in. */
  predicate Approved(token: string, env: map<string, string>, confirmation: string) {
    HasPrefix(token, ENV_PREFIX) && token in env && env[token] != "" && confirmation == env[token]
  }

  // ---- the classes ----

  class AlpacaRestClient {
    const oracle: Oracle
    var venue: Venue

    constructor (oracle: Oracle)
      ensures this.oracle == oracle && venue == FreshVenue
    {
      this.oracle := oracle;
      venue := FreshVenue;
    }

    method SubmitOrder(request: Request) returns (answer: Answer)
      modifies this
      ensures answer == oracle.answers(|old(venue.received)|, request)
      ensures venue == AfterSubmit(old(venue), request, answer)
    {
      answer := oracle.answers(|venue.received|, request);
      venue := AfterSubmit(venue, request, answer);
    }

    method CancelAllOrders() returns (ok: bool)
      modifies this
      ensures ok == oracle.cancelWorks(old(venue.cancels))
      ensures venue == AfterCancelAll(old(venue), ok)
    {
      ok := oracle.cancelWorks(venue.cancels);
      venue := AfterCancelAll(venue, ok);
    }
  }

  class LiveBrokerAlpaca {
    const paper: PaperBroker.PaperBroker
    const client: AlpacaRestClient
    const hasClient: bool
    const journal: LiveBrokerJournal?
    const digest: Ticket -> string
    const lossCap: real
    var cycleId: Option<string>
    var eventLog: LiveEventLog?
    var enableLiveOrders: bool
    var realizedLossToday: real
    var killSwitchEngaged: bool

    ghost function TheSetup(): Setup
      reads this
    {
      Setup(lossCap, hasClient, digest, client.oracle)
    }

    ghost function TheDesk(): Desk
      reads this, client, journal, eventLog
    {
      Desk(killSwitchEngaged, cycleId, if journal == null then None else Some(journal.State()), client.venue,
           if eventLog == null then [] else eventLog.events)
    }

    ghost function State(): Live
      reads this, paper, client, journal, eventLog
    {
      Live(enableLiveOrders, realizedLossToday, paper.Books(), TheDesk())
    }

    /** A cycle id and an event log are attached together or not at all. */
    ghost predicate Valid()
      reads this, paper, journal
    {
      (cycleId.Some? <==> eventLog != null) && paper.Valid() && (journal != null ==> journal.Valid())
    }

    constructor (paper: PaperBroker.PaperBroker, client: AlpacaRestClient, hasClient: bool, journal: LiveBrokerJournal?,
                 digest: Ticket -> string, lossCap: real)
      requires paper.Valid() && lossCap > 0.0 && (journal != null ==> journal.Valid())
      ensures Valid() && this.paper == paper && this.client == client && this.journal == journal
      ensures TheSetup() == Setup(lossCap, hasClient, digest, client.oracle)
      ensures State() == Live(false, 0.0, paper.Books(),
                              Desk(false, None, if journal == null then None else Some(journal.State()),
                                   client.venue, []))
    {
      this.paper, this.client, this.hasClient := paper, client, hasClient;
      this.journal, this.digest, this.lossCap := journal, digest, lossCap;
      cycleId, eventLog := None, null;
      enableLiveOrders, realizedLossToday, killSwitchEngaged := false, 0.0, false;
    }

    /** False, and no effect, when a context is still attached. */
    method AttachCycleContext(id: string, log: LiveEventLog) returns (ok: bool)
      requires Valid()
      modifies this`cycleId, this`eventLog
      ensures Valid() && ok == old(cycleId).None?
      ensures State() == if ok then old(State()).(desk := old(TheDesk()).(cycleId := Some(id), log := log.events))
                         else old(State())
    {
      ok := cycleId.None? && eventLog == null;
      if ok {
        cycleId, eventLog := Some(id), log;
      }
    }

    method DetachCycleContext()
      requires Valid()
      modifies this`cycleId, this`eventLog
      ensures Valid() && State() == old(State()).(desk := old(TheDesk()).(cycleId := None, log := []))
    {
      cycleId, eventLog := None, null;
    }

    method EnableLiveOrdersAfterHumanApproval(token: string, env: map<string, string>, confirmation: string)
      returns (ok: bool)
      requires Valid()
      modifies this`enableLiveOrders
      ensures Valid() && ok == Approved(token, env, confirmation)
      ensures State() == if ok then old(State()).(enabled := true) else old(State())
    {
      if !HasPrefix(token, ENV_PREFIX) {
        return false;
      }
      var value := if token in env then env[token] else "";
      if value == "" || confirmation != value {
        return false;
      }
      enableLiveOrders := true;
      ok := true;
    }

    method EmitEvent(e: LiveEvent)
      requires Valid()
      modifies eventLog
      ensures Valid() && TheDesk() == Emit(old(TheDesk()), e)
    {
      if eventLog != null {
        eventLog.Append(e);
      }
    }

    method KillSwitch()
      requires Valid()
      modifies this`killSwitchEngaged, eventLog
      ensures Valid() && State() == old(State()).(desk := KillNow(old(TheDesk()), "manual"))
    {
      var name := if cycleId.Some? then cycleId.value else "";
      killSwitchEngaged := true;
      EmitEvent(LiveKillSwitch(name, "manual"));
    }

    method ReenableAfterHumanApproval()
      requires Valid()
      modifies this`killSwitchEngaged
      ensures Valid() && State() == old(State()).(desk := old(TheDesk()).(killed := false))
    {
      killSwitchEngaged := false;
    }

    /** A negative amount is refused. */
    method RecordRealizedLoss(amount: real) returns (ok: bool)
      requires Valid()
      modifies this`realizedLossToday, this`killSwitchEngaged, eventLog
      ensures Valid() && ok == (amount >= 0.0)
      ensures State() == if ok then AddLoss(TheSetup(), old(State()), amount) else old(State())
    {
      if amount < 0.0 {
        return false;
      }
      realizedLossToday := realizedLossToday + amount;
      if realizedLossToday > lossCap && !killSwitchEngaged {
        var name := if cycleId.Some? then cycleId.value else "";
        killSwitchEngaged := true;
        EmitEvent(LiveKillSwitch(name, "cap_breach"));
      }
      ok := true;
    }

    method ResetDay()
      requires Valid()
      modifies this`realizedLossToday
      ensures Valid() && State() == old(State()).(lossToday := 0.0)
    {
      realizedLossToday := 0.0;
    }

    method Execute(a: FeasibleAction, prices: Prices) returns (outcome: Outcome)
      requires Valid() && ValidTargets(a.targets) && NonNegativePrices(prices)
      requires FullyPriced(paper.Books(), a.targets, prices) ==> Equity(paper.Books(), prices) >= 0.0
      modifies this`killSwitchEngaged, paper, client, journal, eventLog
      ensures Valid()
      ensures (State(), outcome) == ExecuteLive(TheSetup(), old(State()), a, prices)
    {
      if killSwitchEngaged {
        outcome := SkipWith(a.sourceDecisionRunId, "kill switch engaged");
        return;
      }
      if !enableLiveOrders {
        outcome := SkipWith(a.sourceDecisionRunId, "live orders disabled");
        return;
      }
      outcome := Preflight(a, prices);
    }

    /** Past the kill switch and the flag: the paper broker first, then the venue. */
    method Preflight(a: FeasibleAction, prices: Prices) returns (outcome: Outcome)
      requires Valid() && ValidTargets(a.targets) && NonNegativePrices(prices)
      requires FullyPriced(paper.Books(), a.targets, prices) ==> Equity(paper.Books(), prices) >= 0.0
      requires !killSwitchEngaged && enableLiveOrders
      modifies this`killSwitchEngaged, paper, client, journal, eventLog
      ensures Valid()
      ensures (State(), outcome) == ExecuteLive(TheSetup(), old(State()), a, prices)
    {
      ghost var before, setup := State(), TheSetup();
      var report := paper.Execute(a, prices);
      assert TheDesk() == before.desk && TheSetup() == setup;
      outcome := AfterPaper(a, report, prices, before);
    }

    /** The pre-flight's verdict: a skip unless it filled, else the submission of its fills. */
    method AfterPaper(a: FeasibleAction, report: ExecutionReport, prices: Prices, ghost before: Live)
      returns (outcome: Outcome)
      requires Valid() && !before.desk.killed && before.enabled
      requires report == ReportFor(before.book, a, prices)
      requires State() == before.(book := ExecuteBook(before.book, a, prices))
      modifies this`killSwitchEngaged, client, journal, eventLog
      ensures Valid() && paper.Books() == old(paper.Books())
      ensures (State(), outcome) == ExecuteLive(TheSetup(), before, a, prices)
    {
      if report.status != ExecutionStatus.Filled {
        outcome := SkipWith(a.sourceDecisionRunId, PreflightReason(report));
        return;
      }
      if !hasClient {
        return NoClient;
      }
      outcome := SubmitToAlpaca(a, report, prices);
    }

    method SkipWith(runId: string, reason: string) returns (outcome: Outcome)
      requires Valid()
      modifies eventLog
      ensures Valid() && (State(), outcome) == Skip(old(State()), runId, reason)
    {
      EmitEvent(LiveRejected(if cycleId.Some? then cycleId.value else "", runId, reason));
      outcome := Reported(SkippedReport(runId, reason));
    }

    method SubmitToAlpaca(a: FeasibleAction, paperReport: ExecutionReport, prices: Prices) returns (outcome: Outcome)
      requires Valid()
      modifies this`killSwitchEngaged, client, journal, eventLog
      ensures Valid() && paper.Books() == old(paper.Books())
      ensures var b := BatchFor(TheSetup(), a, prices);
              (State(), outcome)
              == Finish(old(State()), b, SubmitLegs(client.oracle, old(TheDesk()), b, paperReport.fills))
    {
      ghost var b := BatchFor(TheSetup(), a, prices);
      ghost var start := TheDesk();
      var fills := [];
      var legs := paperReport.fills;
      for i := 0 to |legs|
        invariant Valid() && paper.Books() == old(paper.Books())
        invariant cycleId == old(cycleId) && eventLog == old(eventLog)
        invariant SubmitLegs(client.oracle, start, b, legs[..i]) == Going(TheDesk(), fills)
      {
        SubmitOneMore(client.oracle, start, b, legs, i);
        if legs[i].status != FillStatus.Filled {
          continue;
        }
        var stop;
        stop, fills := SubmitOrder(a, legs[i], prices, fills);
        if stop.Some? {
          StoppedStays(client.oracle, start, b, legs, i + 1);
          return stop.value;
        }
      }
      Seqs.FullPrefix(legs);
      outcome := Reported(ExecutionReport(a.sourceDecisionRunId, ExecutionStatus.Submitted, fills, None));
    }

    /** One turn of the submission loop: the outcome that ends it, or one more submitted fill. */
    method SubmitOrder(a: FeasibleAction, leg: Fill, prices: Prices, fills: seq<Fill>)
      returns (stop: Option<Outcome>, submitted: seq<Fill>)
      requires Valid() && leg.status == FillStatus.Filled
      modifies this`killSwitchEngaged, client, journal, eventLog
      ensures Valid() && paper.Books() == old(paper.Books())
      ensures var b := BatchFor(TheSetup(), a, prices);
              SubmitLeg(client.oracle, old(TheDesk()), b, leg, fills)
              == if stop.Some? then Stopped(TheDesk(), stop.value) else Going(TheDesk(), submitted)
    {
      ghost var b := BatchFor(TheSetup(), a, prices);
      ghost var before := TheDesk();
      var name := if cycleId.Some? then cycleId.value else "";
      var fullKey := digest(Ticket(name, a.sourceDecisionRunId, leg.ticker, leg.side, leg.quantity));
      var request := Request(leg.ticker, leg.quantity, leg.side, Truncate(fullKey));
      var answer := client.SubmitOrder(request);
      ghost var sent := before.(venue := AfterSubmit(before.venue, request, answer));
      assert TheDesk() == sent && answer == AnswerFor(client.oracle, before, b, leg);
      submitted := fills;
      if answer.Refused? {
        var reason := RefusalReason(leg, answer.error);
        RollBackAndReject(a.sourceDecisionRunId, reason, |fills|);
        stop := Some(Reported(ExecutionReport(a.sourceDecisionRunId, ExecutionStatus.Rejected, [], Some(reason))));
        return;
      }
      stop, submitted := RecordOrder(a, leg, prices, fills, answer.order, fullKey);
    }

    /** The bookkeeping for an order the venue accepted: journal row, event, anticipated fill. */
    method RecordOrder(a: FeasibleAction, leg: Fill, prices: Prices, fills: seq<Fill>, order: Order, fullKey: string)
      returns (stop: Option<Outcome>, submitted: seq<Fill>)
      requires Valid() && fullKey == FullKey(TheDesk(), BatchFor(TheSetup(), a, prices), leg)
      modifies journal, eventLog
      ensures Valid()
      ensures stop == if Taken(old(TheDesk()), order.clientOrderId) then Some(IntegrityError(order.clientOrderId))
                      else None
      ensures stop.Some? ==> TheDesk() == old(TheDesk())
      ensures stop.None? ==>
                var d, b := old(TheDesk()), BatchFor(TheSetup(), a, prices);
                && TheDesk() == Emit(Journaled(d, SubmissionFor(d, b, leg, order)), SubmittedEvent(d, b, leg, order))
                && submitted == fills + [SubmittedFill(b, leg, order)]
    {
      var name := if cycleId.Some? then cycleId.value else "";
      var ok := JournalSubmission(Submission(order.clientOrderId, name, a.sourceDecisionRunId, order.orderId, fullKey,
                                             order.symbol, leg.side, order.qty));
      if !ok {
        return Some(IntegrityError(order.clientOrderId)), fills;
      }
      EmitEvent(LiveSubmitted(name, a.sourceDecisionRunId, order.orderId, order.clientOrderId, fullKey,
                              order.symbol, order.qty, leg.side));
      var price := if leg.ticker in prices then prices[leg.ticker] else 0.0;
      stop := None;
      submitted := fills + [Fill(leg.ticker, leg.side, FillStatus.Submitted, order.qty, price,
                                 order.qty * price, Some(PENDING))];
      assert submitted[|fills|] == SubmittedFill(BatchFor(TheSetup(), a, prices), leg, order);
    }

    /** The submission row, where a journal is attached; false when its id was there before. */
    method JournalSubmission(row: Submission) returns (ok: bool)
      requires Valid()
      modifies journal
      ensures Valid()
      ensures ok <==> !Taken(old(TheDesk()), row.clientOrderId)
      ensures TheDesk() == if ok then Journaled(old(TheDesk()), row) else old(TheDesk())
    {
      ok := true;
      if journal != null {
        ok := journal.RegisterSubmission(row);
      }
    }

    /** The mid-batch rollback, with the kill switch as its fallback, then the rejection event. */
    method RollBackAndReject(runId: string, reason: string, submitted: nat)
      requires Valid()
      modifies this`killSwitchEngaged, client, eventLog
      ensures Valid() && paper.Books() == old(paper.Books())
      ensures var d := old(TheDesk());
              TheDesk() == Emit(if submitted > 0 then Rollback(client.oracle, d) else d,
                                LiveRejected(CycleName(d), runId, reason))
    {
      var name := if cycleId.Some? then cycleId.value else "";
      if submitted > 0 {
        var ok := client.CancelAllOrders();
        if !ok {
          killSwitchEngaged := true;
          EmitEvent(LiveKillSwitch(name, "rollback_failed"));
        }
      }
      EmitEvent(LiveRejected(name, runId, reason));
    }
  }
}
