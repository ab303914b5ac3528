/** What each operation of the live broker changes and logs, told from its arguments, prices and the venue's answers. */
module LiveOutcomes {
  import opened Wrappers
  import opened Sorting
  import opened Decisions
  import opened PolicyGateway
  import opened ExecutionReports
  import opened Portfolio
  import opened PaperExecution
  import opened PaperOutcomes
  import opened LiveEvents
  import opened LiveJournal
  import opened LiveSubmission
  import opened LiveBroker
  import opened LiveRuns
  import opened LiveRequests

  /** The log of an attached cycle, with these events at its end; without a cycle nothing is logged. */
  function LogWith(d: Desk, events: seq<LiveEvent>): seq<LiveEvent> {
    if d.cycleId.Some? then d.log + events else d.log
  }

  function NameOf(d: Desk): string {
    if d.cycleId.Some? then d.cycleId.value else ""
  }

  // ---- switches, losses, contexts ----

  /** The manual kill engages the switch and says so. */
  lemma KillIsLogged(s: Setup, l: Live)
    ensures Apply(s, l, Kill)
         == l.(desk := l.desk.(killed := true, log := LogWith(l.desk, [LiveKillSwitch(NameOf(l.desk), "manual")])))
  {
  }

  /** A loss adds up; beyond the cap, and not before, it engages a switch that is not engaged, and says so once. */
  lemma LossIsCapped(s: Setup, l: Live, amount: real)
    ensures var l' := Apply(s, l, RecordLoss(amount));
            if amount < 0.0 then l' == l
            else
              && l'.lossToday == l.lossToday + amount && l'.enabled == l.enabled && l'.book == l.book
              && l'.desk == if l.lossToday + amount <= s.lossCap || l.desk.killed then l.desk
                            else l.desk.(killed := true,
                                         log := LogWith(l.desk, [LiveKillSwitch(NameOf(l.desk), "cap_breach")]))
  {
  }

  /** Live orders go on exactly when a variable under the broker's prefix is set to just what was typed. */
  lemma EnabledIff(s: Setup, l: Live, token: string, env: map<string, string>, typed: string)
    ensures Apply(s, l, EnableLive(token, env, typed)).enabled
       <==> l.enabled
            || ((exists rest :: token == "LIVE_BROKER_" + rest) && token in env && env[token] == typed && |typed| > 0)
    ensures var l' := Apply(s, l, EnableLive(token, env, typed)); l' == l.(enabled := l'.enabled)
  {
    if HasPrefix(token, ENV_PREFIX) {
      assert token == "LIVE_BROKER_" + token[12..];
    }
    if exists rest :: token == "LIVE_BROKER_" + rest {
      var rest :| token == "LIVE_BROKER_" + rest;
      assert token[..12] == "LIVE_BROKER_";
    }
  }

  // ---- an execute that never reaches the venue ----

  ghost predicate NotFilled(b: Book, a: FeasibleAction, prices: Prices, reason: string) {
    if a.action != Adopt then
      reason == "paper pre-flight skipped: "
                + ("action=" + (if a.action == Reject then "reject" else "defer") + "; no broker work")
    else
      exists missing :: missing != [] && Lists(missing, Unpriced(b, a, prices))
                        && reason == "paper pre-flight rejected: missing prices for: " + JoinWith(", ", missing)
  }

  /** Why nothing is submitted: the switch, the flag, or a pre-flight that filled nothing, in this order. */
  ghost predicate Withheld(l: Live, a: FeasibleAction, prices: Prices, reason: string) {
    if l.desk.killed then reason == "kill switch engaged"
    else if !l.enabled then reason == "live orders disabled"
    else NotFilled(l.book, a, prices, reason)
  }

  /** Then the report and the event say why, and nothing else changes. */
  lemma WithheldIsReported(s: Setup, l: Live, a: FeasibleAction, prices: Prices) returns (reason: string)
    requires l.desk.killed || !l.enabled || a.action != Adopt || exists t :: t in Unpriced(l.book, a, prices)
    ensures Withheld(l, a, prices, reason)
    ensures ExecuteLive(s, l, a, prices)
         == (l.(desk := l.desk.(log := LogWith(l.desk,
                  [LiveRejected(NameOf(l.desk), a.sourceDecisionRunId, reason)]))),
             Reported(ExecutionReport(a.sourceDecisionRunId, Skipped, [], Some(reason))))
  {
    if l.desk.killed {
      reason := "kill switch engaged";
    } else if !l.enabled {
      reason := "live orders disabled";
    } else {
      reason := NothingFilled(l.book, a, prices);
    }
  }

  /** The pre-flight filled nothing, and says why. */
  lemma NothingFilled(b: Book, a: FeasibleAction, prices: Prices) returns (reason: string)
    requires a.action != Adopt || exists t :: t in Unpriced(b, a, prices)
    ensures ExecuteBook(b, a, prices) == b && reason == PreflightReason(ReportFor(b, a, prices))
    ensures ReportFor(b, a, prices).status != ExecutionStatus.Filled && NotFilled(b, a, prices, reason)
  {
    var report := ReportFor(b, a, prices);
    reason := PreflightReason(report);
    if a.action != Adopt {
      SkippedByName(b, a, prices);
      SkippedPreflight(report, report.reason.value);
    } else {
      var involved, missing := RejectedForMissingPrices(b, a, prices);
      UnpricedIsListed(b, a, prices, missing);
      RejectedPreflight(report, missing);
    }
  }

  lemma UnpricedIsListed(b: Book, a: FeasibleAction, prices: Prices, missing: seq<Ticker>)
    requires Lists(missing, Unpriced(b, a, prices)) && exists t :: t in Unpriced(b, a, prices)
    ensures missing != []
  {
  }

  lemma SkippedPreflight(report: ExecutionReport, text: string)
    requires report.status == Skipped && report.reason == Some(text) && text != ""
    ensures PreflightReason(report) == "paper pre-flight skipped: " + text
  {
    assert "paper pre-flight " + "skipped" + ": " == "paper pre-flight skipped: ";
  }

  lemma RejectedPreflight(report: ExecutionReport, missing: seq<Ticker>)
    requires report.status == ExecutionStatus.Rejected
    requires report.reason == Some("missing prices for: " + JoinWith(", ", missing))
    ensures PreflightReason(report) == "paper pre-flight rejected: missing prices for: " + JoinWith(", ", missing)
  {
    var names := JoinWith(", ", missing);
    assert "paper pre-flight " + "rejected" + ": " == "paper pre-flight rejected: ";
    assert "paper pre-flight rejected: " + ("missing prices for: " + names)
        == "paper pre-flight rejected: missing prices for: " + names;
  }

  /** Past all that the book is moved, and its fills go to the venue as one batch, if there is a client. */
  lemma ExecuteRunsTheBatch(s: Setup, l: Live, a: FeasibleAction, prices: Prices)
    requires !l.desk.killed && l.enabled && a.action == Adopt && forall t :: t !in Unpriced(l.book, a, prices)
    ensures var (moved, legs) := (l.(book := ExecuteBook(l.book, a, prices)), ReportFor(l.book, a, prices).fills);
            var p := SubmitLegs(s.oracle, l.desk,
                                Batch(runId := a.sourceDecisionRunId, prices := prices, digest := s.digest), legs);
            ExecuteLive(s, l, a, prices)
            == if !s.hasClient then (moved, NoClient)
               else if p.Stopped? then (moved.(desk := p.desk), p.outcome)
               else (moved.(desk := p.desk),
                     Reported(ExecutionReport(sourceDecisionRunId := a.sourceDecisionRunId,
                                              status := ExecutionStatus.Submitted, fills := p.fills, reason := None)))
  {
    forall t | t in Involved(l.book, a.targets) ensures t in prices {
      assert t !in Unpriced(l.book, a, prices);
    }
    assert FullyPriced(l.book, a.targets, prices);
  }

  // ---- a batch that the venue stops ----

  /** The venue answers the request for this leg with a refusal. */
  ghost predicate Refuses(o: Oracle, n: nat, d: Desk, b: Batch, leg: Fill, error: string) {
    exists r :: Asks(r, d, b, leg) && o.answers(n, r) == Refused(error)
  }

  /** The legs before the one that stopped a batch, and what was recorded of them. */
  ghost predicate StoppedAfter(o: Oracle, d: Desk, b: Batch, legs: seq<Fill>, i: nat, orders: seq<Order>,
                               rows: seq<Submission>, events: seq<LiveEvent>) {
    && i < |legs| && i == |orders|
    && exists fills :: Recorded(d, b, legs[..i], orders, rows, events, fills)
  }

  ghost predicate JournalHas(before: Option<Journal>, after: Option<Journal>, rows: seq<Submission>) {
    && (before.None? <==> after.None?)
    && (before.Some? ==>
          && after.value.submissions == before.value.submissions + rows
          && after.value.fills == before.value.fills && after.value.cancellations == before.value.cancellations)
  }

  /**
   * A refusal is reported with the venue's reason. What earlier legs recorded stays recorded; their orders are
   * cancelled, or, when that fails, stay open under an engaged switch that is logged before the rejection.
   */
  ghost predicate RefusalRecorded(o: Oracle, d: Desk, b: Batch, leg: Fill, error: string, orders: seq<Order>,
                                  rows: seq<Submission>, events: seq<LiveEvent>, d': Desk, outcome: Outcome) {
    var reason := "Alpaca rejected " + leg.ticker + " " + (if leg.side == Buy then "buy" else "sell") + ": " + error;
    var works := o.cancelWorks(d.venue.cancels);
    var undone, failed := orders != [] && works, orders != [] && !works;
    && outcome == Reported(ExecutionReport(b.runId, ExecutionStatus.Rejected, [], Some(reason)))
    && JournalHas(d.journal, d'.journal, rows)
    && d'.killed == (d.killed || failed) && d'.cycleId == d.cycleId
    && d'.venue.cancels == d.venue.cancels + (if orders != [] then 1 else 0)
    && d'.venue.open == (if undone then [] else d.venue.open + orders)
    && d'.log == LogWith(d, events + (if failed then [LiveKillSwitch(NameOf(d), "rollback_failed")] else [])
                            + [LiveRejected(NameOf(d), b.runId, reason)])
  }

  lemma RefusedBatch(o: Oracle, d: Desk, b: Batch, legs: seq<Fill>)
    returns (i: nat, error: string, orders: seq<Order>, rows: seq<Submission>, events: seq<LiveEvent>)
    requires AllFilled(legs)
    requires var p := SubmitLegs(o, d, b, legs); p.Stopped? && p.outcome.Reported?
    ensures StoppedAfter(o, d, b, legs, i, orders, rows, events)
    ensures Refuses(o, |d.venue.received| + i, d, b, legs[i], error)
    ensures var p := SubmitLegs(o, d, b, legs);
            RefusalRecorded(o, d, b, legs[i], error, orders, rows, events, p.desk, p.outcome)
  {
    var mid;
    i, orders, rows, events, mid := UpToTheStop(o, d, b, legs);
    error := AnswerFor(o, mid.desk, b, legs[i]).error;
    RequestOf(d, mid.desk, b, legs[i]);
    RefusalTold(o, d, mid.desk, b, legs[i], error, mid.fills, orders, rows, events);
  }

  lemma UpToTheStop(o: Oracle, d: Desk, b: Batch, legs: seq<Fill>)
    returns (i: nat, orders: seq<Order>, rows: seq<Submission>, events: seq<LiveEvent>, mid: Progress)
    requires AllFilled(legs) && SubmitLegs(o, d, b, legs).Stopped?
    ensures StoppedAfter(o, d, b, legs, i, orders, rows, events) && legs[i].status == FillStatus.Filled
    ensures mid.Going? && |mid.fills| == |orders| && MidBatch(d, mid.desk, orders, rows, events)
    ensures |mid.desk.venue.received| == |d.venue.received| + i
    ensures SubmitLegs(o, d, b, legs) == SubmitLeg(o, mid.desk, b, legs[i], mid.fills)
  {
    i := StoppedAt(o, d, b, legs);
    var init := legs[..i];
    assert AllFilled(init) && legs[i].status == FillStatus.Filled;
    orders, rows, events := BatchIsRecorded(o, d, b, init);
    GoingKeeps(o, d, b, init);
    SubmitOneMore(o, d, b, legs, i);
    mid := SubmitLegs(o, d, b, init);
  }

  /** Legs that go through leave the switch, the context and the cancellations alone. */
  lemma GoingKeeps(o: Oracle, d: Desk, b: Batch, legs: seq<Fill>)
    requires AllFilled(legs) && SubmitLegs(o, d, b, legs).Going?
    ensures var d' := SubmitLegs(o, d, b, legs).desk;
            && d'.killed == d.killed && d'.cycleId == d.cycleId && d'.venue.cancels == d.venue.cancels
            && |d'.venue.received| == |d.venue.received| + |legs|
  {
    SubmittedCorrespondence(o, d, b, legs);
  }

  lemma RequestOf(d: Desk, mid: Desk, b: Batch, leg: Fill)
    requires mid.cycleId == d.cycleId
    ensures Asks(RequestFor(mid, b, leg), d, b, leg)
  {
    AsksRight(mid, b, leg);
  }

  /** The desk when a leg's turn comes. */
  ghost predicate MidBatch(d: Desk, mid: Desk, orders: seq<Order>, rows: seq<Submission>, events: seq<LiveEvent>) {
    && mid.killed == d.killed && mid.cycleId == d.cycleId && mid.venue.cancels == d.venue.cancels
    && mid.venue.open == d.venue.open + orders && mid.log == LogWith(d, events)
    && JournalHas(d.journal, mid.journal, rows)
  }

  lemma RefusalTold(o: Oracle, d: Desk, mid: Desk, b: Batch, leg: Fill, error: string, fills: seq<Fill>,
                    orders: seq<Order>, rows: seq<Submission>, events: seq<LiveEvent>)
    requires MidBatch(d, mid, orders, rows, events) && |fills| == |orders| && leg.status == FillStatus.Filled
    requires AnswerFor(o, mid, b, leg) == Refused(error)
    ensures var p := SubmitLeg(o, mid, b, leg, fills);
            p.Stopped? && RefusalRecorded(o, d, b, leg, error, orders, rows, events, p.desk, p.outcome)
  {
    var failed := orders != [] && !o.cancelWorks(d.venue.cancels);
    var switched := if failed then [LiveKillSwitch(NameOf(d), "rollback_failed")] else [];
    var told := [LiveRejected(NameOf(d), b.runId, RefusalReason(leg, error))];
    assert d.log + events + switched + told == d.log + (events + switched + told);
    assert orders == [] ==> d.venue.open + orders == d.venue.open;
  }

  /** The order is open with those before it, and only those are recorded; its id was registered already. */
  ghost predicate RepeatRecorded(d: Desk, order: Order, orders: seq<Order>, rows: seq<Submission>,
                                 events: seq<LiveEvent>, d': Desk, outcome: Outcome) {
    && d.journal.Some?
    && (exists row <- d.journal.value.submissions + rows :: row.clientOrderId == order.clientOrderId)
    && outcome == IntegrityError(order.clientOrderId)
    && d'.killed == d.killed && d'.venue.open == d.venue.open + orders + [order]
    && d'.log == LogWith(d, events) && JournalHas(d.journal, d'.journal, rows)
  }

  /** An order under an id that is taken raises. */
  lemma RepeatedIdRaises(o: Oracle, d: Desk, b: Batch, legs: seq<Fill>)
    returns (i: nat, order: Order, orders: seq<Order>, rows: seq<Submission>, events: seq<LiveEvent>)
    requires AllFilled(legs)
    requires var p := SubmitLegs(o, d, b, legs); p.Stopped? && p.outcome.IntegrityError?
    ensures StoppedAfter(o, d, b, legs, i, orders, rows, events)
    ensures exists r :: Asks(r, d, b, legs[i]) && o.answers(|d.venue.received| + i, r) == Accepted(order)
    ensures var p := SubmitLegs(o, d, b, legs); RepeatRecorded(d, order, orders, rows, events, p.desk, p.outcome)
  {
    var mid;
    i, orders, rows, events, mid := UpToTheStop(o, d, b, legs);
    order := AnswerFor(o, mid.desk, b, legs[i]).order;
    RequestOf(d, mid.desk, b, legs[i]);
    RepeatTold(o, d, mid.desk, b, legs[i], order, mid.fills, orders, rows, events);
  }

  lemma RepeatTold(o: Oracle, d: Desk, mid: Desk, b: Batch, leg: Fill, order: Order, fills: seq<Fill>,
                   orders: seq<Order>, rows: seq<Submission>, events: seq<LiveEvent>)
    requires MidBatch(d, mid, orders, rows, events) && leg.status == FillStatus.Filled
    requires AnswerFor(o, mid, b, leg) == Accepted(order) && Taken(mid, order.clientOrderId)
    ensures var p := SubmitLeg(o, mid, b, leg, fills);
            p.Stopped? && RepeatRecorded(d, order, orders, rows, events, p.desk, p.outcome)
  {
  }
}
