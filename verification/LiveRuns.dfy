/** The live broker over whole runs: when the venue is reached, and what a batch leaves behind. */
module LiveRuns {
  import opened Wrappers
  import opened Decisions
  import opened PolicyGateway
  import opened ExecutionReports
  import opened Portfolio
  import opened PaperExecution
  import opened LiveEvents
  import opened LiveJournal
  import opened LiveSubmission
  import opened LiveBroker
  import PaperBroker
  import Seqs
  import Sorting
  import TradeStream

  datatype Op =
    | Execute(action: FeasibleAction, prices: Prices)
    | Kill
    | Reenable
    | RecordLoss(amount: real)
    | ResetDay
    | Attach(cycleId: string, log: seq<LiveEvent>)
    | Detach
    | EnableLive(token: string, env: map<string, string>, confirmation: string)

  /** Each operation as the class performs it; a refused one changes nothing. */
  ghost function Apply(s: Setup, l: Live, op: Op): Live {
    match op
    case Execute(a, prices) => ExecuteLive(s, l, a, prices).0
    case Kill => l.(desk := KillNow(l.desk, "manual"))
    case Reenable => l.(desk := l.desk.(killed := false))
    case RecordLoss(amount) => if amount >= 0.0 then AddLoss(s, l, amount) else l
    case ResetDay => l.(lossToday := 0.0)
    case Attach(id, log) => if l.desk.cycleId.None? then l.(desk := l.desk.(cycleId := Some(id), log := log)) else l
    case Detach => l.(desk := l.desk.(cycleId := None, log := []))
    case EnableLive(token, env, confirmation) => if Approved(token, env, confirmation) then l.(enabled := true) else l
  }

  ghost function Run(s: Setup, l: Live, ops: seq<Op>): Live {
    if ops == [] then l else Apply(s, Run(s, l, ops[..|ops| - 1]), ops[|ops| - 1])
  }

  lemma {:induction false} RunConcat(s: Setup, l: Live, a: seq<Op>, b: seq<Op>)
    ensures Run(s, l, a + b) == Run(s, Run(s, l, a), b)
  {
    if b == [] {
      assert a + b == a;
    } else {
      var n := |b| - 1;
      Seqs.PrefixOfConcat(a, b, |a| + n);
      RunConcat(s, l, a, b[..n]);
      RunOneMore(s, l, a + b, a + b[..n], b[n]);
      RunOneMore(s, Run(s, l, a), b, b[..n], b[n]);
    }
  }

  lemma RunOneMore(s: Setup, l: Live, ops: seq<Op>, before: seq<Op>, last: Op)
    requires ops != [] && ops[..|ops| - 1] == before && ops[|ops| - 1] == last
    ensures Run(s, l, ops) == Apply(s, Run(s, l, before), last)
  {
  }

  // ---- the venue is out of reach ----

  predicate NeverReenabled(ops: seq<Op>) {
    forall op <- ops :: !op.Reenable?
  }

  lemma KilledStep(s: Setup, l: Live, op: Op)
    requires l.desk.killed && !op.Reenable?
    ensures var l' := Apply(s, l, op);
            l'.desk.killed && l'.desk.venue == l.desk.venue && l'.desk.journal == l.desk.journal && l'.book == l.book
    ensures op.Execute? ==>
      ExecuteLive(s, l, op.action, op.prices).1
      == Reported(SkippedReport(op.action.sourceDecisionRunId, "kill switch engaged"))
  {
  }

  /** From a kill to the next re-enable nothing reaches the venue, the journal or the paper book. */
  lemma {:induction false} NoSubmitWhileKilled(s: Setup, l: Live, ops: seq<Op>)
    requires l.desk.killed && NeverReenabled(ops)
    ensures var l' := Run(s, l, ops);
            l'.desk.killed && l'.desk.venue == l.desk.venue && l'.desk.journal == l.desk.journal && l'.book == l.book
  {
    if ops != [] {
      var n := |ops| - 1;
      assert ops[n] in ops && forall op <- ops[..n] :: op in ops;
      NoSubmitWhileKilled(s, l, ops[..n]);
      KilledStep(s, Run(s, l, ops[..n]), ops[n]);
    }
  }

  predicate NeverApproved(ops: seq<Op>) {
    forall op <- ops :: op.EnableLive? ==> !Approved(op.token, op.env, op.confirmation)
  }

  /** Live orders are off until both factors were presented. */
  lemma {:induction false} NoSubmitUnlessApproved(s: Setup, l: Live, ops: seq<Op>)
    requires !l.enabled && NeverApproved(ops)
    ensures var l' := Run(s, l, ops);
            !l'.enabled && l'.desk.venue == l.desk.venue && l'.desk.journal == l.desk.journal && l'.book == l.book
  {
    if ops != [] {
      var n := |ops| - 1;
      assert ops[n] in ops && forall op <- ops[..n] :: op in ops;
      NoSubmitUnlessApproved(s, l, ops[..n]);
    }
  }

  // ---- the daily loss cap ----

  /** Losses recorded since the last day boundary, on top of what was there before. */
  function DayLoss(before: real, ops: seq<Op>): real {
    if ops == [] then before
    else
      var earlier := DayLoss(before, ops[..|ops| - 1]);
      match ops[|ops| - 1]
      case RecordLoss(amount) => if amount >= 0.0 then earlier + amount else earlier
      case ResetDay => 0.0
      case _ => earlier
  }

  lemma {:induction false} LossIsDayLoss(s: Setup, l: Live, ops: seq<Op>)
    ensures Run(s, l, ops).lossToday == DayLoss(l.lossToday, ops)
  {
    if ops != [] {
      LossIsDayLoss(s, l, ops[..|ops| - 1]);
    }
  }

  lemma {:induction false} OverCapIsKilled(s: Setup, l: Live, ops: seq<Op>)
    requires s.lossCap > 0.0 && NeverReenabled(ops)
    requires l.lossToday > s.lossCap ==> l.desk.killed
    ensures var l' := Run(s, l, ops); l'.lossToday > s.lossCap ==> l'.desk.killed
  {
    if ops != [] {
      var n := |ops| - 1;
      assert ops[n] in ops && forall op <- ops[..n] :: op in ops;
      OverCapIsKilled(s, l, ops[..n]);
      CapStep(s, Run(s, l, ops[..n]), ops[n]);
    }
  }

  lemma CapStep(s: Setup, l: Live, op: Op)
    requires s.lossCap > 0.0 && !op.Reenable?
    requires l.lossToday > s.lossCap ==> l.desk.killed
    ensures var l' := Apply(s, l, op); l'.lossToday > s.lossCap ==> l'.desk.killed
  {
    if l.desk.killed {
      KilledStep(s, l, op);
    } else if op.Execute? {
      assert Apply(s, l, op).lossToday == l.lossToday;
    }
  }

  /** Once a day's losses pass the cap, no later day boundary lets an order out: only a re-enable does. */
  lemma CapBreachHolds(s: Setup, l: Live, before: seq<Op>, after: seq<Op>)
    requires s.lossCap > 0.0 && l.lossToday <= s.lossCap
    requires NeverReenabled(before) && NeverReenabled(after)
    requires DayLoss(l.lossToday, before) > s.lossCap
    ensures Run(s, l, before + after).desk.killed
    ensures Run(s, l, before + after).desk.venue == Run(s, l, before).desk.venue
  {
    LossIsDayLoss(s, l, before);
    OverCapIsKilled(s, l, before);
    RunConcat(s, l, before, after);
    NoSubmitWhileKilled(s, Run(s, l, before), after);
  }

  // ---- one execute ----

  lemma {:induction false} PlanLegsFilled(b: Book, ts: seq<Ticker>, target: map<Ticker, real>, prices: Prices)
    requires target.Keys <= prices.Keys && forall t <- ts :: t in target
    ensures AllFilled(SellPlan(b, ts, target, prices) + BuyPlan(b, ts, target, prices))
  {
    var sells, buys := SellPlan(b, ts, target, prices), BuyPlan(b, ts, target, prices);
    forall leg: Fill | leg in sells + buys ensures leg.status == FillStatus.Filled {
      PaperBroker.PlanMembers(b, ts, target, prices, leg);
    }
  }

  lemma PaperLegs(b: Book, targets: seq<TargetPosition>, prices: Prices)
    requires FullyPriced(b, targets, prices)
    ensures AllFilled(FillsFor(b, targets, prices))
  {
    var target := TargetFor(b, targets, prices);
    PlanLegsFilled(b, Sorting.Ascending(target.Keys), target, prices);
  }

  /** Past the kill switch, the flag and the pre-flight: the legs go to the venue. */
  predicate Submits(s: Setup, l: Live, a: FeasibleAction, prices: Prices) {
    !l.desk.killed && l.enabled && s.hasClient && a.action == Adopt && FullyPriced(l.book, a.targets, prices)
  }

  ghost function LegsOf(l: Live, a: FeasibleAction, prices: Prices): (legs: seq<Fill>)
    requires FullyPriced(l.book, a.targets, prices)
    ensures AllFilled(legs)
  {
    PaperLegs(l.book, a.targets, prices);
    FillsFor(l.book, a.targets, prices)
  }

  lemma ExecuteSubmits(s: Setup, l: Live, a: FeasibleAction, prices: Prices)
    requires Submits(s, l, a, prices)
    ensures ExecuteLive(s, l, a, prices)
         == Finish(l.(book := ExecuteBook(l.book, a, prices)), BatchFor(s, a, prices),
                   SubmitLegs(s.oracle, l.desk, BatchFor(s, a, prices), LegsOf(l, a, prices)))
  {
  }

  /** Past the kill switch and the flag, an adopted and priced action has moved the paper book whatever comes next. */
  lemma PreflightAlwaysMovesTheBook(s: Setup, l: Live, a: FeasibleAction, prices: Prices)
    ensures var l' := ExecuteLive(s, l, a, prices).0;
            && l'.book == (if !l.desk.killed && l.enabled then ExecuteBook(l.book, a, prices) else l.book)
            && (!Submits(s, l, a, prices) ==> l'.desk.venue == l.desk.venue && l'.desk.journal == l.desk.journal)
  {
    if Submits(s, l, a, prices) {
      ExecuteSubmits(s, l, a, prices);
    }
  }

  /** A rebalance that fills anything leaves other books than it found. */
  lemma FillsMoveTheBook(b: Book, targets: seq<TargetPosition>, prices: Prices)
    requires CanRebalance(b, targets, prices) && FillsFor(b, targets, prices) != []
    ensures Replay(b, FillsFor(b, targets, prices)) != b
  {
    var target, fills := TargetFor(b, targets, prices), FillsFor(b, targets, prices);
    var ts := Sorting.Ascending(target.Keys);
    RebalanceOutcome(b, targets, prices);
    PlanMoves(b, ts, target, prices);
    var f := fills[0];
    assert f in SellPlan(b, ts, target, prices) || f in BuyPlan(b, ts, target, prices);
    assert target[f.ticker] != Held(b, f.ticker);
  }

  /** So after a rejected batch the paper book is not what it was, although the report says nothing happened. */
  lemma RejectionLeavesTheBookMoved(s: Setup, l: Live, a: FeasibleAction, prices: Prices)
    requires CanRebalance(l.book, a.targets, prices)
    requires var r := ExecuteLive(s, l, a, prices).1; r.Reported? && r.report.status == ExecutionStatus.Rejected
    ensures ExecuteLive(s, l, a, prices).0.book != l.book
  {
    assert Submits(s, l, a, prices);
    ExecuteSubmits(s, l, a, prices);
    assert LegsOf(l, a, prices) != [];
    FillsMoveTheBook(l.book, a.targets, prices);
  }

  /** A SUBMITTED report: its fills, the new journal rows, events and open orders match leg by leg. */
  lemma SubmittedReportCorresponds(s: Setup, l: Live, a: FeasibleAction, prices: Prices)
    requires var r := ExecuteLive(s, l, a, prices).1; r.Reported? && r.report.status == ExecutionStatus.Submitted
    ensures Submits(s, l, a, prices)
    ensures var b, legs, (l', r) := BatchFor(s, a, prices), LegsOf(l, a, prices), ExecuteLive(s, l, a, prices);
            && SubmitLegs(s.oracle, l.desk, b, legs).Going?
            && WentThrough(l.desk, b, legs, OrdersOpened(s.oracle, l.desk, b, legs), l'.desk, r.report.fills)
  {
    assert Submits(s, l, a, prices);
    var b, legs := BatchFor(s, a, prices), LegsOf(l, a, prices);
    ExecuteSubmits(s, l, a, prices);
    if SubmitLegs(s.oracle, l.desk, b, legs).Stopped? {
      StoppedIsRejected(s.oracle, l.desk, b, legs);
    } else {
      SubmittedCorrespondence(s.oracle, l.desk, b, legs);
    }
  }

  lemma {:induction false} StoppedIsRejected(o: Oracle, d: Desk, b: Batch, legs: seq<Fill>)
    requires var p := SubmitLegs(o, d, b, legs); p.Stopped?
    ensures var r := SubmitLegs(o, d, b, legs).outcome;
            !r.NoClient? && (r.Reported? ==> r.report.status == ExecutionStatus.Rejected && r.report.fills == [])
  {
    var n := |legs| - 1;
    if SubmitLegs(o, d, b, legs[..n]).Stopped? {
      StoppedIsRejected(o, d, b, legs[..n]);
    }
  }

  /** A REJECTED report: none of its orders stays open at the venue, or the kill switch is engaged. */
  lemma RejectedReportRollsBack(s: Setup, l: Live, a: FeasibleAction, prices: Prices)
    requires var r := ExecuteLive(s, l, a, prices).1; r.Reported? && r.report.status == ExecutionStatus.Rejected
    ensures var l' := ExecuteLive(s, l, a, prices).0;
            l'.desk.killed || l'.desk.venue.open == [] || l'.desk.venue.open == l.desk.venue.open
    ensures var l' := ExecuteLive(s, l, a, prices).0;
            l'.desk.killed ==> !s.oracle.cancelWorks(l.desk.venue.cancels)
  {
    assert Submits(s, l, a, prices);
    ExecuteSubmits(s, l, a, prices);
    RejectedLeavesNothingOpen(s.oracle, l.desk, BatchFor(s, a, prices), LegsOf(l, a, prices));
  }

  lemma NothingLeftToSubmit(s: Setup, l: Live, a: FeasibleAction, prices: Prices)
    requires Submits(s, l, a, prices) && FillsFor(l.book, a.targets, prices) == []
    ensures var (l', r) := ExecuteLive(s, l, a, prices);
            l'.desk == l.desk && r == Reported(SubmittedReport(BatchFor(s, a, prices), []))
  {
    ExecuteSubmits(s, l, a, prices);
  }

  /**
   * Because the pre-flight moves the paper book even when the venue rejects, trying the same action again
   * at the same prices submits nothing at all, and says SUBMITTED.
   */
  lemma RetryAfterRejectionSubmitsNothing(s: Setup, l: Live, a: FeasibleAction, prices: Prices)
    requires CanRebalance(l.book, a.targets, prices)
    requires var r := ExecuteLive(s, l, a, prices).1; r.Reported? && r.report.status == ExecutionStatus.Rejected
    requires !ExecuteLive(s, l, a, prices).0.desk.killed
    ensures var l' := ExecuteLive(s, l, a, prices).0;
            var (l'', r) := ExecuteLive(s, l', a, prices);
            l'' == l' && r == Reported(SubmittedReport(BatchFor(s, a, prices), []))
  {
    assert Submits(s, l, a, prices);
    ExecuteSubmits(s, l, a, prices);
    var l' := ExecuteLive(s, l, a, prices).0;
    SecondRunIsSilent(l.book, a.targets, prices);
    assert Submits(s, l', a, prices);
    NothingLeftToSubmit(s, l', a, prices);
    assert ExecuteBook(l'.book, a, prices) == l'.book;
  }

  /** With echoed ids, the first leg that does not go through decides the execute, and none makes it SUBMITTED. */
  lemma OutcomeOfExecute(s: Setup, l: Live, a: FeasibleAction, prices: Prices, i: nat)
    requires Submits(s, l, a, prices) && Echoes(s.oracle)
    requires var b, legs := BatchFor(s, a, prices), LegsOf(l, a, prices);
             && i <= |legs| && AllGoThrough(s.oracle, l.desk, b, legs, i)
             && (i < |legs| ==> !GoesThrough(s.oracle, l.desk, b, legs, i))
    ensures var b, legs, r := BatchFor(s, a, prices), LegsOf(l, a, prices), ExecuteLive(s, l, a, prices).1;
            if i < |legs| then r == EndingOf(AnswerAt(s.oracle, l.desk, b, legs, i), l.desk, b, legs[i])
            else r.Reported? && r.report.status == ExecutionStatus.Submitted && |r.report.fills| == |legs|
  {
    var b, legs := BatchFor(s, a, prices), LegsOf(l, a, prices);
    ExecuteSubmits(s, l, a, prices);
    OutcomeOfBatch(s.oracle, l.desk, b, legs, i);
    if i == |legs| {
      SubmittedCorrespondence(s.oracle, l.desk, b, legs);
    }
  }

  // ---- the error at work ----

  /** The venue accepts whatever it is sent. */
  ghost predicate AcceptsAll(o: Oracle) {
    forall n, r :: o.answers(n, r).Accepted?
  }

  /** The first leg's id is journaled: the venue opens the order again, and the error escapes with it. */
  lemma JournaledFirstLegRaises(s: Setup, l: Live, a: FeasibleAction, prices: Prices)
    requires Submits(s, l, a, prices) && Echoes(s.oracle) && AcceptsAll(s.oracle)
    requires LegsOf(l, a, prices) != [] && Taken(l.desk, IdOf(l.desk, BatchFor(s, a, prices), LegsOf(l, a, prices)[0]))
    ensures var id := IdOf(l.desk, BatchFor(s, a, prices), LegsOf(l, a, prices)[0]);
            var (l', r) := ExecuteLive(s, l, a, prices);
            && r == IntegrityError(id) && l'.desk.killed == l.desk.killed && l'.desk.journal == l.desk.journal
            && |l'.desk.venue.open| == |l.desk.venue.open| + 1
            && l'.desk.venue.open[|l.desk.venue.open|].clientOrderId == id
  {
    var b, legs := BatchFor(s, a, prices), LegsOf(l, a, prices);
    assert RepeatsId(l.desk, b, legs, 0);
    OutcomeOfExecute(s, l, a, prices, 0);
    OutcomeOfBatch(s.oracle, l.desk, b, legs, 0);
    ExecuteSubmits(s, l, a, prices);
    StoppedAtFirst(s.oracle, l.desk, b, legs);
  }

  lemma StoppedAtFirst(o: Oracle, d: Desk, b: Batch, legs: seq<Fill>)
    requires AllFilled(legs) && Echoes(o) && AcceptsAll(o)
    requires SubmitLegs(o, d, b, legs).Stopped? && SubmitLegs(o, d, b, legs).outcome.IntegrityError?
    requires StoppedAt(o, d, b, legs) == 0
    ensures var d' := SubmitLegs(o, d, b, legs).desk;
            && d'.killed == d.killed && d'.journal == d.journal
            && |d'.venue.open| == |d.venue.open| + 1
            && d'.venue.open[|d.venue.open|].clientOrderId == IdOf(d, b, legs[0])
  {
    IntegrityErrorLeavesOrdersOpen(o, d, b, legs);
    assert legs[..0] == [];
  }

  /**
   * How a run gets there: the process restarts after a SUBMITTED batch, keeps its durable journal, starts over
   * with the paper book it had, and is given the same action in the same cycle.
   */
  lemma ResubmissionAfterRestartRaises(s: Setup, l: Live, a: FeasibleAction, prices: Prices)
    requires Submits(s, l, a, prices) && l.desk.journal.Some? && Echoes(s.oracle) && AcceptsAll(s.oracle)
    requires LegsOf(l, a, prices) != []
    requires var r := ExecuteLive(s, l, a, prices).1; r.Reported? && r.report.status == ExecutionStatus.Submitted
    ensures var restarted := ExecuteLive(s, l, a, prices).0.(book := l.book);
            ExecuteLive(s, restarted, a, prices).1
            == IntegrityError(IdOf(l.desk, BatchFor(s, a, prices), LegsOf(l, a, prices)[0]))
  {
    var b, legs := BatchFor(s, a, prices), LegsOf(l, a, prices);
    SubmittedReportCorresponds(s, l, a, prices);
    var (l', r) := ExecuteLive(s, l, a, prices);
    var orders := OrdersOpened(s.oracle, l.desk, b, legs);
    AllEchoed(s.oracle, l.desk, b, legs);
    TakenAfterRows(l.desk, b, legs, orders, l'.desk, r.report.fills, IdOf(l.desk, b, legs[0]));
    assert orders[0] in orders;
    JournaledFirstLegRaises(s, l'.(book := l.book), a, prices);
  }

  // One run that does: capital 100, one target at full weight, an accepting venue.

  function Accepting(): Oracle {
    Oracle((n: nat, r: Request) => Accepted(Order("order", r.clientOrderId, r.symbol, r.qty)), (n: nat) => true)
  }

  function OneTarget(): FeasibleAction {
    FeasibleAction(Adopt, [TargetPosition("AAPL", Buy, 1.0)], [], "run")
  }

  function OnePrice(): Prices {
    map["AAPL" := 10.0]
  }

  function LiveSetup(digest: Ticket -> string): Setup {
    Setup(1.0, true, digest, Accepting())
  }

  function FreshLive(): Live {
    Live(true, 0.0, Book(100.0, map[], 0.0), Desk(false, Some("c1"), Some(EmptyJournal), FreshVenue, []))
  }

  /** The one order of that action: ten shares at ten. */
  lemma TheLeg(digest: Ticket -> string)
    ensures Submits(LiveSetup(digest), FreshLive(), OneTarget(), OnePrice())
    ensures LegsOf(FreshLive(), OneTarget(), OnePrice()) == [FilledLeg("AAPL", Buy, 10.0, 10.0)]
  {
    TheTarget();
    var ts := Sorting.Ascending({"AAPL"});
    assert ts == ["AAPL"];
    assert ts[..0] == [];
  }

  /** All of the capital at that price is ten shares. */
  lemma TheTarget()
    ensures FullyPriced(FreshLive().book, OneTarget().targets, OnePrice())
    ensures TargetFor(FreshLive().book, OneTarget().targets, OnePrice()) == map["AAPL" := 10.0]
  {
    var book, targets, prices := FreshLive().book, OneTarget().targets, OnePrice();
    assert targets[0] in targets && TickerSet(targets) == {"AAPL"};
    assert Worths(book.positions, Marked(prices)) == map[];
    WeightOf(targets, "AAPL");
    assert TargetFor(book, targets, prices).Keys == {"AAPL"};
  }

  lemma AcceptingVenue()
    ensures Echoes(Accepting()) && AcceptsAll(Accepting())
  {
  }

  /**
   * Whatever the digest, as long as the venue accepts an id twice: the order is submitted, the process restarts,
   * and submitting it again raises the integrity error of its id.
   */
  lemma ConcreteResubmissionRaises(digest: Ticket -> string)
    ensures var s := LiveSetup(digest);
            var (l', first) := ExecuteLive(s, FreshLive(), OneTarget(), OnePrice());
            var restarted := l'.(book := FreshLive().book);
            && first.Reported? && first.report.status == ExecutionStatus.Submitted
            && ExecuteLive(s, restarted, OneTarget(), OnePrice()).1
               == IntegrityError(Truncate(digest(Ticket("c1", "run", "AAPL", Buy, 10.0))))
  {
    TheLeg(digest);
    AcceptingVenue();
    var s, l, a, prices := LiveSetup(digest), FreshLive(), OneTarget(), OnePrice();
    FirstLegGoesThrough(digest);
    OutcomeOfExecute(s, l, a, prices, 1);
    ResubmissionAfterRestartRaises(s, l, a, prices);
  }

  lemma FirstLegGoesThrough(digest: Ticket -> string)
    requires Submits(LiveSetup(digest), FreshLive(), OneTarget(), OnePrice())
    requires |LegsOf(FreshLive(), OneTarget(), OnePrice())| == 1
    ensures AllGoThrough(Accepting(), FreshLive().desk, BatchFor(LiveSetup(digest), OneTarget(), OnePrice()),
                         LegsOf(FreshLive(), OneTarget(), OnePrice()), 1)
  {
    AcceptingVenue();
  }

  // ---- open orders and the journal ----

  /** Every order open at the venue has its client order id in the journal. */
  ghost predicate Tracked(d: Desk) {
    d.journal.Some? ==> forall order <- d.venue.open :: Registered(d.journal.value, order.clientOrderId)
  }

  lemma RegisteredMore(j: Journal, s: Submission, id: string)
    ensures Registered(j.(submissions := j.submissions + [s]), id) <==> Registered(j, id) || s.clientOrderId == id
  {
    var more := j.submissions + [s];
    assert s in more && forall x <- j.submissions :: x in more;
  }

  lemma SubmitLegTracked(o: Oracle, d: Desk, b: Batch, leg: Fill, fills: seq<Fill>)
    requires Tracked(d)
    ensures Tracked(SubmitLeg(o, d, b, leg, fills).desk)
  {
    var after := SubmitLeg(o, d, b, leg, fills).desk;
    if d.journal.Some? && leg.status == FillStatus.Filled && AnswerFor(o, d, b, leg).Accepted? {
      var order := AnswerFor(o, d, b, leg).order;
      forall x | x in after.venue.open ensures Registered(after.journal.value, x.clientOrderId) {
        RegisteredMore(d.journal.value, SubmissionFor(d, b, leg, order), x.clientOrderId);
      }
    }
  }

  lemma {:induction false} SubmitLegsTracked(o: Oracle, d: Desk, b: Batch, legs: seq<Fill>)
    requires Tracked(d)
    ensures Tracked(SubmitLegs(o, d, b, legs).desk)
  {
    if legs != [] {
      var n := |legs| - 1;
      SubmitLegsTracked(o, d, b, legs[..n]);
      var p := SubmitLegs(o, d, b, legs[..n]);
      if p.Going? {
        SubmitLegTracked(o, p.desk, b, legs[n], p.fills);
      }
    }
  }

  lemma StepTracked(s: Setup, l: Live, op: Op)
    requires Tracked(l.desk)
    ensures Tracked(Apply(s, l, op).desk)
  {
    if op.Execute? && Submits(s, l, op.action, op.prices) {
      ExecuteSubmits(s, l, op.action, op.prices);
      SubmitLegsTracked(s.oracle, l.desk, BatchFor(s, op.action, op.prices), LegsOf(l, op.action, op.prices));
    } else {
      assert Apply(s, l, op).desk.venue == l.desk.venue && Apply(s, l, op).desk.journal == l.desk.journal;
    }
  }

  /** Even an escaped IntegrityError leaves the order under a journaled id. */
  lemma {:induction false} OpenOrdersAreJournaled(s: Setup, l: Live, ops: seq<Op>)
    requires Tracked(l.desk)
    ensures Tracked(Run(s, l, ops).desk)
  {
    if ops != [] {
      var n := |ops| - 1;
      OpenOrdersAreJournaled(s, l, ops[..n]);
      StepTracked(s, Run(s, l, ops[..n]), ops[n]);
    }
  }

  /** So the first report of any execution or cancellation of an open order is announced, not dropped. */
  lemma OpenOrderUpdatesAreAnnounced(d: Desk, order: Order, raw: TradeStream.Message)
    requires Tracked(d) && d.journal.Some? && order in d.venue.open
    requires var u := TradeStream.Decode(raw);
             && u.Some? && u.value.clientOrderId == order.clientOrderId
             && !TradeStream.Repeats(d.journal.value, u.value)
    ensures |TradeStream.EmittedBy(d.journal.value, raw)| == 1
  {
  }
}
