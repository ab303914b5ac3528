/** Submitting a filled paper batch to the venue, order by order, on values. */
module LiveSubmission {
  import opened Wrappers
  import opened Decisions
  import opened ExecutionReports
  import opened LiveEvents
  import opened LiveJournal
  import Seqs

  // ---- the venue ----

  datatype Request = Request(symbol: Ticker, qty: real, side: Side, clientOrderId: string)

  /** An accepted order as the venue echoes it. */
  datatype Order = Order(orderId: string, clientOrderId: string, symbol: string, qty: real)

  datatype Answer = Accepted(order: Order) | Refused(error: string)

  /** What the outside world will do: the answer to the n-th submit, and whether the n-th cancel-all succeeds. */
  datatype Oracle = Oracle(answers: (nat, Request) -> Answer, cancelWorks: nat -> bool)

  /** What the venue was asked and has open: a refused submit opens nothing,
      a successful cancel-all closes everything. */
  datatype Venue = Venue(received: seq<Request>, cancels: nat, open: seq<Order>)

  const FreshVenue := Venue([], 0, [])

  function AfterSubmit(v: Venue, request: Request, answer: Answer): Venue {
    v.(received := v.received + [request], open := if answer.Accepted? then v.open + [answer.order] else v.open)
  }

  function AfterCancelAll(v: Venue, works: bool): Venue {
    v.(cancels := v.cancels + 1, open := if works then [] else v.open)
  }

  // ---- order keys ----

  datatype Ticket = Ticket(cycleId: string, decisionRunId: string, ticker: Ticker, side: Side, quantity: real)

  const CLIENT_ORDER_ID_TRUNCATION := 48

  function Truncate(key: string): string {
    if |key| <= CLIENT_ORDER_ID_TRUNCATION then key else key[..CLIENT_ORDER_ID_TRUNCATION]
  }

  // ---- the broker's desk ----

  /** What a submission can change; `log` is the attached event log, empty while no cycle is attached. */
  datatype Desk = Desk(killed: bool, cycleId: Option<string>, journal: Option<Journal>, venue: Venue,
                       log: seq<LiveEvent>)

  /** A batch in the making: the broker, the decision it serves, its prices. */
  datatype Batch = Batch(runId: string, prices: map<Ticker, real>, digest: Ticket -> string)

  datatype Outcome =
    | Reported(report: ExecutionReport)
    | IntegrityError(clientOrderId: string)
    | NoClient

  datatype Progress =
    | Going(desk: Desk, fills: seq<Fill>)
    | Stopped(desk: Desk, outcome: Outcome)

  function CycleName(d: Desk): string {
    if d.cycleId.Some? then d.cycleId.value else ""
  }

  function Emit(d: Desk, e: LiveEvent): Desk {
    if d.cycleId.Some? then d.(log := d.log + [e]) else d
  }

  function FullKey(d: Desk, b: Batch, leg: Fill): string {
    b.digest(Ticket(CycleName(d), b.runId, leg.ticker, leg.side, leg.quantity))
  }

  function RequestFor(d: Desk, b: Batch, leg: Fill): Request {
    Request(leg.ticker, leg.quantity, leg.side, Truncate(FullKey(d, b, leg)))
  }

  function AnswerFor(o: Oracle, d: Desk, b: Batch, leg: Fill): Answer {
    o.answers(|d.venue.received|, RequestFor(d, b, leg))
  }

  function SubmissionFor(d: Desk, b: Batch, leg: Fill, order: Order): Submission {
    Submission(order.clientOrderId, CycleName(d), b.runId, order.orderId, FullKey(d, b, leg),
               order.symbol, leg.side, order.qty)
  }

  function SubmittedEvent(d: Desk, b: Batch, leg: Fill, order: Order): LiveEvent {
    LiveSubmitted(CycleName(d), b.runId, order.orderId, order.clientOrderId, FullKey(d, b, leg),
                  order.symbol, order.qty, leg.side)
  }

  const PENDING :=
    "venue submission accepted; actual fill price via BROKER_LIVE_FILLED event (websocket — next slice)"

  function SubmittedFill(b: Batch, leg: Fill, order: Order): Fill {
    var price := if leg.ticker in b.prices then b.prices[leg.ticker] else 0.0;
    Fill(leg.ticker, leg.side, FillStatus.Submitted, order.qty, price, order.qty * price, Some(PENDING))
  }

  function SideName(side: Side): string {
    match side
    case Buy => "buy"
    case Sell => "sell"
  }

  function RefusalReason(leg: Fill, error: string): string {
    "Alpaca rejected " + leg.ticker + " " + SideName(leg.side) + ": " + error
  }

  function RejectedReport(b: Batch, reason: string): ExecutionReport {
    ExecutionReport(b.runId, ExecutionStatus.Rejected, [], Some(reason))
  }

  function SubmittedReport(b: Batch, fills: seq<Fill>): ExecutionReport {
    ExecutionReport(b.runId, ExecutionStatus.Submitted, fills, None)
  }

  predicate Taken(d: Desk, id: string) {
    d.journal.Some? && Registered(d.journal.value, id)
  }

  function Journaled(d: Desk, s: Submission): Desk {
    if d.journal.Some? then d.(journal := Some(d.journal.value.(submissions := d.journal.value.submissions + [s])))
    else d
  }

  /** Undo what was submitted, or engage the kill switch if that fails. */
  function Rollback(o: Oracle, d: Desk): Desk {
    var works := o.cancelWorks(d.venue.cancels);
    var cancelled := d.(venue := AfterCancelAll(d.venue, works));
    if works then cancelled
    else Emit(cancelled.(killed := true), LiveKillSwitch(CycleName(d), "rollback_failed"))
  }

  function RefuseLeg(o: Oracle, d: Desk, b: Batch, leg: Fill, error: string, submitted: nat): Desk {
    var undone := if submitted > 0 then Rollback(o, d) else d;
    Emit(undone, LiveRejected(CycleName(d), b.runId, RefusalReason(leg, error)))
  }

  function SubmitLeg(o: Oracle, d: Desk, b: Batch, leg: Fill, fills: seq<Fill>): Progress {
    if leg.status != FillStatus.Filled then Going(d, fills)
    else
      var answer := AnswerFor(o, d, b, leg);
      var sent := d.(venue := AfterSubmit(d.venue, RequestFor(d, b, leg), answer));
      match answer
      case Refused(error) =>
        Stopped(RefuseLeg(o, sent, b, leg, error, |fills|),
                Reported(RejectedReport(b, RefusalReason(leg, error))))
      case Accepted(order) =>
        if Taken(d, order.clientOrderId) then Stopped(sent, IntegrityError(order.clientOrderId))
        else
          Going(Emit(Journaled(sent, SubmissionFor(d, b, leg, order)), SubmittedEvent(d, b, leg, order)),
                fills + [SubmittedFill(b, leg, order)])
  }

  /** How far the batch gets on its first legs. */
  function SubmitLegs(o: Oracle, d: Desk, b: Batch, legs: seq<Fill>): Progress {
    if legs == [] then Going(d, [])
    else
      match SubmitLegs(o, d, b, legs[..|legs| - 1])
      case Stopped(desk, outcome) => Stopped(desk, outcome)
      case Going(desk, fills) => SubmitLeg(o, desk, b, legs[|legs| - 1], fills)
  }

  lemma SubmitOneMore(o: Oracle, d: Desk, b: Batch, legs: seq<Fill>, i: nat)
    requires i < |legs| && SubmitLegs(o, d, b, legs[..i]).Going?
    ensures var p := SubmitLegs(o, d, b, legs[..i]);
            SubmitLegs(o, d, b, legs[..i + 1]) == SubmitLeg(o, p.desk, b, legs[i], p.fills)
  {
    assert legs[..i + 1][..i] == legs[..i];
  }

  lemma {:induction false} StoppedStays(o: Oracle, d: Desk, b: Batch, legs: seq<Fill>, i: nat)
    requires i <= |legs| && SubmitLegs(o, d, b, legs[..i]).Stopped?
    ensures SubmitLegs(o, d, b, legs) == SubmitLegs(o, d, b, legs[..i])
  {
    if i == |legs| {
      Seqs.FullPrefix(legs);
    } else {
      var n := |legs| - 1;
      assert legs[..n][..i] == legs[..i];
      StoppedStays(o, d, b, legs[..n], i);
    }
  }

  // ---- a batch that went through ----

  predicate AllFilled(legs: seq<Fill>) {
    forall leg <- legs :: leg.status == FillStatus.Filled
  }

  /** The orders the venue opened for a batch, in order. */
  function OrdersOpened(o: Oracle, d: Desk, b: Batch, legs: seq<Fill>): (orders: seq<Order>)
    requires SubmitLegs(o, d, b, legs).Going? && AllFilled(legs)
    ensures |orders| == |legs|
  {
    if legs == [] then []
    else
      var n := |legs| - 1;
      assert legs[n] in legs && forall leg <- legs[..n] :: leg in legs;
      OrdersOpened(o, d, b, legs[..n]) + [AnswerFor(o, SubmitLegs(o, d, b, legs[..n]).desk, b, legs[n]).order]
  }

  function RequestsOf(d: Desk, b: Batch, legs: seq<Fill>): (requests: seq<Request>)
    ensures |requests| == |legs| && forall i :: 0 <= i < |legs| ==> requests[i] == RequestFor(d, b, legs[i])
  {
    seq(|legs|, i requires 0 <= i < |legs| => RequestFor(d, b, legs[i]))
  }

  function RowsFor(d: Desk, b: Batch, legs: seq<Fill>, orders: seq<Order>): seq<Submission>
    requires |legs| == |orders|
  {
    seq(|legs|, i requires 0 <= i < |legs| => SubmissionFor(d, b, legs[i], orders[i]))
  }

  function EventsFor(d: Desk, b: Batch, legs: seq<Fill>, orders: seq<Order>): seq<LiveEvent>
    requires |legs| == |orders|
  {
    if d.cycleId.None? then []
    else seq(|legs|, i requires 0 <= i < |legs| => SubmittedEvent(d, b, legs[i], orders[i]))
  }

  function FillsOf(b: Batch, legs: seq<Fill>, orders: seq<Order>): seq<Fill>
    requires |legs| == |orders|
  {
    seq(|legs|, i requires 0 <= i < |legs| => SubmittedFill(b, legs[i], orders[i]))
  }

  function WithRows(j: Option<Journal>, rows: seq<Submission>): Option<Journal> {
    if j.Some? then Some(j.value.(submissions := j.value.submissions + rows)) else None
  }

  /** The whole effect of accepted legs, in one piece. */
  ghost predicate WentThrough(d: Desk, b: Batch, legs: seq<Fill>, orders: seq<Order>, after: Desk, fills: seq<Fill>)
    requires |legs| == |orders|
  {
    && fills == FillsOf(b, legs, orders)
    && after.killed == d.killed && after.cycleId == d.cycleId
    && after.journal == WithRows(d.journal, RowsFor(d, b, legs, orders))
    && after.venue == d.venue.(received := d.venue.received + RequestsOf(d, b, legs), open := d.venue.open + orders)
    && after.log == d.log + EventsFor(d, b, legs, orders)
  }

  lemma OneMoreAccepted(d: Desk, b: Batch, legs: seq<Fill>, orders: seq<Order>, leg: Fill, order: Order,
                        mid: Desk, fills: seq<Fill>)
    requires |legs| == |orders| && WentThrough(d, b, legs, orders, mid, fills)
    ensures var sent := mid.(venue := AfterSubmit(mid.venue, RequestFor(mid, b, leg), Accepted(order)));
            WentThrough(d, b, legs + [leg], orders + [order],
                        Emit(Journaled(sent, SubmissionFor(mid, b, leg, order)), SubmittedEvent(mid, b, leg, order)),
                        fills + [SubmittedFill(b, leg, order)])
  {
    assert RowsFor(d, b, legs + [leg], orders + [order])
        == RowsFor(d, b, legs, orders) + [SubmissionFor(mid, b, leg, order)];
    if d.cycleId.Some? {
      assert EventsFor(d, b, legs + [leg], orders + [order])
          == EventsFor(d, b, legs, orders) + [SubmittedEvent(mid, b, leg, order)];
    }
    if d.journal.Some? {
      Seqs.Assoc(d.journal.value.submissions, RowsFor(d, b, legs, orders), [SubmissionFor(mid, b, leg, order)]);
    }
    assert FillsOf(b, legs + [leg], orders + [order]) == FillsOf(b, legs, orders) + [SubmittedFill(b, leg, order)];
    assert RequestsOf(d, b, legs + [leg]) == RequestsOf(d, b, legs) + [RequestFor(mid, b, leg)];
    Seqs.Assoc(d.venue.received, RequestsOf(d, b, legs), [RequestFor(mid, b, leg)]);
    Seqs.Assoc(d.venue.open, orders, [order]);
  }

  lemma NoRows(d: Desk, b: Batch)
    ensures WentThrough(d, b, [], [], d, [])
  {
    if d.journal.Some? {
      assert d.journal.value.submissions + RowsFor(d, b, [], []) == d.journal.value.submissions;
    }
  }

  /** Report fills, SUBMITTED events, journal rows and opened orders correspond one to one, in leg order. */
  lemma {:induction false} SubmittedCorrespondence(o: Oracle, d: Desk, b: Batch, legs: seq<Fill>)
    requires SubmitLegs(o, d, b, legs).Going? && AllFilled(legs)
    ensures var p := SubmitLegs(o, d, b, legs);
            WentThrough(d, b, legs, OrdersOpened(o, d, b, legs), p.desk, p.fills)
  {
    if legs == [] {
      NoRows(d, b);
    } else {
      var n := |legs| - 1;
      assert legs[n] in legs && forall leg <- legs[..n] :: leg in legs;
      SubmittedCorrespondence(o, d, b, legs[..n]);
      var p := SubmitLegs(o, d, b, legs[..n]);
      var order := AnswerFor(o, p.desk, b, legs[n]).order;
      OneMoreAccepted(d, b, legs[..n], OrdersOpened(o, d, b, legs[..n]), legs[n], order, p.desk, p.fills);
      Seqs.SplitLast(legs);
    }
  }

  // ---- where a batch stops ----

  /** The leg that stopped a batch, and how far the batch had come. */
  function StoppedAt(o: Oracle, d: Desk, b: Batch, legs: seq<Fill>): (i: nat)
    requires SubmitLegs(o, d, b, legs).Stopped?
    ensures i < |legs| && SubmitLegs(o, d, b, legs[..i]).Going? && SubmitLegs(o, d, b, legs[..i + 1]).Stopped?
    ensures SubmitLegs(o, d, b, legs) == SubmitLegs(o, d, b, legs[..i + 1])
  {
    var n := |legs| - 1;
    if SubmitLegs(o, d, b, legs[..n]).Going? then
      Seqs.FullPrefix(legs);
      n
    else
      var i := StoppedAt(o, d, b, legs[..n]);
      assert legs[..n][..i] == legs[..i] && legs[..n][..i + 1] == legs[..i + 1];
      i
  }

  /** A rejected batch leaves none of its orders open, or leaves the kill switch engaged. */
  lemma RejectedLeavesNothingOpen(o: Oracle, d: Desk, b: Batch, legs: seq<Fill>)
    requires AllFilled(legs)
    requires var p := SubmitLegs(o, d, b, legs); p.Stopped? && p.outcome.Reported?
    ensures var desk, i := SubmitLegs(o, d, b, legs).desk, StoppedAt(o, d, b, legs);
            && (i == 0 ==> desk.venue.open == d.venue.open && desk.killed == d.killed)
            && (i > 0 && o.cancelWorks(d.venue.cancels) ==> desk.venue.open == [] && desk.killed == d.killed)
            && (i > 0 && !o.cancelWorks(d.venue.cancels) ==>
                desk.killed && desk.venue.open == d.venue.open + OrdersOpened(o, d, b, legs[..i]))
  {
    var i := StoppedAt(o, d, b, legs);
    assert legs[i] in legs && forall leg <- legs[..i] :: leg in legs;
    var p := SubmitLegs(o, d, b, legs[..i]);
    assert WentThrough(d, b, legs[..i], OrdersOpened(o, d, b, legs[..i]), p.desk, p.fills) by {
      SubmittedCorrespondence(o, d, b, legs[..i]);
    }
    assert SubmitLegs(o, d, b, legs) == SubmitLeg(o, p.desk, b, legs[i], p.fills) by {
      SubmitOneMore(o, d, b, legs, i);
    }
    RefusalOutcome(o, p.desk, b, legs[i], p.fills);
    if i == 0 {
      assert legs[..i] == [];
    }
  }

  lemma RefusalOutcome(o: Oracle, d: Desk, b: Batch, leg: Fill, fills: seq<Fill>)
    requires leg.status == FillStatus.Filled
    requires var p := SubmitLeg(o, d, b, leg, fills); p.Stopped? && p.outcome.Reported?
    ensures var desk := SubmitLeg(o, d, b, leg, fills).desk;
            && (fills == [] ==> desk.venue.open == d.venue.open && desk.killed == d.killed)
            && (fills != [] && o.cancelWorks(d.venue.cancels) ==> desk.venue.open == [] && desk.killed == d.killed)
            && (fills != [] && !o.cancelWorks(d.venue.cancels) ==> desk.killed && desk.venue.open == d.venue.open)
  {
  }

  /** A repeated client order id escapes as an error: the order stays open, unjournaled, and nothing is undone. */
  lemma IntegrityErrorLeavesOrdersOpen(o: Oracle, d: Desk, b: Batch, legs: seq<Fill>)
    requires AllFilled(legs)
    requires var p := SubmitLegs(o, d, b, legs); p.Stopped? && p.outcome.IntegrityError?
    ensures var p, i := SubmitLegs(o, d, b, legs), StoppedAt(o, d, b, legs);
            var mid := SubmitLegs(o, d, b, legs[..i]).desk;
            var answer := AnswerFor(o, mid, b, legs[i]);
            && answer.Accepted? && Taken(mid, answer.order.clientOrderId)
            && p.desk == mid.(venue := AfterSubmit(mid.venue, RequestFor(mid, b, legs[i]), answer))
            && p.desk.killed == d.killed
            && p.desk.venue.open == d.venue.open + OrdersOpened(o, d, b, legs[..i]) + [answer.order]
  {
    var i := StoppedAt(o, d, b, legs);
    assert forall leg <- legs[..i] :: leg in legs;
    SubmittedCorrespondence(o, d, b, legs[..i]);
    SubmitOneMore(o, d, b, legs, i);
    assert legs[i] in legs;
  }

  // ---- exactly when ----

  /** The venue echoes the client order id it was sent. */
  ghost predicate Echoes(o: Oracle) {
    forall n, r :: o.answers(n, r).Accepted? ==> o.answers(n, r).order.clientOrderId == r.clientOrderId
  }

  function IdOf(d: Desk, b: Batch, leg: Fill): string {
    Truncate(FullKey(d, b, leg))
  }

  /** The answer to the i-th leg if every earlier one went through. */
  function AnswerAt(o: Oracle, d: Desk, b: Batch, legs: seq<Fill>, i: nat): Answer
    requires i < |legs|
  {
    o.answers(|d.venue.received| + i, RequestFor(d, b, legs[i]))
  }

  /** With a journal attached: the leg's id is registered already, or an earlier leg of the batch has it. */
  predicate RepeatsId(d: Desk, b: Batch, legs: seq<Fill>, i: nat)
    requires i < |legs|
  {
    d.journal.Some? && (Registered(d.journal.value, IdOf(d, b, legs[i])) || SharesId(d, b, legs, i))
  }

  predicate SharesId(d: Desk, b: Batch, legs: seq<Fill>, i: nat)
    requires i < |legs|
  {
    exists k :: 0 <= k < i && IdOf(d, b, legs[k]) == IdOf(d, b, legs[i])
  }

  predicate GoesThrough(o: Oracle, d: Desk, b: Batch, legs: seq<Fill>, i: nat)
    requires i < |legs|
  {
    AnswerAt(o, d, b, legs, i).Accepted? && !RepeatsId(d, b, legs, i)
  }

  lemma TakenAfterRows(d: Desk, b: Batch, legs: seq<Fill>, orders: seq<Order>, after: Desk, fills: seq<Fill>,
                       id: string)
    requires |legs| == |orders| && WentThrough(d, b, legs, orders, after, fills)
    ensures Taken(after, id)
       <==> d.journal.Some? && (Registered(d.journal.value, id) || exists order <- orders :: order.clientOrderId == id)
  {
    if d.journal.Some? {
      var rows := RowsFor(d, b, legs, orders);
      RowIds(d, b, legs, orders, id);
      RegisteredAmong(d.journal.value, rows, id);
    }
  }

  lemma RowIds(d: Desk, b: Batch, legs: seq<Fill>, orders: seq<Order>, id: string)
    requires |legs| == |orders|
    ensures (exists s <- RowsFor(d, b, legs, orders) :: s.clientOrderId == id)
       <==> exists order <- orders :: order.clientOrderId == id
  {
    var rows := RowsFor(d, b, legs, orders);
    if s :| s in rows && s.clientOrderId == id {
      var k :| 0 <= k < |rows| && rows[k] == s;
      assert orders[k] in orders;
    }
    if order :| order in orders && order.clientOrderId == id {
      var k :| 0 <= k < |orders| && orders[k] == order;
      assert rows[k] in rows;
    }
  }

  lemma RegisteredAmong(j: Journal, rows: seq<Submission>, id: string)
    ensures Registered(j.(submissions := j.submissions + rows), id)
       <==> Registered(j, id) || exists s <- rows :: s.clientOrderId == id
  {
    var all := j.submissions + rows;
    assert forall s <- j.submissions :: s in all;
    assert forall s <- rows :: s in all;
    assert forall s <- all :: s in j.submissions || s in rows;
  }

  /** Every order carries the id asked for. */
  ghost predicate Echoed(d: Desk, b: Batch, legs: seq<Fill>, orders: seq<Order>) {
    |orders| == |legs| && forall k :: 0 <= k < |legs| ==> orders[k].clientOrderId == IdOf(d, b, legs[k])
  }

  lemma EchoedOneMore(d: Desk, b: Batch, legs: seq<Fill>, orders: seq<Order>, leg: Fill, order: Order)
    requires Echoed(d, b, legs, orders) && order.clientOrderId == IdOf(d, b, leg)
    ensures Echoed(d, b, legs + [leg], orders + [order])
  {
  }

  lemma {:induction false} AllEchoed(o: Oracle, d: Desk, b: Batch, legs: seq<Fill>)
    requires SubmitLegs(o, d, b, legs).Going? && AllFilled(legs) && Echoes(o)
    ensures Echoed(d, b, legs, OrdersOpened(o, d, b, legs))
  {
    if legs != [] {
      var init, leg := legs[..|legs| - 1], legs[|legs| - 1];
      Seqs.SplitLast(legs);
      LastOrder(o, d, b, legs, init, leg);
      AllEchoed(o, d, b, init);
      LastEchoed(o, d, b, init, leg);
      EchoedOneMore(d, b, init, OrdersOpened(o, d, b, init), leg,
                    AnswerFor(o, SubmitLegs(o, d, b, init).desk, b, leg).order);
    }
  }

  lemma LastEchoed(o: Oracle, d: Desk, b: Batch, init: seq<Fill>, leg: Fill)
    requires AllFilled(init) && SubmitLegs(o, d, b, init).Going? && Echoes(o)
    requires AnswerFor(o, SubmitLegs(o, d, b, init).desk, b, leg).Accepted?
    ensures AnswerFor(o, SubmitLegs(o, d, b, init).desk, b, leg).order.clientOrderId == IdOf(d, b, leg)
  {
    SubmittedCorrespondence(o, d, b, init);
    EchoedId(o, SubmitLegs(o, d, b, init).desk, b, leg, d);
  }

  lemma LastOrder(o: Oracle, d: Desk, b: Batch, legs: seq<Fill>, init: seq<Fill>, leg: Fill)
    requires SubmitLegs(o, d, b, legs).Going? && AllFilled(legs)
    requires legs != [] && init == legs[..|legs| - 1] && leg == legs[|legs| - 1]
    ensures AllFilled(init) && SubmitLegs(o, d, b, init).Going?
    ensures AnswerFor(o, SubmitLegs(o, d, b, init).desk, b, leg).Accepted?
    ensures OrdersOpened(o, d, b, legs)
         == OrdersOpened(o, d, b, init) + [AnswerFor(o, SubmitLegs(o, d, b, init).desk, b, leg).order]
  {
    assert leg in legs && forall f <- init :: f in legs;
  }

  lemma EchoedId(o: Oracle, d: Desk, b: Batch, leg: Fill, start: Desk)
    requires Echoes(o) && AnswerFor(o, d, b, leg).Accepted? && d.cycleId == start.cycleId
    ensures AnswerFor(o, d, b, leg).order.clientOrderId == IdOf(start, b, leg)
  {
  }

  /** How a turn of the loop ends the batch, if it does. */
  ghost predicate DecidedBy(p: Progress, o: Oracle, d: Desk, b: Batch, legs: seq<Fill>, i: nat)
    requires i < |legs|
  {
    && (p.Going? <==> GoesThrough(o, d, b, legs, i))
    && (p.Stopped? ==> p.outcome == EndingOf(AnswerAt(o, d, b, legs, i), d, b, legs[i]))
  }

  /** A refusal is reported; an acceptance that ends the batch does so by the integrity error of the leg's id. */
  function EndingOf(answer: Answer, d: Desk, b: Batch, leg: Fill): Outcome {
    match answer
    case Refused(error) => Reported(RejectedReport(b, RefusalReason(leg, error)))
    case Accepted(_) => IntegrityError(IdOf(d, b, leg))
  }

  /** When the venue echoes ids, a leg's fate can be told from the answers and ids alone. */
  lemma FateOfLeg(o: Oracle, d: Desk, b: Batch, legs: seq<Fill>, i: nat)
    requires AllFilled(legs) && Echoes(o)
    requires i < |legs| && SubmitLegs(o, d, b, legs[..i]).Going?
    ensures DecidedBy(SubmitLegs(o, d, b, legs[..i + 1]), o, d, b, legs, i)
  {
    var before := legs[..i];
    assert legs[i] in legs && forall leg <- before :: leg in legs;
    SubmitOneMore(o, d, b, legs, i);
    var p, orders := SubmitLegs(o, d, b, before), OrdersOpened(o, d, b, before);
    assert WentThrough(d, b, before, orders, p.desk, p.fills) by { SubmittedCorrespondence(o, d, b, before); }
    AllEchoed(o, d, b, before);
    FateAfter(o, d, b, legs, i, orders, p.desk, p.fills);
  }

  lemma FateAfter(o: Oracle, d: Desk, b: Batch, legs: seq<Fill>, i: nat, orders: seq<Order>, mid: Desk,
                  fills: seq<Fill>)
    requires Echoes(o)
    requires i < |legs| && legs[i].status == FillStatus.Filled && |orders| == i
    requires WentThrough(d, b, legs[..i], orders, mid, fills)
    requires Echoed(d, b, legs[..i], orders)
    ensures DecidedBy(SubmitLeg(o, mid, b, legs[i], fills), o, d, b, legs, i)
  {
    var id := IdOf(d, b, legs[i]);
    TakenAfterRows(d, b, legs[..i], orders, mid, fills, id);
    OrderIds(d, b, legs, i, orders, id);
    assert AnswerFor(o, mid, b, legs[i]) == AnswerAt(o, d, b, legs, i);
  }

  lemma OrderIds(d: Desk, b: Batch, legs: seq<Fill>, i: nat, orders: seq<Order>, id: string)
    requires i < |legs| && |orders| == i && id == IdOf(d, b, legs[i])
    requires Echoed(d, b, legs[..i], orders)
    ensures (exists order <- orders :: order.clientOrderId == id) <==> SharesId(d, b, legs, i)
  {
    if order :| order in orders && order.clientOrderId == id {
      var k :| 0 <= k < |orders| && orders[k] == order;
      assert IdOf(d, b, legs[k]) == id;
    }
    if SharesId(d, b, legs, i) {
      var k :| 0 <= k < i && IdOf(d, b, legs[k]) == id;
      assert orders[k] in orders && legs[..i][k] == legs[k];
    }
  }

  lemma {:induction false} GoingIff(o: Oracle, d: Desk, b: Batch, legs: seq<Fill>, i: nat)
    requires AllFilled(legs) && Echoes(o) && i <= |legs|
    ensures SubmitLegs(o, d, b, legs[..i]).Going? <==> AllGoThrough(o, d, b, legs, i)
  {
    if i > 0 {
      var n := i - 1;
      GoingIff(o, d, b, legs, n);
      AllGoStep(o, d, b, legs, n);
      if SubmitLegs(o, d, b, legs[..n]).Going? {
        OneMoreGoing(o, d, b, legs, n);
      } else {
        assert legs[..i][..n] == legs[..n];
        StoppedStays(o, d, b, legs[..i], n);
      }
    }
  }

  lemma AllGoStep(o: Oracle, d: Desk, b: Batch, legs: seq<Fill>, n: nat)
    requires n < |legs|
    ensures AllGoThrough(o, d, b, legs, n + 1) <==> AllGoThrough(o, d, b, legs, n) && GoesThrough(o, d, b, legs, n)
  {
  }

  lemma OneMoreGoing(o: Oracle, d: Desk, b: Batch, legs: seq<Fill>, i: nat)
    requires AllFilled(legs) && Echoes(o)
    requires i < |legs| && SubmitLegs(o, d, b, legs[..i]).Going?
    ensures SubmitLegs(o, d, b, legs[..i + 1]).Going? <==> GoesThrough(o, d, b, legs, i)
  {
    FateOfLeg(o, d, b, legs, i);
  }

  predicate AllGoThrough(o: Oracle, d: Desk, b: Batch, legs: seq<Fill>, i: nat)
    requires i <= |legs|
  {
    forall k :: 0 <= k < i ==> GoesThrough(o, d, b, legs, k)
  }

  /**
   * The outcome, decided by the first leg that does not go through: none, and every leg is submitted; one the
   * venue refuses, and the batch is REJECTED with its reason; one the venue accepts although its id is taken, and
   * the integrity error of that id escapes.
   */
  lemma OutcomeOfBatch(o: Oracle, d: Desk, b: Batch, legs: seq<Fill>, i: nat)
    requires AllFilled(legs) && Echoes(o)
    requires i <= |legs| && AllGoThrough(o, d, b, legs, i)
    requires i < |legs| ==> !GoesThrough(o, d, b, legs, i)
    ensures var p := SubmitLegs(o, d, b, legs);
            && (i == |legs| <==> p.Going?)
            && (i < |legs| ==> p.Stopped? && StoppedAt(o, d, b, legs) == i && DecidedBy(p, o, d, b, legs, i))
  {
    GoingIff(o, d, b, legs, i);
    if i < |legs| {
      FateOfLeg(o, d, b, legs, i);
      StoppedStays(o, d, b, legs, i + 1);
      StopsAtFirst(o, d, b, legs, i);
    } else {
      Seqs.FullPrefix(legs);
    }
  }

  lemma StopsAtFirst(o: Oracle, d: Desk, b: Batch, legs: seq<Fill>, i: nat)
    requires AllFilled(legs) && Echoes(o)
    requires i < |legs| && AllGoThrough(o, d, b, legs, i) && !GoesThrough(o, d, b, legs, i)
    requires SubmitLegs(o, d, b, legs).Stopped?
    ensures StoppedAt(o, d, b, legs) == i
  {
    var j := StoppedAt(o, d, b, legs);
    GoingIff(o, d, b, legs, j);
    GoingIff(o, d, b, legs, j + 1);
  }
}
