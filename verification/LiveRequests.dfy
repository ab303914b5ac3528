/** What a live batch asks of the venue and writes down, field by field, and that it is the move of the paper book. */
module LiveRequests {
  import opened Wrappers
  import opened Sorting
  import opened Decisions
  import opened PolicyGateway
  import opened ExecutionReports
  import opened Portfolio
  import opened Rebalancing
  import opened PaperExecution
  import opened LiveEvents
  import opened LiveJournal
  import opened LiveSubmission
  import opened LiveBroker
  import opened LiveRuns
  import Seqs

  // ---- requests ----

  /** The request asks for the leg: its ticker, its quantity, its side, under the head of its digest. */
  ghost predicate Asks(r: Request, d: Desk, b: Batch, leg: Fill) {
    var name := if d.cycleId.Some? then d.cycleId.value else "";
    var key := b.digest(Ticket(name, b.runId, leg.ticker, leg.side, leg.quantity));
    && r.symbol == leg.ticker && r.qty == leg.quantity && r.side == leg.side
    && r.clientOrderId <= key && |r.clientOrderId| == if |key| < 48 then |key| else 48
  }

  /** How many legs of a batch reach the venue: all of them, or those up to the one that stops it. */
  function Sent(o: Oracle, d: Desk, b: Batch, legs: seq<Fill>): nat {
    if SubmitLegs(o, d, b, legs).Going? then |legs| else StoppedAt(o, d, b, legs) + 1
  }

  /** The i-th request asks for the i-th leg. */
  ghost predicate AllAsk(sent: seq<Request>, d: Desk, b: Batch, legs: seq<Fill>) {
    |sent| <= |legs| && forall i :: 0 <= i < |sent| ==> Asks(sent[i], d, b, legs[i])
  }

  lemma RequestsAsk(d: Desk, b: Batch, legs: seq<Fill>)
    ensures AllAsk(RequestsOf(d, b, legs), d, b, legs)
  {
    forall i | 0 <= i < |legs| ensures Asks(RequestsOf(d, b, legs)[i], d, b, legs[i]) {
      AsksRight(d, b, legs[i]);
    }
  }

  lemma OneAskMore(sent: seq<Request>, d: Desk, b: Batch, init: seq<Fill>, legs: seq<Fill>)
    requires AllAsk(sent, d, b, init) && |sent| == |init| < |legs| && init <= legs
    ensures AllAsk(sent + [RequestFor(d, b, legs[|init|])], d, b, legs)
  {
    AsksRight(d, b, legs[|init|]);
  }

  /** Whatever the outcome, the venue was asked for exactly the legs up to the one that stopped the batch, in order. */
  lemma LegsAreRequested(o: Oracle, d: Desk, b: Batch, legs: seq<Fill>) returns (sent: seq<Request>)
    requires AllFilled(legs)
    ensures SubmitLegs(o, d, b, legs).desk.venue.received == d.venue.received + sent
    ensures |sent| == Sent(o, d, b, legs) && AllAsk(sent, d, b, legs)
  {
    if SubmitLegs(o, d, b, legs).Going? {
      sent := RequestsOf(d, b, legs);
      RequestsAsk(d, b, legs);
      RequestsReceived(o, d, b, legs);
    } else {
      var i := StoppedAt(o, d, b, legs);
      sent := RequestsOf(d, b, legs[..i]) + [RequestFor(d, b, legs[i])];
      RequestsAsk(d, b, legs[..i]);
      OneAskMore(RequestsOf(d, b, legs[..i]), d, b, legs[..i], legs);
      StoppedRequests(o, d, b, legs, i);
    }
  }

  lemma RequestsReceived(o: Oracle, d: Desk, b: Batch, legs: seq<Fill>)
    requires AllFilled(legs) && SubmitLegs(o, d, b, legs).Going?
    ensures SubmitLegs(o, d, b, legs).desk.venue.received == d.venue.received + RequestsOf(d, b, legs)
    ensures SubmitLegs(o, d, b, legs).desk.cycleId == d.cycleId
  {
    SubmittedCorrespondence(o, d, b, legs);
  }

  lemma AsksRight(d: Desk, b: Batch, leg: Fill)
    ensures Asks(RequestFor(d, b, leg), d, b, leg)
  {
  }

  lemma StoppedRequests(o: Oracle, d: Desk, b: Batch, legs: seq<Fill>, i: nat)
    requires AllFilled(legs) && SubmitLegs(o, d, b, legs).Stopped? && i == StoppedAt(o, d, b, legs)
    ensures SubmitLegs(o, d, b, legs).desk.venue.received
         == d.venue.received + (RequestsOf(d, b, legs[..i]) + [RequestFor(d, b, legs[i])])
  {
    var init := legs[..i];
    assert legs[i] in legs && forall leg <- init :: leg in legs;
    RequestsReceived(o, d, b, init);
    SubmitOneMore(o, d, b, legs, i);
    var mid := SubmitLegs(o, d, b, init);
    OneRequestMore(o, mid.desk, b, legs[i], mid.fills, d);
    Seqs.Assoc(d.venue.received, RequestsOf(d, b, init), [RequestFor(d, b, legs[i])]);
  }

  lemma OneRequestMore(o: Oracle, d: Desk, b: Batch, leg: Fill, fills: seq<Fill>, start: Desk)
    requires leg.status == FillStatus.Filled && d.cycleId == start.cycleId
    ensures SubmitLeg(o, d, b, leg, fills).desk.venue.received == d.venue.received + [RequestFor(start, b, leg)]
  {
  }

  // ---- records ----

  /** A journal row, an event and a reported fill for a leg and the order the venue opened for it. */
  ghost predicate Records(row: Submission, d: Desk, b: Batch, leg: Fill, order: Order) {
    var name := if d.cycleId.Some? then d.cycleId.value else "";
    && row.clientOrderId == order.clientOrderId && row.orderId == order.orderId
    && row.symbol == order.symbol && row.qty == order.qty && row.side == leg.side
    && row.cycleId == name && row.decisionRunId == b.runId
    && row.idempotencyKey == b.digest(Ticket(name, b.runId, leg.ticker, leg.side, leg.quantity))
  }

  ghost predicate Tells(e: LiveEvent, row: Submission) {
    && e.LiveSubmitted?
    && e.cycleId == row.cycleId && e.decisionRunId == row.decisionRunId
    && e.orderId == row.orderId && e.clientOrderId == row.clientOrderId
    && e.idempotencyKey == row.idempotencyKey
    && e.symbol == row.symbol && e.qty == row.qty && e.side == row.side
  }

  ghost predicate Anticipates(f: Fill, b: Batch, leg: Fill, order: Order) {
    && f.ticker == leg.ticker && f.side == leg.side && f.status == FillStatus.Submitted && f.quantity == order.qty
    && f.fillPrice == (if leg.ticker in b.prices then b.prices[leg.ticker] else 0.0)
    && f.notional == f.quantity * f.fillPrice
    && f.reason == Some(
         "venue submission accepted; actual fill price via BROKER_LIVE_FILLED event (websocket — next slice)")
  }

  /** One journal row, one event and one anticipated fill per leg, in order, about the orders opened. */
  ghost predicate Recorded(d: Desk, b: Batch, legs: seq<Fill>, orders: seq<Order>, rows: seq<Submission>,
                           events: seq<LiveEvent>, fills: seq<Fill>) {
    && |orders| == |legs| && |rows| == |legs| && |events| == |legs| && |fills| == |legs|
    && forall i :: 0 <= i < |legs| ==>
         Records(rows[i], d, b, legs[i], orders[i]) && Tells(events[i], rows[i])
         && Anticipates(fills[i], b, legs[i], orders[i])
  }

  /** A batch that goes through opens its orders and leaves just those records of them. */
  lemma BatchIsRecorded(o: Oracle, d: Desk, b: Batch, legs: seq<Fill>)
    returns (orders: seq<Order>, rows: seq<Submission>, events: seq<LiveEvent>)
    requires AllFilled(legs) && SubmitLegs(o, d, b, legs).Going?
    ensures var p := SubmitLegs(o, d, b, legs);
            && Recorded(d, b, legs, orders, rows, events, p.fills)
            && p.desk.venue.open == d.venue.open + orders
            && p.desk.log == (if d.cycleId.Some? then d.log + events else d.log)
            && (d.journal.None? <==> p.desk.journal.None?)
    ensures d.journal.Some? ==>
              var was, now := d.journal.value, SubmitLegs(o, d, b, legs).desk.journal.value;
              && now.submissions == was.submissions + rows
              && now.fills == was.fills && now.cancellations == was.cancellations
  {
    orders := OrdersOpened(o, d, b, legs);
    rows := RowsFor(d, b, legs, orders);
    events := EventsFor(d.(cycleId := Some(CycleName(d))), b, legs, orders);
    SubmittedCorrespondence(o, d, b, legs);
    RecordsAreRight(d, b, legs, orders, rows, events, FillsOf(b, legs, orders));
  }

  lemma RecordsAreRight(d: Desk, b: Batch, legs: seq<Fill>, orders: seq<Order>, rows: seq<Submission>,
                        events: seq<LiveEvent>, fills: seq<Fill>)
    requires |orders| == |legs| && rows == RowsFor(d, b, legs, orders) && fills == FillsOf(b, legs, orders)
    requires events == EventsFor(d.(cycleId := Some(CycleName(d))), b, legs, orders)
    ensures Recorded(d, b, legs, orders, rows, events, fills)
  {
    forall i | 0 <= i < |legs|
      ensures Records(rows[i], d, b, legs[i], orders[i]) && Tells(events[i], rows[i])
              && Anticipates(fills[i], b, legs[i], orders[i]) {
      RecordIsRight(d, b, legs[i], orders[i]);
    }
  }

  lemma RecordIsRight(d: Desk, b: Batch, leg: Fill, order: Order)
    ensures Records(SubmissionFor(d, b, leg, order), d, b, leg, order)
    ensures Tells(SubmittedEvent(d.(cycleId := Some(CycleName(d))), b, leg, order), SubmissionFor(d, b, leg, order))
    ensures Anticipates(SubmittedFill(b, leg, order), b, leg, order)
  {
  }

  // ---- answers ----

  /** Each order is the venue's answer to the request in its place. */
  ghost predicate Answered(o: Oracle, first: nat, sent: seq<Request>, orders: seq<Order>) {
    |orders| == |sent| && forall i :: 0 <= i < |sent| ==> o.answers(first + i, sent[i]) == Accepted(orders[i])
  }

  lemma AnsweredOneMore(o: Oracle, first: nat, sent: seq<Request>, orders: seq<Order>, r: Request, order: Order)
    requires Answered(o, first, sent, orders) && o.answers(first + |sent|, r) == Accepted(order)
    ensures Answered(o, first, sent + [r], orders + [order])
  {
  }

  /** The orders a batch opened are the venue's answers to the requests it received for it. */
  lemma OrdersAnswerRequests(o: Oracle, d: Desk, b: Batch, legs: seq<Fill>, sent: seq<Request>, orders: seq<Order>)
    requires AllFilled(legs) && SubmitLegs(o, d, b, legs).Going?
    requires SubmitLegs(o, d, b, legs).desk.venue.received == d.venue.received + sent
    requires SubmitLegs(o, d, b, legs).desk.venue.open == d.venue.open + orders
    ensures Answered(o, |d.venue.received|, sent, orders)
  {
    SubmittedCorrespondence(o, d, b, legs);
    SameSuffix(d.venue.received, sent, RequestsOf(d, b, legs));
    SameSuffix(d.venue.open, orders, OrdersOpened(o, d, b, legs));
    AnsweredInOrder(o, d, b, legs);
  }

  lemma SameSuffix<T>(was: seq<T>, a: seq<T>, b: seq<T>)
    requires was + a == was + b
    ensures a == b
  {
    assert a == (was + a)[|was|..] && b == (was + b)[|was|..];
  }

  lemma {:induction false} AnsweredInOrder(o: Oracle, d: Desk, b: Batch, legs: seq<Fill>)
    requires AllFilled(legs) && SubmitLegs(o, d, b, legs).Going?
    ensures Answered(o, |d.venue.received|, RequestsOf(d, b, legs), OrdersOpened(o, d, b, legs))
  {
    if legs != [] {
      var init, leg := legs[..|legs| - 1], legs[|legs| - 1];
      LastOrder(o, d, b, legs, init, leg);
      AnsweredInOrder(o, d, b, init);
      LastRequest(d, b, legs, init, leg);
      LastAnswered(o, d, b, init, leg, RequestsOf(d, b, init), OrdersOpened(o, d, b, init));
    }
  }

  lemma LastRequest(d: Desk, b: Batch, legs: seq<Fill>, init: seq<Fill>, leg: Fill)
    requires legs != [] && init == legs[..|legs| - 1] && leg == legs[|legs| - 1]
    ensures RequestsOf(d, b, legs) == RequestsOf(d, b, init) + [RequestFor(d, b, leg)]
  {
  }

  lemma LastAnswered(o: Oracle, d: Desk, b: Batch, init: seq<Fill>, leg: Fill, sent: seq<Request>, orders: seq<Order>)
    requires AllFilled(init) && SubmitLegs(o, d, b, init).Going? && |sent| == |init|
    requires Answered(o, |d.venue.received|, sent, orders)
    requires AnswerFor(o, SubmitLegs(o, d, b, init).desk, b, leg).Accepted?
    ensures var order := AnswerFor(o, SubmitLegs(o, d, b, init).desk, b, leg).order;
            Answered(o, |d.venue.received|, sent + [RequestFor(d, b, leg)], orders + [order])
  {
    RequestsReceived(o, d, b, init);
    AnsweredOneMore(o, |d.venue.received|, sent, orders, RequestFor(d, b, leg),
                    AnswerFor(o, SubmitLegs(o, d, b, init).desk, b, leg).order);
  }

  // ---- requests and the paper book ----

  /** What the venue was asked to buy of a ticker, less what it was asked to sell of it. */
  function NetAsked(sent: seq<Request>, t: Ticker): real {
    if sent == [] then 0.0
    else
      var r := sent[|sent| - 1];
      NetAsked(sent[..|sent| - 1], t)
      + (if r.symbol == t then (if r.side == Buy then r.qty else -r.qty) else 0.0)
  }

  lemma {:induction false} AskedIsFilled(sent: seq<Request>, d: Desk, b: Batch, legs: seq<Fill>, t: Ticker)
    requires AllAsk(sent, d, b, legs) && |sent| == |legs|
    ensures NetAsked(sent, t) == NetFilled(legs, t)
  {
    if sent != [] {
      var n := |sent| - 1;
      assert Asks(sent[n], d, b, legs[n]);
      AskedIsFilled(sent[..n], d, b, legs[..n], t);
    }
  }

  /** A SUBMITTED batch asks the venue, ticker by ticker, for exactly what the paper book moved by. */
  lemma SubmittedAsksForTheMove(s: Setup, l: Live, a: FeasibleAction, prices: Prices) returns (sent: seq<Request>)
    requires CanRebalance(l.book, a.targets, prices)
    requires var r := ExecuteLive(s, l, a, prices).1; r.Reported? && r.report.status == ExecutionStatus.Submitted
    ensures ExecuteLive(s, l, a, prices).0.desk.venue.received == l.desk.venue.received + sent
    ensures forall t :: NetAsked(sent, t) == Held(ExecuteLive(s, l, a, prices).0.book, t) - Held(l.book, t)
  {
    SubmittedReportCorresponds(s, l, a, prices);
    ExecuteSubmits(s, l, a, prices);
    var b, legs := BatchFor(s, a, prices), LegsOf(l, a, prices);
    sent := LegsAreRequested(s.oracle, l.desk, b, legs);
    forall t ensures NetAsked(sent, t) == Held(ExecuteLive(s, l, a, prices).0.book, t) - Held(l.book, t) {
      AskedIsFilled(sent, l.desk, b, legs, t);
      FillsMoveHoldings(l.book, a.targets, prices, t);
    }
  }
}
