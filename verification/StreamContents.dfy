/** What a delivered message leaves in the journal and the log, told from the message's own fields. */
module StreamContents {
  import opened Wrappers
  import opened LiveEvents
  import opened LiveJournal
  import opened TradeStream
  import opened StreamProtocol
  import Seqs

  // ---- messages by their fields ----

  predicate IsText(fields: map<string, Json>, name: string, value: string) {
    name in fields && fields[name].Scalar? && fields[name].isString && fields[name].text == value && value != ""
  }

  /** The text of a field of any kind, as `str()` gives it. */
  predicate Says(fields: map<string, Json>, name: string, value: string) {
    && name in fields && value != ""
    && match fields[name]
       case Null => value == "None"
       case Scalar(text, _, _) => value == text
       case Object(_, text) => value == text
  }

  predicate IsNumber(fields: map<string, Json>, name: string, value: real) {
    name in fields && fields[name].Scalar? && fields[name].decimal == Some(value)
  }

  /** No such field, or one that is not a string, or an empty one. */
  predicate NoText(fields: map<string, Json>, name: string) {
    name in fields && fields[name].Scalar? && fields[name].isString ==> fields[name].text == ""
  }

  /** A trade update about this order. */
  datatype About = About(event: string, id: string, clientOrderId: string, symbol: string, side: string)

  predicate Carries(raw: Message, a: About) {
    && "data" in raw && raw["data"].Object?
    && var data := raw["data"].fields;
       && IsText(data, "event", a.event)
       && "order" in data && data["order"].Object?
       && var order := data["order"].fields;
          && Says(order, "id", a.id) && Says(order, "client_order_id", a.clientOrderId)
          && Says(order, "symbol", a.symbol) && Says(order, "side", a.side)
  }

  /** A report of a positive quantity at a positive price, under an execution id or none. */
  predicate ReportsFill(raw: Message, a: About, qty: real, price: real, execution: Option<string>) {
    && Carries(raw, a) && (a.event == "fill" || a.event == "partial_fill") && qty > 0.0 && price > 0.0
    && var data := raw["data"].fields;
       && IsNumber(data, "qty", qty) && IsNumber(data, "price", price)
       && if execution.Some? then IsText(data, "execution_id", execution.value) else NoText(data, "execution_id")
  }

  predicate ReportsEnd(raw: Message, a: About, reason: Option<string>) {
    && Carries(raw, a) && (a.event == "canceled" || a.event == "rejected")
    && var data := raw["data"].fields;
       if reason.Some? then
         "reason" in data && data["reason"].Scalar? && data["reason"].isString && data["reason"].text == reason.value
       else !("reason" in data && data["reason"].Scalar? && data["reason"].isString)
  }

  /** The one submission an order id stands for. */
  ghost predicate IsSubmission(j: Journal, s: Submission, id: string) {
    s in j.submissions && s.clientOrderId == id && KeyedById(j)
  }

  // ---- one delivery ----

  /** The execution was journaled for the order before; without an execution id nothing counts as before. */
  predicate FilledBefore(j: Journal, id: string, execution: Option<string>) {
    execution.Some? && exists f <- j.fills :: f.clientOrderId == id && f.fillId == execution
  }

  lemma AttributedTo(j: Journal, s: Submission, id: string)
    requires IsSubmission(j, s, id)
    ensures Registered(j, id) && AttributionOf(j, id) == Some(Attribution(s.cycleId, s.decisionRunId))
  {
    var found := FindSubmission(j.submissions, id).value;
    var i :| 0 <= i < |j.submissions| && j.submissions[i] == s;
    var k :| 0 <= k < |j.submissions| && j.submissions[k] == found;
  }

  lemma DecodesFill(raw: Message, a: About, qty: real, price: real, execution: Option<string>)
    requires ReportsFill(raw, a, qty, price, execution)
    ensures Decode(raw) == Some(TradeUpdate(if a.event == "partial_fill" then PartialFillUpdate else FillUpdate,
                                            a.id, a.clientOrderId, a.symbol, a.side, Some(qty), Some(price), None,
                                            execution))
  {
  }

  lemma DecodesEnd(raw: Message, a: About, reason: Option<string>)
    requires ReportsEnd(raw, a, reason)
    ensures Decode(raw) == Some(TradeUpdate(if a.event == "canceled" then CanceledUpdate else RejectedUpdate,
                                            a.id, a.clientOrderId, a.symbol, a.side, None, None, reason, None))
  {
  }

  /**
   * A fill reported for a registered order, for the first time, adds one row and one event with the reported ids,
   * quantity and price, under the cycle and decision run of the order's submission; reported again, nothing.
   */
  lemma FillDelivered(w: World, raw: Message, s: Submission, a: About, qty: real, price: real,
                      execution: Option<string>)
    requires ReportsFill(raw, a, qty, price, execution) && IsSubmission(w.journal, s, a.clientOrderId)
    ensures var w' := Next(w, Deliver(raw));
            if FilledBefore(w.journal, a.clientOrderId, execution) then w' == w
            else
              && w'.journal == w.journal.(fills := w.journal.fills
                   + [FillRow(clientOrderId := a.clientOrderId, fillId := execution, qty := qty, price := price,
                              isPartial := a.event == "partial_fill")])
              && w'.log == w.log
                   + [LiveFilled(cycleId := s.cycleId, decisionRunId := s.decisionRunId, orderId := a.id,
                                 clientOrderId := a.clientOrderId, symbol := a.symbol, sideText := a.side,
                                 filledQty := qty, filledAvgPrice := price, isPartial := a.event == "partial_fill")]
  {
    DecodesFill(raw, a, qty, price, execution);
    AttributedTo(w.journal, s, a.clientOrderId);
  }

  /** A cancellation or rejection reported for a registered order likewise, once per order. */
  lemma EndDelivered(w: World, raw: Message, s: Submission, a: About, reason: Option<string>)
    requires ReportsEnd(raw, a, reason) && IsSubmission(w.journal, s, a.clientOrderId)
    ensures var w' := Next(w, Deliver(raw));
            if exists c <- w.journal.cancellations :: c.clientOrderId == a.clientOrderId then w' == w
            else
              && w'.journal == w.journal.(cancellations := w.journal.cancellations
                   + [CancelRow(clientOrderId := a.clientOrderId, reason := reason)])
              && w'.log == w.log
                   + [LiveCancelled(cycleId := s.cycleId, decisionRunId := s.decisionRunId, orderId := a.id,
                                    clientOrderId := a.clientOrderId, symbol := a.symbol, sideText := a.side,
                                    venueReason := reason)]
  {
    DecodesEnd(raw, a, reason);
    AttributedTo(w.journal, s, a.clientOrderId);
  }

  /** What the message is taken for, it reports. */
  lemma DecodedIsReported(raw: Message, u: TradeUpdate) returns (a: About)
    requires Decode(raw) == Some(u)
    ensures a.id == u.orderId && a.clientOrderId == u.clientOrderId && a.symbol == u.symbol && a.side == u.side
    ensures if IsFill(u.kind) then ReportsFill(raw, a, u.filledQty.value, u.filledAvgPrice.value, u.fillId)
            else ReportsEnd(raw, a, u.reason)
  {
    a := About(raw["data"].fields["event"].text, u.orderId, u.clientOrderId, u.symbol, u.side);
  }

  ghost predicate Reports(raw: Message, a: About) {
    || (exists qty, price, execution :: ReportsFill(raw, a, qty, price, execution))
    || (exists reason :: ReportsEnd(raw, a, reason))
  }

  /** A message that reports neither, or only about an order never registered, changes nothing. */
  lemma OthersIgnored(w: World, raw: Message)
    requires forall a :: Reports(raw, a) ==> forall s <- w.journal.submissions :: s.clientOrderId != a.clientOrderId
    ensures Next(w, Deliver(raw)) == w
  {
    if Decode(raw).Some? {
      var u := Decode(raw).value;
      var a := DecodedIsReported(raw, u);
      assert Reports(raw, a);
      assert !Registered(w.journal, u.clientOrderId);
    }
  }

  /** A submission is registered once under its id; a delivery that crashes journals what it would, and says nothing. */
  lemma OtherSteps(w: World, s: Submission, raw: Message)
    ensures Next(w, Register(s))
         == if exists i :: 0 <= i < |w.journal.submissions|
                           && w.journal.submissions[i].clientOrderId == s.clientOrderId then w
            else w.(journal := w.journal.(submissions := w.journal.submissions + [s]))
    ensures Next(w, DeliverAndCrash(raw)) == World(journal := Next(w, Deliver(raw)).journal, log := w.log)
  {
    if Registered(w.journal, s.clientOrderId) {
      var row :| row in w.journal.submissions && row.clientOrderId == s.clientOrderId;
      var i :| 0 <= i < |w.journal.submissions| && w.journal.submissions[i] == row;
    }
  }

  // ---- whole runs ----

  /** Executed quantity journaled for an order. */
  function JournaledQty(rows: seq<FillRow>, id: string): real {
    if rows == [] then 0.0
    else
      var row := rows[|rows| - 1];
      JournaledQty(rows[..|rows| - 1], id) + (if row.clientOrderId == id then row.qty else 0.0)
  }

  /** Executed quantity announced for an order. */
  function AnnouncedQty(log: seq<LiveEvent>, id: string): real {
    if log == [] then 0.0
    else
      var e := log[|log| - 1];
      AnnouncedQty(log[..|log| - 1], id) + (if e.LiveFilled? && e.clientOrderId == id then e.filledQty else 0.0)
  }

  /** A step leaves the fills and the announcements of fills alone, or adds one of each,
      the one announcing the other. */
  lemma StepAddsBoth(w: World, step: Step, id: string)
    requires !step.DeliverAndCrash?
    ensures var w' := Next(w, step);
            JournaledQty(w'.journal.fills, id) - JournaledQty(w.journal.fills, id)
            == AnnouncedQty(w'.log, id) - AnnouncedQty(w.log, id)
  {
    if step.Deliver? && Accepted(w.journal, step.raw).Some? {
      var u := Accepted(w.journal, step.raw).value;
      var e := EventOf(u, AttributionOf(w.journal, u.clientOrderId).value);
      AnnouncedOneMore(w.log, e, id);
      if IsFill(u.kind) {
        JournaledOneMore(w.journal.fills, FillRowOf(u), id);
      }
    } else if step.Deliver? {
      assert w.log + EmittedBy(w.journal, step.raw) == w.log;
    }
  }

  lemma JournaledOneMore(rows: seq<FillRow>, row: FillRow, id: string)
    ensures JournaledQty(rows + [row], id)
        == JournaledQty(rows, id) + (if row.clientOrderId == id then row.qty else 0.0)
  {
    assert (rows + [row])[..|rows|] == rows;
  }

  lemma AnnouncedOneMore(log: seq<LiveEvent>, e: LiveEvent, id: string)
    ensures AnnouncedQty(log + [e], id)
         == AnnouncedQty(log, id) + (if e.LiveFilled? && e.clientOrderId == id then e.filledQty else 0.0)
  {
    assert (log + [e])[..|log|] == log;
  }

  /** Over every run without a crash, what the journal has executed of an order is what was announced of it. */
  lemma {:induction false} JournaledIsAnnounced(steps: seq<Step>, id: string)
    requires forall step <- steps :: !step.DeliverAndCrash?
    ensures JournaledQty(Run(Start, steps).journal.fills, id) == AnnouncedQty(Run(Start, steps).log, id)
  {
    if steps != [] {
      var n := |steps| - 1;
      Seqs.SplitLast(steps);
      JournaledIsAnnounced(steps[..n], id);
      RunOneMore(Start, steps, steps[..n], steps[n]);
      StepAddsBoth(Run(Start, steps[..n]), steps[n], id);
    }
  }
}
