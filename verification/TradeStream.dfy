/** Alpaca trade updates: decoding one message, and draining a stream into the journal and the event log. */
module TradeStream {
  import opened Wrappers
  import opened LiveEvents
  import opened LiveJournal
  import Seqs

  // ---- messages ----

  /** A JSON value. A scalar carries its `str()` text and the decimal that text parses to, if any. */
  datatype Json =
    | Null
    | Scalar(text: string, isString: bool, decimal: Option<real>)
    | Object(fields: map<string, Json>, text: string)

  type Message = map<string, Json>

  function TextOf(v: Json): string {
    match v
    case Null => "None"
    case Scalar(text, _, _) => text
    case Object(_, text) => text
  }

  function DecimalOf(v: Json): Option<real> {
    if v.Scalar? then v.decimal else None
  }

  function TextField(fields: map<string, Json>, name: string): string {
    if name in fields then TextOf(fields[name]) else ""
  }

  datatype TradeUpdateKind = FillUpdate | PartialFillUpdate | CanceledUpdate | RejectedUpdate

  function KindOf(name: string): Option<TradeUpdateKind> {
    if name == "fill" then Some(FillUpdate)
    else if name == "partial_fill" then Some(PartialFillUpdate)
    else if name == "canceled" then Some(CanceledUpdate)
    else if name == "rejected" then Some(RejectedUpdate)
    else None
  }

  function KindName(kind: TradeUpdateKind): string {
    match kind
    case FillUpdate => "fill"
    case PartialFillUpdate => "partial_fill"
    case CanceledUpdate => "canceled"
    case RejectedUpdate => "rejected"
  }

  predicate IsFill(kind: TradeUpdateKind) {
    kind == FillUpdate || kind == PartialFillUpdate
  }

  datatype TradeUpdate = TradeUpdate(
    kind: TradeUpdateKind, orderId: string, clientOrderId: string, symbol: string, side: string,
    filledQty: Option<real>, filledAvgPrice: Option<real>, reason: Option<string>, fillId: Option<string>)

  predicate Positive(d: Option<real>) {
    d.Some? && d.value > 0.0
  }

  /** What the decoder promises its consumers about an update. */
  predicate WellFormed(u: TradeUpdate) {
    && u.orderId != "" && u.clientOrderId != "" && u.symbol != "" && u.side != ""
    && (u.fillId.Some? ==> u.fillId.value != "")
    && if IsFill(u.kind) then Positive(u.filledQty) && Positive(u.filledAvgPrice) && u.reason.None?
       else u.filledQty.None? && u.filledAvgPrice.None? && u.fillId.None?
  }

  /** A field that holds a string, empty or not. */
  function StringField(fields: map<string, Json>, name: string): Option<string> {
    if name in fields && fields[name].Scalar? && fields[name].isString then Some(fields[name].text) else None
  }

  function DecimalField(fields: map<string, Json>, name: string): Option<real> {
    if name in fields then DecimalOf(fields[name]) else None
  }

  /** One message, or None for anything that is not one of the four mapped events in full. */
  function Decode(raw: Message): (r: Option<TradeUpdate>)
    ensures r.Some? ==> WellFormed(r.value)
  {
    if "data" !in raw || !raw["data"].Object? then None
    else
      var data := raw["data"].fields;
      var name := StringField(data, "event");
      if name.None? || KindOf(name.value).None? || "order" !in data || !data["order"].Object? then None
      else
        var kind, order := KindOf(name.value).value, data["order"].fields;
        var orderId, clientOrderId := TextField(order, "id"), TextField(order, "client_order_id");
        var symbol, side := TextField(order, "symbol"), TextField(order, "side");
        if orderId == "" || clientOrderId == "" || symbol == "" || side == "" then None
        else if IsFill(kind) then
          var qty, price := DecimalField(data, "qty"), DecimalField(data, "price");
          if !Positive(qty) || !Positive(price) then None
          else
            var execution := StringField(data, "execution_id");
            var fillId := if execution == Some("") then None else execution;
            Some(TradeUpdate(kind, orderId, clientOrderId, symbol, side, qty, price, None, fillId))
        else Some(TradeUpdate(kind, orderId, clientOrderId, symbol, side, None, None, StringField(data, "reason"),
                              None))
  }

  function Str(s: string): Json {
    Scalar(s, true, None)
  }

  function Num(x: real, text: string): Json {
    Scalar(text, true, Some(x))
  }

  /** The documented shape of a trade-update message. */
  function Encode(u: TradeUpdate, qtyText: string, priceText: string): Message
    requires WellFormed(u)
  {
    var order := map["id" := Str(u.orderId), "client_order_id" := Str(u.clientOrderId),
                     "symbol" := Str(u.symbol), "side" := Str(u.side)];
    var data := map["event" := Str(KindName(u.kind)), "order" := Object(order, "")];
    var extra: map<string, Json> :=
      if IsFill(u.kind) then
        map["qty" := Num(u.filledQty.value, qtyText), "price" := Num(u.filledAvgPrice.value, priceText)]
        + (if u.fillId.Some? then map["execution_id" := Str(u.fillId.value)] else map[])
      else if u.reason.Some? then map["reason" := Str(u.reason.value)] else map[];
    map["stream" := Str("trade_updates"), "data" := Object(data + extra, "")]
  }

  /** Every update the decoder can produce is what it produces for that update's documented message. */
  lemma DecodeEncode(u: TradeUpdate, qtyText: string, priceText: string)
    requires WellFormed(u)
    ensures Decode(Encode(u, qtyText, priceText)) == Some(u)
  {
    assert KindOf(KindName(u.kind)) == Some(u.kind);
  }

  // ---- one delivery ----

  function FillRowOf(u: TradeUpdate): FillRow
    requires WellFormed(u) && IsFill(u.kind)
  {
    FillRow(u.clientOrderId, u.fillId, u.filledQty.value, u.filledAvgPrice.value, u.kind == PartialFillUpdate)
  }

  function CancelRowOf(u: TradeUpdate): CancelRow {
    CancelRow(u.clientOrderId, u.reason)
  }

  function EventOf(u: TradeUpdate, a: Attribution): LiveEvent
    requires WellFormed(u)
  {
    if IsFill(u.kind) then
      LiveFilled(a.cycleId, a.decisionRunId, u.orderId, u.clientOrderId, u.symbol, u.side,
                 u.filledQty.value, u.filledAvgPrice.value, u.kind == PartialFillUpdate)
    else LiveCancelled(a.cycleId, a.decisionRunId, u.orderId, u.clientOrderId, u.symbol, u.side, u.reason)
  }

  /** The journal already holds what this update would record. */
  predicate Repeats(j: Journal, u: TradeUpdate)
    requires WellFormed(u)
  {
    if IsFill(u.kind) then RepeatsFill(j, FillRowOf(u)) else Cancelled(j, u.clientOrderId)
  }

  /** The update a delivery adds to the journal: decoded, attributed, and not a repeat. */
  function Accepted(j: Journal, raw: Message): (r: Option<TradeUpdate>)
    ensures r.Some? ==> WellFormed(r.value) && Registered(j, r.value.clientOrderId) && !Repeats(j, r.value)
  {
    match Decode(raw)
    case None => None
    case Some(u) => if !Registered(j, u.clientOrderId) || Repeats(j, u) then None else Some(u)
  }

  function Recorded(j: Journal, u: TradeUpdate): Journal
    requires WellFormed(u)
  {
    if IsFill(u.kind) then WithFill(j, FillRowOf(u)) else WithCancel(j, CancelRowOf(u))
  }

  function AfterDelivery(j: Journal, raw: Message): Journal {
    match Accepted(j, raw)
    case None => j
    case Some(u) => Recorded(j, u)
  }

  function EmittedBy(j: Journal, raw: Message): seq<LiveEvent> {
    match Accepted(j, raw)
    case None => []
    case Some(u) => [EventOf(u, AttributionOf(j, u.clientOrderId).value)]
  }

  // ---- the consuming loop ----

  function JournalAfter(j: Journal, raws: seq<Message>): Journal {
    if raws == [] then j else AfterDelivery(JournalAfter(j, raws[..|raws| - 1]), raws[|raws| - 1])
  }

  function EventsFrom(j: Journal, raws: seq<Message>): seq<LiveEvent> {
    if raws == [] then []
    else
      var n := |raws| - 1;
      EventsFrom(j, raws[..n]) + EmittedBy(JournalAfter(j, raws[..n]), raws[n])
  }

  /** One message: dropped, or journaled and then, if it is news, announced. */
  method Handle(raw: Message, log: LiveEventLog, journal: LiveBrokerJournal)
    requires journal.Valid()
    modifies log, journal
    ensures journal.Valid()
    ensures journal.State() == AfterDelivery(old(journal.State()), raw)
    ensures log.events == old(log.events) + EmittedBy(old(journal.State()), raw)
  {
    var update := Decode(raw);
    if update.None? {
      return;
    }
    var u := update.value;
    var attribution := journal.Resolve(u.clientOrderId);
    if attribution.None? {
      return;
    }
    var inserted;
    if IsFill(u.kind) {
      inserted := journal.RecordFill(FillRowOf(u));
    } else {
      inserted := journal.RecordCancel(CancelRowOf(u));
    }
    if !inserted {
      return;
    }
    log.Append(EventOf(u, attribution.value));
  }

  /** Drains the messages in order. */
  method Consume(messages: seq<Message>, log: LiveEventLog, journal: LiveBrokerJournal)
    requires journal.Valid()
    modifies log, journal
    ensures journal.Valid()
    ensures journal.State() == JournalAfter(old(journal.State()), messages)
    ensures log.events == old(log.events) + EventsFrom(old(journal.State()), messages)
  {
    ghost var start, logged := journal.State(), log.events;
    for i := 0 to |messages|
      invariant journal.Valid() && journal.State() == JournalAfter(start, messages[..i])
      invariant log.events == logged + EventsFrom(start, messages[..i])
    {
      assert messages[..i + 1][..i] == messages[..i];
      OneMore(start, messages[..i + 1], messages[..i], messages[i]);
      Seqs.Assoc(logged, EventsFrom(start, messages[..i]), EmittedBy(JournalAfter(start, messages[..i]), messages[i]));
      Handle(messages[i], log, journal);
    }
    Seqs.FullPrefix(messages);
  }

  lemma {:induction false} JournalInTwoRuns(j: Journal, first: seq<Message>, second: seq<Message>)
    ensures JournalAfter(j, first + second) == JournalAfter(JournalAfter(j, first), second)
  {
    if second == [] {
      assert first + second == first;
    } else {
      var n := |second| - 1;
      Seqs.PrefixOfConcat(first, second, |first| + n);
      JournalInTwoRuns(j, first, second[..n]);
      OneMore(j, first + second, first + second[..n], second[n]);
      OneMore(JournalAfter(j, first), second, second[..n], second[n]);
    }
  }

  /** Restart safety: consuming a stream in two runs over one journal is consuming it in one. */
  lemma {:induction false} ConsumeInTwoRuns(j: Journal, first: seq<Message>, second: seq<Message>)
    ensures JournalAfter(j, first + second) == JournalAfter(JournalAfter(j, first), second)
    ensures EventsFrom(j, first + second) == EventsFrom(j, first) + EventsFrom(JournalAfter(j, first), second)
  {
    JournalInTwoRuns(j, first, second);
    if second == [] {
      assert first + second == first;
    } else {
      var n := |second| - 1;
      var mid := JournalAfter(j, first);
      Seqs.PrefixOfConcat(first, second, |first| + n);
      ConsumeInTwoRuns(j, first, second[..n]);
      OneMore(j, first + second, first + second[..n], second[n]);
      OneMore(mid, second, second[..n], second[n]);
      Seqs.Assoc(EventsFrom(j, first), EventsFrom(mid, second[..n]),
                 EmittedBy(JournalAfter(mid, second[..n]), second[n]));
    }
  }

  lemma OneMore(j: Journal, raws: seq<Message>, before: seq<Message>, last: Message)
    requires raws != [] && raws[..|raws| - 1] == before && raws[|raws| - 1] == last
    ensures JournalAfter(j, raws) == AfterDelivery(JournalAfter(j, before), last)
    ensures EventsFrom(j, raws) == EventsFrom(j, before) + EmittedBy(JournalAfter(j, before), last)
  {
  }
}
