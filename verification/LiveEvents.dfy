/** The broker-live events and the append-only log they go to. */
module LiveEvents {
  import opened Wrappers
  import opened Decisions

  datatype LiveEvent =
    | LiveSubmitted(cycleId: string, decisionRunId: string, orderId: string, clientOrderId: string,
                    idempotencyKey: string, symbol: string, qty: real, side: Side)
    | LiveRejected(cycleId: string, decisionRunId: string, reason: string)
    | LiveKillSwitch(cycleId: string, reason: string)
    | LiveFilled(cycleId: string, decisionRunId: string, orderId: string, clientOrderId: string,
                 symbol: string, sideText: string, filledQty: real, filledAvgPrice: real, isPartial: bool)
    | LiveCancelled(cycleId: string, decisionRunId: string, orderId: string, clientOrderId: string,
                    symbol: string, sideText: string, venueReason: Option<string>)

  class LiveEventLog {
    var events: seq<LiveEvent>

    constructor ()
      ensures events == []
    {
      events := [];
    }

    method Append(e: LiveEvent)
      modifies this
      ensures events == old(events) + [e]
    {
      events := events + [e];
    }
  }
}
