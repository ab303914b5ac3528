/** The typed result every broker returns. */
module ExecutionReports {
  import opened Wrappers
  import opened Decisions

  datatype FillStatus = Filled | Rejected | Submitted

  datatype ExecutionStatus = Filled | Skipped | Rejected | Submitted

  datatype Fill = Fill(
    ticker: Ticker,
    side: Side,
    status: FillStatus,
    quantity: real,
    fillPrice: real,
    notional: real,
    reason: Option<string>)

  datatype ExecutionReport = ExecutionReport(
    sourceDecisionRunId: string,
    status: ExecutionStatus,
    fills: seq<Fill>,
    reason: Option<string>)

  /** The executed leg both brokers build from an order. */
  function FilledLeg(ticker: Ticker, side: Side, qty: real, price: real): Fill {
    Fill(ticker, side, FillStatus.Filled, qty, price, qty * price, None)
  }
}
