/** One fold of the walk-forward backtest, on a complete grid of closes and weights (a row per day). */
module BacktestEngine {
  import opened Wrappers
  import Seqs

  type Row = seq<real>

  /** Every row has a cell per ticker column. */
  predicate Grid(rows: seq<Row>, columns: nat) {
    forall row <- rows :: |row| == columns
  }

  predicate Priced(rows: seq<Row>) {
    forall row <- rows :: forall p <- row :: p > 0.0
  }

  const BPS_DENOMINATOR := 10000.0
  const TRADE_THRESHOLD := 0.000000000001

  // ---- sums ----

  function Sum(xs: seq<real>): real {
    if xs == [] then 0.0 else Sum(xs[..|xs| - 1]) + xs[|xs| - 1]
  }

  lemma SumOneMore(xs: seq<real>, x: real)
    ensures Sum(xs + [x]) == Sum(xs) + x
  {
    assert (xs + [x])[..|xs|] == xs;
  }

  function Abs(x: real): real {
    if x < 0.0 then -x else x
  }

  // ---- returns and exposure ----

  function Zeros(columns: nat): Row {
    seq(columns, c => 0.0)
  }

  /** The row before day i; nothing is held before the first. */
  function Previous(signals: seq<Row>, columns: nat, i: nat): (r: Row)
    requires i < |signals| && Grid(signals, columns)
    ensures |r| == columns
  {
    if i == 0 then Zeros(columns) else signals[i - 1]
  }

  function Change(from: real, to: real): real
    requires from > 0.0
  {
    (to - from) / from
  }

  function Changes(from: Row, to: Row): (r: Row)
    requires |from| == |to| && forall p <- from :: p > 0.0
    ensures |r| == |to|
  {
    seq(|to|, c requires 0 <= c < |to| =>
      assert from[c] in from;
      Change(from[c], to[c]))
  }

  /** Percentage change of every column; the first day has none. */
  function DayChanges(prices: seq<Row>, columns: nat, i: nat): (r: Row)
    requires Grid(prices, columns) && Priced(prices) && i < |prices|
    ensures |r| == columns
  {
    if i == 0 then Zeros(columns)
    else
      assert prices[i - 1] in prices;
      Changes(prices[i - 1], prices[i])
  }

  function DailyReturns(prices: seq<Row>, columns: nat): (r: seq<Row>)
    requires Grid(prices, columns) && Priced(prices)
    ensures |r| == |prices| && forall i :: 0 <= i < |r| ==> r[i] == DayChanges(prices, columns, i)
  {
    seq(|prices|, i requires 0 <= i < |prices| => DayChanges(prices, columns, i))
  }

  /** Weights observed at one close are held over the next day. */
  function ShiftOneDay(signals: seq<Row>, columns: nat): (r: seq<Row>)
    requires Grid(signals, columns)
    ensures |r| == |signals| && Grid(r, columns)
    ensures forall i :: 0 <= i < |signals| ==> r[i] == Previous(signals, columns, i)
  {
    seq(|signals|, i requires 0 <= i < |signals| => Previous(signals, columns, i))
  }

  function Dot(x: Row, y: Row): real
    requires |x| == |y|
  {
    if x == [] then 0.0 else Dot(x[..|x| - 1], y[..|y| - 1]) + x[|x| - 1] * y[|y| - 1]
  }

  method PortfolioReturns(rets: seq<Row>, lagged: seq<Row>, columns: nat) returns (rows: seq<real>)
    requires |rets| == |lagged| && Grid(rets, columns) && Grid(lagged, columns)
    ensures |rows| == |rets| && forall i :: 0 <= i < |rows| ==> rows[i] == Dot(rets[i], lagged[i])
  {
    rows := [];
    for i := 0 to |rets|
      invariant |rows| == i && forall k :: 0 <= k < i ==> rows[k] == Dot(rets[k], lagged[k])
    {
      var r, s := rets[i], lagged[i];
      var total := 0.0;
      for c := 0 to columns
        invariant total == Dot(r[..c], s[..c])
      {
        assert r[..c + 1][..c] == r[..c] && s[..c + 1][..c] == s[..c];
        total := total + r[c] * s[c];
      }
      Seqs.FullPrefix(r);
      Seqs.FullPrefix(s);
      rows := rows + [total];
    }
  }

  // ---- trading ----

  /** Sum of absolute weight changes between two rows. */
  function Moved(from: Row, to: Row): (r: real)
    requires |from| == |to|
    ensures r >= 0.0
  {
    if from == [] then 0.0
    else Moved(from[..|from| - 1], to[..|to| - 1]) + Abs(to[|to| - 1] - from[|from| - 1])
  }

  /** What day i's rebalancing trades. */
  function Traded(signals: seq<Row>, columns: nat, i: nat): (r: real)
    requires i < |signals| && Grid(signals, columns)
    ensures r >= 0.0
  {
    Moved(Previous(signals, columns, i), signals[i])
  }

  function TotalTraded(signals: seq<Row>, columns: nat, days: nat): (r: real)
    requires days <= |signals| && Grid(signals, columns)
    ensures r >= 0.0
  {
    if days == 0 then 0.0 else TotalTraded(signals, columns, days - 1) + Traded(signals, columns, days - 1)
  }

  function Rate(costBps: real, slippageBps: real): real {
    (costBps + slippageBps) / BPS_DENOMINATOR
  }

  function Cost(rate: real, traded: real): real {
    rate * traded
  }

  method CostSeries(signals: seq<Row>, columns: nat, costBps: real, slippageBps: real) returns (rows: seq<real>)
    requires Grid(signals, columns)
    ensures |rows| == |signals|
    ensures forall i :: 0 <= i < |rows| ==> rows[i] == Cost(Rate(costBps, slippageBps), Traded(signals, columns, i))
  {
    var rate := Rate(costBps, slippageBps);
    rows := [];
    var prev := Zeros(columns);
    for i := 0 to |signals|
      invariant |rows| == i && |prev| == columns
      invariant i < |signals| ==> prev == Previous(signals, columns, i)
      invariant forall k :: 0 <= k < i ==> rows[k] == Cost(rate, Traded(signals, columns, k))
    {
      var delta;
      delta, prev := Rebalance(prev, signals[i]);
      rows := rows + [Cost(rate, delta)];
    }
  }

  /** The inner loop all trading measures share: the change added up, the row carried over. */
  method Rebalance(before: Row, row: Row) returns (delta: real, after: Row)
    requires |before| == |row|
    ensures delta == Moved(before, row) && after == row
  {
    delta, after := 0.0, before;
    for c := 0 to |row|
      invariant |after| == |row| && delta == Moved(before[..c], row[..c])
      invariant after[..c] == row[..c] && after[c..] == before[c..]
    {
      assert before[..c + 1][..c] == before[..c] && row[..c + 1][..c] == row[..c];
      var curr := row[c];
      delta := delta + Abs(curr - before[c]);
      after := after[c := curr];
    }
    Seqs.FullPrefix(row);
    Seqs.FullPrefix(before);
  }

  function Mean(total: real, days: nat): (r: real)
    requires days > 0
    ensures Times(r, days) == total
  {
    total / (days as real)
  }

  function Times(x: real, days: nat): real {
    x * (days as real)
  }

  /** Mean traded per day; zero without days. */
  method Turnover(signals: seq<Row>, columns: nat) returns (turnover: real)
    requires Grid(signals, columns)
    ensures Times(turnover, |signals|) == TotalTraded(signals, columns, |signals|)
    ensures signals == [] ==> turnover == 0.0
  {
    if |signals| == 0 {
      return 0.0;
    }
    var total := 0.0;
    var prev := Zeros(columns);
    for i := 0 to |signals|
      invariant |prev| == columns && total == TotalTraded(signals, columns, i)
      invariant i < |signals| ==> prev == Previous(signals, columns, i)
    {
      var delta;
      delta, prev := Rebalance(prev, signals[i]);
      total := total + delta;
    }
    turnover := Mean(total, |signals|);
  }

  function CellTrades(from: Row, to: Row): nat
    requires |from| == |to|
  {
    if from == [] then 0
    else
      var n := |from| - 1;
      CellTrades(from[..n], to[..n]) + (if Abs(to[n] - from[n]) > TRADE_THRESHOLD then 1 else 0)
  }

  function Trades(signals: seq<Row>, columns: nat, days: nat): nat
    requires days <= |signals| && Grid(signals, columns)
  {
    if days == 0 then 0
    else Trades(signals, columns, days - 1) + CellTrades(Previous(signals, columns, days - 1), signals[days - 1])
  }

  method NTrades(signals: seq<Row>, columns: nat) returns (n: nat)
    requires Grid(signals, columns)
    ensures n == Trades(signals, columns, |signals|)
  {
    n := 0;
    var prev := Zeros(columns);
    for i := 0 to |signals|
      invariant |prev| == columns && n == Trades(signals, columns, i)
      invariant i < |signals| ==> prev == Previous(signals, columns, i)
    {
      var today;
      today, prev := CountTrades(prev, signals[i]);
      n := n + today;
    }
  }

  /** The inner loop of the trade count: the changes that matter, the row carried over. */
  method CountTrades(before: Row, row: Row) returns (today: nat, after: Row)
    requires |before| == |row|
    ensures today == CellTrades(before, row) && after == row
  {
    today, after := 0, before;
    for c := 0 to |row|
      invariant |after| == |row| && today == CellTrades(before[..c], row[..c])
      invariant after[..c] == row[..c] && after[c..] == before[c..]
    {
      assert before[..c + 1][..c] == before[..c] && row[..c + 1][..c] == row[..c];
      var curr := row[c];
      if Abs(curr - after[c]) > TRADE_THRESHOLD {
        today := today + 1;
      }
      after := after[c := curr];
    }
    Seqs.FullPrefix(row);
    Seqs.FullPrefix(before);
  }

  // ---- equity ----

  /** Growth of one unit of capital over the first i returns. */
  function Equity(rets: seq<real>, i: nat): real
    requires i <= |rets|
  {
    if i == 0 then 1.0 else Grow(Equity(rets, i - 1), rets[i - 1])
  }

  function Grow(equity: real, r: real): real {
    equity * (1.0 + r)
  }

  /** A fall as a fraction of the peak it is measured from. */
  function Fall(peak: real, equity: real): real
    requires peak > 0.0
  {
    (peak - equity) / peak
  }

  function Percent(fraction: real): real {
    fraction * 100.0
  }

  lemma PercentOrder(x: real, y: real)
    requires x <= y
    ensures Percent(x) <= Percent(y)
  {
  }

  /** The highest equity so far, the starting capital included. */
  function Peak(rets: seq<real>, i: nat): (r: real)
    requires i <= |rets|
    ensures r >= 1.0
    ensures forall k :: 0 <= k <= i ==> Equity(rets, k) <= r
    ensures exists k :: 0 <= k <= i && Equity(rets, k) == r
  {
    if i == 0 then
      assert Equity(rets, 0) == 1.0;
      1.0
    else
      var before, now := Peak(rets, i - 1), Equity(rets, i);
      if before >= now then
        before
      else
        now
  }

  /** The fall from the running peak. */
  function Drop(rets: seq<real>, i: nat): real
    requires i <= |rets|
  {
    Fall(Peak(rets, i), Equity(rets, i))
  }

  /** The largest fall from a running peak, in percent. */
  ghost predicate IsMaxDrawdown(rets: seq<real>, pct: real) {
    && (forall i :: 0 <= i <= |rets| ==> Percent(Drop(rets, i)) <= pct)
    && (exists i :: 0 <= i <= |rets| && pct == Percent(Drop(rets, i)))
  }

  method MaxDrawdownPct(rets: seq<real>) returns (pct: real)
    ensures IsMaxDrawdown(rets, pct)
  {
    assert Drop(rets, 0) == 0.0;
    if rets == [] {
      return 0.0;
    }
    var equity, peak, worst := 1.0, 1.0, 0.0;
    ghost var at := 0;
    for i := 0 to |rets|
      invariant equity == Equity(rets, i) && peak == Peak(rets, i)
      invariant 0 <= at <= i && worst == Drop(rets, at)
      invariant forall k :: 0 <= k <= i ==> Drop(rets, k) <= worst
    {
      equity := Grow(equity, rets[i]);
      peak := if equity > peak then equity else peak;
      if peak > 0.0 {
        var dd := Fall(peak, equity);
        if dd > worst {
          worst, at := dd, i + 1;
        }
      }
    }
    pct := Percent(worst);
    forall i | 0 <= i <= |rets| ensures Percent(Drop(rets, i)) <= pct {
      PercentOrder(Drop(rets, i), worst);
    }
  }

  function Profit(notional: real, equity: real): real {
    notional * (equity - 1.0)
  }

  method Pnl(rets: seq<real>, notional: real) returns (pnl: real)
    ensures pnl == Profit(notional, Equity(rets, |rets|))
  {
    var equity := 1.0;
    for i := 0 to |rets|
      invariant equity == Equity(rets, i)
    {
      equity := Grow(equity, rets[i]);
    }
    pnl := Profit(notional, equity);
  }

  // ---- one fold ----

  /** Day i's return on the weights held over it. */
  function Earned(prices: seq<Row>, signals: seq<Row>, columns: nat, i: nat): real
    requires Grid(prices, columns) && Priced(prices) && Grid(signals, columns) && |prices| == |signals|
    requires i < |prices|
  {
    Dot(DayChanges(prices, columns, i), Previous(signals, columns, i))
  }

  /** Net return of day i + 1: what yesterday's weights earned, less what yesterday's rebalancing cost. */
  function NetReturn(prices: seq<Row>, signals: seq<Row>, columns: nat, rate: real, i: nat): real
    requires Grid(prices, columns) && Priced(prices) && Grid(signals, columns) && |prices| == |signals|
    requires i + 1 < |prices|
  {
    Earned(prices, signals, columns, i + 1) - Cost(rate, Traded(signals, columns, i))
  }

  function NetReturns(prices: seq<Row>, signals: seq<Row>, columns: nat, rate: real): (r: seq<real>)
    requires Grid(prices, columns) && Priced(prices) && Grid(signals, columns) && |prices| == |signals|
    ensures |r| == if |prices| <= 1 then 0 else |prices| - 1
    ensures forall i :: 0 <= i < |r| ==> r[i] == NetReturn(prices, signals, columns, rate, i)
  {
    seq(if |prices| <= 1 then 0 else |prices| - 1,
        i requires 0 <= i < |prices| - 1 => NetReturn(prices, signals, columns, rate, i))
  }

  /** Costs paid at the close of a day come out of the next day's return. */
  function NetOfCosts(gross: seq<real>, costs: seq<real>): (r: seq<real>)
    requires |gross| == |costs| > 0
    ensures |r| == |gross| - 1 && forall i :: 0 <= i < |r| ==> r[i] == gross[i + 1] - costs[i]
  {
    seq(|gross| - 1, i requires 0 <= i < |gross| - 1 => gross[i + 1] - costs[i])
  }

  /** The daily series behind the metrics. */
  method RunNetReturns(prices: seq<Row>, signals: seq<Row>, columns: nat, costBps: real, slippageBps: real)
    returns (net: seq<real>)
    requires Grid(prices, columns) && Priced(prices) && Grid(signals, columns) && |prices| == |signals|
    ensures net == NetReturns(prices, signals, columns, Rate(costBps, slippageBps))
  {
    var rets, lagged := DailyReturns(prices, columns), ShiftOneDay(signals, columns);
    var gross := PortfolioReturns(rets, lagged, columns);
    var costs := CostSeries(signals, columns, costBps, slippageBps);
    forall i | 0 <= i < |gross| ensures gross[i] == Earned(prices, signals, columns, i) {
      assert lagged[i] == Previous(signals, columns, i);
    }
    net := if |gross| > 1 then NetOfCosts(gross, costs) else [];
    NetOfSeries(prices, signals, columns, Rate(costBps, slippageBps), gross, costs, net);
  }

  lemma NetOfSeries(prices: seq<Row>, signals: seq<Row>, columns: nat, rate: real,
                    gross: seq<real>, costs: seq<real>, net: seq<real>)
    requires Grid(prices, columns) && Priced(prices) && Grid(signals, columns)
    requires |prices| == |signals| == |gross| == |costs|
    requires forall i :: 0 <= i < |gross| ==> gross[i] == Earned(prices, signals, columns, i)
    requires forall i :: 0 <= i < |costs| ==> costs[i] == Cost(rate, Traded(signals, columns, i))
    requires net == if |gross| > 1 then NetOfCosts(gross, costs) else []
    ensures net == NetReturns(prices, signals, columns, rate)
  {
    var want := NetReturns(prices, signals, columns, rate);
    forall i | 0 <= i < |want| ensures want[i] == gross[i + 1] - costs[i] {
      NetDay(prices, signals, columns, rate, i, gross[i + 1], costs[i]);
    }
    SameNet(gross, costs, net, want);
  }

  lemma SameNet(gross: seq<real>, costs: seq<real>, net: seq<real>, want: seq<real>)
    requires |gross| == |costs| && net == if |gross| > 1 then NetOfCosts(gross, costs) else []
    requires |want| == if |gross| <= 1 then 0 else |gross| - 1
    requires forall i :: 0 <= i < |want| ==> want[i] == gross[i + 1] - costs[i]
    ensures net == want
  {
  }

  lemma NetDay(prices: seq<Row>, signals: seq<Row>, columns: nat, rate: real, i: nat, earned: real, cost: real)
    requires Grid(prices, columns) && Priced(prices) && Grid(signals, columns) && |prices| == |signals|
    requires i + 1 < |prices| && earned == Earned(prices, signals, columns, i + 1)
    requires cost == Cost(rate, Traded(signals, columns, i))
    ensures earned - cost == NetReturn(prices, signals, columns, rate, i)
  {
  }
}
