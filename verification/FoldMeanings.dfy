/** What the numbers of a fold say, told from closes and weights alone. */
module FoldMeanings {
  import opened Wrappers
  import opened BacktestEngine
  import opened BacktestProperties
  import opened RankSignals
  import opened NoLookahead
  import Seqs

  // ---- sums ----

  /** The sum of nothing is zero, of one number that number, and of two lists what their sums add up to. */
  lemma {:induction false} SumAdds(x: real, a: seq<real>, b: seq<real>)
    ensures Sum([]) == 0.0 && Sum([x]) == x && Sum(a + b) == Sum(a) + Sum(b)
  {
    assert [x][..0] == [];
    if b == [] {
      assert a + b == a;
    } else {
      assert (a + b)[..|a + b| - 1] == a + b[..|b| - 1];
      SumAdds(x, a, b[..|b| - 1]);
    }
  }

  // ---- what a day trades ----

  /** The weight a column had before day i: nothing before the first day. */
  function WeightBefore(signals: seq<Row>, columns: nat, i: nat, c: nat): real
    requires Grid(signals, columns) && i < |signals| && c < columns
  {
    if i == 0 then 0.0 else signals[i - 1][c]
  }

  function Distance(x: real, y: real): real {
    if x <= y then y - x else x - y
  }

  /** How far each column's weight moves on day i. */
  function MovesOn(signals: seq<Row>, columns: nat, i: nat): (moves: seq<real>)
    requires Grid(signals, columns) && i < |signals|
    ensures |moves| == columns
    ensures forall c :: 0 <= c < columns ==> moves[c] == Distance(WeightBefore(signals, columns, i, c), signals[i][c])
  {
    seq(columns, c requires 0 <= c < columns => Distance(WeightBefore(signals, columns, i, c), signals[i][c]))
  }

  lemma {:induction false} MovedIsSum(from: Row, to: Row, moves: seq<real>)
    requires |from| == |to| == |moves| && forall c :: 0 <= c < |moves| ==> moves[c] == Distance(from[c], to[c])
    ensures Moved(from, to) == Sum(moves)
  {
    if from != [] {
      var n := |from| - 1;
      MovedIsSum(from[..n], to[..n], moves[..n]);
    }
  }

  lemma TradedIsSum(signals: seq<Row>, columns: nat, i: nat)
    requires Grid(signals, columns) && i < |signals|
    ensures Traded(signals, columns, i) == Sum(MovesOn(signals, columns, i))
  {
    MovedIsSum(Previous(signals, columns, i), signals[i], MovesOn(signals, columns, i));
  }

  /** Turnover is what all days move, divided by the number of days. */
  lemma {:induction false} TotalIsSum(signals: seq<Row>, columns: nat, daily: seq<real>)
    requires Grid(signals, columns) && |daily| <= |signals|
    requires forall i :: 0 <= i < |daily| ==> daily[i] == Sum(MovesOn(signals, columns, i))
    ensures TotalTraded(signals, columns, |daily|) == Sum(daily)
  {
    if daily != [] {
      var n := |daily| - 1;
      TotalIsSum(signals, columns, daily[..n]);
      TradedIsSum(signals, columns, n);
      OneMoreDay(signals, columns, n + 1);
    }
  }

  lemma TurnoverIsMean(signals: seq<Row>, columns: nat, turnover: real, daily: seq<real>)
    requires Grid(signals, columns) && |daily| == |signals| > 0
    requires forall i :: 0 <= i < |daily| ==> daily[i] == Sum(MovesOn(signals, columns, i))
    requires Times(turnover, |signals|) == TotalTraded(signals, columns, |signals|)
    ensures turnover == Sum(daily) / (|signals| as real)
  {
    TotalIsSum(signals, columns, daily);
    Divided(turnover, |signals|, Sum(daily));
  }

  lemma Divided(x: real, days: nat, total: real)
    requires days > 0 && Times(x, days) == total
    ensures x == total / (days as real)
  {
  }

  // ---- the number of trades ----

  /** The weight moves by more than a millionth of a millionth. */
  predicate MovesAtAll(signals: seq<Row>, columns: nat, i: nat, c: nat)
    requires Grid(signals, columns) && i < |signals| && c < columns
  {
    Distance(WeightBefore(signals, columns, i, c), signals[i][c]) > 0.000000000001
  }

  /** The cells of one day, before a column, that move. */
  function MovingCells(signals: seq<Row>, columns: nat, i: nat, n: nat): set<(nat, nat)>
    requires Grid(signals, columns) && i < |signals| && n <= columns
  {
    set c: nat | c < n && MovesAtAll(signals, columns, i, c) :: (i, c)
  }

  /** The cells of the first days that move. */
  function Moving(signals: seq<Row>, columns: nat, days: nat): set<(nat, nat)>
    requires Grid(signals, columns) && days <= |signals|
  {
    set i: nat, c: nat | i < days && c < columns && MovesAtAll(signals, columns, i, c) :: (i, c)
  }

  lemma {:induction false} CellsCounted(signals: seq<Row>, columns: nat, i: nat, n: nat)
    requires Grid(signals, columns) && i < |signals| && n <= columns
    ensures |signals[i]| == columns
    ensures CellTrades(Previous(signals, columns, i)[..n], signals[i][..n]) == |MovingCells(signals, columns, i, n)|
  {
    var from, to := Previous(signals, columns, i), signals[i];
    if n > 0 {
      CellsCounted(signals, columns, i, n - 1);
      assert from[..n][..n - 1] == from[..n - 1] && to[..n][..n - 1] == to[..n - 1];
      OneMoreCell(signals, columns, i, n - 1);
    }
  }

  lemma OneMoreCell(signals: seq<Row>, columns: nat, i: nat, n: nat)
    requires Grid(signals, columns) && i < |signals| && n < columns
    ensures |MovingCells(signals, columns, i, n + 1)|
         == |MovingCells(signals, columns, i, n)| + (if MovesAtAll(signals, columns, i, n) then 1 else 0)
  {
    var before, now := MovingCells(signals, columns, i, n), MovingCells(signals, columns, i, n + 1);
    assert now == if MovesAtAll(signals, columns, i, n) then before + {(i, n)} else before;
    assert (i, n) !in before;
  }

  /** The trades counted are the cells whose weight moves, over all days and columns. */
  lemma {:induction false} TradesCounted(signals: seq<Row>, columns: nat, days: nat)
    requires Grid(signals, columns) && days <= |signals|
    ensures Trades(signals, columns, days) == |Moving(signals, columns, days)|
  {
    if days > 0 {
      var i := days - 1;
      TradesCounted(signals, columns, i);
      CellsCounted(signals, columns, i, columns);
      Seqs.FullPrefix(Previous(signals, columns, i));
      Seqs.FullPrefix(signals[i]);
      MovingOneMore(signals, columns, i);
    } else {
      assert Moving(signals, columns, days) == {};
    }
  }

  lemma MovingOneMore(signals: seq<Row>, columns: nat, i: nat)
    requires Grid(signals, columns) && i < |signals|
    ensures |Moving(signals, columns, i + 1)|
         == |Moving(signals, columns, i)| + |MovingCells(signals, columns, i, columns)|
  {
    var before, today := Moving(signals, columns, i), MovingCells(signals, columns, i, columns);
    assert Moving(signals, columns, i + 1) == before + today;
    assert before !! today;
  }

  // ---- a day's net return ----

  /** What each column gains on day i + 1: the weight chosen on day i times the change of the close. */
  ghost predicate GainsOn(gains: seq<real>, prices: seq<Row>, signals: seq<Row>, columns: nat, i: nat)
    requires Grid(prices, columns) && Grid(signals, columns) && |prices| == |signals| && i + 1 < |prices|
  {
    && |gains| == columns
    && forall c :: 0 <= c < columns ==> IsGain(gains[c], signals[i][c], prices[i][c], prices[i + 1][c])
  }

  predicate IsGain(gain: real, weight: real, from: real, to: real) {
    gain * from == weight * (to - from)
  }

  lemma {:induction false} DotIsSum(x: Row, y: Row, products: seq<real>)
    requires |x| == |y| == |products| && forall c :: 0 <= c < |x| ==> products[c] == x[c] * y[c]
    ensures Dot(x, y) == Sum(products)
  {
    if x != [] {
      var n := |x| - 1;
      DotIsSum(x[..n], y[..n], products[..n]);
    }
  }

  lemma GainOf(weight: real, from: real, to: real)
    requires from > 0.0
    ensures IsGain(Change(from, to) * weight, weight, from, to)
  {
    assert Change(from, to) * from == to - from;
    assert Change(from, to) * weight * from == weight * (Change(from, to) * from);
  }

  /** Costs are basis points: ten thousand of them are everything that was moved. */
  predicate ChargedFor(charge: real, costBps: real, slippageBps: real, moved: real) {
    charge * 10000.0 == (costBps + slippageBps) * moved
  }

  lemma ChargeOf(costBps: real, slippageBps: real, moved: real)
    ensures ChargedFor(Cost(Rate(costBps, slippageBps), moved), costBps, slippageBps, moved)
  {
    var rate := Rate(costBps, slippageBps);
    assert rate * 10000.0 == costBps + slippageBps;
    assert rate * moved * 10000.0 == (rate * 10000.0) * moved;
  }

  /** A net return is what the columns gain less the basis points charged for what the day before moved. */
  lemma NetReturnMeans(prices: seq<Row>, signals: seq<Row>, columns: nat, costBps: real, slippageBps: real, i: nat)
    returns (gains: seq<real>, charge: real)
    requires Grid(prices, columns) && Priced(prices) && Grid(signals, columns) && |prices| == |signals|
    requires i + 1 < |prices|
    ensures GainsOn(gains, prices, signals, columns, i)
    ensures ChargedFor(charge, costBps, slippageBps, Sum(MovesOn(signals, columns, i)))
    ensures NetReturn(prices, signals, columns, Rate(costBps, slippageBps), i) == Sum(gains) - charge
  {
    var changes, held := DayChanges(prices, columns, i + 1), signals[i];
    gains := seq(columns, c requires 0 <= c < columns => changes[c] * held[c]);
    charge := Cost(Rate(costBps, slippageBps), Traded(signals, columns, i));
    GainsAre(prices, signals, columns, i, gains);
    DotIsSum(changes, held, gains);
    TradedIsSum(signals, columns, i);
    ChargeOf(costBps, slippageBps, Traded(signals, columns, i));
  }

  lemma GainsAre(prices: seq<Row>, signals: seq<Row>, columns: nat, i: nat, gains: seq<real>)
    requires Grid(prices, columns) && Priced(prices) && Grid(signals, columns) && |prices| == |signals|
    requires i + 1 < |prices| && |gains| == columns
    requires forall c :: 0 <= c < columns ==> gains[c] == DayChanges(prices, columns, i + 1)[c] * signals[i][c]
    ensures GainsOn(gains, prices, signals, columns, i)
  {
    forall c | 0 <= c < columns ensures IsGain(gains[c], signals[i][c], prices[i][c], prices[i + 1][c]) {
      assert prices[i] in prices && prices[i][c] in prices[i];
      GainOf(signals[i][c], prices[i][c], prices[i + 1][c]);
    }
  }

  // ---- a fold of a strategy ----

  /** The grids of a fold have the closes of its days and the weights that their histories give. */
  lemma FoldGrids(s: Strategy, history: seq<Closes>, from: nat, to: nat, i: nat, c: nat)
    requires ValidStrategy(s) && Complete(s.universe, history) && from + i < to <= |history| && c < |s.universe|
    ensures s.universe[c] in history[from + i]
    ensures |PriceGrid(s.universe, history, from, to)[i]| == |s.universe| == |SignalGrid(s, history, from, to)[i]|
    ensures PriceGrid(s.universe, history, from, to)[i][c] == history[from + i][s.universe[c]]
    ensures SignalGrid(s, history, from, to)[i]
         == DayWeights(s.universe, history, s.lookback, s.k, s.direction, from + i)
  {
    assert Covers(s.universe, history[from + i]) && s.universe[c] in s.universe;
  }

  /** Day by day a fold of a strategy returns what its weights gain on the closes, less what its moves cost. */
  lemma FoldReturnsMean(s: Strategy, history: seq<Closes>, from: nat, to: nat, costBps: real, slippageBps: real, i: nat)
    returns (gains: seq<real>, charge: real)
    requires ValidStrategy(s) && Complete(s.universe, history) && from + i + 1 < to <= |history|
    ensures var (prices, signals) := (PriceGrid(s.universe, history, from, to), SignalGrid(s, history, from, to));
            && GainsOn(gains, prices, signals, |s.universe|, i)
            && ChargedFor(charge, costBps, slippageBps, Sum(MovesOn(signals, |s.universe|, i)))
    ensures |FoldReturns(s, history, from, to, Rate(costBps, slippageBps))| == to - from - 1
    ensures FoldReturns(s, history, from, to, Rate(costBps, slippageBps))[i] == Sum(gains) - charge
  {
    gains, charge := NetReturnMeans(PriceGrid(s.universe, history, from, to), SignalGrid(s, history, from, to),
                                    |s.universe|, costBps, slippageBps, i);
  }

  // ---- profit and drawdown ----

  /** A fall in percent is a hundred times what was lost of the peak. */
  lemma FallInPercent(peak: real, equity: real)
    requires peak > 0.0
    ensures Percent(Fall(peak, equity)) * peak == 100.0 * (peak - equity)
  {
    assert Fall(peak, equity) * peak == peak - equity;
    assert Percent(Fall(peak, equity)) * peak == 100.0 * (Fall(peak, equity) * peak);
  }

  /** A ticker held in full at no cost earns on the notional what its close gained from the first to the last day. */
  lemma HeldTickerEarns(prices: seq<Row>, columns: nat, held: nat, notional: real)
    requires Grid(prices, columns) && Priced(prices) && held < columns && prices != []
    ensures var (net, closes) := (NetReturns(prices, Held(|prices|, columns, held), columns, 0.0),
                                  Column(prices, columns, held));
            && |closes| == |prices|
            && IsGain(Profit(notional, Equity(net, |net|)), notional, closes[0], closes[|closes| - 1])
  {
    HeldTickerTelescopes(prices, columns, held);
    CompoundedEarns(NetReturns(prices, Held(|prices|, columns, held), columns, 0.0), Column(prices, columns, held),
                    notional);
  }

  lemma CompoundedEarns(rets: seq<real>, closes: seq<real>, notional: real)
    requires Compounds(rets, closes)
    ensures IsGain(Profit(notional, Equity(rets, |rets|)), notional, closes[0], closes[|closes| - 1])
  {
    EarnedOn(notional, Equity(rets, |rets|), closes[0], closes[|rets|]);
  }

  lemma EarnedOn(notional: real, equity: real, first: real, last: real)
    requires equity * first == last
    ensures IsGain(Profit(notional, equity), notional, first, last)
  {
    assert notional * (equity - 1.0) * first == notional * (equity * first - first);
  }
}
