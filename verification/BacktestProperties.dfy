/** What the fold metrics mean: drawdown over pairs, costs against turnover, profit against costs. */
module BacktestProperties {
  import opened BacktestEngine
  import Seqs

  // ---- drawdown ----

  lemma MulOrder(x: real, y: real, factor: real)
    requires x <= y && factor >= 0.0
    ensures x * factor <= y * factor
  {
  }

  lemma MulStrict(x: real, y: real, factor: real)
    requires x < y && factor > 0.0
    ensures x * factor < y * factor
  {
  }

  lemma FallBack(peak: real, equity: real)
    requires peak > 0.0
    ensures (1.0 - Fall(peak, equity)) * peak == equity
  {
    assert Fall(peak, equity) * peak == peak - equity;
  }

  lemma Squeeze(x: real, y: real, low: real, high: real, product: real)
    requires 0.0 < low <= high && 0.0 <= product
    requires x * low == product && y * high == product
    ensures y <= x
  {
    if y > x {
      MulStrict(x, y, low);
      if y < 0.0 {
        MulStrict(y, 0.0, high);
      } else {
        MulOrder(low, high, y);
      }
    }
  }

  lemma FallAgainst(low: real, high: real, equity: real)
    requires 0.0 < low <= high && 0.0 <= equity
    ensures Fall(low, equity) <= Fall(high, equity)
  {
    FallBack(low, equity);
    FallBack(high, equity);
    Squeeze(1.0 - Fall(low, equity), 1.0 - Fall(high, equity), low, high, equity);
  }

  lemma FallBounds(peak: real, equity: real)
    requires peak > 0.0
    ensures equity <= peak ==> 0.0 <= Fall(peak, equity)
    ensures Fall(peak, equity) <= 1.0 <==> equity >= 0.0
    ensures Fall(peak, equity) < 1.0 <==> equity > 0.0
  {
    var f := Fall(peak, equity);
    assert f * peak == peak - equity;
    if f > 1.0 {
      assert f * peak > peak;
    } else if f < 1.0 {
      assert f * peak < peak;
    }
    if f < 0.0 {
      assert f * peak < 0.0;
    }
  }

  ghost predicate StaysPositive(rets: seq<real>) {
    forall i :: 0 <= i <= |rets| ==> Equity(rets, i) > 0.0
  }

  lemma PairUnderPeak(rets: seq<real>, i: nat, j: nat)
    requires i <= j <= |rets| && StaysPositive(rets)
    ensures Fall(Equity(rets, i), Equity(rets, j)) <= Drop(rets, j)
  {
    FallAgainst(Equity(rets, i), Peak(rets, j), Equity(rets, j));
  }

  /** While equity stays positive, the one-pass loop finds the worst fall between any two moments in order. */
  lemma DrawdownIsMaxOverPairs(rets: seq<real>, pct: real)
    requires IsMaxDrawdown(rets, pct) && StaysPositive(rets)
    ensures forall i, j :: 0 <= i <= j <= |rets| ==> Percent(Fall(Equity(rets, i), Equity(rets, j))) <= pct
    ensures exists i, j :: 0 <= i <= j <= |rets| && pct == Percent(Fall(Equity(rets, i), Equity(rets, j)))
  {
    forall i, j | 0 <= i <= j <= |rets| ensures Percent(Fall(Equity(rets, i), Equity(rets, j))) <= pct {
      PairUnderPeak(rets, i, j);
      PercentOrder(Fall(Equity(rets, i), Equity(rets, j)), Drop(rets, j));
    }
    var j :| 0 <= j <= |rets| && pct == Percent(Drop(rets, j));
    var i :| 0 <= i <= j && Equity(rets, i) == Peak(rets, j);
    assert pct == Percent(Fall(Equity(rets, i), Equity(rets, j)));
  }

  lemma DropFacts(rets: seq<real>, i: nat)
    requires i <= |rets|
    ensures 0.0 <= Drop(rets, i)
    ensures Drop(rets, i) <= 1.0 <==> Equity(rets, i) >= 0.0
    ensures Drop(rets, i) < 1.0 <==> Equity(rets, i) > 0.0
  {
    FallBounds(Peak(rets, i), Equity(rets, i));
  }

  lemma WorstMoment(rets: seq<real>, pct: real) returns (at: nat)
    requires IsMaxDrawdown(rets, pct)
    ensures at <= |rets| && pct == Percent(Drop(rets, at))
    ensures forall i :: 0 <= i <= |rets| ==> Drop(rets, i) <= Drop(rets, at)
  {
    at :| 0 <= at <= |rets| && pct == Percent(Drop(rets, at));
    forall i | 0 <= i <= |rets| ensures Drop(rets, i) <= Drop(rets, at) {
      assert Percent(Drop(rets, i)) <= pct;
      PercentReflects(Drop(rets, i), Drop(rets, at));
    }
  }

  /** The reported metric is never negative, and fits its 100 % bound exactly when equity never goes below zero. */
  lemma DrawdownFitsBoundIff(rets: seq<real>, pct: real)
    requires IsMaxDrawdown(rets, pct)
    ensures 0.0 <= pct
    ensures pct <= 100.0 <==> forall i :: 0 <= i <= |rets| ==> Equity(rets, i) >= 0.0
    ensures pct < 100.0 <==> StaysPositive(rets)
  {
    var at := WorstMoment(rets, pct);
    DropFacts(rets, at);
    PercentReflects(0.0, Drop(rets, at));
    PercentReflects(Drop(rets, at), 1.0);
    PercentReflects(1.0, Drop(rets, at));
    if pct <= 100.0 {
      forall i | 0 <= i <= |rets| ensures Equity(rets, i) >= 0.0 {
        DropFacts(rets, i);
      }
    }
    if pct < 100.0 {
      forall i | 0 <= i <= |rets| ensures Equity(rets, i) > 0.0 {
        DropFacts(rets, i);
      }
    }
  }

  lemma PercentReflects(x: real, y: real)
    ensures Percent(x) <= Percent(y) <==> x <= y
    ensures Percent(1.0) == 100.0 && Percent(0.0) == 0.0
  {
  }

  // ---- the bound in terms of a fold's inputs ----

  lemma GrowSign(equity: real, r: real)
    requires equity > 0.0
    ensures Grow(equity, r) > 0.0 <==> r > -1.0
    ensures Grow(equity, r) == 0.0 <==> r == -1.0
  {
    if r > -1.0 {
      MulStrict(0.0, 1.0 + r, equity);
    } else if r < -1.0 {
      MulStrict(1.0 + r, 0.0, equity);
    }
  }

  ghost predicate PositiveUpTo(rets: seq<real>, n: nat)
    requires n <= |rets|
  {
    forall i :: 0 <= i <= n ==> Equity(rets, i) > 0.0
  }

  /** No day so far lost everything or more. */
  ghost predicate NoRuin(rets: seq<real>, n: nat)
    requires n <= |rets|
  {
    forall i :: 0 <= i < n ==> rets[i] > -1.0
  }

  lemma {:induction false} PositiveIffNoRuin(rets: seq<real>, n: nat)
    requires n <= |rets|
    ensures PositiveUpTo(rets, n) <==> NoRuin(rets, n)
  {
    if n == 0 {
      assert Equity(rets, 0) == 1.0;
    } else {
      PositiveIffNoRuin(rets, n - 1);
      assert PositiveUpTo(rets, n) <==> PositiveUpTo(rets, n - 1) && Equity(rets, n) > 0.0;
      assert NoRuin(rets, n) <==> NoRuin(rets, n - 1) && rets[n - 1] > -1.0;
      if PositiveUpTo(rets, n - 1) {
        assert Equity(rets, n - 1) > 0.0;
        GrowSign(Equity(rets, n - 1), rets[n - 1]);
      }
    }
  }

  /** The first day that loses everything or more. */
  ghost predicate RuinAt(rets: seq<real>, i: nat) {
    i < |rets| && rets[i] <= -1.0 && NoRuin(rets, i)
  }

  /** The first such day, if there is one, loses exactly everything. */
  ghost predicate NeverBelowRuin(rets: seq<real>) {
    forall i: nat :: RuinAt(rets, i) ==> rets[i] == -1.0
  }

  lemma {:induction false} ZeroStays(rets: seq<real>, from: nat, n: nat)
    requires from <= n <= |rets| && Equity(rets, from) == 0.0
    ensures Equity(rets, n) == 0.0
  {
    if n > from {
      ZeroStays(rets, from, n - 1);
      assert Grow(0.0, rets[n - 1]) == 0.0;
    }
  }

  lemma NonNegativeIff(rets: seq<real>)
    ensures (forall i :: 0 <= i <= |rets| ==> Equity(rets, i) >= 0.0) <==> NeverBelowRuin(rets)
  {
    if i: nat :| RuinAt(rets, i) {
      assert forall k: nat :: RuinAt(rets, k) ==> k == i;
      PositiveIffNoRuin(rets, i);
      GrowSign(Equity(rets, i), rets[i]);
      if rets[i] == -1.0 {
        forall n | 0 <= n <= |rets| ensures Equity(rets, n) >= 0.0 {
          if n > i {
            ZeroStays(rets, i + 1, n);
          }
        }
      } else {
        assert Equity(rets, i + 1) < 0.0;
      }
    } else {
      NoFirstRuin(rets, |rets|);
      PositiveIffNoRuin(rets, |rets|);
    }
  }

  lemma {:induction false} NoFirstRuin(rets: seq<real>, n: nat)
    requires n <= |rets| && forall i: nat :: !RuinAt(rets, i)
    ensures NoRuin(rets, n)
  {
    if n > 0 {
      NoFirstRuin(rets, n - 1);
      assert !RuinAt(rets, n - 1);
    }
  }

  /** Day i's rebalancing costs less than what the next day leaves of the equity. */
  predicate Affordable(prices: seq<Row>, signals: seq<Row>, columns: nat, rate: real, i: nat)
    requires Grid(prices, columns) && Priced(prices) && Grid(signals, columns) && |prices| == |signals|
    requires i + 1 < |prices|
  {
    Cost(rate, Traded(signals, columns, i)) < 1.0 + Earned(prices, signals, columns, i + 1)
  }

  /** A fold's drawdown is below 100 % exactly when every day's trading is affordable, told from prices and weights. */
  lemma DrawdownBelow100Iff(prices: seq<Row>, signals: seq<Row>, columns: nat, rate: real, pct: real)
    requires Grid(prices, columns) && Priced(prices) && Grid(signals, columns) && |prices| == |signals|
    requires IsMaxDrawdown(NetReturns(prices, signals, columns, rate), pct)
    ensures pct < 100.0 <==> forall i :: 0 <= i < |prices| - 1 ==> Affordable(prices, signals, columns, rate, i)
  {
    var net := NetReturns(prices, signals, columns, rate);
    BelowIffNoRuin(net, pct);
    AffordableDays(prices, signals, columns, rate, net);
  }

  lemma BelowIffNoRuin(rets: seq<real>, pct: real)
    requires IsMaxDrawdown(rets, pct)
    ensures pct < 100.0 <==> NoRuin(rets, |rets|)
  {
    DrawdownFitsBoundIff(rets, pct);
    PositiveIffNoRuin(rets, |rets|);
  }

  lemma AffordableDays(prices: seq<Row>, signals: seq<Row>, columns: nat, rate: real, net: seq<real>)
    requires Grid(prices, columns) && Priced(prices) && Grid(signals, columns) && |prices| == |signals|
    requires net == NetReturns(prices, signals, columns, rate)
    ensures forall i :: 0 <= i < |net| ==> (net[i] > -1.0 <==> Affordable(prices, signals, columns, rate, i))
  {
    forall i | 0 <= i < |net| ensures net[i] > -1.0 <==> Affordable(prices, signals, columns, rate, i) {
      assert net[i] == NetReturn(prices, signals, columns, rate, i);
    }
  }

  /** It fits the 100 % bound exactly when the first unaffordable day, if any, costs just what there is. */
  lemma DrawdownFits100Iff(rets: seq<real>, pct: real)
    requires IsMaxDrawdown(rets, pct)
    ensures pct <= 100.0 <==> NeverBelowRuin(rets)
  {
    DrawdownFitsBoundIff(rets, pct);
    NonNegativeIff(rets);
  }

  // ---- costs and turnover ----

  lemma CostAdds(rate: real, x: real, y: real)
    ensures Cost(rate, x + y) == Cost(rate, x) + Cost(rate, y)
  {
  }

  lemma {:induction false} SumOfCosts(signals: seq<Row>, columns: nat, rate: real, costs: seq<real>)
    requires Grid(signals, columns) && |costs| <= |signals|
    requires forall i :: 0 <= i < |costs| ==> costs[i] == Cost(rate, Traded(signals, columns, i))
    ensures Sum(costs) == Cost(rate, TotalTraded(signals, columns, |costs|))
  {
    if costs == [] {
      assert Cost(rate, 0.0) == 0.0;
    } else {
      var n := |costs| - 1;
      SumOfCosts(signals, columns, rate, costs[..n]);
      OneMoreDay(signals, columns, n + 1);
      CostLess(rate, TotalTraded(signals, columns, n), Traded(signals, columns, n),
               TotalTraded(signals, columns, n + 1));
    }
  }

  /** The cost series adds up to rate x turnover x days. */
  lemma CostsAreTurnover(signals: seq<Row>, columns: nat, rate: real, costs: seq<real>, turnover: real)
    requires Grid(signals, columns) && |costs| == |signals|
    requires forall i :: 0 <= i < |costs| ==> costs[i] == Cost(rate, Traded(signals, columns, i))
    requires Times(turnover, |signals|) == TotalTraded(signals, columns, |signals|)
    ensures Sum(costs) == Cost(rate, Times(turnover, |signals|))
  {
    SumOfCosts(signals, columns, rate, costs);
  }

  /** Gross returns are the net returns at no cost. */
  function GrossReturns(prices: seq<Row>, signals: seq<Row>, columns: nat): seq<real>
    requires Grid(prices, columns) && Priced(prices) && Grid(signals, columns) && |prices| == |signals|
  {
    NetReturns(prices, signals, columns, 0.0)
  }

  lemma {:induction false} SumOfDifferences(net: seq<real>, gross: seq<real>, charged: seq<real>)
    requires |net| == |gross| == |charged|
    requires forall i :: 0 <= i < |net| ==> net[i] == gross[i] - charged[i]
    ensures Sum(net) == Sum(gross) - Sum(charged)
  {
    if net != [] {
      var n := |net| - 1;
      SumOfDifferences(net[..n], gross[..n], charged[..n]);
    }
  }

  /** Over a fold every day's trading is charged except the last day's. */
  lemma LastDayIsNeverCharged(prices: seq<Row>, signals: seq<Row>, columns: nat, rate: real)
    requires Grid(prices, columns) && Priced(prices) && Grid(signals, columns) && |prices| == |signals| > 0
    ensures var n := |signals|;
            Sum(NetReturns(prices, signals, columns, rate))
            == Sum(GrossReturns(prices, signals, columns))
               - (Cost(rate, TotalTraded(signals, columns, n)) - Cost(rate, Traded(signals, columns, n - 1)))
  {
    var n := |signals|;
    ChargedInAll(prices, signals, columns, rate, n, NetReturns(prices, signals, columns, rate),
                 GrossReturns(prices, signals, columns), Cost(rate, TotalTraded(signals, columns, n)),
                 Cost(rate, Traded(signals, columns, n - 1)));
  }

  lemma ChargedInAll(prices: seq<Row>, signals: seq<Row>, columns: nat, rate: real, days: nat,
                     net: seq<real>, gross: seq<real>, all: real, last: real)
    requires Grid(prices, columns) && Priced(prices) && Grid(signals, columns) && |prices| == |signals| == days > 0
    requires net == NetReturns(prices, signals, columns, rate) && gross == GrossReturns(prices, signals, columns)
    requires all == Cost(rate, TotalTraded(signals, columns, days))
        && last == Cost(rate, Traded(signals, columns, days - 1))
    ensures Sum(net) == Sum(gross) - (all - last)
  {
    var charged := Charges(signals, columns, rate, days - 1);
    ChargedDays(prices, signals, columns, rate, days - 1, net, gross, charged);
    ChargesAdd(signals, columns, rate, days, charged, all, last);
  }

  lemma ChargedDays(prices: seq<Row>, signals: seq<Row>, columns: nat, rate: real, n: nat,
                    net: seq<real>, gross: seq<real>, charged: seq<real>)
    requires Grid(prices, columns) && Priced(prices) && Grid(signals, columns) && |prices| == |signals| == n + 1
    requires net == NetReturns(prices, signals, columns, rate) && gross == GrossReturns(prices, signals, columns)
    requires charged == Charges(signals, columns, rate, n)
    ensures Sum(net) == Sum(gross) - Sum(charged)
  {
    forall i | 0 <= i < n ensures net[i] == gross[i] - charged[i] {
      ChargedDay(prices, signals, columns, rate, i);
    }
    SumOfDifferences(net, gross, charged);
  }

  lemma ChargedDay(prices: seq<Row>, signals: seq<Row>, columns: nat, rate: real, i: nat)
    requires Grid(prices, columns) && Priced(prices) && Grid(signals, columns) && |prices| == |signals|
    requires i + 1 < |prices|
    ensures NetReturn(prices, signals, columns, rate, i)
         == NetReturn(prices, signals, columns, 0.0, i) - Cost(rate, Traded(signals, columns, i))
  {
    FreeTrading(prices, signals, columns, i);
  }

  lemma ChargesAdd(signals: seq<Row>, columns: nat, rate: real, days: nat, charged: seq<real>, all: real, last: real)
    requires Grid(signals, columns) && 0 < days <= |signals| && charged == Charges(signals, columns, rate, days - 1)
    requires all == Cost(rate, TotalTraded(signals, columns, days))
        && last == Cost(rate, Traded(signals, columns, days - 1))
    ensures Sum(charged) == all - last
  {
    SumOfCosts(signals, columns, rate, charged);
    OneMoreDay(signals, columns, days);
    CostLess(rate, TotalTraded(signals, columns, days - 1), Traded(signals, columns, days - 1),
             TotalTraded(signals, columns, days));
  }

  lemma OneMoreDay(signals: seq<Row>, columns: nat, days: nat)
    requires Grid(signals, columns) && 0 < days <= |signals|
    ensures TotalTraded(signals, columns, days)
         == TotalTraded(signals, columns, days - 1) + Traded(signals, columns, days - 1)
  {
  }

  lemma CostLess(rate: real, before: real, last: real, total: real)
    requires total == before + last
    ensures Cost(rate, before) == Cost(rate, total) - Cost(rate, last)
  {
    CostAdds(rate, before, last);
  }

  function Charges(signals: seq<Row>, columns: nat, rate: real, days: nat): (r: seq<real>)
    requires Grid(signals, columns) && days <= |signals|
    ensures |r| == days && forall i :: 0 <= i < days ==> r[i] == Cost(rate, Traded(signals, columns, i))
  {
    seq(days, i requires 0 <= i < days => Cost(rate, Traded(signals, columns, i)))
  }

  lemma FreeTrading(prices: seq<Row>, signals: seq<Row>, columns: nat, i: nat)
    requires Grid(prices, columns) && Priced(prices) && Grid(signals, columns) && |prices| == |signals|
    requires i + 1 < |prices|
    ensures NetReturn(prices, signals, columns, 0.0, i) == Earned(prices, signals, columns, i + 1)
  {
    assert Cost(0.0, Traded(signals, columns, i)) == 0.0;
  }

  // ---- trades and turnover ----

  lemma {:induction false} CellTradesMove(from: Row, to: Row)
    requires |from| == |to|
    ensures (CellTrades(from, to) as real) * TRADE_THRESHOLD <= Moved(from, to)
    ensures CellTrades(from, to) > 0 ==> (CellTrades(from, to) as real) * TRADE_THRESHOLD < Moved(from, to)
  {
    if from != [] {
      CellTradesMove(from[..|from| - 1], to[..|to| - 1]);
    }
  }

  /** Each counted trade moves more than the threshold, so turnover bounds the number of trades. */
  lemma {:induction false} TradesMoveTurnover(signals: seq<Row>, columns: nat, days: nat)
    requires Grid(signals, columns) && days <= |signals|
    ensures (Trades(signals, columns, days) as real) * TRADE_THRESHOLD <= TotalTraded(signals, columns, days)
    ensures Trades(signals, columns, days) > 0
        ==> (Trades(signals, columns, days) as real) * TRADE_THRESHOLD < TotalTraded(signals, columns, days)
  {
    if days > 0 {
      TradesMoveTurnover(signals, columns, days - 1);
      CellTradesMove(Previous(signals, columns, days - 1), signals[days - 1]);
    }
  }

  // ---- profit and costs ----

  lemma GrowOrder(e: real, e': real, r: real, r': real)
    requires 0.0 <= e <= e' && 0.0 <= 1.0 + r && r <= r'
    ensures 0.0 <= Grow(e, r) <= Grow(e', r')
  {
    MulOrder(e, e', 1.0 + r);
    MulOrder(1.0 + r, 1.0 + r', e');
    assert (1.0 + r) * e' == e' * (1.0 + r) && (1.0 + r') * e' == e' * (1.0 + r');
    MulOrder(0.0, e, 1.0 + r);
  }

  lemma {:induction false} EquityOrder(low: seq<real>, high: seq<real>, n: nat)
    requires n <= |low| == |high|
    requires forall i :: 0 <= i < n ==> low[i] <= high[i] && 1.0 + low[i] >= 0.0
    ensures 0.0 <= Equity(low, n) <= Equity(high, n)
  {
    if n > 0 {
      EquityOrder(low, high, n - 1);
      GrowOrder(Equity(low, n - 1), Equity(high, n - 1), low[n - 1], high[n - 1]);
    }
  }

  lemma CostOrder(rate: real, rate': real, traded: real)
    requires rate <= rate' && traded >= 0.0
    ensures Cost(rate, traded) <= Cost(rate', traded)
  {
  }

  lemma ProfitOrder(notional: real, e: real, e': real)
    requires notional >= 0.0 && e <= e'
    ensures Profit(notional, e) <= Profit(notional, e')
  {
  }

  /** Profit never rises when costs rise, as long as no dearer day loses more than everything. */
  lemma DearerNeverEarnsMore(prices: seq<Row>, signals: seq<Row>, columns: nat, rate: real, rate': real, notional: real)
    requires Grid(prices, columns) && Priced(prices) && Grid(signals, columns) && |prices| == |signals|
    requires rate <= rate' && notional >= 0.0
    requires forall r <- NetReturns(prices, signals, columns, rate') :: 1.0 + r >= 0.0
    ensures var cheap, dear := NetReturns(prices, signals, columns, rate), NetReturns(prices, signals, columns, rate');
            Profit(notional, Equity(dear, |dear|)) <= Profit(notional, Equity(cheap, |cheap|))
  {
    var cheap, dear := NetReturns(prices, signals, columns, rate), NetReturns(prices, signals, columns, rate');
    forall i | 0 <= i < |dear| ensures dear[i] <= cheap[i] && 1.0 + dear[i] >= 0.0 {
      CostOrder(rate, rate', Traded(signals, columns, i));
      assert dear[i] in dear;
    }
    EquityOrder(dear, cheap, |dear|);
    ProfitOrder(notional, Equity(dear, |dear|), Equity(cheap, |cheap|));
  }

  // ---- one ticker fully held ----

  function Unit(columns: nat, held: nat): Row
    requires held < columns
  {
    seq(columns, c => if c == held then 1.0 else 0.0)
  }

  lemma {:induction false} DotUnit(x: Row, columns: nat, held: nat, n: nat)
    requires |x| == columns && held < columns && n <= columns
    ensures Dot(x[..n], Unit(columns, held)[..n]) == if held < n then x[held] else 0.0
  {
    if n > 0 {
      DotUnit(x, columns, held, n - 1);
      assert x[..n][..n - 1] == x[..n - 1];
      assert Unit(columns, held)[..n][..n - 1] == Unit(columns, held)[..n - 1];
    }
  }

  lemma GrowByChange(equity: real, first: real, from: real, to: real)
    requires first > 0.0 && from > 0.0 && equity * first == from
    ensures Grow(equity, Change(from, to)) * first == to
  {
    var growth := 1.0 + Change(from, to);
    assert Change(from, to) * from == to - from;
    assert growth * from == to;
    assert (equity * growth) * first == (equity * first) * growth;
  }

  function Held(days: nat, columns: nat, held: nat): (r: seq<Row>)
    requires held < columns
    ensures |r| == days && Grid(r, columns) && forall i :: 0 <= i < days ==> r[i] == Unit(columns, held)
  {
    seq(days, i => Unit(columns, held))
  }

  lemma HeldDay(prices: seq<Row>, columns: nat, held: nat, n: nat)
    requires Grid(prices, columns) && Priced(prices) && held < columns && 0 < n < |prices|
    ensures prices[n - 1][held] > 0.0
    ensures NetReturn(prices, Held(|prices|, columns, held), columns, 0.0, n - 1)
         == Change(prices[n - 1][held], prices[n][held])
  {
    var signals := Held(|prices|, columns, held);
    var changes := DayChanges(prices, columns, n);
    assert prices[n - 1] in prices && prices[n - 1][held] in prices[n - 1];
    DotUnit(changes, columns, held, columns);
    Seqs.FullPrefix(changes);
    Seqs.FullPrefix(Unit(columns, held));
    FreeTrading(prices, signals, columns, n - 1);
  }

  /** Compounding the changes between positive closes is dividing the last by the first. */
  lemma {:induction false} Telescope(rets: seq<real>, closes: seq<real>, n: nat)
    requires n <= |rets| && |closes| == |rets| + 1
    requires forall i :: 0 <= i < |rets| ==> closes[i] > 0.0 && rets[i] == Change(closes[i], closes[i + 1])
    ensures Equity(rets, n) * closes[0] == closes[n]
  {
    if n > 0 {
      Telescope(rets, closes, n - 1);
      GrowByChange(Equity(rets, n - 1), closes[0], closes[n - 1], closes[n]);
    }
  }

  function Column(prices: seq<Row>, columns: nat, c: nat): (r: seq<real>)
    requires Grid(prices, columns) && c < columns
    ensures |r| == |prices| && forall i :: 0 <= i < |r| ==> r[i] == prices[i][c]
  {
    seq(|prices|, i requires 0 <= i < |prices| => prices[i][c])
  }

  lemma HeldReturns(prices: seq<Row>, columns: nat, held: nat)
    requires Grid(prices, columns) && Priced(prices) && held < columns
    ensures var net := NetReturns(prices, Held(|prices|, columns, held), columns, 0.0);
            var closes := Column(prices, columns, held);
            forall i :: 0 <= i < |net| ==> closes[i] > 0.0 && net[i] == Change(closes[i], closes[i + 1])
  {
    var net, closes := NetReturns(prices, Held(|prices|, columns, held), columns, 0.0), Column(prices, columns, held);
    forall i | 0 <= i < |closes| ensures closes[i] > 0.0 {
      assert prices[i] in prices && prices[i][held] in prices[i];
    }
    forall i | 0 <= i < |net| ensures net[i] == Change(closes[i], closes[i + 1]) {
      HeldDay(prices, columns, held, i + 1);
    }
  }

  /** Compounding the returns turns the first close into the last. */
  ghost predicate Compounds(rets: seq<real>, closes: seq<real>) {
    |closes| == |rets| + 1 && Equity(rets, |rets|) * closes[0] == closes[|rets|]
  }

  /** One ticker held in full at no cost: equity is the ratio of its last close to its first. */
  lemma HeldTickerTelescopes(prices: seq<Row>, columns: nat, held: nat)
    requires Grid(prices, columns) && Priced(prices) && held < columns && prices != []
    ensures Compounds(NetReturns(prices, Held(|prices|, columns, held), columns, 0.0), Column(prices, columns, held))
  {
    var net, closes := NetReturns(prices, Held(|prices|, columns, held), columns, 0.0), Column(prices, columns, held);
    HeldReturns(prices, columns, held);
    TelescopeAll(net, closes);
  }

  lemma TelescopeAll(rets: seq<real>, closes: seq<real>)
    requires |closes| == |rets| + 1
    requires forall i :: 0 <= i < |rets| ==> closes[i] > 0.0 && rets[i] == Change(closes[i], closes[i + 1])
    ensures Compounds(rets, closes)
  {
    Telescope(rets, closes, |rets|);
  }
}
