/** Signals and engine together: nothing through day t depends on a close after day t. */
module NoLookahead {
  import opened Wrappers
  import opened BacktestEngine
  import opened RankSignals

  /** The ranking parameters of a backtest. */
  datatype Strategy = Strategy(universe: seq<Ticker>, lookback: nat, k: nat, direction: Direction)

  predicate ValidStrategy(s: Strategy) {
    0 < s.lookback && 0 < s.k <= |s.universe|
  }

  /** Every ticker of the universe closes at a positive price every day. */
  predicate Complete(universe: seq<Ticker>, history: seq<Closes>) {
    forall day <- history :: Covers(universe, day)
  }

  predicate Covers(universe: seq<Ticker>, day: Closes) {
    forall t <- universe :: t in day && day[t] > 0.0
  }

  function PriceRow(universe: seq<Ticker>, day: Closes): (r: Row)
    requires Covers(universe, day)
    ensures |r| == |universe| && forall p <- r :: p > 0.0
  {
    seq(|universe|, c requires 0 <= c < |universe| => day[universe[c]])
  }

  /** The closes of the window [from, to), a column per ticker. */
  function PriceGrid(universe: seq<Ticker>, history: seq<Closes>, from: nat, to: nat): (r: seq<Row>)
    requires Complete(universe, history) && from <= to <= |history|
    ensures |r| == to - from && Grid(r, |universe|) && Priced(r)
    ensures forall i :: 0 <= i < |r| ==> r[i] == PriceRow(universe, history[from + i])
  {
    var rows := seq(to - from, i requires 0 <= i < to - from =>
      assert history[from + i] in history;
      PriceRow(universe, history[from + i]));
    assert forall i :: 0 <= i < |rows| ==> rows[i] == PriceRow(universe, history[from + i]);
    rows
  }

  /** The weights of the window, each day ranked over the whole history up to it. */
  function SignalGrid(s: Strategy, history: seq<Closes>, from: nat, to: nat): (r: seq<Row>)
    requires ValidStrategy(s) && from <= to <= |history|
    ensures |r| == to - from && Grid(r, |s.universe|)
    ensures forall i :: 0 <= i < |r| ==>
      r[i] == DayWeights(s.universe, history, s.lookback, s.k, s.direction, from + i)
  {
    var rows := seq(to - from, i requires 0 <= i < to - from =>
      DayWeights(s.universe, history, s.lookback, s.k, s.direction, from + i));
    assert forall i :: 0 <= i < |rows| ==>
        rows[i] == DayWeights(s.universe, history, s.lookback, s.k, s.direction, from + i);
    rows
  }

  function FoldReturns(s: Strategy, history: seq<Closes>, from: nat, to: nat, rate: real): seq<real>
    requires ValidStrategy(s) && Complete(s.universe, history) && from <= to <= |history|
  {
    NetReturns(PriceGrid(s.universe, history, from, to), SignalGrid(s, history, from, to), |s.universe|, rate)
  }

  /** Two histories on the same dates with the same closes on the first days. */
  predicate AgreeOn(h: seq<Closes>, h': seq<Closes>, days: nat) {
    |h| == |h'| && days <= |h| && forall i :: 0 <= i < days ==> h[i] == h'[i]
  }

  /** A day's weights depend only on closes through that day. */
  lemma WeightsLookBack(s: Strategy, h: seq<Closes>, h': seq<Closes>, day: nat)
    requires ValidStrategy(s) && day < |h| && AgreeOn(h, h', day + 1)
    ensures DayWeights(s.universe, h, s.lookback, s.k, s.direction, day)
         == DayWeights(s.universe, h', s.lookback, s.k, s.direction, day)
  {
    if s.lookback <= day {
      var scores, scores' := ScoresAt(h, day, s.lookback), ScoresAt(h', day, s.lookback);
      assert h[day] == h'[day] && h[day - s.lookback] == h'[day - s.lookback];
      SameWinners(s, scores, scores');
    }
  }

  lemma SameWinners(s: Strategy, scores: Ticker -> Option<real>, scores': Ticker -> Option<real>)
    requires ValidStrategy(s) && forall t <- s.universe :: scores(t) == scores'(t)
    ensures Winners(s.universe, scores, s.k, s.direction) == Winners(s.universe, scores', s.k, s.direction)
  {
    assert Ranked(s.universe, scores) == Ranked(s.universe, scores');
  }

  /** What is held over the fold's i-th day depends only on closes before that day. */
  lemma HeldWeightsLookBack(s: Strategy, h: seq<Closes>, h': seq<Closes>, from: nat, to: nat, i: nat)
    requires ValidStrategy(s) && from + i < to <= |h| && AgreeOn(h, h', from + i)
    ensures Previous(SignalGrid(s, h, from, to), |s.universe|, i)
        == Previous(SignalGrid(s, h', from, to), |s.universe|, i)
  {
    if i > 0 {
      WeightsLookBack(s, h, h', from + i - 1);
    }
  }

  /** A net return looks at two rows of prices and two rows of weights. */
  lemma NetReturnIsLocal(prices: seq<Row>, signals: seq<Row>, prices': seq<Row>, signals': seq<Row>, columns: nat,
                         rate: real, i: nat)
    requires Grid(prices, columns) && Priced(prices) && Grid(signals, columns) && |prices| == |signals|
    requires Grid(prices', columns) && Priced(prices') && Grid(signals', columns) && |prices'| == |signals'|
    requires i + 1 < |prices| && i + 1 < |prices'|
    requires prices[i] == prices'[i] && prices[i + 1] == prices'[i + 1] && signals[i] == signals'[i]
    requires Previous(signals, columns, i) == Previous(signals', columns, i)
    ensures NetReturn(prices, signals, columns, rate, i) == NetReturn(prices', signals', columns, rate, i)
  {
    assert DayChanges(prices, columns, i + 1) == DayChanges(prices', columns, i + 1);
    assert Previous(signals, columns, i + 1) == Previous(signals', columns, i + 1);
    assert Traded(signals, columns, i) == Traded(signals', columns, i);
  }

  lemma ReturnLooksBack(s: Strategy, h: seq<Closes>, h': seq<Closes>, from: nat, to: nat, rate: real, i: nat)
    requires ValidStrategy(s) && Complete(s.universe, h) && Complete(s.universe, h')
    requires from + i + 1 < to <= |h| && AgreeOn(h, h', from + i + 2)
    ensures FoldReturns(s, h, from, to, rate)[i] == FoldReturns(s, h', from, to, rate)[i]
  {
    WeightsLookBack(s, h, h', from + i);
    HeldWeightsLookBack(s, h, h', from, to, i);
    assert h[from + i] == h'[from + i] && h[from + i + 1] == h'[from + i + 1];
    NetReturnIsLocal(PriceGrid(s.universe, h, from, to), SignalGrid(s, h, from, to),
                     PriceGrid(s.universe, h', from, to), SignalGrid(s, h', from, to), |s.universe|, rate, i);
  }

  lemma {:induction false} EquityIsLocal(rets: seq<real>, rets': seq<real>, n: nat)
    requires n <= |rets| && n <= |rets'| && forall i :: 0 <= i < n ==> rets[i] == rets'[i]
    ensures Equity(rets, n) == Equity(rets', n)
  {
    if n > 0 {
      EquityIsLocal(rets, rets', n - 1);
    }
  }

  /**
   * Histories that agree through day t give, in any fold containing t, the same net returns and the same
   * equity curve through day t. Return i of a fold is that of its day i + 1.
   */
  lemma NothingThroughTLooksAhead(s: Strategy, h: seq<Closes>, h': seq<Closes>, from: nat, to: nat, rate: real, t: nat)
    requires ValidStrategy(s) && Complete(s.universe, h) && Complete(s.universe, h')
    requires from <= t < to <= |h| && AgreeOn(h, h', t + 1)
    ensures var net, net' := FoldReturns(s, h, from, to, rate), FoldReturns(s, h', from, to, rate);
            && t - from <= |net| == |net'|
            && (forall i :: 0 <= i < t - from ==> net[i] == net'[i])
            && (forall n :: 0 <= n <= t - from ==> Equity(net, n) == Equity(net', n))
  {
    var net, net' := FoldReturns(s, h, from, to, rate), FoldReturns(s, h', from, to, rate);
    forall i | 0 <= i < t - from ensures net[i] == net'[i] {
      ReturnLooksBack(s, h, h', from, to, rate, i);
    }
    forall n | 0 <= n <= t - from ensures Equity(net, n) == Equity(net', n) {
      EquityIsLocal(net, net', n);
    }
  }
}
