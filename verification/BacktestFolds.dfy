/** Folds of a walk-forward backtest, each reported or refused, and what reported ones have in common. */
module BacktestFolds {
  import opened Wrappers
  import opened BacktestEngine
  import opened BacktestProperties
  import Seqs

  /** The closes and weights of one test window, on the same dates and tickers. */
  datatype Window = Window(prices: seq<Row>, signals: seq<Row>, columns: nat)

  predicate Aligned(w: Window) {
    && Grid(w.prices, w.columns) && Priced(w.prices) && Grid(w.signals, w.columns)
    && |w.prices| == |w.signals|
  }

  function DailyNet(w: Window, rate: real): (r: seq<real>)
    requires Aligned(w)
    ensures |r| == if |w.prices| <= 1 then 0 else |w.prices| - 1
  {
    NetReturns(w.prices, w.signals, w.columns, rate)
  }

  datatype FoldMetrics = FoldMetrics(maxDrawdownPct: real, turnover: real, nTrades: nat, pnl: real)

  datatype BacktestError = NoFolds | NoPrices | OutOfBounds

  /** The bounds of the metrics record, checked when it is built. */
  function Checked(m: FoldMetrics): Result<FoldMetrics, BacktestError> {
    if 0.0 <= m.maxDrawdownPct <= 100.0 && 0.0 <= m.turnover then Ok(m) else Err(OutOfBounds)
  }

  /** What each number of a fold's metrics measures. */
  ghost predicate Measures(m: FoldMetrics, w: Window, rate: real, notional: real)
    requires Aligned(w)
  {
    var net, days := DailyNet(w, rate), |w.signals|;
    && m.pnl == Profit(notional, Equity(net, |net|))
    && Times(m.turnover, days) == TotalTraded(w.signals, w.columns, days) && (days == 0 ==> m.turnover == 0.0)
    && m.nTrades == Trades(w.signals, w.columns, days)
    && IsMaxDrawdown(net, m.maxDrawdownPct)
  }

  /** A fold that is reported: it has prices, and no day takes more than there is. */
  ghost predicate Reportable(w: Window, rate: real)
    requires Aligned(w)
  {
    w.prices != [] && NeverBelowRuin(DailyNet(w, rate))
  }

  /** Of the bounds of the record, only that on the drawdown can be broken. */
  lemma CheckedIff(m: FoldMetrics, w: Window, rate: real, notional: real)
    requires Aligned(w) && Measures(m, w, rate, notional)
    ensures Checked(m).Ok? <==> NeverBelowRuin(DailyNet(w, rate))
  {
    DrawdownFitsBoundIff(DailyNet(w, rate), m.maxDrawdownPct);
    DrawdownFits100Iff(DailyNet(w, rate), m.maxDrawdownPct);
    MeanSign(m.turnover, |w.signals|);
  }

  lemma MeanSign(x: real, days: nat)
    requires Times(x, days) >= 0.0 && (days == 0 ==> x == 0.0)
    ensures x >= 0.0
  {
    if x < 0.0 {
      MulStrict(x, 0.0, days as real);
    }
  }

  /** One fold: an error without prices, an error when the drawdown exceeds what a report may say, metrics otherwise. */
  method RunFold(w: Window, costBps: real, slippageBps: real, notional: real)
    returns (r: Result<FoldMetrics, BacktestError>)
    requires Aligned(w)
    ensures r == Err(NoPrices) <==> w.prices == []
    ensures r == Err(OutOfBounds) <==> w.prices != [] && !NeverBelowRuin(DailyNet(w, Rate(costBps, slippageBps)))
    ensures r.Ok? <==> Reportable(w, Rate(costBps, slippageBps))
    ensures r.Ok? ==> Measures(r.value, w, Rate(costBps, slippageBps), notional) && Checked(r.value).Ok?
  {
    if |w.prices| == 0 {
      return Err(NoPrices);
    }
    var metrics := MeasureFold(w, costBps, slippageBps, notional);
    CheckedIff(metrics, w, Rate(costBps, slippageBps), notional);
    r := Checked(metrics);
  }

  method MeasureFold(w: Window, costBps: real, slippageBps: real, notional: real) returns (metrics: FoldMetrics)
    requires Aligned(w)
    ensures Measures(metrics, w, Rate(costBps, slippageBps), notional)
  {
    var net := RunNetReturns(w.prices, w.signals, w.columns, costBps, slippageBps);
    var drawdown := MaxDrawdownPct(net);
    var turnover := Turnover(w.signals, w.columns);
    var nTrades := NTrades(w.signals, w.columns);
    var pnl := Pnl(net, notional);
    metrics := FoldMetrics(drawdown, turnover, nTrades, pnl);
  }

  // ---- costs and the profit of reported folds ----

  /** Day by day a dearer fold returns at most what a cheaper one does. */
  lemma DearerDays(w: Window, rate: real, rate': real)
    requires Aligned(w) && rate <= rate'
    ensures var cheap, dear := DailyNet(w, rate), DailyNet(w, rate');
            |dear| == |cheap| && forall i :: 0 <= i < |dear| ==> dear[i] <= cheap[i]
  {
    forall i | 0 <= i < |DailyNet(w, rate)| ensures DailyNet(w, rate')[i] <= DailyNet(w, rate)[i] {
      CostOrder(rate, rate', Traded(w.signals, w.columns, i));
    }
  }

  /** From the day that loses exactly everything there is nothing left. */
  lemma RuinEndsAtZero(rets: seq<real>, i: nat)
    requires RuinAt(rets, i) && NeverBelowRuin(rets)
    ensures Equity(rets, |rets|) == 0.0
  {
    PositiveIffNoRuin(rets, i);
    GrowSign(Equity(rets, i), rets[i]);
    ZeroStays(rets, i + 1, |rets|);
  }

  lemma FinalEquityOrder(low: seq<real>, high: seq<real>)
    requires |low| == |high| && forall i :: 0 <= i < |low| ==> low[i] <= high[i]
    requires NeverBelowRuin(low) && NeverBelowRuin(high)
    ensures Equity(low, |low|) <= Equity(high, |high|)
  {
    NonNegativeIff(high);
    if i: nat :| RuinAt(low, i) {
      RuinEndsAtZero(low, i);
    } else {
      NoFirstRuin(low, |low|);
      EquityOrder(low, high, |low|);
    }
  }

  /** Of two reported folds over one window, the one at higher costs never shows the higher profit. */
  lemma ReportedFoldsNeverEarnMore(w: Window, rate: real, rate': real, notional: real,
                                   cheap: FoldMetrics, dear: FoldMetrics)
    requires Aligned(w) && rate <= rate' && notional >= 0.0
    requires Measures(cheap, w, rate, notional) && Checked(cheap).Ok?
    requires Measures(dear, w, rate', notional) && Checked(dear).Ok?
    ensures dear.pnl <= cheap.pnl
  {
    CheckedIff(cheap, w, rate, notional);
    CheckedIff(dear, w, rate', notional);
    DearerDays(w, rate, rate');
    var low, high := DailyNet(w, rate'), DailyNet(w, rate);
    FinalEquityOrder(low, high);
    ProfitOrder(notional, Equity(low, |low|), Equity(high, |high|));
  }

  /** A fold whose drawdown stays below 100 % at some cost is reported at every lower one, again below 100 %. */
  lemma CheaperIsReportedToo(w: Window, rate: real, rate': real)
    requires Aligned(w) && rate <= rate' && w.prices != []
    requires NoRuin(DailyNet(w, rate'), |DailyNet(w, rate')|)
    ensures Reportable(w, rate) && NoRuin(DailyNet(w, rate), |DailyNet(w, rate)|)
  {
    DearerDays(w, rate, rate');
  }

  // ---- the whole backtest ----

  datatype BacktestReport = BacktestReport(folds: seq<FoldMetrics>, totalPnl: real, totalTrades: nat)

  function Profits(folds: seq<FoldMetrics>): (r: seq<real>)
    ensures |r| == |folds| && forall i :: 0 <= i < |r| ==> r[i] == folds[i].pnl
  {
    seq(|folds|, i requires 0 <= i < |folds| => folds[i].pnl)
  }

  function TradesIn(folds: seq<FoldMetrics>): nat {
    if folds == [] then 0 else TradesIn(folds[..|folds| - 1]) + folds[|folds| - 1].nTrades
  }

  ghost predicate AllAligned(windows: seq<Window>) {
    forall w <- windows :: Aligned(w)
  }

  /** Metrics that measure the window in their place and are within bounds. */
  ghost function FoldAt(windows: seq<Window>, rate: real, notional: real): (nat, FoldMetrics) -> bool
    requires AllAligned(windows)
  {
    (i: nat, m: FoldMetrics) =>
      i < |windows| && windows[i].prices != [] && Measures(m, windows[i], rate, notional) && Checked(m).Ok?
  }

  lemma FoldsOneMore(folds: seq<FoldMetrics>, m: FoldMetrics, windows: seq<Window>, rate: real, notional: real)
    requires AllAligned(windows) && Seqs.EachAt(folds, FoldAt(windows, rate, notional)) && |folds| < |windows|
    requires windows[|folds|].prices != [] && Measures(m, windows[|folds|], rate, notional) && Checked(m).Ok?
    ensures Seqs.EachAt(folds + [m], FoldAt(windows, rate, notional))
  {
    Seqs.EachAtOneMore(folds, m, FoldAt(windows, rate, notional));
  }

  lemma FoldsAreReportable(folds: seq<FoldMetrics>, windows: seq<Window>, rate: real, notional: real)
    requires AllAligned(windows) && Seqs.EachAt(folds, FoldAt(windows, rate, notional)) && |folds| <= |windows|
    ensures AllReportable(windows, rate, |folds|)
  {
    forall i | 0 <= i < |folds| ensures Reportable(windows[i], rate) {
      assert FoldAt(windows, rate, notional)(i, folds[i]);
      CheckedIff(folds[i], windows[i], rate, notional);
    }
  }

  ghost predicate AllReportable(windows: seq<Window>, rate: real, n: nat)
    requires AllAligned(windows) && n <= |windows|
  {
    forall i :: 0 <= i < n ==> Reportable(windows[i], rate)
  }

  /** The window whose fold ends the backtest, and the error it ends with. */
  ghost predicate FirstRefused(windows: seq<Window>, rate: real, n: nat, error: BacktestError)
    requires AllAligned(windows)
  {
    && n < |windows| && AllReportable(windows, rate, n) && !Reportable(windows[n], rate)
    && error == if windows[n].prices == [] then NoPrices else OutOfBounds
  }

  /** One reported fold for each window, in order, and the sums over them. */
  ghost predicate Reports(report: BacktestReport, windows: seq<Window>, rate: real, notional: real)
    requires AllAligned(windows)
  {
    windows != [] && ReportOn(report, windows, rate, notional, |windows|)
  }

  lemma SumsOneMore(folds: seq<FoldMetrics>, m: FoldMetrics)
    ensures Sum(Profits(folds + [m])) == Sum(Profits(folds)) + m.pnl
    ensures TradesIn(folds + [m]) == TradesIn(folds) + m.nTrades
  {
    assert Profits(folds + [m]) == Profits(folds) + [m.pnl];
    SumOneMore(Profits(folds), m.pnl);
    assert (folds + [m])[..|folds|] == folds;
  }

  function AddFold(report: BacktestReport, m: FoldMetrics): BacktestReport {
    BacktestReport(report.folds + [m], report.totalPnl + m.pnl, report.totalTrades + m.nTrades)
  }

  const EmptyReport := BacktestReport([], 0.0, 0)

  /** The report on the first n windows. */
  ghost predicate ReportOn(report: BacktestReport, windows: seq<Window>, rate: real, notional: real, n: nat)
    requires AllAligned(windows)
  {
    && |report.folds| == n <= |windows| && Seqs.EachAt(report.folds, FoldAt(windows, rate, notional))
    && report.totalPnl == Sum(Profits(report.folds)) && report.totalTrades == TradesIn(report.folds)
  }

  lemma ReportOneMore(report: BacktestReport, m: FoldMetrics, windows: seq<Window>, rate: real, notional: real, n: nat)
    requires AllAligned(windows) && ReportOn(report, windows, rate, notional, n) && n < |windows|
    requires windows[n].prices != [] && Measures(m, windows[n], rate, notional) && Checked(m).Ok?
    ensures ReportOn(AddFold(report, m), windows, rate, notional, n + 1)
  {
    var after := AddFold(report, m);
    assert Seqs.EachAt(after.folds, FoldAt(windows, rate, notional)) by {
      FoldsOneMore(report.folds, m, windows, rate, notional);
    }
    assert after.totalPnl == Sum(Profits(after.folds)) && after.totalTrades == TradesIn(after.folds) by {
      SumsOneMore(report.folds, m);
    }
  }

  /** Every fold in order; the first that has no report ends the backtest with its error. */
  method RunWalkForward(windows: seq<Window>, costBps: real, slippageBps: real, notional: real)
    returns (r: Result<BacktestReport, BacktestError>)
    requires AllAligned(windows)
    ensures r.Ok? <==> windows != [] && AllReportable(windows, Rate(costBps, slippageBps), |windows|)
    ensures r.Ok? ==> Reports(r.value, windows, Rate(costBps, slippageBps), notional)
    ensures r.Err? ==>
      if windows == [] then r.error == NoFolds
      else exists n :: FirstRefused(windows, Rate(costBps, slippageBps), n, r.error)
  {
    var report := EmptyReport;
    ghost var rate := Rate(costBps, slippageBps);
    for i := 0 to |windows|
      invariant ReportOn(report, windows, rate, notional, i)
    {
      assert windows[i] in windows;
      var fold := RunFold(windows[i], costBps, slippageBps, notional);
      if fold.Err? {
        FoldsAreReportable(report.folds, windows, rate, notional);
        assert FirstRefused(windows, rate, i, fold.error);
        return Err(fold.error);
      }
      ReportOneMore(report, fold.value, windows, rate, notional, i);
      report := AddFold(report, fold.value);
    }
    if |windows| == 0 {
      return Err(NoFolds);
    }
    FoldsAreReportable(report.folds, windows, rate, notional);
    r := Ok(report);
  }

  lemma {:induction false} SumOrder(low: seq<real>, high: seq<real>)
    requires |low| == |high| && forall i :: 0 <= i < |low| ==> low[i] <= high[i]
    ensures Sum(low) <= Sum(high)
  {
    if low != [] {
      SumOrder(low[..|low| - 1], high[..|high| - 1]);
    }
  }

  /** So the total profit of a reported backtest never rises with the costs of its plan. */
  lemma ReportedTotalsNeverEarnMore(windows: seq<Window>, rate: real, rate': real, notional: real,
                                    cheap: BacktestReport, dear: BacktestReport)
    requires AllAligned(windows) && rate <= rate' && notional >= 0.0
    requires Reports(cheap, windows, rate, notional) && Reports(dear, windows, rate', notional)
    ensures dear.totalPnl <= cheap.totalPnl && dear.totalTrades == cheap.totalTrades
  {
    forall i | 0 <= i < |windows|
      ensures dear.folds[i].pnl <= cheap.folds[i].pnl && dear.folds[i].nTrades == cheap.folds[i].nTrades {
      assert FoldAt(windows, rate, notional)(i, cheap.folds[i]) && FoldAt(windows, rate', notional)(i, dear.folds[i]);
      ReportedFoldsNeverEarnMore(windows[i], rate, rate', notional, cheap.folds[i], dear.folds[i]);
    }
    SumOrder(Profits(dear.folds), Profits(cheap.folds));
    SameTrades(dear.folds, cheap.folds);
  }

  lemma {:induction false} SameTrades(a: seq<FoldMetrics>, b: seq<FoldMetrics>)
    requires |a| == |b| && forall i :: 0 <= i < |a| ==> a[i].nTrades == b[i].nTrades
    ensures TradesIn(a) == TradesIn(b)
  {
    if a != [] {
      SameTrades(a[..|a| - 1], b[..|b| - 1]);
    }
  }

  // ---- a fold that accepted plans refuse ----

  // Two tickers that plunge in turn, and a long-only book that switches into each before it does.
  const PLUNGING := Window([[1.0, 1.0], [1.0, 1.0], [1.0, 0.2], [0.05, 0.2]],
                           [[1.0, 0.0], [0.0, 1.0], [1.0, 0.0], [1.0, 0.0]], 2)

  lemma TwoCells(a: real, b: real, c: real, d: real)
    ensures Moved([a, b], [c, d]) == Abs(c - a) + Abs(d - b)
    ensures Dot([a, b], [c, d]) == a * c + b * d
  {
    assert [a, b][..1] == [a] && [c, d][..1] == [c];
    assert [a][..0] == [] && [c][..0] == [];
    assert Moved([a], [c]) == Abs(c - a);
    assert Dot([a], [c]) == a * c;
  }

  lemma PlungingTrades(i: nat)
    requires i < 3
    ensures Traded(PLUNGING.signals, 2, i) == if i == 0 then 1.0 else 2.0
  {
    assert Zeros(2) == [0.0, 0.0];
    TwoCells(0.0, 0.0, 1.0, 0.0);
    TwoCells(1.0, 0.0, 0.0, 1.0);
    TwoCells(0.0, 1.0, 1.0, 0.0);
  }

  lemma PlungingChanges(i: nat)
    requires i < 3
    ensures DayChanges(PLUNGING.prices, 2, i + 1)
         == if i == 0 then [0.0, 0.0] else if i == 1 then [0.0, -0.8] else [-0.95, 0.0]
  {
  }

  lemma PlungingEarns(i: nat)
    requires i < 3
    ensures Earned(PLUNGING.prices, PLUNGING.signals, 2, i + 1)
         == if i == 0 then 0.0 else if i == 1 then -0.8 else -0.95
  {
    PlungingChanges(i);
    assert Previous(PLUNGING.signals, 2, i + 1) == PLUNGING.signals[i];
    TwoCells(0.0, 0.0, 1.0, 0.0);
    TwoCells(0.0, -0.8, 0.0, 1.0);
    TwoCells(-0.95, 0.0, 1.0, 0.0);
  }

  lemma PlungingDay(rate: real, i: nat)
    requires i < 3
    ensures NetReturn(PLUNGING.prices, PLUNGING.signals, 2, rate, i)
         == if i == 0 then -rate else if i == 1 then -0.8 - 2.0 * rate else -0.95 - 2.0 * rate
  {
    PlungingTrades(i);
    PlungingEarns(i);
  }

  lemma PlungingReturns(net: seq<real>, rate: real)
    requires net == DailyNet(PLUNGING, rate)
    ensures |net| == 3 && net[0] == -rate && net[1] == -0.8 - 2.0 * rate && net[2] == -0.95 - 2.0 * rate
  {
    PlungingDay(rate, 0);
    PlungingDay(rate, 1);
    PlungingDay(rate, 2);
  }

  lemma ThreeDays(net: seq<real>, b: real, c: real)
    requires |net| == 3 && net[0] > -1.0 && net[1] == b && net[2] == c
    ensures NeverBelowRuin(net) <==> if b <= -1.0 then b == -1.0 else c >= -1.0
  {
    if b <= -1.0 {
      assert RuinAt(net, 1);
    } else if c <= -1.0 {
      assert RuinAt(net, 2);
    }
  }

  /** At any cost rate a plan may have, which are those up to 2000 basis points, this fold is reported exactly so. */
  lemma PlungingReportableIff(rate: real)
    requires 0.0 <= rate <= Rate(1000.0, 1000.0)
    ensures Aligned(PLUNGING)
    ensures Reportable(PLUNGING, rate) <==> rate <= Rate(250.0, 0.0) || rate == Rate(1000.0, 0.0)
  {
    var net := DailyNet(PLUNGING, rate);
    PlungingReturns(net, rate);
    ThreeDays(net, -0.8 - 2.0 * rate, -0.95 - 2.0 * rate);
  }

  /**
   * So the schema accepts plans whose folds no report can hold, and a dearer plan may have its report while a
   * cheaper one is refused: one that loses exactly everything is not asked what it would have lost after that.
   */
  lemma AcceptedPlansRefused()
    ensures Aligned(PLUNGING) && !Reportable(PLUNGING, Rate(1000.0, 1000.0))
    ensures Reportable(PLUNGING, Rate(1000.0, 0.0)) && !Reportable(PLUNGING, Rate(900.0, 0.0))
  {
    PlungingReportableIff(Rate(1000.0, 1000.0));
    PlungingReportableIff(Rate(1000.0, 0.0));
    PlungingReportableIff(Rate(900.0, 0.0));
  }
}
