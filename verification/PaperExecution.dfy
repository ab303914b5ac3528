/** `PaperBroker.execute` on values: what one rebalance does, and what holds over every run of them. */
module PaperExecution {
  import opened Wrappers
  import opened Sorting
  import opened Decisions
  import opened PolicyGateway
  import opened ExecutionReports
  import opened Portfolio
  import opened Rebalancing
  import Seqs
  import Sums

  /** The field constraint every target position carries. */
  predicate ValidTargets(targets: seq<TargetPosition>) {
    forall t <- targets :: 0.0 < t.weight <= 1.0
  }

  function Involved(b: Book, targets: seq<TargetPosition>): set<Ticker> {
    TickerSet(targets) + b.positions.Keys
  }

  predicate FullyPriced(b: Book, targets: seq<TargetPosition>, prices: Prices) {
    Involved(b, targets) <= prices.Keys
  }

  function MissingPrices(b: Book, targets: seq<TargetPosition>, prices: Prices): set<Ticker> {
    Involved(b, targets) - prices.Keys
  }

  ghost predicate CanRebalance(b: Book, targets: seq<TargetPosition>, prices: Prices) {
    && ValidBook(b) && ValidTargets(targets)
    && FullyPriced(b, targets, prices)
    && NonNegativePrices(prices)
    && Equity(b, prices) >= 0.0
  }

  ghost function TargetFor(b: Book, targets: seq<TargetPosition>, prices: Prices): map<Ticker, real>
    requires FullyPriced(b, targets, prices)
  {
    TargetQuantities(b, TargetWeights(targets), prices, Equity(b, prices))
  }

  ghost function FillsFor(b: Book, targets: seq<TargetPosition>, prices: Prices): seq<Fill>
    requires FullyPriced(b, targets, prices)
  {
    Plan(b, TargetFor(b, targets, prices), prices)
  }

  /** The books after one `execute`: untouched unless the action is adopted and fully priced. */
  ghost function ExecuteBook(b: Book, a: FeasibleAction, prices: Prices): Book {
    if a.action != Adopt || !FullyPriced(b, a.targets, prices) then b
    else Replay(b, FillsFor(b, a.targets, prices))
  }

  function JoinWith(separator: string, words: seq<string>): string {
    if words == [] then ""
    else if |words| == 1 then words[0]
    else words[0] + separator + JoinWith(separator, words[1..])
  }

  function ActionName(a: DecisionAction): string {
    match a
    case Adopt => "adopt"
    case Reject => "reject"
    case Defer => "defer"
  }

  function RejectedLeg(t: Ticker, missing: seq<Ticker>): Fill {
    Fill(t, Buy, FillStatus.Rejected, 0.0, 0.0, 0.0,
         Some(if t in missing then "price unavailable" else "rolled back"))
  }

  function SkipReport(a: FeasibleAction): ExecutionReport {
    ExecutionReport(a.sourceDecisionRunId, Skipped, [], Some("action=" + ActionName(a.action) + "; no broker work"))
  }

  function RejectReport(a: FeasibleAction, involved: seq<Ticker>, missing: seq<Ticker>): ExecutionReport {
    ExecutionReport(a.sourceDecisionRunId, ExecutionStatus.Rejected,
                    seq(|involved|, i requires 0 <= i < |involved| => RejectedLeg(involved[i], missing)),
                    Some("missing prices for: " + JoinWith(", ", missing)))
  }

  ghost function ReportFor(b: Book, a: FeasibleAction, prices: Prices): ExecutionReport {
    if a.action != Adopt then SkipReport(a)
    else if !FullyPriced(b, a.targets, prices) then
      RejectReport(a, Ascending(Involved(b, a.targets)), Ascending(MissingPrices(b, a.targets, prices)))
    else ExecutionReport(a.sourceDecisionRunId, ExecutionStatus.Filled, FillsFor(b, a.targets, prices), None)
  }

  // ---- one rebalance ----

  function Share(weight: real, price: real): real {
    if price > 0.0 then weight else 0.0
  }

  ghost function PricedWeights(targets: seq<TargetPosition>, prices: Prices): map<Ticker, real>
    requires TickerSet(targets) <= prices.Keys
  {
    var weights := TargetWeights(targets);
    map t | t in weights :: Share(weights[t], prices[t])
  }

  /** Fraction of equity the targets with a positive price ask for. */
  ghost function Allocation(targets: seq<TargetPosition>, prices: Prices): real
    requires TickerSet(targets) <= prices.Keys
  {
    Sums.MapSum(PricedWeights(targets, prices))
  }

  lemma {:induction false} WeightOf(targets: seq<TargetPosition>, t: Ticker)
    requires t in TickerSet(targets)
    ensures exists i :: 0 <= i < |targets| && targets[i].ticker == t && TargetWeights(targets)[t] == targets[i].weight
  {
    var n := |targets| - 1;
    assert targets == targets[..n] + [targets[n]];
    if targets[n].ticker != t {
      WeightOf(targets[..n], t);
      var i :| 0 <= i < n && targets[i].ticker == t && TargetWeights(targets[..n])[t] == targets[i].weight;
      assert TargetWeights(targets)[t] == targets[i].weight;
    }
  }

  lemma QuantityWorth(equity: real, weight: real, price: real)
    requires price >= 0.0
    ensures Quantity(equity, weight, price) * price == Sums.Scaling(equity)(Share(weight, price))
    ensures equity >= 0.0 && weight > 0.0 ==> Quantity(equity, weight, price) >= 0.0
  {
    if price > 0.0 {
      DivideBack(equity * weight, price);
      if equity >= 0.0 && weight > 0.0 {
        MulNonNegative(equity, weight);
        QuotientNonNegative(equity * weight, price);
      }
    }
  }

  lemma TargetsNonNegative(b: Book, targets: seq<TargetPosition>, prices: Prices)
    requires CanRebalance(b, targets, prices)
    ensures forall t <- TargetFor(b, targets, prices) :: TargetFor(b, targets, prices)[t] >= 0.0
  {
    var target, weights := TargetFor(b, targets, prices), TargetWeights(targets);
    forall t | t in target ensures target[t] >= 0.0 {
      if t in weights {
        WeightOf(targets, t);
        QuantityWorth(Equity(b, prices), weights[t], prices[t]);
      }
    }
  }

  lemma WorthOfQuantity(target: map<Ticker, real>, prices: Prices, t: Ticker, equity: real, weight: real)
    requires target.Keys <= prices.Keys && t in target && prices[t] >= 0.0
    requires target[t] == Quantity(equity, weight, prices[t])
    ensures TargetWorths(target, prices)[t] == Sums.Scaling(equity)(Share(weight, prices[t]))
  {
    QuantityWorth(equity, weight, prices[t]);
  }

  lemma TargetWorthOf(b: Book, targets: seq<TargetPosition>, prices: Prices, t: Ticker)
    requires FullyPriced(b, targets, prices) && NonNegativePrices(prices)
    requires t in TickerSet(targets)
    ensures TargetWorths(TargetFor(b, targets, prices), prices)[t] ==
            Sums.Scaling(Equity(b, prices))(PricedWeights(targets, prices)[t])
  {
    WorthOfQuantity(TargetFor(b, targets, prices), prices, t, Equity(b, prices), TargetWeights(targets)[t]);
  }

  ghost function Scale(equity: real, shares: map<Ticker, real>): map<Ticker, real> {
    map t | t in shares :: Sums.Scaling(equity)(shares[t])
  }

  /** The target portfolio is worth exactly the allocated share of equity. */
  lemma TargetPortfolioWorth(b: Book, targets: seq<TargetPosition>, prices: Prices)
    requires FullyPriced(b, targets, prices) && NonNegativePrices(prices)
    ensures Sums.MapSum(TargetWorths(TargetFor(b, targets, prices), prices))
            == Sums.Scaling(Equity(b, prices))(Allocation(targets, prices))
  {
    var equity, shares := Equity(b, prices), PricedWeights(targets, prices);
    var wanted, worths := TargetWorths(TargetFor(b, targets, prices), prices), Scale(equity, shares);
    Sums.Scaled(shares, worths, equity);
    assert wanted.Keys == Involved(b, targets);
    assert shares.Keys == TickerSet(targets);
    forall t | t in wanted ensures wanted[t] == if t in worths then worths[t] else 0.0 {
      if t in worths {
        TargetWorthOf(b, targets, prices, t);
      }
    }
    Sums.PadWithZeros(worths, wanted);
  }

  /** Equity and books survive, every ticker lands exactly on its target and everything else is closed. */
  lemma RebalanceOutcome(b: Book, targets: seq<TargetPosition>, prices: Prices)
    requires CanRebalance(b, targets, prices)
    ensures var b', target := Replay(b, FillsFor(b, targets, prices)), TargetFor(b, targets, prices);
            && Plannable(b, target, prices) && Keeps(b, b', prices)
            && (forall t :: Held(b', t) == if t in target then target[t] else 0.0)
            && b'.positions.Keys <= target.Keys
            && b'.cash == Equity(b, prices) - Sums.MapSum(TargetWorths(target, prices))
  {
    TargetsNonNegative(b, targets, prices);
    PlanOutcome(b, TargetFor(b, targets, prices), prices);
  }

  lemma ShareOfAll(equity: real, allocation: real)
    requires equity >= 0.0
    ensures equity - Sums.Scaling(equity)(allocation) >= 0.0 <==> equity == 0.0 || allocation <= 1.0
  {
    assert equity - equity * allocation == equity * (1.0 - allocation);
    if equity > 0.0 && allocation > 1.0 {
      assert equity * (allocation - 1.0) > 0.0;
    }
    if allocation <= 1.0 {
      MulNonNegative(equity, 1.0 - allocation);
    }
  }

  /** Cash the finished rebalance leaves. */
  ghost function CashLeft(b: Book, targets: seq<TargetPosition>, prices: Prices): real
    requires FullyPriced(b, targets, prices)
  {
    Equity(b, prices) - Sums.MapSum(TargetWorths(TargetFor(b, targets, prices), prices))
  }

  lemma CashLeftIff(b: Book, targets: seq<TargetPosition>, prices: Prices)
    requires CanRebalance(b, targets, prices)
    ensures CashLeft(b, targets, prices) >= 0.0 <==> Equity(b, prices) == 0.0 || Allocation(targets, prices) <= 1.0
  {
    TargetPortfolioWorth(b, targets, prices);
    ShareOfAll(Equity(b, prices), Allocation(targets, prices));
  }

  /** The broker itself never checks weights: cash stays non-negative at every fill exactly when the
      priced targets ask for no more than the whole equity (or there is none). */
  lemma CashStaysNonNegativeIff(b: Book, targets: seq<TargetPosition>, prices: Prices)
    requires CanRebalance(b, targets, prices) && b.cash >= 0.0
    ensures NeverOverdrawn(b, FillsFor(b, targets, prices))
            <==> Equity(b, prices) == 0.0 || Allocation(targets, prices) <= 1.0
  {
    var fills, left := FillsFor(b, targets, prices), CashLeft(b, targets, prices);
    assert Replay(b, fills).cash == left by { RebalanceOutcome(b, targets, prices); }
    CashLeftIff(b, targets, prices);
    if left >= 0.0 {
      assert Plannable(b, TargetFor(b, targets, prices), prices) by { RebalanceOutcome(b, targets, prices); }
      CashBetweenFills(b, TargetFor(b, targets, prices), prices, left);
    } else {
      OverdrawnAtTheEnd(b, fills);
    }
  }

  lemma OverdrawnAtTheEnd(b: Book, fills: seq<Fill>)
    requires Replay(b, fills).cash < 0.0
    ensures !NeverOverdrawn(b, fills)
  {
    Seqs.FullPrefix(fills);
    assert Replay(b, fills[..|fills|]).cash < 0.0;
  }

  lemma {:induction false} NothingToDo(b: Book, ts: seq<Ticker>, target: map<Ticker, real>, prices: Prices)
    requires forall t <- ts :: t in target && t in prices && target[t] == Held(b, t)
    ensures SellPlan(b, ts, target, prices) == [] && BuyPlan(b, ts, target, prices) == []
  {
    if ts != [] {
      NothingToDo(b, ts[..|ts| - 1], target, prices);
    }
  }

  /** Executing the same action again at the same prices emits no fills. */
  lemma SecondRunIsSilent(b: Book, targets: seq<TargetPosition>, prices: Prices)
    requires CanRebalance(b, targets, prices)
    ensures var b' := Replay(b, FillsFor(b, targets, prices));
            CanRebalance(b', targets, prices) && FillsFor(b', targets, prices) == []
  {
    RebalanceOutcome(b, targets, prices);
    var b', target := Replay(b, FillsFor(b, targets, prices)), TargetFor(b, targets, prices);
    forall t | t in b'.positions ensures t in TickerSet(targets) {
      assert Held(b', t) > 0.0;
    }
    var target' := TargetFor(b', targets, prices);
    forall t | t in target' ensures target'[t] == Held(b', t) {
      assert target[t] == Quantity(Equity(b, prices), TargetWeights(targets)[t], prices[t]);
    }
    NothingToDo(b', Ascending(target'.Keys), target', prices);
  }

  // ---- the shape of the fill list ----

  ghost predicate OneSidedAscending(fills: seq<Fill>, side: Side, ts: seq<Ticker>) {
    && (forall f <- fills :: f.side == side && f.quantity > 0.0 && f.ticker in ts)
    && forall i, j :: 0 <= i < j < |fills|
        ==> StrLe(fills[i].ticker, fills[j].ticker) && fills[i].ticker != fills[j].ticker
  }

  ghost predicate AscendingTickers(ts: seq<Ticker>) {
    forall i, j :: 0 <= i < j < |ts| ==> StrLe(ts[i], ts[j]) && ts[i] != ts[j]
  }

  lemma {:induction false} PlanShape(b: Book, ts: seq<Ticker>, target: map<Ticker, real>, prices: Prices)
    requires (forall t <- ts :: t in target && t in prices) && AscendingTickers(ts)
    ensures OneSidedAscending(SellPlan(b, ts, target, prices), Sell, ts)
    ensures OneSidedAscending(BuyPlan(b, ts, target, prices), Buy, ts)
  {
    if ts != [] {
      var n := |ts| - 1;
      PlanShape(b, ts[..n], target, prices);
      LegAdded(SellPlan(b, ts[..n], target, prices), SellLeg(b, ts[n], target[ts[n]], prices[ts[n]]), Sell, ts);
      LegAdded(BuyPlan(b, ts[..n], target, prices), BuyLeg(b, ts[n], target[ts[n]], prices[ts[n]]), Buy, ts);
    }
  }

  lemma LegAdded(fills: seq<Fill>, leg: seq<Fill>, side: Side, ts: seq<Ticker>)
    requires ts != [] && AscendingTickers(ts) && OneSidedAscending(fills, side, ts[..|ts| - 1])
    requires |leg| <= 1 && forall f <- leg :: f.side == side && f.quantity > 0.0 && f.ticker == ts[|ts| - 1]
    ensures OneSidedAscending(fills + leg, side, ts)
  {
    forall i, j | 0 <= i < j < |fills + leg|
      ensures StrLe((fills + leg)[i].ticker, (fills + leg)[j].ticker)
          && (fills + leg)[i].ticker != (fills + leg)[j].ticker {
      if j == |fills| {
        assert fills[i] in fills;
      }
    }
  }

  lemma {:induction false} PlanMoves(b: Book, ts: seq<Ticker>, target: map<Ticker, real>, prices: Prices)
    requires forall t <- ts :: t in target && t in prices
    ensures forall f <- SellPlan(b, ts, target, prices) :: f.ticker in ts && target[f.ticker] < Held(b, f.ticker)
    ensures forall f <- BuyPlan(b, ts, target, prices) :: f.ticker in ts && target[f.ticker] > Held(b, f.ticker)
  {
    if ts != [] {
      PlanMoves(b, ts[..|ts| - 1], target, prices);
    }
  }

  ghost predicate RebalanceOrder(f: Fill, g: Fill) {
    && f.ticker != g.ticker
    && (f.side == Sell || g.side == Buy)
    && (f.side == g.side ==> StrLe(f.ticker, g.ticker))
  }

  lemma JoinSides(sells: seq<Fill>, buys: seq<Fill>, ts: seq<Ticker>, i: nat, j: nat)
    requires OneSidedAscending(sells, Sell, ts) && OneSidedAscending(buys, Buy, ts)
    requires forall f, g :: f in sells && g in buys ==> f.ticker != g.ticker
    requires i < j < |sells| + |buys|
    ensures RebalanceOrder((sells + buys)[i], (sells + buys)[j])
  {
    if i < |sells| <= j {
      assert sells[i] in sells && buys[j - |sells|] in buys;
    } else if j < |sells| {
      assert sells[i] in sells && sells[j] in sells;
    } else {
      assert buys[i - |sells|] in buys && buys[j - |sells|] in buys;
    }
  }

  /** At most one fill per ticker, every sell before every buy, each side by ascending ticker. */
  lemma OneFillPerTicker(b: Book, targets: seq<TargetPosition>, prices: Prices)
    requires FullyPriced(b, targets, prices)
    ensures var fills := FillsFor(b, targets, prices);
            forall i, j :: 0 <= i < j < |fills| ==> RebalanceOrder(fills[i], fills[j])
  {
    var target := TargetFor(b, targets, prices);
    var ts := Ascending(target.Keys);
    PlanShape(b, ts, target, prices);
    PlanMoves(b, ts, target, prices);
    var sells, buys := SellPlan(b, ts, target, prices), BuyPlan(b, ts, target, prices);
    forall i, j | 0 <= i < j < |sells| + |buys| ensures RebalanceOrder((sells + buys)[i], (sells + buys)[j]) {
      JoinSides(sells, buys, ts, i, j);
    }
  }

  // ---- what the fills add up to ----

  function Signed(side: Side, quantity: real): real {
    if side == Buy then quantity else -quantity
  }

  /** What a list of fills buys of a ticker, less what it sells of it. */
  function NetFilled(fills: seq<Fill>, t: Ticker): real {
    if fills == [] then 0.0
    else
      var f := fills[|fills| - 1];
      NetFilled(fills[..|fills| - 1], t) + (if f.ticker == t then Signed(f.side, f.quantity) else 0.0)
  }

  lemma {:induction false} NetOfBoth(a: seq<Fill>, b: seq<Fill>, t: Ticker)
    ensures NetFilled(a + b, t) == NetFilled(a, t) + NetFilled(b, t)
  {
    if b == [] {
      assert a + b == a;
    } else {
      var n := |b| - 1;
      Seqs.PrefixOfConcat(a, b, |a| + n);
      NetOfBoth(a, b[..n], t);
    }
  }

  lemma NetOfOne(f: Fill, t: Ticker)
    ensures NetFilled([f], t) == if f.ticker == t then Signed(f.side, f.quantity) else 0.0
  {
    assert [f][..0] == [];
  }

  lemma {:induction false} NetOfSells(b: Book, ts: seq<Ticker>, target: map<Ticker, real>, prices: Prices, t: Ticker)
    requires (forall u <- ts :: u in target && u in prices) && AscendingTickers(ts)
    ensures NetFilled(SellPlan(b, ts, target, prices), t)
         == if t in ts && target[t] < Held(b, t) then target[t] - Held(b, t) else 0.0
  {
    if ts != [] {
      var n := |ts| - 1;
      NetOfSells(b, ts[..n], target, prices, t);
      Before(ts);
      NetOfBoth(SellPlan(b, ts[..n], target, prices), SellLeg(b, ts[n], target[ts[n]], prices[ts[n]]), t);
      NetOfOne(FilledLeg(ts[n], Sell, Held(b, ts[n]) - target[ts[n]], prices[ts[n]]), t);
    }
  }

  lemma {:induction false} NetOfBuys(b: Book, ts: seq<Ticker>, target: map<Ticker, real>, prices: Prices, t: Ticker)
    requires (forall u <- ts :: u in target && u in prices) && AscendingTickers(ts)
    ensures NetFilled(BuyPlan(b, ts, target, prices), t)
         == if t in ts && target[t] > Held(b, t) then target[t] - Held(b, t) else 0.0
  {
    if ts != [] {
      var n := |ts| - 1;
      NetOfBuys(b, ts[..n], target, prices, t);
      Before(ts);
      NetOfBoth(BuyPlan(b, ts[..n], target, prices), BuyLeg(b, ts[n], target[ts[n]], prices[ts[n]]), t);
      NetOfOne(FilledLeg(ts[n], Buy, target[ts[n]] - Held(b, ts[n]), prices[ts[n]]), t);
    }
  }

  /** The signed fills of a rebalance are, ticker by ticker, the difference of the holdings after and before. */
  lemma FillsMoveHoldings(b: Book, targets: seq<TargetPosition>, prices: Prices, t: Ticker)
    requires CanRebalance(b, targets, prices)
    ensures var fills := FillsFor(b, targets, prices);
            NetFilled(fills, t) == Held(Replay(b, fills), t) - Held(b, t)
  {
    var target := TargetFor(b, targets, prices);
    var ts := Ascending(target.Keys);
    NetOfSells(b, ts, target, prices, t);
    NetOfBuys(b, ts, target, prices, t);
    NetOfBoth(SellPlan(b, ts, target, prices), BuyPlan(b, ts, target, prices), t);
    PlanLands(b, targets, prices, t);
  }

  lemma PlanLands(b: Book, targets: seq<TargetPosition>, prices: Prices, t: Ticker)
    requires CanRebalance(b, targets, prices)
    ensures var target := TargetFor(b, targets, prices);
            Held(Replay(b, FillsFor(b, targets, prices)), t) == if t in target then target[t] else Held(b, t)
  {
    RebalanceOutcome(b, targets, prices);
  }

  // ---- decision, gateway, broker ----

  lemma OneMoreShare(init: seq<TargetPosition>, last: TargetPosition, prices: Prices)
    requires TickerSet(init) <= prices.Keys && last.ticker in prices
    ensures TickerSet(init + [last]) == TickerSet(init) + {last.ticker}
    ensures PricedWeights(init + [last], prices)
            == PricedWeights(init, prices)[last.ticker := Share(last.weight, prices[last.ticker])]
  {
    assert (init + [last])[..|init|] == init;
    assert forall t <- init :: t in init + [last];
    assert last in init + [last];
  }

  /** Giving one ticker a new share raises the total by at most that share. */
  lemma RaiseByShare(shares: map<Ticker, real>, t: Ticker, share: real)
    requires forall u <- shares :: shares[u] >= 0.0
    ensures Sums.MapSum(shares[t := share]) <= Sums.MapSum(shares) + share
  {
    assert shares - {t} == shares[t := share] - {t};
    Sums.ChangeOne(shares, shares[t := share], t);
  }

  lemma {:induction false} AllocationWithinWeights(targets: seq<TargetPosition>, prices: Prices)
    requires TickerSet(targets) <= prices.Keys
    requires forall t <- targets :: t.weight > 0.0
    ensures Allocation(targets, prices) <= TotalWeight(targets)
  {
    if targets != [] {
      var n := |targets| - 1;
      var init, last := targets[..n], targets[n];
      assert targets == init + [last];
      assert last.ticker in TickerSet(targets) && TickerSet(init) <= TickerSet(targets);
      AllocationWithinWeights(init, prices);
      OneMoreShare(init, last, prices);
      var shares := PricedWeights(init, prices);
      forall u | u in shares ensures shares[u] >= 0.0 {
        WeightOf(init, u);
      }
      RaiseByShare(shares, last.ticker, Share(last.weight, prices[last.ticker]));
    }
  }

  /** One decision put to the gateway under some account limits, then to the broker at some prices. */
  datatype Trade = Trade(decision: StrategyDecision, config: PolicyGatewayConfig, prices: Prices)

  ghost predicate Admissible(t: Trade) {
    WellFormed(t.decision) && NonNegativePrices(t.prices)
  }

  ghost function AfterTrade(b: Book, t: Trade): Book
    requires Admissible(t)
  {
    ExecuteBook(b, ApplyPolicyGateway(t.decision, t.config), t.prices)
  }

  ghost function AfterTrades(b: Book, trades: seq<Trade>): Book
    requires forall t <- trades :: Admissible(t)
  {
    if trades == [] then b
    else AfterTrade(AfterTrades(b, trades[..|trades| - 1]), trades[|trades| - 1])
  }

  ghost predicate Solvent(b: Book, capital: real) {
    ValidBook(b) && b.cash >= 0.0 && Imbalance(b, capital) == 0.0
  }

  lemma SolventEquity(b: Book, prices: Prices)
    requires ValidBook(b) && b.cash >= 0.0 && NonNegativePrices(prices)
    ensures Equity(b, prices) >= 0.0
  {
    var worths := Worths(b.positions, Marked(prices));
    forall t | t in worths ensures worths[t] >= 0.0 {
      MulNonNegative(b.positions[t].qty, if t in prices then prices[t] else 0.0);
    }
    Sums.NonNegative(worths);
  }

  /** Solvent before the first fill, between any two, and after the last. */
  ghost predicate SolventThroughout(b: Book, fills: seq<Fill>, capital: real) {
    forall k :: 0 <= k <= |fills| ==> Solvent(Replay(b, fills[..k]), capital)
  }

  /** Every single fill of a rebalance leaves positive holdings, equity and books as they were. */
  lemma EveryFillKeepsTheBooks(b: Book, targets: seq<TargetPosition>, prices: Prices)
    requires CanRebalance(b, targets, prices)
    ensures KeptThroughout(b, FillsFor(b, targets, prices), prices)
  {
    RebalanceOutcome(b, targets, prices);
    PlanKeepsThroughout(b, TargetFor(b, targets, prices), prices);
  }

  lemma RebalanceKeepsSolvent(b: Book, targets: seq<TargetPosition>, prices: Prices, capital: real)
    requires Solvent(b, capital) && NonNegativePrices(prices) && FullyPriced(b, targets, prices)
    requires ValidTargets(targets) && TotalWeight(targets) <= 1.0
    ensures SolventThroughout(b, FillsFor(b, targets, prices), capital)
  {
    var fills := FillsFor(b, targets, prices);
    SolventEquity(b, prices);
    AllocationWithinWeights(targets, prices);
    CashStaysNonNegativeIff(b, targets, prices);
    EveryFillKeepsTheBooks(b, targets, prices);
    forall k | 0 <= k <= |fills| ensures Solvent(Replay(b, fills[..k]), capital) {
      assert Keeps(b, Replay(b, fills[..k]), prices);
      assert Replay(b, fills[..k]).cash >= 0.0;
    }
  }

  /** A validated decision keeps the account solvent, holdings positive and books balanced at every fill. */
  lemma TradeKeepsSolvent(b: Book, t: Trade, capital: real)
    requires Solvent(b, capital) && Admissible(t)
    ensures Solvent(AfterTrade(b, t), capital)
    ensures var a := ApplyPolicyGateway(t.decision, t.config);
            a.action == Adopt && FullyPriced(b, a.targets, t.prices)
            ==> SolventThroughout(b, FillsFor(b, a.targets, t.prices), capital)
  {
    var a := ApplyPolicyGateway(t.decision, t.config);
    if a.action == Adopt && FullyPriced(b, a.targets, t.prices) {
      RebalanceKeepsSolvent(b, a.targets, t.prices, capital);
      SolventAtTheEnd(b, FillsFor(b, a.targets, t.prices), capital);
    }
  }

  lemma SolventAtTheEnd(b: Book, fills: seq<Fill>, capital: real)
    requires SolventThroughout(b, fills, capital)
    ensures Solvent(Replay(b, fills), capital)
  {
    assert fills[..|fills|] == fills;
  }

  /** Over every sequence of validated decisions: no debt, no empty or short holding, balanced books. */
  lemma {:induction false} SessionStaysSolvent(capital: real, trades: seq<Trade>)
    requires capital > 0.0
    requires forall t <- trades :: Admissible(t)
    ensures Solvent(AfterTrades(Book(capital, map[], 0.0), trades), capital)
  {
    var opening := Book(capital, map[], 0.0);
    if trades == [] {
      assert Worths(opening.positions, AtCost()) == map[];
    } else {
      var n := |trades| - 1;
      SessionStaysSolvent(capital, trades[..n]);
      TradeKeepsSolvent(AfterTrades(opening, trades[..n]), trades[n], capital);
    }
  }
}
