/** What one `execute` of the paper broker leaves of the books and reports, told from holdings, prices and weights. */
module PaperOutcomes {
  import opened Wrappers
  import opened Sorting
  import opened Decisions
  import opened PolicyGateway
  import opened ExecutionReports
  import opened Portfolio
  import opened Rebalancing
  import opened PaperExecution
  import Seqs
  import Sums

  function Value(quantity: real, price: real): real {
    quantity * price
  }

  // ---- equity ----

  /** Without holdings equity is the cash; one holding more adds its quantity at its price. */
  lemma EquityAdds(cash: real, positions: map<Ticker, Position>, realized: real, prices: Prices, t: Ticker, p: Position)
    requires t in prices && t !in positions
    ensures Equity(Book(cash, map[], realized), prices) == cash
    ensures Equity(Book(cash, positions[t := p], realized), prices)
         == Equity(Book(cash, positions, realized), prices) + p.qty * prices[t]
  {
    assert Worths(map[], Marked(prices)) == map[];
    WithOneMore(Book(cash, positions, realized), prices, t, p);
    MarkedAt(t, p, prices);
  }

  lemma WithOneMore(b: Book, prices: Prices, t: Ticker, p: Position)
    requires t !in b.positions
    ensures Equity(b.(positions := b.positions[t := p]), prices) == Equity(b, prices) + Marked(prices)(t, p)
  {
    assert b.positions[t := p] - {t} == b.positions - {t};
    TotalChange(b.positions, b.positions[t := p], t, Marked(prices));
  }

  lemma MarkedAt(t: Ticker, p: Position, prices: Prices)
    requires t in prices
    ensures Marked(prices)(t, p) == p.qty * prices[t]
  {
  }

  // ---- where a rebalance lands ----

  /** The target that counts for a ticker: the last one of it. */
  predicate LastTarget(targets: seq<TargetPosition>, t: Ticker, i: nat) {
    && i < |targets| && targets[i].ticker == t
    && forall j :: i < j < |targets| ==> targets[j].ticker != t
  }

  predicate NoTarget(targets: seq<TargetPosition>, t: Ticker) {
    forall i :: 0 <= i < |targets| ==> targets[i].ticker != t
  }

  lemma {:induction false} LastWeightCounts(targets: seq<TargetPosition>, t: Ticker, i: nat)
    requires LastTarget(targets, t, i)
    ensures t in TargetWeights(targets) && TargetWeights(targets)[t] == targets[i].weight
  {
    var n := |targets| - 1;
    if i < n {
      LastWeightCounts(targets[..n], t, i);
    }
  }

  /** The broker ran the whole rebalance. */
  ghost predicate Rebalanced(b: Book, a: FeasibleAction, prices: Prices) {
    a.action == Adopt && CanRebalance(b, a.targets, prices)
  }

  /** A targeted ticker with a price ends up worth its weight of the equity; anything else is closed. */
  lemma HoldingsAreWeights(b: Book, a: FeasibleAction, prices: Prices, t: Ticker, i: nat)
    requires Rebalanced(b, a, prices)
    ensures var after := ExecuteBook(b, a, prices);
            && (t in after.positions <==> Held(after, t) > 0.0)
            && (NoTarget(a.targets, t) ==> Held(after, t) == 0.0)
            && (LastTarget(a.targets, t, i) ==>
                  && t in prices
                  && (prices[t] == 0.0 ==> Held(after, t) == 0.0)
                  && Value(Held(after, t), prices[t])
                     == if prices[t] == 0.0 then 0.0 else Value(Equity(b, prices), a.targets[i].weight))
  {
    Lands(b, a, prices, t);
    TargetOf(b, a.targets, prices, t, i);
    if LastTarget(a.targets, t, i) {
      TimesPrice(Equity(b, prices), a.targets[i].weight, prices[t]);
    }
  }

  lemma Lands(b: Book, a: FeasibleAction, prices: Prices, t: Ticker)
    requires Rebalanced(b, a, prices)
    ensures var (after, target) := (ExecuteBook(b, a, prices), TargetFor(b, a.targets, prices));
            && (t in after.positions <==> Held(after, t) > 0.0)
            && Held(after, t) == if t in target then target[t] else 0.0
  {
    RebalanceOutcome(b, a.targets, prices);
    var after := ExecuteBook(b, a, prices);
    assert t in after.positions ==> after.positions[t].qty > 0.0;
  }

  lemma TargetOf(b: Book, targets: seq<TargetPosition>, prices: Prices, t: Ticker, i: nat)
    requires FullyPriced(b, targets, prices)
    ensures var target := TargetFor(b, targets, prices);
            && (NoTarget(targets, t) && t in target ==> target[t] == 0.0)
            && (LastTarget(targets, t, i) ==>
                  t in target && t in prices
                  && target[t] == Quantity(Equity(b, prices), targets[i].weight, prices[t]))
  {
    if LastTarget(targets, t, i) {
      LastWeightCounts(targets, t, i);
      assert targets[i] in targets && t in TickerSet(targets);
    }
  }

  lemma TimesPrice(equity: real, weight: real, price: real)
    requires price >= 0.0
    ensures price == 0.0 ==> Quantity(equity, weight, price) == 0.0
    ensures Value(Quantity(equity, weight, price), price) == if price == 0.0 then 0.0 else Value(equity, weight)
  {
    if price > 0.0 {
      DivideBack(equity * weight, price);
    }
  }

  // ---- fills ----

  /** What the buys paid less what the sells brought. */
  function Paid(fills: seq<Fill>): real {
    if fills == [] then 0.0
    else
      var f := fills[|fills| - 1];
      Paid(fills[..|fills| - 1]) + (if f.side == Buy then f.notional else -f.notional)
  }

  /** An executed leg at the ticker's price. */
  predicate ExecutedAt(f: Fill, prices: Prices) {
    && f.ticker in prices && f.fillPrice == prices[f.ticker] && f.quantity > 0.0
    && f.notional == f.quantity * f.fillPrice && f.status == FillStatus.Filled && f.reason.None?
  }

  lemma {:induction false} LegsAreExecuted(b: Book, ts: seq<Ticker>, target: map<Ticker, real>, prices: Prices)
    requires forall t <- ts :: t in target && t in prices
    ensures forall f <- SellPlan(b, ts, target, prices) :: f.side == Sell && ExecutedAt(f, prices)
    ensures forall f <- BuyPlan(b, ts, target, prices) :: f.side == Buy && ExecutedAt(f, prices)
  {
    if ts != [] {
      LegsAreExecuted(b, ts[..|ts| - 1], target, prices);
    }
  }

  /** Every sell is of something held when its turn comes. */
  ghost predicate SellsHeld(b: Book, fills: seq<Fill>) {
    forall i :: 0 <= i < |fills| && fills[i].side == Sell ==> fills[i].ticker in Replay(b, fills[..i]).positions
  }

  lemma {:induction false} ReplayPays(b: Book, fills: seq<Fill>, prices: Prices)
    requires SellsHeld(b, fills) && forall f <- fills :: ExecutedAt(f, prices)
    ensures Replay(b, fills).cash == b.cash - Paid(fills)
  {
    if fills != [] {
      var n := |fills| - 1;
      assert SellsHeld(b, fills[..n]) by {
        assert forall i :: 0 <= i < n ==> fills[..n][i] == fills[i] && fills[..n][..i] == fills[..i];
      }
      ReplayPays(b, fills[..n], prices);
      assert fills[n] in fills;
      FillPays(Replay(b, fills[..n]), fills[n], prices);
    }
  }

  lemma FillPays(b: Book, f: Fill, prices: Prices)
    requires ExecutedAt(f, prices) && (f.side == Sell ==> f.ticker in b.positions)
    ensures ApplyFill(b, f).cash == b.cash - (if f.side == Buy then f.notional else -f.notional)
  {
  }

  /** The fills of a rebalance are executed legs at the prices given, and cash pays for them. */
  lemma FillsArePaid(b: Book, a: FeasibleAction, prices: Prices)
    requires Rebalanced(b, a, prices)
    ensures var report := ReportFor(b, a, prices);
            && report.sourceDecisionRunId == a.sourceDecisionRunId && report.reason.None?
            && report.status == ExecutionStatus.Filled
            && (forall f <- report.fills :: ExecutedAt(f, prices))
            && ExecuteBook(b, a, prices).cash == b.cash - Paid(report.fills)
  {
    var target := TargetFor(b, a.targets, prices);
    var ts := Ascending(target.Keys);
    RebalanceOutcome(b, a.targets, prices);
    LegsAreExecuted(b, ts, target, prices);
    var sells, buys := SellPlan(b, ts, target, prices), BuyPlan(b, ts, target, prices);
    forall i | 0 <= i < |sells| ensures sells[i].ticker in Replay(b, sells[..i]).positions {
      SellsOnlyRaiseCash(b, ts, target, prices, i);
    }
    SellsAreHeld(b, sells, buys);
    ReplayPays(b, sells + buys, prices);
  }

  lemma SellsAreHeld(b: Book, sells: seq<Fill>, buys: seq<Fill>)
    requires forall i :: 0 <= i < |sells| ==> sells[i].ticker in Replay(b, sells[..i]).positions
    requires forall f <- buys :: f.side == Buy
    ensures SellsHeld(b, sells + buys)
  {
    var plan: seq<Fill> := sells + buys;
    forall i | |sells| <= i < |plan| ensures plan[i].side == Buy {
      assert plan[i] == buys[i - |sells|];
    }
    forall i | 0 <= i < |sells| ensures plan[i].ticker in Replay(b, plan[..i]).positions {
      Seqs.PrefixOfConcat(sells, buys, i);
    }
  }

  // ---- cost basis and realized profit ----

  function PositionIn(b: Book, t: Ticker): Option<Position> {
    if t in b.positions then Some(b.positions[t]) else None
  }

  /** Average cost of a holding. */
  function CostOf(b: Book, t: Ticker): real {
    if t in b.positions then b.positions[t].avgCost else 0.0
  }

  function Basis(p: Option<Position>): real {
    if p.Some? then Value(p.value.qty, p.value.avgCost) else 0.0
  }

  /** Profit of the sells over what the holdings had cost before. */
  function Gained(b: Book, fills: seq<Fill>): real {
    if fills == [] then 0.0
    else
      var f := fills[|fills| - 1];
      Gained(b, fills[..|fills| - 1])
      + (if f.side == Sell then Value(f.quantity, f.fillPrice - CostOf(b, f.ticker)) else 0.0)
  }

  lemma {:induction false} GainedInBoth(b: Book, x: seq<Fill>, y: seq<Fill>)
    ensures Gained(b, x + y) == Gained(b, x) + Gained(b, y)
  {
    if y == [] {
      assert x + y == x;
    } else {
      assert (x + y)[..|x + y| - 1] == x + y[..|y| - 1];
      GainedInBoth(b, x, y[..|y| - 1]);
    }
  }

  /** A holding after the sells: as it was, reduced to its target at unchanged average cost, or gone. */
  function AfterSells(b: Book, ts: seq<Ticker>, target: map<Ticker, real>, t: Ticker): Option<Position> {
    if t in ts && t in target && target[t] < Held(b, t) then
      if target[t] == 0.0 then None else Some(Position(target[t], CostOf(b, t)))
    else PositionIn(b, t)
  }

  ghost predicate SoldDown(b: Book, b': Book, ts: seq<Ticker>, target: map<Ticker, real>) {
    forall t :: PositionIn(b', t) == AfterSells(b, ts, target, t)
  }

  lemma {:induction false} SellsAreBooked(b: Book, ts: seq<Ticker>, target: map<Ticker, real>, prices: Prices)
    requires Distinct(ts) && Covers(ts, target, prices)
    ensures var (plan, b') := (SellPlan(b, ts, target, prices), Replay(b, SellPlan(b, ts, target, prices)));
            SoldDown(b, b', ts, target) && b'.realized == b.realized + Gained(b, plan)
  {
    if ts != [] {
      var n := |ts| - 1;
      Before(ts);
      SellsAreBooked(b, ts[..n], target, prices);
      var done, leg := SellPlan(b, ts[..n], target, prices), SellLeg(b, ts[n], target[ts[n]], prices[ts[n]]);
      ReplayConcat(b, done, leg);
      GainedInBoth(b, done, leg);
      SellIsBooked(b, Replay(b, done), ts, target, prices, leg);
    }
  }

  lemma SellIsBooked(b: Book, b1: Book, ts: seq<Ticker>, target: map<Ticker, real>, prices: Prices, leg: seq<Fill>)
    requires ts != [] && Covers(ts, target, prices) && Distinct(ts)
    requires SoldDown(b, b1, ts[..|ts| - 1], target)
    requires var t := ts[|ts| - 1]; leg == SellLeg(b, t, target[t], prices[t])
    ensures SoldDown(b, Replay(b1, leg), ts, target) && Replay(b1, leg).realized == b1.realized + Gained(b, leg)
  {
    var t, b' := ts[|ts| - 1], Replay(b1, leg);
    Before(ts);
    assert PositionIn(b1, t) == PositionIn(b, t);
    if leg != [] {
      ReplayOne(b1, leg[0]);
      assert leg[..0] == [];
    }
    forall u ensures PositionIn(b', u) == AfterSells(b, ts, target, u) {
      assert PositionIn(b1, u) == AfterSells(b, ts[..|ts| - 1], target, u);
    }
  }

  ghost predicate BoughtUp(b: Book, b1: Book, b': Book, ts: seq<Ticker>, target: map<Ticker, real>, prices: Prices)
    requires forall t <- ts :: t in target && t in prices
  {
    forall t ::
      if t in ts && target[t] > Held(b, t) then Bought(b, b', t, target[t], prices[t])
      else PositionIn(b', t) == PositionIn(b1, t)
  }

  /** The enlarged holding, its basis that of before plus what was paid. */
  predicate Bought(b: Book, b': Book, t: Ticker, target: real, price: real) {
    && t in b'.positions && b'.positions[t].qty == target
    && Basis(PositionIn(b', t)) == Basis(PositionIn(b, t)) + Value(target - Held(b, t), price)
  }

  lemma {:induction false} BuysAreBooked(b: Book, b1: Book, ts: seq<Ticker>, target: map<Ticker, real>, prices: Prices)
    requires Distinct(ts) && Covers(ts, target, prices) && ValidBook(b)
    requires forall t <- ts :: target[t] > Held(b, t) ==> PositionIn(b1, t) == PositionIn(b, t)
    ensures var b' := Replay(b1, BuyPlan(b, ts, target, prices));
            BoughtUp(b, b1, b', ts, target, prices) && b'.realized == b1.realized
  {
    if ts != [] {
      var n := |ts| - 1;
      Before(ts);
      BuysAreBooked(b, b1, ts[..n], target, prices);
      var done, leg := BuyPlan(b, ts[..n], target, prices), BuyLeg(b, ts[n], target[ts[n]], prices[ts[n]]);
      ReplayConcat(b1, done, leg);
      BuyIsBooked(b, b1, Replay(b1, done), ts, target, prices, leg);
    }
  }

  lemma BuyIsBooked(b: Book, b1: Book, b2: Book, ts: seq<Ticker>, target: map<Ticker, real>, prices: Prices,
                    leg: seq<Fill>)
    requires ts != [] && Covers(ts, target, prices) && Distinct(ts) && ValidBook(b)
    requires BoughtUp(b, b1, b2, ts[..|ts| - 1], target, prices)
    requires var t := ts[|ts| - 1];
             && leg == BuyLeg(b, t, target[t], prices[t])
             && (target[t] > Held(b, t) ==> PositionIn(b1, t) == PositionIn(b, t))
    ensures BoughtUp(b, b1, Replay(b2, leg), ts, target, prices) && Replay(b2, leg).realized == b2.realized
  {
    var t := ts[|ts| - 1];
    Before(ts);
    assert PositionIn(b2, t) == PositionIn(b1, t);
    if leg != [] {
      ReplayOne(b2, leg[0]);
      BuyAverages(b2, t, target[t] - Held(b, t), prices[t]);
    }
    BoughtOneMore(b, b1, b2, Replay(b2, leg), ts, target, prices);
  }

  lemma BoughtOneMore(b: Book, b1: Book, b2: Book, b': Book, ts: seq<Ticker>, target: map<Ticker, real>,
                      prices: Prices)
    requires ts != [] && Covers(ts, target, prices) && Distinct(ts)
    requires BoughtUp(b, b1, b2, ts[..|ts| - 1], target, prices)
    requires b'.positions - {ts[|ts| - 1]} == b2.positions - {ts[|ts| - 1]}
    requires var t := ts[|ts| - 1];
             if target[t] > Held(b, t) then Bought(b, b', t, target[t], prices[t])
             else PositionIn(b', t) == PositionIn(b1, t)
    ensures BoughtUp(b, b1, b', ts, target, prices)
  {
    var t := ts[|ts| - 1];
    Before(ts);
    forall u ensures if u in ts && target[u] > Held(b, u) then Bought(b, b', u, target[u], prices[u])
                     else PositionIn(b', u) == PositionIn(b1, u) {
      if u != t {
        SameElsewhere(b2, b', t, u);
      }
    }
  }

  lemma SameElsewhere(b: Book, b': Book, t: Ticker, u: Ticker)
    requires b'.positions - {t} == b.positions - {t} && u != t
    ensures PositionIn(b', u) == PositionIn(b, u)
  {
    assert u in b.positions <==> u in b.positions - {t};
    assert u in b'.positions <==> u in b'.positions - {t};
  }

  lemma BuyAverages(b: Book, t: Ticker, qty: real, price: real)
    requires Held(b, t) + qty > 0.0
    ensures var b' := ApplyBuy(b, t, qty, price);
            && t in b'.positions && b'.positions[t].qty == Held(b, t) + qty
            && Basis(PositionIn(b', t)) == Basis(PositionIn(b, t)) + Value(qty, price)
            && b'.positions - {t} == b.positions - {t}
  {
    if t in b.positions {
      DivideBack(b.positions[t].qty * b.positions[t].avgCost + qty * price, b.positions[t].qty + qty);
    }
  }

  /**
   * What is sold keeps its average cost, what is bought raises the basis by what was paid, and what is not traded is
   * not touched.
   */
  ghost predicate CostFollows(b: Book, b': Book, prices: Prices, t: Ticker) {
    var (was, now) := (PositionIn(b, t), PositionIn(b', t));
    && (Held(b', t) == Held(b, t) ==> now == was)
    && (Held(b', t) < Held(b, t) && now.Some? ==> now.value.avgCost == CostOf(b, t))
    && (Held(b', t) > Held(b, t) ==>
          t in prices && Basis(now) == Basis(was) + Value(Held(b', t) - Held(b, t), prices[t]))
  }

  /** A rebalance keeps the books that way, and books as realized what the sells gained over cost. */
  lemma RebalanceKeepsCost(b: Book, a: FeasibleAction, prices: Prices, t: Ticker)
    requires Rebalanced(b, a, prices)
    ensures CostFollows(b, ExecuteBook(b, a, prices), prices, t)
    ensures ExecuteBook(b, a, prices).realized == b.realized + Gained(b, ReportFor(b, a, prices).fills)
  {
    TargetIsPlannable(b, a, prices);
    PlanKeepsCost(b, TargetFor(b, a.targets, prices), prices, t);
  }

  lemma PlanKeepsCost(b: Book, target: map<Ticker, real>, prices: Prices, t: Ticker)
    requires Plannable(b, target, prices)
    ensures var b' := Replay(b, Plan(b, target, prices));
            CostFollows(b, b', prices, t) && b'.realized == b.realized + Gained(b, Plan(b, target, prices))
  {
    var ts := Ascending(target.Keys);
    assert Distinct(ts) && Covers(ts, target, prices);
    var sells, buys := SellPlan(b, ts, target, prices), BuyPlan(b, ts, target, prices);
    var b1 := Replay(b, sells);
    PlanIsBooked(b, b1, ts, target, prices, sells, buys);
    ReplayConcat(b, sells, buys);
    GainedInBoth(b, sells, buys);
    BuysGainNothing(b, ts, target, prices);
    CostFollowsPlan(b, b1, Replay(b1, buys), ts, target, prices, t);
  }

  lemma TargetIsPlannable(b: Book, a: FeasibleAction, prices: Prices)
    requires Rebalanced(b, a, prices)
    ensures Plannable(b, TargetFor(b, a.targets, prices), prices)
  {
    RebalanceOutcome(b, a.targets, prices);
  }

  lemma PlanIsBooked(b: Book, b1: Book, ts: seq<Ticker>, target: map<Ticker, real>, prices: Prices, sells: seq<Fill>,
                     buys: seq<Fill>)
    requires Distinct(ts) && Covers(ts, target, prices) && ValidBook(b)
    requires sells == SellPlan(b, ts, target, prices) && buys == BuyPlan(b, ts, target, prices)
    requires b1 == Replay(b, sells)
    ensures SoldDown(b, b1, ts, target) && BoughtUp(b, b1, Replay(b1, buys), ts, target, prices)
    ensures Replay(b1, buys).realized == b.realized + Gained(b, sells)
  {
    SellsAreBooked(b, ts, target, prices);
    forall u | u in ts && target[u] > Held(b, u) ensures PositionIn(b1, u) == PositionIn(b, u) {
      assert PositionIn(b1, u) == AfterSells(b, ts, target, u);
    }
    BuysAreBooked(b, b1, ts, target, prices);
  }

  lemma CostFollowsPlan(b: Book, b1: Book, b': Book, ts: seq<Ticker>, target: map<Ticker, real>, prices: Prices,
                        t: Ticker)
    requires Covers(ts, target, prices)
    requires SoldDown(b, b1, ts, target) && BoughtUp(b, b1, b', ts, target, prices)
    ensures CostFollows(b, b', prices, t)
  {
    assert PositionIn(b1, t) == AfterSells(b, ts, target, t);
  }

  lemma {:induction false} BuysGainNothing(b: Book, ts: seq<Ticker>, target: map<Ticker, real>, prices: Prices)
    requires forall t <- ts :: t in target && t in prices
    ensures Gained(b, BuyPlan(b, ts, target, prices)) == 0.0
  {
    if ts != [] {
      var n := |ts| - 1;
      BuysGainNothing(b, ts[..n], target, prices);
      var leg := BuyLeg(b, ts[n], target[ts[n]], prices[ts[n]]);
      GainedInBoth(b, BuyPlan(b, ts[..n], target, prices), leg);
      assert leg != [] ==> leg[..0] == [];
    }
  }

  // ---- reports without work ----

  /** Joining lists with a separator joins their texts with it. */
  lemma {:induction false} JoinedTexts(separator: string, a: seq<string>, b: seq<string>, word: string)
    ensures JoinWith(separator, []) == "" && JoinWith(separator, [word]) == word
    ensures a != [] && b != [] ==>
              JoinWith(separator, a + b) == JoinWith(separator, a) + separator + JoinWith(separator, b)
  {
    if |a| > 1 && b != [] {
      JoinedTexts(separator, a[1..], b, word);
      assert (a + b)[1..] == a[1..] + b;
    } else if |a| == 1 && b != [] {
      assert (a + b)[1..] == b;
    }
  }

  /** Ascending, each once, and exactly those wanted. */
  ghost predicate Lists(ts: seq<Ticker>, wanted: iset<Ticker>) {
    && (forall t :: t in ts <==> t in wanted)
    && forall i, j :: 0 <= i < j < |ts| ==> StrLe(ts[i], ts[j]) && ts[i] != ts[j]
  }

  ghost function TargetedOrHeld(b: Book, a: FeasibleAction): iset<Ticker> {
    iset t | t in b.positions || exists p <- a.targets :: p.ticker == t
  }

  ghost function Unpriced(b: Book, a: FeasibleAction, prices: Prices): iset<Ticker> {
    iset t | t in TargetedOrHeld(b, a) && t !in prices
  }

  /** Anything but an adopted action is skipped, by its name. */
  lemma SkippedByName(b: Book, a: FeasibleAction, prices: Prices)
    requires a.action != Adopt
    ensures ExecuteBook(b, a, prices) == b
    ensures ReportFor(b, a, prices)
         == ExecutionReport(sourceDecisionRunId := a.sourceDecisionRunId, status := Skipped, fills := [],
                            reason := Some("action=" + (if a.action == Reject then "reject" else "defer")
                                           + "; no broker work"))
  {
  }

  /** A leg that was not executed. */
  predicate NotExecuted(f: Fill, t: Ticker, reason: string) {
    && f.ticker == t && f.side == Buy && f.status == FillStatus.Rejected
    && f.quantity == 0.0 && f.fillPrice == 0.0 && f.notional == 0.0 && f.reason == Some(reason)
  }

  /** One empty leg for every ticker involved, and the missing ones named. */
  predicate RejectsFor(report: ExecutionReport, runId: string, involved: seq<Ticker>, missing: seq<Ticker>,
                       prices: Prices) {
    && report.sourceDecisionRunId == runId && report.status == ExecutionStatus.Rejected
    && report.reason == Some("missing prices for: " + JoinWith(", ", missing))
    && |report.fills| == |involved|
    && forall i :: 0 <= i < |involved| ==>
         NotExecuted(report.fills[i], involved[i],
                     if involved[i] in prices then "rolled back" else "price unavailable")
  }

  /** With a price missing for a ticker targeted or held, nothing moves. */
  lemma RejectedForMissingPrices(b: Book, a: FeasibleAction, prices: Prices)
    returns (involved: seq<Ticker>, missing: seq<Ticker>)
    requires a.action == Adopt && exists t :: t in Unpriced(b, a, prices)
    ensures Lists(involved, TargetedOrHeld(b, a)) && Lists(missing, Unpriced(b, a, prices))
    ensures RejectsFor(ReportFor(b, a, prices), a.sourceDecisionRunId, involved, missing, prices)
    ensures ExecuteBook(b, a, prices) == b
  {
    involved, missing := Ascending(Involved(b, a.targets)), Ascending(MissingPrices(b, a.targets, prices));
    InvolvedAre(b, a, prices);
    RejectsWhole(b, a, prices, involved, missing);
  }

  lemma RejectsWhole(b: Book, a: FeasibleAction, prices: Prices, involved: seq<Ticker>, missing: seq<Ticker>)
    requires a.action == Adopt && !FullyPriced(b, a.targets, prices)
    requires involved == Ascending(Involved(b, a.targets)) && missing == Ascending(MissingPrices(b, a.targets, prices))
    ensures RejectsFor(ReportFor(b, a, prices), a.sourceDecisionRunId, involved, missing, prices)
    ensures ExecuteBook(b, a, prices) == b
  {
    MissingAmong(b, a, prices, involved, missing);
    RejectsEach(a, involved, missing, prices);
  }

  lemma MissingAmong(b: Book, a: FeasibleAction, prices: Prices, involved: seq<Ticker>, missing: seq<Ticker>)
    requires involved == Ascending(Involved(b, a.targets)) && missing == Ascending(MissingPrices(b, a.targets, prices))
    ensures forall i :: 0 <= i < |involved| ==> (involved[i] in missing <==> involved[i] !in prices)
  {
  }

  lemma InvolvedAre(b: Book, a: FeasibleAction, prices: Prices)
    ensures Lists(Ascending(Involved(b, a.targets)), TargetedOrHeld(b, a))
    ensures Lists(Ascending(MissingPrices(b, a.targets, prices)), Unpriced(b, a, prices))
    ensures (exists t :: t in Unpriced(b, a, prices)) ==> !FullyPriced(b, a.targets, prices)
  {
    assert forall t :: t in TargetedOrHeld(b, a) <==> t in Involved(b, a.targets);
    forall t ensures t in Unpriced(b, a, prices) <==> t in MissingPrices(b, a.targets, prices) {
    }
  }

  lemma RejectsEach(a: FeasibleAction, involved: seq<Ticker>, missing: seq<Ticker>, prices: Prices)
    requires forall i :: 0 <= i < |involved| ==> (involved[i] in missing <==> involved[i] !in prices)
    ensures RejectsFor(RejectReport(a, involved, missing), a.sourceDecisionRunId, involved, missing, prices)
  {
  }
}
