/** The in-memory paper broker. */
module PaperBroker {
  import opened Wrappers
  import opened Sorting
  import opened Decisions
  import opened PolicyGateway
  import opened ExecutionReports
  import opened Portfolio
  import opened Rebalancing
  import opened PaperExecution
  import Sums

  predicate ByTicker(x: Fill, y: Fill) {
    StrLe(x.ticker, y.ticker)
  }

  lemma ByTickerIsTotalPreorder()
    ensures TotalPreorder(ByTicker)
  {
    forall x: Fill, y: Fill ensures ByTicker(x, y) || ByTicker(y, x) {
      StrLeTotal(x.ticker, y.ticker);
    }
    forall x: Fill, y: Fill, z: Fill | ByTicker(x, y) && ByTicker(y, z) ensures ByTicker(x, z) {
      StrLeTransitive(x.ticker, y.ticker, z.ticker);
    }
  }

  /** The sell a ticker needs when it is held beyond its target. */
  ghost predicate IsSellLeg(f: Fill, b: Book, target: map<Ticker, real>, prices: Prices)
    requires target.Keys <= prices.Keys
  {
    && f.ticker in target && target[f.ticker] < Held(b, f.ticker)
    && f == FilledLeg(f.ticker, Sell, Held(b, f.ticker) - target[f.ticker], prices[f.ticker])
  }

  ghost predicate IsBuyLeg(f: Fill, b: Book, target: map<Ticker, real>, prices: Prices)
    requires target.Keys <= prices.Keys
  {
    && f.ticker in target && target[f.ticker] > Held(b, f.ticker)
    && f == FilledLeg(f.ticker, Buy, target[f.ticker] - Held(b, f.ticker), prices[f.ticker])
  }

  lemma {:induction false} PlanMembers(b: Book, ts: seq<Ticker>, target: map<Ticker, real>, prices: Prices, f: Fill)
    requires target.Keys <= prices.Keys && forall t <- ts :: t in target
    ensures f in SellPlan(b, ts, target, prices) <==> f.ticker in ts && IsSellLeg(f, b, target, prices)
    ensures f in BuyPlan(b, ts, target, prices) <==> f.ticker in ts && IsBuyLeg(f, b, target, prices)
  {
    if ts != [] {
      var n := |ts| - 1;
      assert ts == ts[..n] + [ts[n]];
      PlanMembers(b, ts[..n], target, prices, f);
    }
  }

  ghost predicate StrictlyByTicker(fills: seq<Fill>) {
    forall i, j :: 0 <= i < j < |fills| ==> ByTicker(fills[i], fills[j]) && fills[i].ticker != fills[j].ticker
  }

  ghost predicate DistinctByTicker(fills: seq<Fill>) {
    forall i, j :: 0 <= i < j < |fills| ==> fills[i].ticker != fills[j].ticker
  }

  lemma {:induction false} OnlyOneListing(a: seq<Fill>, b: seq<Fill>)
    requires StrictlyByTicker(a) && StrictlyByTicker(b)
    requires forall f :: f in a <==> f in b
    ensures a == b
  {
    assert a != [] ==> a[0] in b;
    assert b != [] ==> b[0] in a;
    if a != [] && b != [] {
      SameFirst(a, b);
      forall f ensures f in a[1..] <==> f in b[1..] {
        InTail(a, f);
        InTail(b, f);
      }
      OnlyOneListing(a[1..], b[1..]);
    }
  }

  lemma SameFirst(a: seq<Fill>, b: seq<Fill>)
    requires StrictlyByTicker(a) && StrictlyByTicker(b) && a != [] && b != [] && a[0] in b && b[0] in a
    ensures a[0] == b[0]
  {
    var i :| 0 <= i < |b| && b[i] == a[0];
    var j :| 0 <= j < |a| && a[j] == b[0];
    StrLeTotal(a[0].ticker, b[0].ticker);
  }

  lemma InTail(fills: seq<Fill>, f: Fill)
    requires StrictlyByTicker(fills) && fills != []
    ensures f in fills[1..] <==> f in fills && f != fills[0]
  {
    if f in fills && f != fills[0] {
      var i :| 0 <= i < |fills| && fills[i] == f;
      assert fills[1..][i - 1] == f;
    }
  }

  /** Sorting a list with one entry per ticker gives the strictly ascending listing of the same entries. */
  lemma SortedByTicker(fills: seq<Fill>)
    requires DistinctByTicker(fills)
    ensures StrictlyByTicker(StableSort(fills, ByTicker))
    ensures forall f :: f in StableSort(fills, ByTicker) <==> f in fills
  {
    var sorted := StableSort(fills, ByTicker);
    ByTickerIsTotalPreorder();
    StableSortSorts(fills, ByTicker);
    forall f ensures f in sorted <==> f in fills {
      assert f in multiset(sorted) <==> f in multiset(fills);
    }
    forall i, j | 0 <= i < j < |sorted| ensures sorted[i].ticker != sorted[j].ticker {
      DistinctInAnyOrder(fills, sorted, i, j);
    }
  }

  lemma {:induction false} TwiceInMultiset<T>(s: seq<T>, i: nat, j: nat)
    requires i < j < |s| && s[i] == s[j]
    ensures multiset(s)[s[i]] >= 2
  {
    assert s == s[..j] + [s[j]] + s[j + 1..];
    assert s[i] in s[..j];
    assert multiset(s) == multiset(s[..j]) + multiset{s[j]} + multiset(s[j + 1..]);
  }

  lemma {:induction false} OnceInMultiset(s: seq<Fill>, x: Fill)
    requires DistinctByTicker(s)
    ensures multiset(s)[x] <= 1
  {
    if s != [] {
      var n := |s| - 1;
      assert s == s[..n] + [s[n]];
      OnceInMultiset(s[..n], x);
      assert s[n] !in s[..n] by {
        assert forall k :: 0 <= k < n ==> s[k].ticker != s[n].ticker;
      }
    }
  }

  lemma DistinctInAnyOrder(fills: seq<Fill>, sorted: seq<Fill>, i: nat, j: nat)
    requires DistinctByTicker(fills) && multiset(sorted) == multiset(fills)
    requires i < j < |sorted|
    ensures sorted[i].ticker != sorted[j].ticker
  {
    if sorted[i] == sorted[j] {
      TwiceInMultiset(sorted, i, j);
      OnceInMultiset(fills, sorted[i]);
    } else {
      assert sorted[i] in multiset(fills) && sorted[j] in multiset(fills);
      var k :| 0 <= k < |fills| && fills[k] == sorted[i];
      var l :| 0 <= l < |fills| && fills[l] == sorted[j];
      assert k != l;
      assert fills[k].ticker != fills[l].ticker;
    }
  }

  /** One entry per ticker that must move, in any order, sorts to the plan. */
  lemma DeltasAreThePlan(b: Book, target: map<Ticker, real>, prices: Prices, sells: seq<Fill>, buys: seq<Fill>)
    requires target.Keys <= prices.Keys
    requires forall f :: f in sells <==> IsSellLeg(f, b, target, prices)
    requires forall f :: f in buys <==> IsBuyLeg(f, b, target, prices)
    requires DistinctByTicker(sells) && DistinctByTicker(buys)
    ensures StableSort(sells, ByTicker) == SellPlan(b, Ascending(target.Keys), target, prices)
    ensures StableSort(buys, ByTicker) == BuyPlan(b, Ascending(target.Keys), target, prices)
  {
    SortedByTicker(sells);
    SortedByTicker(buys);
    var ts := Ascending(target.Keys);
    PlanShape(b, ts, target, prices);
    forall f ensures f in sells <==> f in SellPlan(b, ts, target, prices) {
      PlanMembers(b, ts, target, prices, f);
    }
    forall f ensures f in buys <==> f in BuyPlan(b, ts, target, prices) {
      PlanMembers(b, ts, target, prices, f);
    }
    OnlyOneListing(StableSort(sells, ByTicker), SellPlan(b, ts, target, prices));
    OnlyOneListing(StableSort(buys, ByTicker), BuyPlan(b, ts, target, prices));
  }

  lemma MarkedAt(t: Ticker, p: Position, prices: Prices)
    requires t in prices
    ensures Marked(prices)(t, p) == p.qty * prices[t]
  {
  }

  lemma AddWorth(done: map<Ticker, real>, t: Ticker, worth: real)
    requires t !in done
    ensures Sums.MapSum(done[t := worth]) == Sums.MapSum(done) + worth
  {
    assert done - {t} == done[t := worth] - {t};
    Sums.ChangeOne(done, done[t := worth], t);
  }

  lemma OneMoreTarget(b: Book, weights: map<Ticker, real>, prices: Prices, equity: real, t: Ticker, weight: real)
    requires b.positions.Keys + weights.Keys <= prices.Keys && t in prices
    ensures TargetQuantities(b, weights[t := weight], prices, equity)
            == TargetQuantities(b, weights, prices, equity)[t := Quantity(equity, weight, prices[t])]
  {
  }

  class PaperBroker {
    var cash: real
    var positions: map<Ticker, Position>
    var realizedPnl: real
    const initialCapital: real

    function Books(): Book
      reads this
    {
      Book(cash, positions, realizedPnl)
    }

    /** Kept holdings are positive, and cash + cost basis == initial capital + realized profit. */
    ghost predicate Valid()
      reads this
    {
      ValidBook(Books()) && Imbalance(Books(), initialCapital) == 0.0
    }

    constructor (capital: real)
      requires capital > 0.0
      ensures Valid() && Books() == Book(capital, map[], 0.0) && initialCapital == capital
    {
      cash := capital;
      positions := map[];
      realizedPnl := 0.0;
      initialCapital := capital;
      new;
      assert Worths(positions, AtCost()) == map[];
    }

    /** Cash plus every holding marked to market. */
    method TotalEquity(prices: Prices) returns (equity: real)
      requires positions.Keys <= prices.Keys
      ensures equity == Equity(Books(), prices)
    {
      equity := cash;
      var rest := positions.Keys;
      ghost var worths := Worths(positions, Marked(prices));
      ghost var done: map<Ticker, real> := map[];
      while rest != {}
        invariant rest <= positions.Keys
        invariant done == map t | t in worths && t !in rest :: worths[t]
        invariant equity == cash + Sums.MapSum(done)
        decreases rest
      {
        var t :| t in rest;
        var worth := positions[t].qty * prices[t];
        MarkedAt(t, positions[t], prices);
        assert worth == worths[t];
        AddWorth(done, t, worth);
        equity := equity + worth;
        rest := rest - {t};
        done := done[t := worth];
      }
      assert done == worths;
    }

    /** The sells and buys that move the current holdings to the target, each sorted by ticker. */
    method ComputeDeltas(targetQty: map<Ticker, real>, prices: Prices) returns (sells: seq<Fill>, buys: seq<Fill>)
      requires targetQty.Keys <= prices.Keys
      ensures sells == SellPlan(Books(), Ascending(targetQty.Keys), targetQty, prices)
      ensures buys == BuyPlan(Books(), Ascending(targetQty.Keys), targetQty, prices)
    {
      sells, buys := [], [];
      var rest := targetQty.Keys;
      while rest != {}
        invariant rest <= targetQty.Keys
        invariant forall f :: f in sells <==> IsSellLeg(f, Books(), targetQty, prices) && f.ticker !in rest
        invariant forall f :: f in buys <==> IsBuyLeg(f, Books(), targetQty, prices) && f.ticker !in rest
        invariant DistinctByTicker(sells) && DistinctByTicker(buys)
        decreases rest
      {
        var ticker :| ticker in rest;
        var current := if ticker in positions then positions[ticker].qty else 0.0;
        var delta := targetQty[ticker] - current;
        if delta > 0.0 {
          buys := buys + [FilledLeg(ticker, Buy, delta, prices[ticker])];
        } else if delta < 0.0 {
          var excess := -delta;
          assert excess == Held(Books(), ticker) - targetQty[ticker];
          sells := sells + [FilledLeg(ticker, Sell, excess, prices[ticker])];
        }
        rest := rest - {ticker};
      }
      DeltasAreThePlan(Books(), targetQty, prices, sells, buys);
      sells := StableSort(sells, ByTicker);
      buys := StableSort(buys, ByTicker);
    }

    method SellHolding(ticker: Ticker, qty: real, price: real)
      requires ticker in positions
      modifies this`cash, this`positions, this`realizedPnl
      ensures Books() == ApplySell(old(Books()), ticker, qty, price)
    {
      var pos := positions[ticker];
      var newQty := pos.qty - qty;
      realizedPnl := realizedPnl + (price - pos.avgCost) * qty;
      cash := cash + qty * price;
      if newQty == 0.0 {
        positions := positions - {ticker};
      } else {
        positions := positions[ticker := Position(newQty, pos.avgCost)];
      }
    }

    method BuyHolding(ticker: Ticker, qty: real, price: real)
      modifies this`cash, this`positions
      ensures Books() == ApplyBuy(old(Books()), ticker, qty, price)
    {
      var cost := qty * price;
      var pos;
      if ticker !in positions {
        pos := Position(qty, price);
      } else {
        var existing := positions[ticker];
        var totalCost := existing.qty * existing.avgCost + cost;
        var newQty := existing.qty + qty;
        pos := Position(newQty, if newQty > 0.0 then totalCost / newQty else 0.0);
      }
      assert pos == ApplyBuy(Books(), ticker, qty, price).positions[ticker];
      positions := positions[ticker := pos];
      cash := cash - cost;
    }

    /** Quantity each involved ticker should end with; a later target for the same ticker wins. */
    method TargetQty(targets: seq<TargetPosition>, prices: Prices, equity: real) returns (target: map<Ticker, real>)
      requires FullyPriced(Books(), targets, prices)
      ensures target == TargetQuantities(Books(), TargetWeights(targets), prices, equity)
    {
      target := map t | t in positions :: 0.0;
      for i := 0 to |targets|
        invariant TargetWeights(targets[..i]).Keys <= prices.Keys
        invariant target == TargetQuantities(Books(), TargetWeights(targets[..i]), prices, equity)
      {
        assert targets[..i + 1][..i] == targets[..i];
        var t := targets[i];
        assert t.ticker in TickerSet(targets);
        target := target[t.ticker := Quantity(equity, t.weight, prices[t.ticker])];
        OneMoreTarget(Books(), TargetWeights(targets[..i]), prices, equity, t.ticker, t.weight);
      }
      assert targets[..|targets|] == targets;
    }

    method FillSells(legs: seq<Fill>) returns (fills: seq<Fill>)
      requires forall i :: 0 <= i < |legs| ==>
        legs[i].side == Sell && legs[i].ticker in Replay(Books(), legs[..i]).positions
      modifies this`cash, this`positions, this`realizedPnl
      ensures fills == legs && Books() == Replay(old(Books()), legs)
    {
      fills := [];
      for i := 0 to |legs|
        invariant fills == legs[..i] && Books() == Replay(old(Books()), legs[..i])
      {
        var leg := legs[i];
        SellHolding(leg.ticker, leg.quantity, leg.fillPrice);
        fills := fills + [leg];
        assert legs[..i + 1][..i] == legs[..i];
      }
      assert legs[..|legs|] == legs;
    }

    method FillBuys(legs: seq<Fill>) returns (fills: seq<Fill>)
      requires forall i :: 0 <= i < |legs| ==> legs[i].side == Buy
      modifies this`cash, this`positions
      ensures fills == legs && Books() == Replay(old(Books()), legs)
    {
      fills := [];
      for i := 0 to |legs|
        invariant fills == legs[..i] && Books() == Replay(old(Books()), legs[..i])
      {
        var leg := legs[i];
        BuyHolding(leg.ticker, leg.quantity, leg.fillPrice);
        fills := fills + [leg];
        assert legs[..i + 1][..i] == legs[..i];
      }
      assert legs[..|legs|] == legs;
    }

    /** Full rebalance on ADOPT; all-or-nothing when a price is missing; no work otherwise. */
    method Execute(action: FeasibleAction, prices: Prices) returns (report: ExecutionReport)
      requires Valid() && ValidTargets(action.targets) && NonNegativePrices(prices)
      requires FullyPriced(Books(), action.targets, prices) ==> Equity(Books(), prices) >= 0.0
      modifies this`cash, this`positions, this`realizedPnl
      ensures Valid()
      ensures Books() == ExecuteBook(old(Books()), action, prices)
      ensures report == ReportFor(old(Books()), action, prices)
    {
      if action.action != Adopt {
        return SkipReport(action);
      }
      var involved := TickerSet(action.targets) + positions.Keys;
      var missing := Ascending(involved - prices.Keys);
      if missing != [] {
        assert missing[0] in involved - prices.Keys;
        return RejectReport(action, Ascending(involved), missing);
      }
      assert FullyPriced(Books(), action.targets, prices) by {
        forall t | t in involved ensures t in prices {
          assert t !in missing;
        }
      }
      ghost var before := Books();
      var equity := TotalEquity(prices);
      var target := TargetQty(action.targets, prices, equity);
      RebalanceOutcome(before, action.targets, prices);
      var sells, buys := ComputeDeltas(target, prices);
      PlanRuns(before, target, prices, sells, buys);
      var sold := FillSells(sells);
      var bought := FillBuys(buys);
      report := ExecutionReport(action.sourceDecisionRunId, ExecutionStatus.Filled, sold + bought, None);
    }
  }

  /** Each sell of the plan is of something still held when its turn comes. */
  lemma SellsRun(b: Book, target: map<Ticker, real>, prices: Prices, i: nat)
    requires Plannable(b, target, prices)
    requires i < |SellPlan(b, Ascending(target.Keys), target, prices)|
    ensures var sells := SellPlan(b, Ascending(target.Keys), target, prices);
            sells[i].ticker in Replay(b, sells[..i]).positions
  {
    SellsOnlyRaiseCash(b, Ascending(target.Keys), target, prices, i);
  }

  lemma PlanRuns(b: Book, target: map<Ticker, real>, prices: Prices, sells: seq<Fill>, buys: seq<Fill>)
    requires Plannable(b, target, prices)
    requires sells == SellPlan(b, Ascending(target.Keys), target, prices)
    requires buys == BuyPlan(b, Ascending(target.Keys), target, prices)
    ensures forall i :: 0 <= i < |sells| ==> sells[i].side == Sell && sells[i].ticker in Replay(b, sells[..i]).positions
    ensures forall i :: 0 <= i < |buys| ==> buys[i].side == Buy
    ensures Replay(Replay(b, sells), buys) == Replay(b, Plan(b, target, prices))
  {
    ReplayConcat(b, sells, buys);
    forall i | 0 <= i < |sells|
      ensures sells[i].side == Sell && sells[i].ticker in Replay(b, sells[..i]).positions {
      SellsRun(b, target, prices, i);
      PlanMembers(b, Ascending(target.Keys), target, prices, sells[i]);
    }
    forall i | 0 <= i < |buys| ensures buys[i].side == Buy {
      PlanMembers(b, Ascending(target.Keys), target, prices, buys[i]);
    }
  }
}
