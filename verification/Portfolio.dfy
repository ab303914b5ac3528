/** The paper broker's books as values: one fill at a time, a whole replay, and the rebalancing plan. */
module Portfolio {
  import opened Wrappers
  import opened Sorting
  import opened Decisions
  import opened ExecutionReports
  import Sums

  type Prices = map<Ticker, real>

  datatype Position = Position(qty: real, avgCost: real)

  datatype Book = Book(cash: real, positions: map<Ticker, Position>, realized: real)

  function Held(b: Book, t: Ticker): real {
    if t in b.positions then b.positions[t].qty else 0.0
  }

  predicate NonNegativePrices(prices: Prices) {
    forall t <- prices :: prices[t] >= 0.0
  }

  /** Every holding that is kept has a strictly positive quantity. */
  ghost predicate ValidBook(b: Book) {
    forall t <- b.positions :: b.positions[t].qty > 0.0 && b.positions[t].avgCost >= 0.0
  }

  ghost predicate Priced(b: Book, prices: Prices) {
    b.positions.Keys <= prices.Keys && NonNegativePrices(prices)
  }

  /** A way of valuing one holding. */
  type Worth = (Ticker, Position) -> real

  ghost function Marked(prices: Prices): Worth {
    (t: Ticker, p: Position) => p.qty * (if t in prices then prices[t] else 0.0)
  }

  ghost function AtCost(): Worth {
    (t: Ticker, p: Position) => p.qty * p.avgCost
  }

  ghost function Worths(positions: map<Ticker, Position>, worth: Worth): map<Ticker, real> {
    map t | t in positions :: worth(t, positions[t])
  }

  ghost function Total(positions: map<Ticker, Position>, worth: Worth): real {
    Sums.MapSum(Worths(positions, worth))
  }

  /** Cash plus holdings marked to the given prices. */
  ghost function Equity(b: Book, prices: Prices): real {
    b.cash + Total(b.positions, Marked(prices))
  }

  /** Zero exactly when cash plus cost basis equals the capital put in plus realized profit. */
  ghost function Imbalance(b: Book, capital: real): real {
    b.cash + Total(b.positions, AtCost()) - (capital + b.realized)
  }

  // ---- one fill ----

  function ApplySell(b: Book, t: Ticker, qty: real, price: real): Book
    requires t in b.positions
  {
    var pos := b.positions[t];
    var newQty := pos.qty - qty;
    Book(b.cash + qty * price,
         if newQty == 0.0 then b.positions - {t} else b.positions[t := Position(newQty, pos.avgCost)],
         b.realized + (price - pos.avgCost) * qty)
  }

  function ApplyBuy(b: Book, t: Ticker, qty: real, price: real): Book {
    var cost := qty * price;
    var pos :=
      if t !in b.positions then Position(qty, price)
      else
        var totalCost := b.positions[t].qty * b.positions[t].avgCost + cost;
        var newQty := b.positions[t].qty + qty;
        Position(newQty, if newQty > 0.0 then totalCost / newQty else 0.0);
    b.(cash := b.cash - cost, positions := b.positions[t := pos])
  }

  /** A sale of something not held would be a KeyError; plans never contain one. */
  function ApplyFill(b: Book, f: Fill): Book {
    if f.side == Buy then ApplyBuy(b, f.ticker, f.quantity, f.fillPrice)
    else if f.ticker in b.positions then ApplySell(b, f.ticker, f.quantity, f.fillPrice)
    else b
  }

  /** The books after a list of fills, in order. */
  function Replay(b: Book, fills: seq<Fill>): Book {
    if fills == [] then b
    else ApplyFill(Replay(b, fills[..|fills| - 1]), fills[|fills| - 1])
  }

  lemma {:induction false} ReplayConcat(b: Book, first: seq<Fill>, second: seq<Fill>)
    ensures Replay(b, first + second) == Replay(Replay(b, first), second)
  {
    if second == [] {
      assert first + second == first;
    } else {
      var n := |second| - 1;
      assert (first + second)[..|first| + n] == first + second[..n];
      ReplayConcat(b, first, second[..n]);
    }
  }

  // ---- the plan ----

  /** Weight asked for each ticker; a repeated ticker keeps its last weight. */
  function TargetWeights(targets: seq<TargetPosition>): (r: map<Ticker, real>)
    ensures r.Keys == TickerSet(targets)
  {
    if targets == [] then map[]
    else
      var n := |targets| - 1;
      assert targets == targets[..n] + [targets[n]];
      TargetWeights(targets[..n])[targets[n].ticker := targets[n].weight]
  }

  function Quantity(equity: real, weight: real, price: real): real {
    if price > 0.0 then equity * weight / price else 0.0
  }

  /** Quantity each involved ticker should end with: zero for what is dropped or has no positive price. */
  function TargetQuantities(b: Book, weights: map<Ticker, real>, prices: Prices, equity: real): map<Ticker, real>
    requires b.positions.Keys + weights.Keys <= prices.Keys
  {
    map t | t in b.positions.Keys + weights.Keys ::
      if t in weights then Quantity(equity, weights[t], prices[t]) else 0.0
  }

  function SellLeg(b: Book, t: Ticker, target: real, price: real): seq<Fill> {
    if target < Held(b, t) then [FilledLeg(t, Sell, Held(b, t) - target, price)] else []
  }

  function BuyLeg(b: Book, t: Ticker, target: real, price: real): seq<Fill> {
    if target > Held(b, t) then [FilledLeg(t, Buy, target - Held(b, t), price)] else []
  }

  function SellPlan(b: Book, ts: seq<Ticker>, target: map<Ticker, real>, prices: Prices): seq<Fill>
    requires forall t <- ts :: t in target && t in prices
  {
    if ts == [] then []
    else
      var n := |ts| - 1;
      SellPlan(b, ts[..n], target, prices) + SellLeg(b, ts[n], target[ts[n]], prices[ts[n]])
  }

  function BuyPlan(b: Book, ts: seq<Ticker>, target: map<Ticker, real>, prices: Prices): seq<Fill>
    requires forall t <- ts :: t in target && t in prices
  {
    if ts == [] then []
    else
      var n := |ts| - 1;
      BuyPlan(b, ts[..n], target, prices) + BuyLeg(b, ts[n], target[ts[n]], prices[ts[n]])
  }

  /** Sells before buys, each side by ascending ticker. */
  function Plan(b: Book, target: map<Ticker, real>, prices: Prices): seq<Fill>
    requires target.Keys <= prices.Keys
  {
    var ts := Ascending(target.Keys);
    SellPlan(b, ts, target, prices) + BuyPlan(b, ts, target, prices)
  }

  // ---- laws of one fill ----

  lemma DivideBack(x: real, y: real)
    requires y != 0.0
    ensures x / y * y == x
  {
  }

  lemma MulNonNegative(x: real, y: real)
    requires x >= 0.0 && y >= 0.0
    ensures x * y >= 0.0
  {
  }

  lemma ScaleLe(x: real, y: real, k: real)
    requires x <= y && k >= 0.0
    ensures x * k <= y * k
  {
    MulNonNegative(y - x, k);
    assert (y - x) * k == y * k - x * k;
  }

  ghost function WorthAt(positions: map<Ticker, Position>, worth: Worth, t: Ticker): real {
    if t in positions then worth(t, positions[t]) else 0.0
  }

  /** Replacing one holding moves a valuation by that holding's change. */
  lemma TotalChange(old_: map<Ticker, Position>, new_: map<Ticker, Position>, t: Ticker, worth: Worth)
    requires old_ - {t} == new_ - {t}
    ensures Total(new_, worth) == Total(old_, worth) - WorthAt(old_, worth, t) + WorthAt(new_, worth, t)
  {
    var m, m' := Worths(old_, worth), Worths(new_, worth);
    assert m - {t} == m' - {t} by {
      assert (m - {t}).Keys == (old_ - {t}).Keys;
      assert (m' - {t}).Keys == (new_ - {t}).Keys;
      forall u | u in m - {t} ensures (m - {t})[u] == (m' - {t})[u] {
        assert (old_ - {t})[u] == (new_ - {t})[u];
      }
    }
    Sums.ChangeOne(m, m', t);
  }

  /** What any single fill keeps: equity at its own price, the cost books, and the other holdings. */
  ghost predicate KeptBy(b: Book, b': Book, t: Ticker, prices: Prices) {
    && ValidBook(b') && Priced(b', prices)
    && Equity(b', prices) == Equity(b, prices)
    && (forall capital :: Imbalance(b', capital) == Imbalance(b, capital))
    && (forall u :: u != t ==> Held(b', u) == Held(b, u))
  }

  lemma Spread(x: real, y: real, k: real)
    ensures (x - y) * k == x * k - y * k
    ensures (x + y) * k == x * k + y * k
  {
  }

  lemma SellKeepsEquity(b: Book, t: Ticker, qty: real, prices: Prices)
    requires t in b.positions && t in prices
    ensures Equity(ApplySell(b, t, qty, prices[t]), prices) == Equity(b, prices)
  {
    var b' := ApplySell(b, t, qty, prices[t]);
    assert b.positions - {t} == b'.positions - {t};
    TotalChange(b.positions, b'.positions, t, Marked(prices));
    SoldWorth(b, t, qty, prices);
  }

  lemma SoldWorth(b: Book, t: Ticker, qty: real, prices: Prices)
    requires t in b.positions && t in prices
    ensures WorthAt(ApplySell(b, t, qty, prices[t]).positions, Marked(prices), t)
         == WorthAt(b.positions, Marked(prices), t) - qty * prices[t]
  {
    Spread(b.positions[t].qty, qty, prices[t]);
  }

  lemma SellKeepsBooks(b: Book, t: Ticker, qty: real, price: real, capital: real)
    requires t in b.positions
    ensures Imbalance(ApplySell(b, t, qty, price), capital) == Imbalance(b, capital)
  {
    var b' := ApplySell(b, t, qty, price);
    var avg := b.positions[t].avgCost;
    assert b.positions - {t} == b'.positions - {t};
    TotalChange(b.positions, b'.positions, t, AtCost());
    Spread(b.positions[t].qty, qty, avg);
    Spread(price, avg, qty);
  }

  lemma SellKeeps(b: Book, t: Ticker, qty: real, prices: Prices)
    requires ValidBook(b) && Priced(b, prices)
    requires t in b.positions && 0.0 < qty <= Held(b, t)
    ensures var b' := ApplySell(b, t, qty, prices[t]);
            KeptBy(b, b', t, prices) && Held(b', t) == Held(b, t) - qty && b'.cash >= b.cash
  {
    SellKeepsEquity(b, t, qty, prices);
    forall capital ensures Imbalance(ApplySell(b, t, qty, prices[t]), capital) == Imbalance(b, capital) {
      SellKeepsBooks(b, t, qty, prices[t], capital);
    }
    MulNonNegative(qty, prices[t]);
  }

  /** Paying the marked price for more of one holding leaves equity where it was. */
  lemma PaidForAtMark(b: Book, b': Book, t: Ticker, qty: real, prices: Prices)
    requires t in prices && b.positions - {t} == b'.positions - {t} && t in b'.positions
    requires Held(b', t) == Held(b, t) + qty
    requires b'.cash == b.cash - qty * prices[t]
    ensures Equity(b', prices) == Equity(b, prices)
  {
    TotalChange(b.positions, b'.positions, t, Marked(prices));
    Spread(Held(b, t), qty, prices[t]);
  }

  lemma BuyKeepsEquity(b: Book, t: Ticker, qty: real, prices: Prices)
    requires t in prices
    ensures Equity(ApplyBuy(b, t, qty, prices[t]), prices) == Equity(b, prices)
  {
    PaidForAtMark(b, ApplyBuy(b, t, qty, prices[t]), t, qty, prices);
  }

  /** The weighted average re-prices the enlarged holding at what was paid for it in total. */
  lemma AverageCost(b: Book, t: Ticker, qty: real, price: real)
    requires ValidBook(b) && qty > 0.0 && price >= 0.0
    ensures var b' := ApplyBuy(b, t, qty, price);
            && b'.positions[t].avgCost >= 0.0
            && WorthAt(b'.positions, AtCost(), t) == WorthAt(b.positions, AtCost(), t) + qty * price
  {
    MulNonNegative(qty, price);
    if t in b.positions {
      var held, avg := b.positions[t].qty, b.positions[t].avgCost;
      MulNonNegative(held, avg);
      DivideBack(held * avg + qty * price, held + qty);
      QuotientNonNegative(held * avg + qty * price, held + qty);
    }
  }

  lemma BuyKeepsBooks(b: Book, t: Ticker, qty: real, price: real, capital: real)
    requires ValidBook(b) && qty > 0.0 && price >= 0.0
    ensures Imbalance(ApplyBuy(b, t, qty, price), capital) == Imbalance(b, capital)
  {
    var b' := ApplyBuy(b, t, qty, price);
    assert b.positions - {t} == b'.positions - {t};
    TotalChange(b.positions, b'.positions, t, AtCost());
    AverageCost(b, t, qty, price);
  }

  lemma BuyKeeps(b: Book, t: Ticker, qty: real, prices: Prices)
    requires ValidBook(b) && Priced(b, prices)
    requires t in prices && 0.0 < qty
    ensures var b' := ApplyBuy(b, t, qty, prices[t]);
            KeptBy(b, b', t, prices) && Held(b', t) == Held(b, t) + qty && b'.cash <= b.cash
  {
    BuyKeepsEquity(b, t, qty, prices);
    forall capital ensures Imbalance(ApplyBuy(b, t, qty, prices[t]), capital) == Imbalance(b, capital) {
      BuyKeepsBooks(b, t, qty, prices[t], capital);
    }
    AverageCost(b, t, qty, prices[t]);
    MulNonNegative(qty, prices[t]);
  }

  lemma QuotientNonNegative(x: real, y: real)
    requires x >= 0.0 && y > 0.0
    ensures x / y >= 0.0
  {
  }
}
