/** What replaying a rebalancing plan does to the books. */
module Rebalancing {
  import opened Sorting
  import opened Decisions
  import opened ExecutionReports
  import opened Portfolio
  import Seqs
  import Sums

  ghost predicate Distinct(ts: seq<Ticker>) {
    forall i, j :: 0 <= i < j < |ts| ==> ts[i] != ts[j]
  }

  ghost predicate Covers(ts: seq<Ticker>, target: map<Ticker, real>, prices: Prices) {
    forall t <- ts :: t in target && t in prices && target[t] >= 0.0
  }

  /** Equity at the prices used and the cost books survive. */
  ghost predicate Keeps(b: Book, b': Book, prices: Prices) {
    && ValidBook(b') && Priced(b', prices)
    && Equity(b', prices) == Equity(b, prices)
    && (forall capital :: Imbalance(b', capital) == Imbalance(b, capital))
  }

  lemma Before(ts: seq<Ticker>)
    requires ts != [] && Distinct(ts)
    ensures Distinct(ts[..|ts| - 1]) && ts[|ts| - 1] !in ts[..|ts| - 1]
    ensures forall u :: u in ts <==> u in ts[..|ts| - 1] || u == ts[|ts| - 1]
  {
    assert ts == ts[..|ts| - 1] + [ts[|ts| - 1]];
  }

  lemma ReplayOne(b: Book, f: Fill)
    ensures Replay(b, [f]) == ApplyFill(b, f)
  {
    assert [f][..0] == [];
    assert Replay(b, []) == b;
  }

  lemma {:induction false} SellPhase(b: Book, ts: seq<Ticker>, target: map<Ticker, real>, prices: Prices)
    requires ValidBook(b) && Priced(b, prices)
    requires Distinct(ts) && Covers(ts, target, prices)
    ensures var b' := Replay(b, SellPlan(b, ts, target, prices));
            && Keeps(b, b', prices) && b'.cash >= b.cash
            && forall u :: Held(b', u) == if u in ts && target[u] < Held(b, u) then target[u] else Held(b, u)
  {
    if ts != [] {
      var n := |ts| - 1;
      var t := ts[n];
      Before(ts);
      SellPhase(b, ts[..n], target, prices);
      var done := SellPlan(b, ts[..n], target, prices);
      var leg := SellLeg(b, t, target[t], prices[t]);
      var b1 := Replay(b, done);
      ReplayConcat(b, done, leg);
      assert Held(b1, t) == Held(b, t);
      SellLegStep(b, b1, t, target[t], prices);
    }
  }

  lemma SellLegStep(b: Book, b1: Book, t: Ticker, target: real, prices: Prices)
    requires ValidBook(b1) && Priced(b1, prices) && t in prices && target >= 0.0 && Held(b1, t) == Held(b, t)
    ensures var b' := Replay(b1, SellLeg(b, t, target, prices[t]));
            && Keeps(b1, b', prices) && b'.cash >= b1.cash
            && forall u :: Held(b', u) == if u == t && target < Held(b, t) then target else Held(b1, u)
  {
    var leg := SellLeg(b, t, target, prices[t]);
    if leg != [] {
      ReplayOne(b1, leg[0]);
      SellKeeps(b1, t, Held(b, t) - target, prices);
    }
  }

  lemma BuyLegStep(b: Book, b2: Book, t: Ticker, target: real, prices: Prices)
    requires ValidBook(b2) && Priced(b2, prices) && t in prices
    requires target > Held(b, t) ==> Held(b2, t) == Held(b, t)
    ensures var b' := Replay(b2, BuyLeg(b, t, target, prices[t]));
            && Keeps(b2, b', prices)
            && forall u :: Held(b', u) == if u == t && target > Held(b, t) then target else Held(b2, u)
  {
    var leg := BuyLeg(b, t, target, prices[t]);
    if leg != [] {
      ReplayOne(b2, leg[0]);
      BuyKeeps(b2, t, target - Held(b, t), prices);
    }
  }

  lemma {:induction false} BuyPhase(b: Book, b1: Book, ts: seq<Ticker>, target: map<Ticker, real>, prices: Prices)
    requires ValidBook(b1) && Priced(b1, prices)
    requires Distinct(ts) && Covers(ts, target, prices)
    requires forall u <- ts :: target[u] > Held(b, u) ==> Held(b1, u) == Held(b, u)
    ensures var b' := Replay(b1, BuyPlan(b, ts, target, prices));
            && Keeps(b1, b', prices)
            && forall u :: Held(b', u) == if u in ts && target[u] > Held(b, u) then target[u] else Held(b1, u)
  {
    if ts != [] {
      var n := |ts| - 1;
      var t := ts[n];
      Before(ts);
      BuyPhase(b, b1, ts[..n], target, prices);
      var done := BuyPlan(b, ts[..n], target, prices);
      var leg := BuyLeg(b, t, target[t], prices[t]);
      var b2 := Replay(b1, done);
      ReplayConcat(b1, done, leg);
      BuyLegStep(b, b2, t, target[t], prices);
    }
  }

  /** Every intermediate point of the sells has at least the cash it started with, and still holds what is sold next. */
  lemma {:induction false} SellsOnlyRaiseCash(b: Book, ts: seq<Ticker>, target: map<Ticker, real>, prices: Prices,
                                              k: nat)
    requires ValidBook(b) && Priced(b, prices)
    requires Distinct(ts) && Covers(ts, target, prices)
    requires k <= |SellPlan(b, ts, target, prices)|
    ensures var plan := SellPlan(b, ts, target, prices);
            && Replay(b, plan[..k]).cash >= b.cash
            && (k < |plan| ==> plan[k].ticker in Replay(b, plan[..k]).positions)
  {
    var plan := SellPlan(b, ts, target, prices);
    if k == |plan| {
      assert plan[..k] == plan;
      SellPhase(b, ts, target, prices);
    } else {
      var n := |ts| - 1;
      Before(ts);
      var done := SellPlan(b, ts[..n], target, prices);
      assert plan[..k] == done[..k];
      SellsOnlyRaiseCash(b, ts[..n], target, prices, k);
      if k == |done| {
        assert done[..k] == done;
        SellPhase(b, ts[..n], target, prices);
        assert Held(Replay(b, done), ts[n]) == Held(b, ts[n]) > 0.0;
      }
    }
  }

  ghost function TargetWorths(target: map<Ticker, real>, prices: Prices): map<Ticker, real>
    requires target.Keys <= prices.Keys
  {
    map t | t in target :: target[t] * prices[t]
  }

  ghost function HeldWorths(b: Book, domain: set<Ticker>, prices: Prices): map<Ticker, real>
    requires domain <= prices.Keys
  {
    map t | t in domain :: Held(b, t) * prices[t]
  }

  lemma WorthOverDomain(b: Book, domain: set<Ticker>, prices: Prices)
    requires ValidBook(b) && b.positions.Keys <= domain <= prices.Keys
    ensures Sums.MapSum(HeldWorths(b, domain, prices)) == Total(b.positions, Marked(prices))
  {
    Sums.PadWithZeros(Worths(b.positions, Marked(prices)), HeldWorths(b, domain, prices));
  }

  /** While no holding exceeds its target, cash covers what the target portfolio leaves over. */
  lemma CashBound(b: Book, target: map<Ticker, real>, prices: Prices)
    requires ValidBook(b) && Priced(b, prices)
    requires b.positions.Keys <= target.Keys <= prices.Keys
    requires forall t <- target :: Held(b, t) <= target[t]
    ensures b.cash >= Equity(b, prices) - Sums.MapSum(TargetWorths(target, prices))
  {
    var held, wanted := HeldWorths(b, target.Keys, prices), TargetWorths(target, prices);
    WorthOverDomain(b, target.Keys, prices);
    assert forall t <- held :: held[t] <= wanted[t] by {
      forall t | t in target ensures Held(b, t) * prices[t] <= target[t] * prices[t] {
        ScaleLe(Held(b, t), target[t], prices[t]);
      }
    }
    Sums.Monotone(held, wanted);
  }

  lemma CashAtTarget(b: Book, target: map<Ticker, real>, prices: Prices)
    requires ValidBook(b) && Priced(b, prices)
    requires b.positions.Keys <= target.Keys <= prices.Keys
    requires forall t <- target :: Held(b, t) == target[t]
    ensures b.cash == Equity(b, prices) - Sums.MapSum(TargetWorths(target, prices))
  {
    WorthOverDomain(b, target.Keys, prices);
    var held, wanted := HeldWorths(b, target.Keys, prices), TargetWorths(target, prices);
    forall t | t in target ensures held[t] == wanted[t] {
      assert Held(b, t) == target[t];
    }
    assert held == wanted;
  }

  /** Every intermediate point of the buys keeps at least the cash the finished rebalance leaves. */
  lemma {:induction false} BuysStayAboveFinalCash(
    b: Book, b1: Book, ts: seq<Ticker>, target: map<Ticker, real>, prices: Prices, k: nat)
    requires ValidBook(b1) && Priced(b1, prices)
    requires Distinct(ts) && Covers(ts, target, prices)
    requires forall u <- ts :: target[u] > Held(b, u) ==> Held(b1, u) == Held(b, u)
    requires b1.positions.Keys <= target.Keys <= prices.Keys
    requires forall t <- target :: 0.0 <= target[t] && Held(b1, t) <= target[t]
    requires k <= |BuyPlan(b, ts, target, prices)|
    ensures Replay(b1, BuyPlan(b, ts, target, prices)[..k]).cash
            >= Equity(b1, prices) - Sums.MapSum(TargetWorths(target, prices))
  {
    var plan := BuyPlan(b, ts, target, prices);
    if k == |plan| {
      assert plan[..k] == plan;
      BuyPhase(b, b1, ts, target, prices);
      var b' := Replay(b1, plan);
      assert b'.positions.Keys <= target.Keys by {
        forall t | t in b'.positions ensures t in target {
          assert Held(b', t) > 0.0;
          assert t in ts || t in b1.positions;
        }
      }
      CashBound(b', target, prices);
    } else {
      var n := |ts| - 1;
      Before(ts);
      assert plan[..k] == BuyPlan(b, ts[..n], target, prices)[..k];
      BuysStayAboveFinalCash(b, b1, ts[..n], target, prices, k);
    }
  }

  /** A target portfolio the books can be moved to. */
  ghost predicate Plannable(b: Book, target: map<Ticker, real>, prices: Prices) {
    && ValidBook(b) && Priced(b, prices)
    && b.positions.Keys <= target.Keys <= prices.Keys
    && forall t <- target :: target[t] >= 0.0
  }

  /** The books between the sells and the buys: nothing above its target, nothing bought yet. */
  ghost predicate BetweenPhases(b: Book, b1: Book, target: map<Ticker, real>, prices: Prices) {
    && Keeps(b, b1, prices)
    && (forall u :: Held(b1, u) == if u in target && target[u] < Held(b, u) then target[u] else Held(b, u))
    && b1.positions.Keys <= target.Keys <= prices.Keys
  }

  lemma AfterSells(b: Book, target: map<Ticker, real>, prices: Prices) returns (ts: seq<Ticker>, b1: Book)
    requires Plannable(b, target, prices)
    ensures ts == Ascending(target.Keys) && Distinct(ts) && Covers(ts, target, prices)
    ensures b1 == Replay(b, SellPlan(b, ts, target, prices))
    ensures BetweenPhases(b, b1, target, prices)
  {
    ts := Ascending(target.Keys);
    b1 := Replay(b, SellPlan(b, ts, target, prices));
    SellPhase(b, ts, target, prices);
    forall t | t in b1.positions ensures t in target {
      assert Held(b1, t) > 0.0;
      assert t in b.positions;
    }
  }

  /** Equity and books survive, every ticker lands exactly on its target and everything else is closed,
      and the cash left is what the target portfolio does not use. */
  lemma PlanOutcome(b: Book, target: map<Ticker, real>, prices: Prices)
    requires Plannable(b, target, prices)
    ensures var b' := Replay(b, Plan(b, target, prices));
            && Keeps(b, b', prices)
            && (forall t :: Held(b', t) == if t in target then target[t] else 0.0)
            && b'.positions.Keys <= target.Keys
            && b'.cash == Equity(b, prices) - Sums.MapSum(TargetWorths(target, prices))
  {
    var ts, b1 := AfterSells(b, target, prices);
    BuyPhase(b, b1, ts, target, prices);
    var sells, buys := SellPlan(b, ts, target, prices), BuyPlan(b, ts, target, prices);
    ReplayConcat(b, sells, buys);
    var b' := Replay(b1, buys);
    forall t ensures Held(b', t) == if t in target then target[t] else 0.0 {
      assert t in ts <==> t in target;
    }
    assert b'.positions.Keys <= target.Keys by {
      forall t | t in b'.positions ensures t in target {
        assert Held(b', t) > 0.0;
      }
    }
    CashAtTarget(b', target, prices);
  }

  /** During the buys cash never dips below what the finished rebalance leaves. */
  lemma CashDuringBuys(b: Book, target: map<Ticker, real>, prices: Prices, b1: Book, ts: seq<Ticker>, k: nat)
    requires Distinct(ts) && Covers(ts, target, prices) && target.Keys <= prices.Keys
    requires b1 == Replay(b, SellPlan(b, ts, target, prices)) && BetweenPhases(b, b1, target, prices)
    requires forall t <- target :: target[t] >= 0.0
    requires k <= |BuyPlan(b, ts, target, prices)|
    ensures Replay(b, SellPlan(b, ts, target, prices) + BuyPlan(b, ts, target, prices)[..k]).cash
            >= Equity(b, prices) - Sums.MapSum(TargetWorths(target, prices))
  {
    ReplayConcat(b, SellPlan(b, ts, target, prices), BuyPlan(b, ts, target, prices)[..k]);
    BuysStayAboveFinalCash(b, b1, ts, target, prices, k);
  }

  /** Cash is non-negative before the first fill, between any two, and after the last. */
  ghost predicate NeverOverdrawn(b: Book, fills: seq<Fill>) {
    forall k :: 0 <= k <= |fills| ==> Replay(b, fills[..k]).cash >= 0.0
  }

  lemma JoinPhases(b: Book, sells: seq<Fill>, buys: seq<Fill>, floor: real)
    requires b.cash >= 0.0 && floor >= 0.0
    requires forall i :: 0 <= i <= |sells| ==> Replay(b, sells[..i]).cash >= b.cash
    requires forall i :: 0 <= i <= |buys| ==> Replay(b, sells + buys[..i]).cash >= floor
    ensures NeverOverdrawn(b, sells + buys)
  {
    forall k | 0 <= k <= |sells + buys| ensures Replay(b, (sells + buys)[..k]).cash >= 0.0 {
      Seqs.PrefixOfConcat(sells, buys, k);
    }
  }

  /** If the finished plan leaves no debt, neither does any point on the way there. */
  lemma CashBetweenFills(b: Book, target: map<Ticker, real>, prices: Prices, floor: real)
    requires Plannable(b, target, prices) && b.cash >= 0.0
    requires floor == Equity(b, prices) - Sums.MapSum(TargetWorths(target, prices))
    requires floor >= 0.0
    ensures NeverOverdrawn(b, Plan(b, target, prices))
  {
    var ts, b1 := AfterSells(b, target, prices);
    var sells, buys := SellPlan(b, ts, target, prices), BuyPlan(b, ts, target, prices);
    forall i | 0 <= i <= |sells| ensures Replay(b, sells[..i]).cash >= b.cash {
      SellsOnlyRaiseCash(b, ts, target, prices, i);
    }
    forall i | 0 <= i <= |buys| ensures Replay(b, sells + buys[..i]).cash >= floor {
      CashDuringBuys(b, target, prices, b1, ts, i);
    }
    JoinPhases(b, sells, buys, floor);
  }

  // ---- after every fill ----

  lemma {:induction false} SellsKeepAt(b: Book, ts: seq<Ticker>, target: map<Ticker, real>, prices: Prices, k: nat)
    requires ValidBook(b) && Priced(b, prices)
    requires Distinct(ts) && Covers(ts, target, prices)
    requires k <= |SellPlan(b, ts, target, prices)|
    ensures Keeps(b, Replay(b, SellPlan(b, ts, target, prices)[..k]), prices)
  {
    var plan := SellPlan(b, ts, target, prices);
    if k == |plan| {
      Seqs.FullPrefix(plan);
      SellPhase(b, ts, target, prices);
    } else {
      var n := |ts| - 1;
      Before(ts);
      assert plan[..k] == SellPlan(b, ts[..n], target, prices)[..k];
      SellsKeepAt(b, ts[..n], target, prices, k);
    }
  }

  lemma {:induction false} BuysKeepAt(b: Book, b1: Book, ts: seq<Ticker>, target: map<Ticker, real>, prices: Prices,
                                      k: nat)
    requires ValidBook(b1) && Priced(b1, prices)
    requires Distinct(ts) && Covers(ts, target, prices)
    requires forall u <- ts :: target[u] > Held(b, u) ==> Held(b1, u) == Held(b, u)
    requires k <= |BuyPlan(b, ts, target, prices)|
    ensures Keeps(b1, Replay(b1, BuyPlan(b, ts, target, prices)[..k]), prices)
  {
    var plan := BuyPlan(b, ts, target, prices);
    if k == |plan| {
      Seqs.FullPrefix(plan);
      BuyPhase(b, b1, ts, target, prices);
    } else {
      var n := |ts| - 1;
      Before(ts);
      assert plan[..k] == BuyPlan(b, ts[..n], target, prices)[..k];
      BuysKeepAt(b, b1, ts[..n], target, prices, k);
    }
  }

  /** Before the first fill, between any two, and after the last: holdings positive, equity and books unchanged. */
  ghost predicate KeptThroughout(b: Book, fills: seq<Fill>, prices: Prices) {
    forall k :: 0 <= k <= |fills| ==> Keeps(b, Replay(b, fills[..k]), prices)
  }

  lemma JoinKept(b: Book, sells: seq<Fill>, buys: seq<Fill>, prices: Prices)
    requires forall i :: 0 <= i <= |sells| ==> Keeps(b, Replay(b, sells[..i]), prices)
    requires forall i :: 0 <= i <= |buys| ==> Keeps(b, Replay(Replay(b, sells), buys[..i]), prices)
    ensures KeptThroughout(b, sells + buys, prices)
  {
    forall k | 0 <= k <= |sells + buys| ensures Keeps(b, Replay(b, (sells + buys)[..k]), prices) {
      Seqs.PrefixOfConcat(sells, buys, k);
      if k > |sells| {
        ReplayConcat(b, sells, buys[..k - |sells|]);
      }
    }
  }

  lemma PlanKeepsThroughout(b: Book, target: map<Ticker, real>, prices: Prices)
    requires Plannable(b, target, prices)
    ensures KeptThroughout(b, Plan(b, target, prices), prices)
  {
    var ts, b1 := AfterSells(b, target, prices);
    var sells, buys := SellPlan(b, ts, target, prices), BuyPlan(b, ts, target, prices);
    forall i | 0 <= i <= |sells| ensures Keeps(b, Replay(b, sells[..i]), prices) {
      SellsKeepAt(b, ts, target, prices, i);
    }
    forall i | 0 <= i <= |buys| ensures Keeps(b, Replay(b1, buys[..i]), prices) {
      BuysKeepAt(b, b1, ts, target, prices, i);
      KeepsOn(b, b1, Replay(b1, buys[..i]), prices);
    }
    JoinKept(b, sells, buys, prices);
  }

  lemma KeepsOn(b: Book, b1: Book, b2: Book, prices: Prices)
    requires Keeps(b, b1, prices) && Keeps(b1, b2, prices)
    ensures Keeps(b, b2, prices)
  {
  }
}
