/** What ranking selects, told from the closes themselves: the tickers that grew most, or least, over the lookback. */
module RankGrowth {
  import opened Wrappers
  import opened BacktestEngine
  import opened RankSignals
  import opened NoLookahead
  import Seqs

  /** The ticker closed at a positive price on both days that its score compares. */
  predicate Quoted(history: seq<Closes>, i: nat, lookback: nat, t: Ticker)
    requires lookback <= i < |history|
  {
    var current, prior := history[i], history[i - lookback];
    t in current && t in prior && current[t] > 0.0 && prior[t] > 0.0
  }

  /** Over the lookback the first grew at least as much as the second,
      or at most as much: their closes cross-multiplied. */
  predicate GrewAsMuch(history: seq<Closes>, i: nat, lookback: nat, d: Direction, t: Ticker, u: Ticker)
    requires lookback <= i < |history| && Quoted(history, i, lookback, t) && Quoted(history, i, lookback, u)
  {
    var current, prior := history[i], history[i - lookback];
    Crosses(d, current[t], prior[t], current[u], prior[u])
  }

  predicate Crosses(d: Direction, c: real, p: real, c': real, p': real) {
    if d == Top then c * p' >= c' * p else c * p' <= c' * p
  }

  lemma Quotient(c: real, p: real)
    requires p > 0.0
    ensures ((c - p) / p) * p == c - p
  {
  }

  lemma ScaledOrder(x: real, y: real, k: real)
    requires k > 0.0
    ensures x >= y <==> x * k >= y * k
  {
    if x > y {
      Positive(x - y, k);
    } else if x < y {
      Positive(y - x, k);
    }
  }

  lemma Positive(x: real, k: real)
    requires x > 0.0 && k > 0.0
    ensures x * k > 0.0
  {
  }

  lemma ProductLess(x: real, p: real, c: real, q: real)
    requires x * p == c - p
    ensures x * (p * q) == c * q - p * q
  {
    assert x * (p * q) == (x * p) * q == (c - p) * q == c * q - p * q;
  }

  /** Comparing relative changes is comparing cross-multiplied closes. */
  lemma ReturnsCompare(c: real, p: real, c': real, p': real)
    requires p > 0.0 && p' > 0.0
    ensures (c - p) / p >= (c' - p') / p' <==> Crosses(Top, c, p, c', p')
    ensures (c - p) / p <= (c' - p') / p' <==> Crosses(Bottom, c, p, c', p')
  {
    var x, y := (c - p) / p, (c' - p') / p';
    Quotient(c, p);
    Quotient(c', p');
    Positive(p, p');
    ScaledOrder(x, y, p * p');
    ScaledOrder(y, x, p * p');
    ProductLess(x, p, c, p');
    ProductLess(y, p', c', p);
    assert p' * p == p * p';
  }

  lemma ScoresCompare(history: seq<Closes>, i: nat, lookback: nat, d: Direction, t: Ticker, u: Ticker)
    requires lookback <= i < |history| && Quoted(history, i, lookback, t) && Quoted(history, i, lookback, u)
    ensures var scores := ScoresAt(history, i, lookback);
            scores(t).Some? && scores(u).Some?
            && (AtLeastAsGood(scores(t), scores(u), d) <==> GrewAsMuch(history, i, lookback, d, t, u))
  {
    var current, prior := history[i], history[i - lookback];
    ReturnsCompare(current[t], prior[t], current[u], prior[u]);
  }

  /** One of k equal parts of the whole. */
  predicate IsShare(w: real, k: nat) {
    w > 0.0 && w * (k as real) == 1.0
  }

  /** Every weight of an eligible day is nothing or the equal share. */
  lemma WeightsAreShares(universe: seq<Ticker>, history: seq<Closes>, lookback: nat, k: nat, d: Direction, i: nat,
                         x: nat)
    requires 0 < k <= |universe| && lookback <= i < |history| && x < |universe|
    ensures var w := DayWeights(universe, history, lookback, k, d, i)[x];
            && (w == 0.0 || IsShare(w, k))
            && (w > 0.0 <==> universe[x] in Winners(universe, ScoresAt(history, i, lookback), k, d))
  {
    ShareIsShare(k);
  }

  lemma ShareIsShare(k: nat)
    requires k > 0
    ensures IsShare(EqualShare(k), k)
  {
  }

  /** Days without the whole lookback behind them have no weights. */
  lemma EarlyDaysAreFlat(universe: seq<Ticker>, history: seq<Closes>, lookback: nat, k: nat, d: Direction, i: nat,
                         x: nat)
    requires 0 < k <= |universe| && i < lookback && i < |history| && x < |universe|
    ensures DayWeights(universe, history, lookback, k, d, i)[x] == 0.0
  {
  }

  /**
   * Of two quoted tickers, one with a weight and one without, the first grew at least as much over the lookback when
   * the top is selected, at most as much when the bottom is; between equals the earlier in the universe is selected.
   */
  lemma SelectedOutgrow(universe: seq<Ticker>, history: seq<Closes>, lookback: nat, k: nat, d: Direction, i: nat,
                        x: nat, y: nat)
    requires DuplicateFree(universe) && 0 < k <= |universe| && lookback <= i < |history|
    requires x < |universe| && y < |universe|
    requires Quoted(history, i, lookback, universe[x]) && Quoted(history, i, lookback, universe[y])
    requires var w := DayWeights(universe, history, lookback, k, d, i); w[x] > 0.0 && w[y] == 0.0
    ensures GrewAsMuch(history, i, lookback, d, universe[x], universe[y])
    ensures GrewAsMuch(history, i, lookback, d, universe[y], universe[x]) ==> x < y
  {
    var scores := ScoresAt(history, i, lookback);
    WeightsAreShares(universe, history, lookback, k, d, i, x);
    WeightsAreShares(universe, history, lookback, k, d, i, y);
    WinnersBeatLosers(universe, scores, k, d, universe[x], universe[y]);
    ScoresCompare(history, i, lookback, d, universe[x], universe[y]);
    ScoresCompare(history, i, lookback, d, universe[y], universe[x]);
    PositionIs(universe, x);
    PositionIs(universe, y);
  }

  /** The ticker has both closes, and the earlier one can be divided by. */
  predicate HasData(history: seq<Closes>, i: nat, lookback: nat, t: Ticker)
    requires lookback <= i < |history|
  {
    t in history[i] && t in history[i - lookback] && history[i - lookback][t] != 0.0
  }

  /** A ticker without data gets a weight exactly when fewer than k have data. */
  lemma UnquotedSelectedIff(universe: seq<Ticker>, history: seq<Closes>, lookback: nat, k: nat, d: Direction, i: nat)
    requires DuplicateFree(universe) && 0 < k <= |universe| && lookback <= i < |history|
    ensures (exists x :: 0 <= x < |universe| && DayWeights(universe, history, lookback, k, d, i)[x] > 0.0
                         && !HasData(history, i, lookback, universe[x]))
       <==> |set t <- universe | HasData(history, i, lookback, t)| < k
  {
    var scores := ScoresAt(history, i, lookback);
    MissingWinsIff(universe, scores, k, d);
    assert forall t :: scores(t).Some? <==> HasData(history, i, lookback, t);
    assert (set t <- universe | scores(t).Some?) == set t <- universe | HasData(history, i, lookback, t);
    forall x | 0 <= x < |universe|
      ensures DayWeights(universe, history, lookback, k, d, i)[x] > 0.0
          <==> universe[x] in Winners(universe, scores, k, d) {
      WeightsAreShares(universe, history, lookback, k, d, i, x);
    }
    KTickersWin(universe, scores, k, d);
    if u :| u in Winners(universe, scores, k, d) && scores(u).None? {
      assert u in universe;
      var x :| 0 <= x < |universe| && universe[x] == u;
    }
  }

  // ---- growth as the engine compounds it ----

  /** Growth of one unit held in a column from one day's close to another's, by the engine's daily changes. */
  function Compounded(prices: seq<Row>, columns: nat, c: nat, from: nat, to: nat): real
    requires Grid(prices, columns) && Priced(prices) && c < columns && from <= to < |prices|
  {
    if from == to then 1.0
    else Grow(Compounded(prices, columns, c, from, to - 1), DayChanges(prices, columns, to)[c])
  }

  /** The growth takes the one price to the other. */
  predicate Takes(growth: real, from: real, to: real) {
    from > 0.0 && to > 0.0 && growth * from == to
  }

  /** Compounding a column's daily changes is dividing its later close by its earlier one. */
  lemma {:induction false} CompoundedIsRatio(prices: seq<Row>, columns: nat, c: nat, from: nat, to: nat)
    requires Grid(prices, columns) && Priced(prices) && c < columns && from <= to < |prices|
    ensures Takes(Compounded(prices, columns, c, from, to), prices[from][c], prices[to][c])
  {
    assert prices[to] in prices && prices[to][c] in prices[to];
    if from < to {
      CompoundedIsRatio(prices, columns, c, from, to - 1);
      NextGrowth(prices, columns, c, to, prices[from][c], Compounded(prices, columns, c, from, to - 1));
    }
  }

  lemma NextGrowth(prices: seq<Row>, columns: nat, c: nat, to: nat, first: real, growth: real)
    requires Grid(prices, columns) && Priced(prices) && c < columns && 0 < to < |prices| && prices[to][c] > 0.0
    requires Takes(growth, first, prices[to - 1][c])
    ensures Takes(Grow(growth, DayChanges(prices, columns, to)[c]), first, prices[to][c])
  {
    OneMoreDayGrows(growth, first, prices[to - 1][c], prices[to][c], DayChanges(prices, columns, to)[c]);
  }

  lemma OneMoreDayGrows(growth: real, first: real, before: real, now: real, change: real)
    requires Takes(growth, first, before) && now > 0.0 && change == (now - before) / before
    ensures Takes(Grow(growth, change), first, now)
  {
    Quotient(now, before);
    assert growth * (1.0 + change) * first == (growth * first) * (1.0 + change);
    assert before * (1.0 + change) == before + change * before;
  }

  lemma RatiosCompare(g: real, p: real, c: real, g': real, p': real, c': real)
    requires Takes(g, p, c) && Takes(g', p', c')
    ensures Crosses(Top, c, p, c', p') <==> g >= g'
    ensures Crosses(Bottom, c, p, c', p') <==> g <= g'
  {
    Positive(p, p');
    ScaledOrder(g, g', p * p');
    ScaledOrder(g', g, p * p');
    assert g * (p * p') == (g * p) * p' && g' * (p * p') == (g' * p') * p;
  }

  /** Growth of a ticker between two days of a complete history, as the engine compounds it. */
  function GrowthOver(universe: seq<Ticker>, history: seq<Closes>, x: nat, from: nat, to: nat): real
    requires Complete(universe, history) && x < |universe| && from <= to < |history|
  {
    Compounded(PriceGrid(universe, history, 0, |history|), |universe|, x, from, to)
  }

  /** On a complete history: what is selected compounded, over the lookback, at least (or at most) to what is not. */
  lemma SelectedCompoundBest(universe: seq<Ticker>, history: seq<Closes>, lookback: nat, k: nat, d: Direction, i: nat,
                             x: nat, y: nat)
    requires DuplicateFree(universe) && 0 < k <= |universe| && lookback <= i < |history| && Complete(universe, history)
    requires x < |universe| && y < |universe|
    requires var w := DayWeights(universe, history, lookback, k, d, i); w[x] > 0.0 && w[y] == 0.0
    ensures var gx := GrowthOver(universe, history, x, i - lookback, i);
            var gy := GrowthOver(universe, history, y, i - lookback, i);
            && (d == Top ==> gx >= gy) && (d == Bottom ==> gx <= gy) && (gx == gy ==> x < y)
  {
    GrowthOf(universe, history, i - lookback, i, x);
    GrowthOf(universe, history, i - lookback, i, y);
    SelectedByGrowth(universe, history, lookback, k, d, i, x, y, GrowthOver(universe, history, x, i - lookback, i),
                     GrowthOver(universe, history, y, i - lookback, i));
  }

  lemma SelectedByGrowth(universe: seq<Ticker>, history: seq<Closes>, lookback: nat, k: nat, d: Direction, i: nat,
                         x: nat, y: nat, g: real, g': real)
    requires DuplicateFree(universe) && 0 < k <= |universe| && lookback <= i < |history| && Complete(universe, history)
    requires x < |universe| && y < |universe|
    requires universe[x] in history[i] && universe[x] in history[i - lookback]
    requires universe[y] in history[i] && universe[y] in history[i - lookback]
    requires Takes(g, history[i - lookback][universe[x]], history[i][universe[x]])
    requires Takes(g', history[i - lookback][universe[y]], history[i][universe[y]])
    requires var w := DayWeights(universe, history, lookback, k, d, i); w[x] > 0.0 && w[y] == 0.0
    ensures (d == Top ==> g >= g') && (d == Bottom ==> g <= g') && (g == g' ==> x < y)
  {
    CompleteSelectedOutgrow(universe, history, lookback, k, d, i, x, y);
    var now, before, t, u := history[i], history[i - lookback], universe[x], universe[y];
    GrowthDecides(d, g, before[t], now[t], g', before[u], now[u], x, y);
  }

  lemma CompleteSelectedOutgrow(universe: seq<Ticker>, history: seq<Closes>, lookback: nat, k: nat, d: Direction,
                                i: nat, x: nat, y: nat)
    requires DuplicateFree(universe) && 0 < k <= |universe| && lookback <= i < |history| && Complete(universe, history)
    requires x < |universe| && y < |universe|
    requires var w := DayWeights(universe, history, lookback, k, d, i); w[x] > 0.0 && w[y] == 0.0
    ensures Quoted(history, i, lookback, universe[x]) && Quoted(history, i, lookback, universe[y])
    ensures var (now, before) := (history[i], history[i - lookback]);
            && Crosses(d, now[universe[x]], before[universe[x]], now[universe[y]], before[universe[y]])
            && (Crosses(d, now[universe[y]], before[universe[y]], now[universe[x]], before[universe[x]]) ==> x < y)
  {
    assert history[i] in history && history[i - lookback] in history;
    assert universe[x] in universe && universe[y] in universe;
    SelectedOutgrow(universe, history, lookback, k, d, i, x, y);
  }

  lemma GrowthDecides(d: Direction, g: real, p: real, c: real, g': real, p': real, c': real, x: nat, y: nat)
    requires Takes(g, p, c) && Takes(g', p', c')
    requires Crosses(d, c, p, c', p') && (Crosses(d, c', p', c, p) ==> x < y)
    ensures (d == Top ==> g >= g') && (d == Bottom ==> g <= g') && (g == g' ==> x < y)
  {
    RatiosCompare(g, p, c, g', p', c');
    RatiosCompare(g', p', c', g, p, c);
  }

  lemma GrowthOf(universe: seq<Ticker>, history: seq<Closes>, from: nat, to: nat, x: nat)
    requires Complete(universe, history) && from <= to < |history| && x < |universe|
    ensures universe[x] in history[from] && universe[x] in history[to]
    ensures Takes(GrowthOver(universe, history, x, from, to), history[from][universe[x]], history[to][universe[x]])
  {
    GridCell(universe, history, from, x);
    GridCell(universe, history, to, x);
    CompoundedIsRatio(PriceGrid(universe, history, 0, |history|), |universe|, x, from, to);
  }

  lemma GridCell(universe: seq<Ticker>, history: seq<Closes>, i: nat, x: nat)
    requires Complete(universe, history) && i < |history| && x < |universe|
    ensures universe[x] in history[i] && history[i][universe[x]] > 0.0
    ensures PriceGrid(universe, history, 0, |history|)[i][x] == history[i][universe[x]]
  {
    assert history[i] in history && universe[x] in universe;
  }
}
