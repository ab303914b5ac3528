/** Cross-sectional ranking signals: the k best (or worst) past returns of each day, equally weighted. */
module RankSignals {
  import opened Wrappers
  import opened Sorting
  import opened BacktestEngine
  import Seqs

  type Ticker = string

  /** One date's closes, for the tickers that traded. */
  type Closes = map<Ticker, real>

  datatype Direction = Top | Bottom

  datatype RankError = BadLookback | TooMany | NotPositive

  /** A ticker and its past return; None is the sentinel at the losing extreme. */
  datatype Entry = Entry(ticker: Ticker, score: Option<real>)

  function PastReturn(current: Closes, prior: Closes, t: Ticker): Option<real> {
    if t in current && t in prior && prior[t] != 0.0 then Some((current[t] - prior[t]) / prior[t]) else None
  }

  predicate AtLeastAsGood(x: Option<real>, y: Option<real>, d: Direction) {
    y.None? || (x.Some? && if d == Top then x.value >= y.value else x.value <= y.value)
  }

  /** The order the list is sorted into: ascending, or reversed, by score, with the sentinel last. */
  function Preferred(d: Direction): (Entry, Entry) -> bool {
    (x: Entry, y: Entry) => AtLeastAsGood(x.score, y.score, d)
  }

  lemma PreferredIsTotalPreorder(d: Direction)
    ensures TotalPreorder(Preferred(d))
  {
    forall x: Entry, y: Entry ensures Preferred(d)(x, y) || Preferred(d)(y, x) {
      assert AtLeastAsGood(x.score, y.score, d) || AtLeastAsGood(y.score, x.score, d);
    }
    forall x: Entry, y: Entry, z: Entry | Preferred(d)(x, y) && Preferred(d)(y, z) ensures Preferred(d)(x, z) {
      assert AtLeastAsGood(x.score, y.score, d) && AtLeastAsGood(y.score, z.score, d);
    }
  }

  function Ranked(universe: seq<Ticker>, scores: Ticker -> Option<real>): (r: seq<Entry>)
    ensures |r| == |universe| && forall i :: 0 <= i < |r| ==> r[i] == Entry(universe[i], scores(universe[i]))
  {
    seq(|universe|, i requires 0 <= i < |universe| => Entry(universe[i], scores(universe[i])))
  }

  function Tickers(entries: seq<Entry>): set<Ticker> {
    set e <- entries :: e.ticker
  }

  function Winners(universe: seq<Ticker>, scores: Ticker -> Option<real>, k: nat, d: Direction): set<Ticker>
    requires k <= |universe|
  {
    Tickers(StableSort(Ranked(universe, scores), Preferred(d))[..k])
  }

  function Weigh(universe: seq<Ticker>, winners: set<Ticker>, weight: real): (r: Row)
    ensures |r| == |universe|
  {
    seq(|universe|, i requires 0 <= i < |universe| => if universe[i] in winners then weight else 0.0)
  }

  function ScoresAt(history: seq<Closes>, i: nat, lookback: nat): Ticker -> Option<real>
    requires lookback <= i < |history|
  {
    (t: Ticker) => PastReturn(history[i], history[i - lookback], t)
  }

  /** The weights day i's closes give, in universe order. */
  function DayWeights(universe: seq<Ticker>, history: seq<Closes>, lookback: nat, k: nat, d: Direction, i: nat)
    : (r: Row)
    requires 0 < k <= |universe| && i < |history|
    ensures |r| == |universe|
  {
    if i < lookback then Zeros(|universe|)
    else Weigh(universe, Winners(universe, ScoresAt(history, i, lookback), k, d), EqualShare(k))
  }

  function EqualShare(k: nat): real
    requires k > 0
  {
    1.0 / (k as real)
  }

  method RankSignals(universe: seq<Ticker>, history: seq<Closes>, lookback: int, k: Option<int>, d: Direction)
    returns (r: Result<seq<Row>, RankError>)
    ensures var selected := if k.Some? then k.value else |universe|;
            if lookback <= 0 then r == Err(BadLookback)
            else if selected > |universe| then r == Err(TooMany)
            else if selected <= 0 then r == Err(NotPositive)
            else
              && r.Ok? && |r.value| == |history|
              && forall i :: 0 <= i < |history| ==>
                   r.value[i] == DayWeights(universe, history, lookback, selected, d, i)
  {
    if lookback <= 0 {
      return Err(BadLookback);
    }
    var n := |universe|;
    var selected := if k.Some? then k.value else n;
    if selected > n {
      return Err(TooMany);
    }
    if selected <= 0 {
      return Err(NotPositive);
    }
    var weight := EqualShare(selected);
    var rows := [];
    for i := 0 to |history|
      invariant |rows| == i && Seqs.EachAt(rows, WeightsOn(universe, history, lookback, selected, d))
    {
      var row := WeighDay(universe, history, lookback, selected, d, i, weight);
      Seqs.EachAtOneMore(rows, row, WeightsOn(universe, history, lookback, selected, d));
      rows := rows + [row];
    }
    r := Ok(rows);
  }

  /** The weights of a day in their place. */
  ghost function WeightsOn(universe: seq<Ticker>, history: seq<Closes>, lookback: nat, k: nat, d: Direction)
    : (nat, Row) -> bool
    requires 0 < k <= |universe|
  {
    (i: nat, row: Row) => i < |history| && row == DayWeights(universe, history, lookback, k, d, i)
  }

  /** One day's weights: flat before the lookback is over, the winners' shares from then on. */
  method WeighDay(universe: seq<Ticker>, history: seq<Closes>, lookback: nat, k: nat, d: Direction, i: nat,
                  weight: real)
    returns (row: Row)
    requires 0 < k <= |universe| && i < |history| && weight == EqualShare(k)
    ensures row == DayWeights(universe, history, lookback, k, d, i)
  {
    if i < lookback {
      return Zeros(|universe|);
    }
    var winners := PickWinners(universe, ScoresAt(history, i, lookback), k, d);
    row := Weigh(universe, winners, weight);
  }

  method PickWinners(universe: seq<Ticker>, scores: Ticker -> Option<real>, k: nat, d: Direction)
    returns (winners: set<Ticker>)
    requires k <= |universe|
    ensures winners == Winners(universe, scores, k, d)
  {
    var ranked := Ranked(universe, scores);
    ranked := StableSort(ranked, Preferred(d));
    winners := set e <- ranked[..k] :: e.ticker;
  }

  // ---- who wins ----

  ghost predicate DuplicateFree(universe: seq<Ticker>) {
    forall i, j :: 0 <= i < j < |universe| ==> universe[i] != universe[j]
  }

  function PositionOf(universe: seq<Ticker>, t: Ticker): (i: nat)
    requires t in universe
    ensures i < |universe| && universe[i] == t
  {
    if universe[0] == t then 0 else PositionOf(universe[1..], t) + 1
  }

  /** t is preferred to u: a better score, or the same one and an earlier place in the universe. */
  predicate Beats(universe: seq<Ticker>, scores: Ticker -> Option<real>, d: Direction, t: Ticker, u: Ticker)
    requires t in universe && u in universe
  {
    && t != u && AtLeastAsGood(scores(t), scores(u), d)
    && (AtLeastAsGood(scores(u), scores(t), d) ==> PositionOf(universe, t) < PositionOf(universe, u))
  }

  /** The tickers preferred to u. */
  function Rivals(universe: seq<Ticker>, scores: Ticker -> Option<real>, d: Direction, u: Ticker): set<Ticker>
    requires u in universe
  {
    set t <- universe | Beats(universe, scores, d, t, u)
  }

  predicate Arrival(universe: seq<Ticker>, x: Entry, y: Entry) {
    x.ticker in universe && y.ticker in universe ==> PositionOf(universe, x.ticker) <= PositionOf(universe, y.ticker)
  }

  function ArrivalIn(universe: seq<Ticker>): (Entry, Entry) -> bool {
    (x: Entry, y: Entry) => Arrival(universe, x, y)
  }

  lemma PositionIs(universe: seq<Ticker>, i: nat)
    requires DuplicateFree(universe) && i < |universe|
    ensures PositionOf(universe, universe[i]) == i
  {
    var j := PositionOf(universe, universe[i]);
    assert universe[j] == universe[i];
  }

  lemma {:induction false} DistinctTickers(entries: seq<Entry>)
    requires forall i, j :: 0 <= i < j < |entries| ==> entries[i].ticker != entries[j].ticker
    ensures |Tickers(entries)| == |entries|
  {
    if entries != [] {
      var n := |entries| - 1;
      DistinctTickers(entries[..n]);
      Seqs.SplitLast(entries);
      assert Tickers(entries) == Tickers(entries[..n]) + {entries[n].ticker};
      assert entries[n].ticker !in Tickers(entries[..n]) by {
        assert forall i :: 0 <= i < n ==> entries[..n][i].ticker != entries[n].ticker;
      }
    }
  }

  /** What sorting gives: every entry once, in strict order of preference. */
  ghost predicate Standings(universe: seq<Ticker>, scores: Ticker -> Option<real>, d: Direction, sorted: seq<Entry>) {
    && |sorted| == |universe|
    && (forall e <- sorted :: e.ticker in universe && e.score == scores(e.ticker))
    && (forall t <- universe :: Entry(t, scores(t)) in sorted)
    && (forall i, j :: 0 <= i < j < |sorted| ==>
          sorted[i].ticker in universe && sorted[j].ticker in universe
          && Beats(universe, scores, d, sorted[i].ticker, sorted[j].ticker))
  }

  lemma InSorted(entries: seq<Entry>, sorted: seq<Entry>, e: Entry)
    requires multiset(sorted) == multiset(entries)
    ensures e in sorted <==> e in entries
  {
    assert e in multiset(sorted) <==> e in multiset(entries);
  }

  lemma {:induction false} OnceOnly(universe: seq<Ticker>, scores: Ticker -> Option<real>, e: Entry)
    requires DuplicateFree(universe)
    ensures multiset(Ranked(universe, scores))[e] <= 1
  {
    if universe != [] {
      var n := |universe| - 1;
      var entries := Ranked(universe, scores);
      assert entries[..n] == Ranked(universe[..n], scores);
      OnceOnly(universe[..n], scores, e);
      Seqs.SplitLast(entries);
      assert forall i :: 0 <= i < n ==> entries[i] != entries[n] by {
        assert forall i :: 0 <= i < n ==> universe[i] != universe[n];
      }
    }
  }

  lemma {:induction false} TwiceCounted(s: seq<Entry>, i: nat, j: nat)
    requires i < j < |s| && s[i] == s[j]
    ensures multiset(s)[s[i]] >= 2
  {
    assert s == s[..j] + s[j..];
    assert s[i] in s[..j] && s[j..][0] in s[j..];
    assert multiset(s) == multiset(s[..j]) + multiset(s[j..]);
    assert multiset(s[..j])[s[i]] >= 1 && multiset(s[j..])[s[i]] >= 1;
  }

  lemma SortingGivesStandings(universe: seq<Ticker>, scores: Ticker -> Option<real>, d: Direction)
    requires DuplicateFree(universe)
    ensures Standings(universe, scores, d, StableSort(Ranked(universe, scores), Preferred(d)))
  {
    var sorted := StableSort(Ranked(universe, scores), Preferred(d));
    AllEntered(universe, scores, sorted);
    SortedByPreference(universe, scores, d);
    forall i, j | 0 <= i < j < |sorted|
      ensures sorted[i].ticker in universe && sorted[j].ticker in universe
      ensures Beats(universe, scores, d, sorted[i].ticker, sorted[j].ticker) {
      InOrder(universe, scores, d, sorted, i, j);
    }
  }

  lemma AllEntered(universe: seq<Ticker>, scores: Ticker -> Option<real>, sorted: seq<Entry>)
    requires multiset(sorted) == multiset(Ranked(universe, scores))
    ensures forall e <- sorted :: e.ticker in universe && e.score == scores(e.ticker)
    ensures forall t <- universe :: Entry(t, scores(t)) in sorted
  {
    var entries := Ranked(universe, scores);
    forall e ensures e in sorted <==> e in entries {
      InSorted(entries, sorted, e);
    }
    forall t | t in universe ensures Entry(t, scores(t)) in sorted {
      assert entries[PositionOf(universe, t)] == Entry(t, scores(t));
    }
  }

  lemma SortedByPreference(universe: seq<Ticker>, scores: Ticker -> Option<real>, d: Direction)
    requires DuplicateFree(universe)
    ensures SortedStably(StableSort(Ranked(universe, scores), Preferred(d)), Preferred(d), ArrivalIn(universe))
  {
    var entries := Ranked(universe, scores);
    PreferredIsTotalPreorder(d);
    forall i, j | 0 <= i < j < |entries| ensures Arrival(universe, entries[i], entries[j]) {
      PositionIs(universe, i);
      PositionIs(universe, j);
    }
    StableSortIsStable(entries, Preferred(d), ArrivalIn(universe));
  }

  lemma InOrder(universe: seq<Ticker>, scores: Ticker -> Option<real>, d: Direction, sorted: seq<Entry>, i: nat, j: nat)
    requires DuplicateFree(universe) && multiset(sorted) == multiset(Ranked(universe, scores))
    requires SortedStably(sorted, Preferred(d), ArrivalIn(universe)) && i < j < |sorted|
    ensures sorted[i].ticker in universe && sorted[j].ticker in universe
    ensures Beats(universe, scores, d, sorted[i].ticker, sorted[j].ticker)
  {
    var x, y := sorted[i], sorted[j];
    InSorted(Ranked(universe, scores), sorted, x);
    InSorted(Ranked(universe, scores), sorted, y);
    assert x in sorted && y in sorted;
    assert LexLe(Preferred(d), ArrivalIn(universe), x, y);
    assert x != y by {
      if x == y {
        TwiceCounted(sorted, i, j);
        OnceOnly(universe, scores, x);
      }
    }
  }

  lemma BeatsIsOneSided(universe: seq<Ticker>, scores: Ticker -> Option<real>, d: Direction, t: Ticker, u: Ticker)
    requires t in universe && u in universe && Beats(universe, scores, d, t, u)
    ensures !Beats(universe, scores, d, u, t)
  {
  }

  /** The entry at a place has exactly the entries before it as rivals. */
  lemma RivalsAreThoseBefore(universe: seq<Ticker>, scores: Ticker -> Option<real>, d: Direction,
                             sorted: seq<Entry>, q: nat)
    requires Standings(universe, scores, d, sorted) && q < |sorted|
    ensures sorted[q].ticker in universe
    ensures Rivals(universe, scores, d, sorted[q].ticker) == Tickers(sorted[..q])
    ensures |Tickers(sorted[..q])| == q
  {
    var u := sorted[q].ticker;
    assert sorted[q] in sorted;
    forall t | t in Tickers(sorted[..q]) ensures t in universe && Beats(universe, scores, d, t, u) {
      var i :| 0 <= i < q && sorted[..q][i].ticker == t;
      assert sorted[i].ticker == t;
    }
    forall t | t in Rivals(universe, scores, d, u) ensures t in Tickers(sorted[..q]) {
      assert Entry(t, scores(t)) in sorted;
      var i :| 0 <= i < |sorted| && sorted[i] == Entry(t, scores(t));
      if i > q {
        BeatsIsOneSided(universe, scores, d, u, t);
        assert false;
      }
      assert i != q;
      assert sorted[..q][i] == sorted[i];
    }
    DistinctTickers(sorted[..q]);
  }

  /** A ticker wins exactly when fewer than k tickers are preferred to it. */
  lemma WinsIffFewRivals(universe: seq<Ticker>, scores: Ticker -> Option<real>, k: nat, d: Direction, u: Ticker)
    requires DuplicateFree(universe) && k <= |universe| && u in universe
    ensures u in Winners(universe, scores, k, d) <==> |Rivals(universe, scores, d, u)| < k
  {
    var sorted := StableSort(Ranked(universe, scores), Preferred(d));
    SortingGivesStandings(universe, scores, d);
    assert Entry(u, scores(u)) in sorted;
    var q :| 0 <= q < |sorted| && sorted[q] == Entry(u, scores(u));
    RivalsAreThoseBefore(universe, scores, d, sorted, q);
    if q < k {
      assert sorted[..k][q] == sorted[q];
    } else {
      forall i | 0 <= i < k ensures sorted[..k][i].ticker != u {
        assert Beats(universe, scores, d, sorted[i].ticker, sorted[q].ticker);
      }
    }
  }

  /** Exactly k tickers win. */
  lemma KTickersWin(universe: seq<Ticker>, scores: Ticker -> Option<real>, k: nat, d: Direction)
    requires DuplicateFree(universe) && k <= |universe|
    ensures |Winners(universe, scores, k, d)| == k
    ensures forall t :: t in Winners(universe, scores, k, d) ==> t in universe
  {
    var sorted := StableSort(Ranked(universe, scores), Preferred(d));
    SortingGivesStandings(universe, scores, d);
    forall i, j | 0 <= i < j < k ensures sorted[..k][i].ticker != sorted[..k][j].ticker {
      assert Beats(universe, scores, d, sorted[i].ticker, sorted[j].ticker);
    }
    DistinctTickers(sorted[..k]);
    forall t | t in Winners(universe, scores, k, d) ensures t in universe {
      var i :| 0 <= i < k && sorted[..k][i].ticker == t;
      assert sorted[i] in sorted;
    }
  }

  lemma InTickers(sorted: seq<Entry>, k: nat, j: nat)
    requires k <= |sorted| && j < |sorted|
    ensures j < k ==> sorted[j].ticker in Tickers(sorted[..k])
  {
    if j < k {
      assert sorted[..k][j] == sorted[j];
    }
  }

  /** Every winner is preferred to every loser: no worse a score, and on a tie earlier in the universe. */
  lemma WinnersBeatLosers(universe: seq<Ticker>, scores: Ticker -> Option<real>, k: nat, d: Direction, t: Ticker,
                          u: Ticker)
    requires DuplicateFree(universe) && k <= |universe| && t in universe && u in universe
    requires t in Winners(universe, scores, k, d) && u !in Winners(universe, scores, k, d)
    ensures Beats(universe, scores, d, t, u)
  {
    var sorted := StableSort(Ranked(universe, scores), Preferred(d));
    SortingGivesStandings(universe, scores, d);
    var i :| 0 <= i < k && sorted[..k][i].ticker == t;
    var j :| 0 <= j < |sorted| && sorted[j] == Entry(u, scores(u));
    InTickers(sorted, k, j);
    assert j >= k;
    assert sorted[i].ticker == t;
  }

  /** A ticker with missing data wins only when fewer than k have data. */
  lemma MissingWinsOnlyForLackOfData(universe: seq<Ticker>, scores: Ticker -> Option<real>, k: nat, d: Direction,
                                     u: Ticker)
    requires DuplicateFree(universe) && k <= |universe| && u in universe
    requires scores(u).None? && u in Winners(universe, scores, k, d)
    ensures |set t <- universe | scores(t).Some?| < k
  {
    WinsIffFewRivals(universe, scores, k, d, u);
    var known := set t <- universe | scores(t).Some?;
    var rivals := Rivals(universe, scores, d, u);
    assert known <= rivals;
    SubsetSize(known, rivals);
  }

  /** Despite the sentinel, some ticker without data is selected exactly when fewer than k have data. */
  lemma MissingWinsIff(universe: seq<Ticker>, scores: Ticker -> Option<real>, k: nat, d: Direction)
    requires DuplicateFree(universe) && k <= |universe|
    ensures (exists u :: u in Winners(universe, scores, k, d) && scores(u).None?)
       <==> |set t <- universe | scores(t).Some?| < k
  {
    var winners, known := Winners(universe, scores, k, d), set t <- universe | scores(t).Some?;
    KTickersWin(universe, scores, k, d);
    if u :| u in winners && scores(u).None? {
      MissingWinsOnlyForLackOfData(universe, scores, k, d, u);
    } else {
      assert winners <= known;
      SubsetSize(winners, known);
    }
  }

  lemma {:induction false} SubsetSize<T>(a: set<T>, b: set<T>)
    requires a <= b
    ensures |a| <= |b|
  {
    if a != {} {
      var x :| x in a;
      SubsetSize(a - {x}, b - {x});
    }
  }

  function Negated(scores: Ticker -> Option<real>): Ticker -> Option<real> {
    (t: Ticker) => if scores(t).Some? then Some(-scores(t).value) else None
  }

  /** Mean reversion is momentum on negated scores. */
  lemma BottomIsTopOfNegated(universe: seq<Ticker>, scores: Ticker -> Option<real>, k: nat)
    requires DuplicateFree(universe) && k <= |universe|
    ensures Winners(universe, scores, k, Bottom) == Winners(universe, Negated(scores), k, Top)
  {
    forall u | u in universe
      ensures u in Winners(universe, scores, k, Bottom) <==> u in Winners(universe, Negated(scores), k, Top) {
      WinsEitherWay(universe, scores, k, u);
    }
    KTickersWin(universe, scores, k, Bottom);
    KTickersWin(universe, Negated(scores), k, Top);
  }

  lemma RivalsOfNegated(universe: seq<Ticker>, scores: Ticker -> Option<real>, u: Ticker)
    requires u in universe
    ensures Rivals(universe, scores, Bottom, u) == Rivals(universe, Negated(scores), Top, u)
  {
    forall t | t in universe
      ensures Beats(universe, scores, Bottom, t, u) <==> Beats(universe, Negated(scores), Top, t, u) {
    }
  }

  lemma WinsEitherWay(universe: seq<Ticker>, scores: Ticker -> Option<real>, k: nat, u: Ticker)
    requires DuplicateFree(universe) && k <= |universe| && u in universe
    ensures u in Winners(universe, scores, k, Bottom) <==> u in Winners(universe, Negated(scores), k, Top)
  {
    WinsIffFewRivals(universe, scores, k, Bottom, u);
    WinsIffFewRivals(universe, Negated(scores), k, Top, u);
    RivalsOfNegated(universe, scores, u);
  }

  // ---- weights ----

  function Chosen(universe: seq<Ticker>, winners: set<Ticker>): set<Ticker> {
    set t <- universe | t in winners
  }

  lemma ChosenOneMore(init: seq<Ticker>, last: Ticker, winners: set<Ticker>)
    requires last !in init
    ensures |Chosen(init + [last], winners)| == |Chosen(init, winners)| + (if last in winners then 1 else 0)
  {
    var universe := init + [last];
    assert last in universe && forall t <- init :: t in universe;
    assert forall t <- universe :: t in init || t == last;
    assert Chosen(universe, winners)
        == if last in winners then Chosen(init, winners) + {last} else Chosen(init, winners);
  }

  function Product(n: nat, weight: real): real {
    (n as real) * weight
  }

  lemma OneMoreWeight(n: nat, weight: real)
    ensures Product(n + 1, weight) == Product(n, weight) + weight
    ensures Product(0, weight) == 0.0
  {
  }

  lemma {:induction false} WeightsOf(universe: seq<Ticker>, winners: set<Ticker>, weight: real)
    requires DuplicateFree(universe)
    ensures Sum(Weigh(universe, winners, weight)) == Product(|Chosen(universe, winners)|, weight)
  {
    if universe == [] {
      assert Chosen(universe, winners) == {};
      OneMoreWeight(0, weight);
    } else {
      var n := |universe| - 1;
      var init, last := universe[..n], universe[n];
      WeightsOf(init, winners, weight);
      Seqs.SplitLast(universe);
      assert last !in init by {
        assert forall i :: 0 <= i < n ==> init[i] != last;
      }
      ChosenOneMore(init, last, winners);
      OneMoreWeight(|Chosen(init, winners)|, weight);
      assert Weigh(universe, winners, weight)
          == Weigh(init, winners, weight) + [if last in winners then weight else 0.0];
      SumOneMore(Weigh(init, winners, weight), if last in winners then weight else 0.0);
    }
  }

  lemma ShareOut(k: nat)
    requires k > 0
    ensures Product(k, EqualShare(k)) == 1.0
  {
  }

  /** An eligible day invests everything: k tickers at weight 1 / k. */
  lemma EligibleDayIsFullyInvested(universe: seq<Ticker>, history: seq<Closes>, lookback: nat, k: nat, d: Direction,
                                   i: nat)
    requires DuplicateFree(universe) && 0 < k <= |universe| && lookback <= i < |history|
    ensures Sum(DayWeights(universe, history, lookback, k, d, i)) == 1.0
  {
    var winners := Winners(universe, ScoresAt(history, i, lookback), k, d);
    KTickersWin(universe, ScoresAt(history, i, lookback), k, d);
    WeightsOf(universe, winners, EqualShare(k));
    assert Chosen(universe, winners) == winners;
    ShareOut(k);
  }
}
