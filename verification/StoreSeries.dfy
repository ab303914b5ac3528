/** When both stores are certain to answer a market-series query alike. */
module StoreSeries {
  import opened Wrappers
  import opened Sorting
  import opened Entities
  import opened MemoryModel
  import opened TableModel
  import opened StoreSimulation
  import Seqs

  // ---- pivots ----

  predicate SameCell(a: MarketRow, b: MarketRow) {
    a.point.timestamp == b.point.timestamp && a.point.provenance.source == b.point.provenance.source
  }

  /** No two different rows of the series share a timestamp and a source. */
  ghost predicate NoTies(rows: multiset<MarketRow>, id: IssuerId, kind: MarketSeriesKind, start: Timestamp,
                         end: Timestamp) {
    forall a, b | a in rows && b in rows && InSeries(a, id, kind, start, end) && InSeries(b, id, kind, start, end) ::
      SameCell(a, b) ==> a == b
  }

  lemma {:induction false} LastAtIsThere(points: seq<MarketPoint>, t: Timestamp)
    ensures LastAt(points, t).Some? ==> LastAt(points, t).value in points && LastAt(points, t).value.timestamp == t
    ensures LastAt(points, t).None? <==> forall p :: p in points ==> p.timestamp != t
  {
    if points != [] {
      Seqs.SplitLast(points);
      LastAtIsThere(points[..|points| - 1], t);
    }
  }

  /** The memory's pivot is one of those the tables may produce. */
  lemma MemoryPivotIsATablePivot(m: Memory, t: Tables, id: IssuerId, kind: MarketSeriesKind,
                                 start: Timestamp, end: Timestamp, pivot: Pivot)
    requires Represents(m, t) && PivotIn(m, id, kind, start, end, pivot)
    ensures TablePivot(t.marketPoints, id, kind, start, end, pivot)
  {
    forall u, s | Cell(pivot, u, s).Some?
      ensures var p := Cell(pivot, u, s).value;
              && p.timestamp == u && p.provenance.source == s
              && MarketRow(id, kind, p) in t.marketPoints && start <= u <= end {
      var points := Points(m.marketPoints, id, kind, s);
      LastAtIsThere(points, u);
      var p := Cell(pivot, u, s).value;
      assert p in points && MarketKey(id, kind, s) in m.marketPoints;
      assert t.marketPoints[MarketRow(id, kind, p)] == multiset(points)[p];
    }
    forall row | row in t.marketPoints && InSeries(row, id, kind, start, end)
      ensures Cell(pivot, row.point.timestamp, row.point.provenance.source).Some? {
      var points := Points(m.marketPoints, id, kind, row.point.provenance.source);
      assert t.marketPoints[row] == multiset(points)[row.point];
      LastAtIsThere(points, row.point.timestamp);
    }
  }

  /** With a tie, the engine is free to put either of the two rows into the cell. */
  lemma TieIsNotDetermined(rows: multiset<MarketRow>, id: IssuerId, kind: MarketSeriesKind,
                           start: Timestamp, end: Timestamp, pivot: Pivot, a: MarketRow, b: MarketRow)
    requires TablePivot(rows, id, kind, start, end, pivot)
    requires a in rows && b in rows && InSeries(a, id, kind, start, end) && InSeries(b, id, kind, start, end)
    requires a != b && SameCell(a, b)
    ensures TablePivot(rows, id, kind, start, end, PutCell(pivot, a.point))
    ensures TablePivot(rows, id, kind, start, end, PutCell(pivot, b.point))
    ensures PutCell(pivot, a.point) != PutCell(pivot, b.point)
  {
    var u, s := a.point.timestamp, a.point.provenance.source;
    forall v, w
      ensures Cell(PutCell(pivot, a.point), v, w) == if v == u && w == s then Some(a.point) else Cell(pivot, v, w)
      ensures Cell(PutCell(pivot, b.point), v, w) == if v == u && w == s then Some(b.point) else Cell(pivot, v, w) {
      PutCellSetsOne(pivot, a.point, v, w);
      PutCellSetsOne(pivot, b.point, v, w);
    }
    PutCellSetsOne(pivot, a.point, u, s);
    PutCellSetsOne(pivot, b.point, u, s);
    assert Cell(PutCell(pivot, a.point), u, s) != Cell(PutCell(pivot, b.point), u, s);
  }

  // ---- series of two pivots over the same cells ----

  /** The same observations are there, possibly with other points in them. */
  ghost predicate SameShape(a: Pivot, b: Pivot) {
    && ValidPivot(a) && ValidPivot(b) && a.Keys == b.Keys
    && forall t :: t in a ==> a[t].Keys == b[t].Keys
  }

  /** What one timestamp contributes to a series. */
  ghost predicate SameAt(a: map<Source, MarketPoint>, b: map<Source, MarketPoint>, priority: seq<Source>)
    requires HasPoint(a) && HasPoint(b)
  {
    && ChoosePoint(a, priority) == ChoosePoint(b, priority)
    && Discarded(a, ChoosePoint(a, priority)) == Discarded(b, ChoosePoint(b, priority))
  }

  lemma {:induction false} SelectedLength(pivot: Pivot, ts: seq<Timestamp>, priority: seq<Source>)
    requires TimesOf(pivot, ts)
    ensures |SelectedAt(pivot, ts, priority).points| == |ts|
  {
    if ts != [] {
      SelectedLength(pivot, ts[..|ts| - 1], priority);
    }
  }

  lemma {:induction false} SelectedPoint(pivot: Pivot, ts: seq<Timestamp>, priority: seq<Source>, i: nat)
    requires TimesOf(pivot, ts) && i < |ts| == |SelectedAt(pivot, ts, priority).points|
    ensures SelectedAt(pivot, ts, priority).points[i] == ChoosePoint(pivot[ts[i]], priority)
  {
    var n := |ts| - 1;
    SelectedLength(pivot, ts[..n], priority);
    if i < n {
      SelectedPoint(pivot, ts[..n], priority, i);
    }
  }

  lemma {:induction false} ConflictMember(pivot: Pivot, ts: seq<Timestamp>, priority: seq<Source>, c: ConflictRecord)
    requires TimesOf(pivot, ts)
    ensures c in SelectedAt(pivot, ts, priority).conflicts
       <==> c.timestamp in ts && c in ConflictAt(pivot[c.timestamp], c.timestamp, priority)
  {
    if ts != [] {
      var n := |ts| - 1;
      Seqs.SplitLast(ts);
      ConflictMember(pivot, ts[..n], priority, c);
      if c.timestamp == ts[n] && c in SelectedAt(pivot, ts[..n], priority).conflicts {
        assert c in ConflictAt(pivot[ts[n]], ts[n], priority);
      }
    }
  }

  lemma {:induction false} SameSelection(a: Pivot, b: Pivot, ts: seq<Timestamp>, priority: seq<Source>)
    requires TimesOf(a, ts) && TimesOf(b, ts)
    requires forall t <- ts :: SameAt(a[t], b[t], priority)
    ensures SelectedAt(a, ts, priority) == SelectedAt(b, ts, priority)
  {
    if ts != [] {
      var n := |ts| - 1;
      Seqs.SplitLast(ts);
      SameSelection(a, b, ts[..n], priority);
      assert ts[n] in ts;
    }
  }

  lemma SameConflictAt(a: Pivot, b: Pivot, ts: seq<Timestamp>, priority: seq<Source>, t: Timestamp)
    requires TimesOf(a, ts) && TimesOf(b, ts) && t in ts
    requires SelectedAt(a, ts, priority).conflicts == SelectedAt(b, ts, priority).conflicts
    ensures ConflictAt(a[t], t, priority) == ConflictAt(b[t], t, priority)
  {
    AtMostOne(a[t], t, priority);
    AtMostOne(b[t], t, priority);
    var x, y := ConflictAt(a[t], t, priority), ConflictAt(b[t], t, priority);
    forall c ensures c in x <==> c in y {
      SameMember(a, b, ts, priority, t, c);
    }
    SameShort(x, y);
  }

  lemma SameMember(a: Pivot, b: Pivot, ts: seq<Timestamp>, priority: seq<Source>, t: Timestamp, c: ConflictRecord)
    requires TimesOf(a, ts) && TimesOf(b, ts) && t in ts
    requires SelectedAt(a, ts, priority).conflicts == SelectedAt(b, ts, priority).conflicts
    ensures c in ConflictAt(a[t], t, priority) <==> c in ConflictAt(b[t], t, priority)
  {
    AtMostOne(a[t], t, priority);
    AtMostOne(b[t], t, priority);
    if c.timestamp == t {
      ConflictMember(a, ts, priority, c);
      ConflictMember(b, ts, priority, c);
    }
  }

  lemma SameShort<T>(x: seq<T>, y: seq<T>)
    requires |x| <= 1 && |y| <= 1 && forall c :: c in x <==> c in y
    ensures x == y
  {
    assert x != [] ==> x[0] in y;
    assert y != [] ==> y[0] in x;
  }

  lemma AtMostOne(row: map<Source, MarketPoint>, t: Timestamp, priority: seq<Source>)
    requires HasPoint(row)
    ensures |ConflictAt(row, t, priority)| <= 1
    ensures forall c :: c in ConflictAt(row, t, priority) ==> c.timestamp == t && ConflictAt(row, t, priority) == [c]
  {
  }

  lemma SameDiscarded(x: map<Source, MarketPoint>, y: map<Source, MarketPoint>, t: Timestamp, priority: seq<Source>)
    requires HasPoint(x) && HasPoint(y)
    requires ConflictAt(x, t, priority) == ConflictAt(y, t, priority)
    requires ChoosePoint(x, priority) == ChoosePoint(y, priority)
    ensures SameAt(x, y, priority)
  {
  }

  lemma SameAtTime(a: Pivot, b: Pivot, ts: seq<Timestamp>, priority: seq<Source>, i: nat)
    requires TimesOf(a, ts) && TimesOf(b, ts) && i < |ts|
    requires SelectedAt(a, ts, priority) == SelectedAt(b, ts, priority)
    ensures SameAt(a[ts[i]], b[ts[i]], priority)
  {
    SelectedLength(a, ts, priority);
    SelectedLength(b, ts, priority);
    SelectedPoint(a, ts, priority, i);
    SelectedPoint(b, ts, priority, i);
    SameConflictAt(a, b, ts, priority, ts[i]);
    SameDiscarded(a[ts[i]], b[ts[i]], ts[i], priority);
  }

  /** Two pivots over the same cells give the same series exactly when they agree at every timestamp. */
  lemma SeriesSameIff(a: Pivot, b: Pivot, id: IssuerId, kind: MarketSeriesKind, priority: seq<Source>)
    requires SameShape(a, b)
    ensures SeriesOf(id, kind, a, priority) == SeriesOf(id, kind, b, priority)
       <==> forall t :: t in a ==> HasPoint(a[t]) && HasPoint(b[t]) && SameAt(a[t], b[t], priority)
  {
    var ts := AscendingInts(a.Keys);
    AllTimes(a);
    AllTimes(b);
    if SeriesOf(id, kind, a, priority) == SeriesOf(id, kind, b, priority) {
      forall t | t in a ensures SameAt(a[t], b[t], priority) {
        assert t in ts;
        var i :| 0 <= i < |ts| && ts[i] == t;
        SameAtTime(a, b, ts, priority, i);
      }
    } else if forall t :: t in a ==> HasPoint(a[t]) && HasPoint(b[t]) && SameAt(a[t], b[t], priority) {
      SameSelection(a, b, ts, priority);
    }
  }

  // ---- exactly when ----

  /** The sources that have a row of the series at an instant: what the choice among them depends on. */
  ghost function SourcesAt(rows: multiset<MarketRow>, id: IssuerId, kind: MarketSeriesKind, t: Timestamp): set<Source> {
    set row | row in rows && row.issuerId == id && row.kind == kind && row.point.timestamp == t
      :: row.point.provenance.source
  }

  /** The row lies in the cell the series takes its point from. */
  ghost predicate InChosenCell(rows: multiset<MarketRow>, row: MarketRow, priority: seq<Source>)
    requires row in rows
  {
    var sources := SourcesAt(rows, row.issuerId, row.kind, row.point.timestamp);
    sources != {} && row.point.provenance.source == ChooseSource(sources, priority)
  }

  predicate SameInstant(a: MarketRow, b: MarketRow) {
    a.issuerId == b.issuerId && a.kind == b.kind && a.point.timestamp == b.point.timestamp
  }

  /** A tie that cannot show: in a cell that is not chosen, both rows valued like every row of the chosen cell. */
  ghost predicate Hidden(rows: multiset<MarketRow>, a: MarketRow, b: MarketRow, priority: seq<Source>)
    requires a in rows && b in rows
  {
    && !InChosenCell(rows, a, priority)
    && forall c | c in rows && SameInstant(c, a) && InChosenCell(rows, c, priority) ::
         c.point.value == a.point.value && c.point.value == b.point.value
  }

  /** Every tie of the series is hidden under this priority. */
  ghost predicate TiesHidden(rows: multiset<MarketRow>, id: IssuerId, kind: MarketSeriesKind, start: Timestamp,
                             end: Timestamp, priority: seq<Source>) {
    forall a, b | a in rows && b in rows && InSeries(a, id, kind, start, end) && InSeries(b, id, kind, start, end) ::
      SameCell(a, b) && a != b ==> Hidden(rows, a, b, priority)
  }

  lemma PivotSources(rows: multiset<MarketRow>, id: IssuerId, kind: MarketSeriesKind, start: Timestamp, end: Timestamp,
                     pivot: Pivot, t: Timestamp)
    requires TablePivot(rows, id, kind, start, end, pivot)
    ensures t in pivot <==> start <= t <= end && SourcesAt(rows, id, kind, t) != {}
    ensures t in pivot ==> pivot[t].Keys == SourcesAt(rows, id, kind, t)
  {
    if t in pivot {
      assert HasPoint(pivot[t]);
      forall s | s in pivot[t] ensures start <= t <= end && s in SourcesAt(rows, id, kind, t) {
        assert Cell(pivot, t, s).Some?;
        assert MarketRow(id, kind, pivot[t][s]) in rows;
      }
      var s :| s in pivot[t];
    }
    if start <= t <= end {
      forall s | s in SourcesAt(rows, id, kind, t) ensures t in pivot && s in pivot[t] {
        var row :| row in rows && row.issuerId == id && row.kind == kind && row.point.timestamp == t
                   && row.point.provenance.source == s;
        assert InSeries(row, id, kind, start, end);
        assert Cell(pivot, t, s).Some?;
      }
    }
  }

  lemma TablePivotsSameShape(rows: multiset<MarketRow>, id: IssuerId, kind: MarketSeriesKind, start: Timestamp,
                             end: Timestamp, a: Pivot, b: Pivot)
    requires TablePivot(rows, id, kind, start, end, a) && TablePivot(rows, id, kind, start, end, b)
    ensures SameShape(a, b)
  {
    forall t ensures t in a <==> t in b {
      PivotSources(rows, id, kind, start, end, a, t);
      PivotSources(rows, id, kind, start, end, b, t);
    }
    forall t | t in a ensures a[t].Keys == b[t].Keys {
      PivotSources(rows, id, kind, start, end, a, t);
      PivotSources(rows, id, kind, start, end, b, t);
    }
  }

  /** What a pivot has in a cell is one of the rows of that cell. */
  lemma CellIsRow(rows: multiset<MarketRow>, id: IssuerId, kind: MarketSeriesKind, start: Timestamp, end: Timestamp,
                  pivot: Pivot, t: Timestamp, s: Source)
    requires TablePivot(rows, id, kind, start, end, pivot) && t in pivot && s in pivot[t]
    ensures var row := MarketRow(id, kind, pivot[t][s]);
            row in rows && InSeries(row, id, kind, start, end)
            && row.point.timestamp == t && row.point.provenance.source == s
  {
    assert Cell(pivot, t, s).Some?;
  }

  lemma HiddenTiesAgreeAt(rows: multiset<MarketRow>, id: IssuerId, kind: MarketSeriesKind, start: Timestamp,
                          end: Timestamp, a: Pivot, b: Pivot, priority: seq<Source>, t: Timestamp)
    requires TablePivot(rows, id, kind, start, end, a) && TablePivot(rows, id, kind, start, end, b)
    requires TiesHidden(rows, id, kind, start, end, priority) && t in a && t in b
    ensures HasPoint(a[t]) && HasPoint(b[t]) && SameAt(a[t], b[t], priority)
  {
    var s := ChosenCell(rows, id, kind, start, end, a, priority, t);
    var s' := ChosenCell(rows, id, kind, start, end, b, priority, t);
    PivotSources(rows, id, kind, start, end, a, t);
    PivotSources(rows, id, kind, start, end, b, t);
    assert s == s';
    CellIsRow(rows, id, kind, start, end, b, t, s);
    CellIsRow(rows, id, kind, start, end, a, t, s);
    ChosenCellUntied(rows, id, kind, start, end, priority, MarketRow(id, kind, a[t][s]), MarketRow(id, kind, b[t][s]));
    SameDiscards(rows, id, kind, start, end, a, b, priority, t);
  }

  lemma ChosenCellUntied(rows: multiset<MarketRow>, id: IssuerId, kind: MarketSeriesKind, start: Timestamp,
                         end: Timestamp, priority: seq<Source>, x: MarketRow, y: MarketRow)
    requires TiesHidden(rows, id, kind, start, end, priority)
    requires x in rows && y in rows && InSeries(x, id, kind, start, end) && InSeries(y, id, kind, start, end)
    requires SameCell(x, y) && InChosenCell(rows, x, priority)
    ensures x == y
  {
    assert x != y ==> Hidden(rows, x, y, priority);
  }

  /** The cell a pivot's series takes its point from at an instant. */
  lemma ChosenCell(rows: multiset<MarketRow>, id: IssuerId, kind: MarketSeriesKind, start: Timestamp, end: Timestamp,
                   pivot: Pivot, priority: seq<Source>, t: Timestamp) returns (s: Source)
    requires TablePivot(rows, id, kind, start, end, pivot) && t in pivot
    ensures HasPoint(pivot[t]) && s == ChooseSource(pivot[t].Keys, priority) && s in pivot[t]
    ensures ChoosePoint(pivot[t], priority) == pivot[t][s]
    ensures var row := MarketRow(id, kind, pivot[t][s]);
            row in rows && InSeries(row, id, kind, start, end) && row.point.timestamp == t
            && row.point.provenance.source == s && InChosenCell(rows, row, priority)
  {
    PivotSources(rows, id, kind, start, end, pivot, t);
    s := ChooseSource(pivot[t].Keys, priority);
    CellIsRow(rows, id, kind, start, end, pivot, t, s);
  }

  lemma SameDiscards(rows: multiset<MarketRow>, id: IssuerId, kind: MarketSeriesKind, start: Timestamp,
                     end: Timestamp, a: Pivot, b: Pivot, priority: seq<Source>, t: Timestamp)
    requires TablePivot(rows, id, kind, start, end, a) && TablePivot(rows, id, kind, start, end, b)
    requires TiesHidden(rows, id, kind, start, end, priority) && t in a && t in b
    requires HasPoint(a[t]) && HasPoint(b[t]) && ChoosePoint(a[t], priority) == ChoosePoint(b[t], priority)
    ensures SameAt(a[t], b[t], priority)
  {
    var c := ChoosePoint(a[t], priority);
    forall p ensures p in Discarded(a[t], c) <==> p in Discarded(b[t], c) {
      if p in Discarded(a[t], c) {
        DiscardedAlike(rows, id, kind, start, end, a, b, priority, t, p);
      }
      if p in Discarded(b[t], c) {
        DiscardedAlike(rows, id, kind, start, end, b, a, priority, t, p);
      }
    }
  }

  lemma DiscardedAlike(rows: multiset<MarketRow>, id: IssuerId, kind: MarketSeriesKind, start: Timestamp,
                       end: Timestamp, a: Pivot, b: Pivot, priority: seq<Source>, t: Timestamp, p: MarketPoint)
    requires TablePivot(rows, id, kind, start, end, a) && TablePivot(rows, id, kind, start, end, b)
    requires TiesHidden(rows, id, kind, start, end, priority) && t in a && t in b
    requires HasPoint(a[t]) && p in Discarded(a[t], ChoosePoint(a[t], priority))
    ensures p in b[t].Values
  {
    var s := ChosenCell(rows, id, kind, start, end, a, priority, t);
    var u :| u in a[t] && a[t][u] == p;
    CellIsRow(rows, id, kind, start, end, a, t, u);
    TablePivotsSameShape(rows, id, kind, start, end, a, b);
    CellIsRow(rows, id, kind, start, end, b, t, u);
    TieMeetsChosen(rows, id, kind, start, end, priority, MarketRow(id, kind, p), MarketRow(id, kind, b[t][u]),
                   MarketRow(id, kind, a[t][s]));
  }

  /** Two different rows of one cell have the value of every row of the chosen cell. */
  lemma TieMeetsChosen(rows: multiset<MarketRow>, id: IssuerId, kind: MarketSeriesKind, start: Timestamp,
                       end: Timestamp, priority: seq<Source>, x: MarketRow, y: MarketRow, c: MarketRow)
    requires TiesHidden(rows, id, kind, start, end, priority)
    requires x in rows && y in rows && InSeries(x, id, kind, start, end) && InSeries(y, id, kind, start, end)
    requires SameCell(x, y) && c in rows && SameInstant(c, x) && InChosenCell(rows, c, priority)
    ensures x == y || x.point.value == c.point.value
  {
    if x != y {
      assert Hidden(rows, x, y, priority);
    }
  }

  // ---- a tie that shows ----

  function CellWith(pivot: Pivot, p: MarketPoint, t: Timestamp, s: Source): Option<MarketPoint> {
    if t == p.timestamp && s == p.provenance.source then Some(p) else Cell(pivot, t, s)
  }

  /** The engine may let any row of the series end up in its cell. */
  lemma PutRow(rows: multiset<MarketRow>, id: IssuerId, kind: MarketSeriesKind, start: Timestamp, end: Timestamp,
               pivot: Pivot, row: MarketRow) returns (after: Pivot)
    requires TablePivot(rows, id, kind, start, end, pivot) && row in rows && InSeries(row, id, kind, start, end)
    ensures TablePivot(rows, id, kind, start, end, after)
    ensures forall t, s :: Cell(after, t, s) == CellWith(pivot, row.point, t, s)
  {
    after := PutCell(pivot, row.point);
    var p := row.point;
    forall t, s ensures Cell(after, t, s) == CellWith(pivot, p, t, s) {
      PutCellSetsOne(pivot, p, t, s);
    }
    PutCellSetsOne(pivot, p, p.timestamp, p.provenance.source);
    assert MarketRow(id, kind, p) == row;
  }

  lemma DifferentSeries(rows: multiset<MarketRow>, id: IssuerId, kind: MarketSeriesKind, start: Timestamp,
                        end: Timestamp, p: Pivot, q: Pivot, priority: seq<Source>, t: Timestamp)
    requires TablePivot(rows, id, kind, start, end, p) && TablePivot(rows, id, kind, start, end, q)
    requires t in p && t in q && HasPoint(p[t]) && HasPoint(q[t]) && !SameAt(p[t], q[t], priority)
    ensures SeriesOf(id, kind, p, priority) != SeriesOf(id, kind, q, priority)
  {
    TablePivotsSameShape(rows, id, kind, start, end, p, q);
    SeriesSameIff(p, q, id, kind, priority);
  }

  /** A row in the chosen cell is what the series takes. */
  lemma TakesChosen(rows: multiset<MarketRow>, id: IssuerId, kind: MarketSeriesKind, start: Timestamp, end: Timestamp,
                    pivot: Pivot, row: MarketRow, priority: seq<Source>)
    requires TablePivot(rows, id, kind, start, end, pivot) && row in rows && InSeries(row, id, kind, start, end)
    requires InChosenCell(rows, row, priority)
    requires Cell(pivot, row.point.timestamp, row.point.provenance.source) == Some(row.point)
    ensures var t := row.point.timestamp;
            t in pivot && HasPoint(pivot[t]) && ChoosePoint(pivot[t], priority) == row.point
  {
    var s := ChosenCell(rows, id, kind, start, end, pivot, priority, row.point.timestamp);
    PivotSources(rows, id, kind, start, end, pivot, row.point.timestamp);
  }

  /** A tie in the chosen cell shows in the points. */
  lemma ChosenTieShows(rows: multiset<MarketRow>, id: IssuerId, kind: MarketSeriesKind, start: Timestamp,
                       end: Timestamp, pivot: Pivot, a: MarketRow, b: MarketRow, priority: seq<Source>)
    returns (p: Pivot, q: Pivot)
    requires TablePivot(rows, id, kind, start, end, pivot)
    requires a in rows && b in rows && InSeries(a, id, kind, start, end) && InSeries(b, id, kind, start, end)
    requires a != b && SameCell(a, b) && InChosenCell(rows, a, priority)
    ensures TablePivot(rows, id, kind, start, end, p) && TablePivot(rows, id, kind, start, end, q)
    ensures SeriesOf(id, kind, p, priority) != SeriesOf(id, kind, q, priority)
  {
    p := PutRow(rows, id, kind, start, end, pivot, a);
    q := PutRow(rows, id, kind, start, end, pivot, b);
    TakesChosen(rows, id, kind, start, end, p, a, priority);
    TakesChosen(rows, id, kind, start, end, q, b, priority);
    DifferentSeries(rows, id, kind, start, end, p, q, priority, a.point.timestamp);
  }

  /** In another cell it shows in the discarded points, once one of the two disagrees with a chosen row. */
  lemma OtherTieShows(rows: multiset<MarketRow>, id: IssuerId, kind: MarketSeriesKind, start: Timestamp, end: Timestamp,
                      pivot: Pivot, a: MarketRow, b: MarketRow, c: MarketRow, priority: seq<Source>)
    returns (p: Pivot, q: Pivot)
    requires TablePivot(rows, id, kind, start, end, pivot)
    requires a in rows && b in rows && InSeries(a, id, kind, start, end) && InSeries(b, id, kind, start, end)
    requires a != b && SameCell(a, b) && !InChosenCell(rows, a, priority)
    requires c in rows && SameInstant(c, a) && InChosenCell(rows, c, priority) && c.point.value != a.point.value
    ensures TablePivot(rows, id, kind, start, end, p) && TablePivot(rows, id, kind, start, end, q)
    ensures SeriesOf(id, kind, p, priority) != SeriesOf(id, kind, q, priority)
  {
    var t := a.point.timestamp;
    var base := PutRow(rows, id, kind, start, end, pivot, c);
    p := PutRow(rows, id, kind, start, end, base, a);
    q := PutRow(rows, id, kind, start, end, base, b);
    TakesChosen(rows, id, kind, start, end, p, c, priority);
    TakesChosen(rows, id, kind, start, end, q, c, priority);
    DiscardedOnly(rows, id, kind, start, end, p, q, a, b, c.point);
    DifferentSeries(rows, id, kind, start, end, p, q, priority, t);
  }

  lemma DiscardedOnly(rows: multiset<MarketRow>, id: IssuerId, kind: MarketSeriesKind, start: Timestamp, end: Timestamp,
                      p: Pivot, q: Pivot, a: MarketRow, b: MarketRow, chosen: MarketPoint)
    requires TablePivot(rows, id, kind, start, end, q) && a != b && SameCell(a, b)
    requires a.issuerId == b.issuerId && a.kind == b.kind
    requires Cell(p, a.point.timestamp, a.point.provenance.source) == Some(a.point)
    requires Cell(q, a.point.timestamp, a.point.provenance.source) == Some(b.point)
    requires a.point.provenance.source != chosen.provenance.source && a.point.value != chosen.value
    ensures a.point in Discarded(p[a.point.timestamp], chosen)
    ensures a.point !in Discarded(q[a.point.timestamp], chosen)
  {
    var t := a.point.timestamp;
    assert a.point in p[t].Values;
    forall s | s in q[t] ensures q[t][s] != a.point {
      CellIsRow(rows, id, kind, start, end, q, t, s);
    }
  }

  lemma ShowingTie(rows: multiset<MarketRow>, id: IssuerId, kind: MarketSeriesKind, start: Timestamp, end: Timestamp,
                   pivot: Pivot, a: MarketRow, b: MarketRow, priority: seq<Source>) returns (p: Pivot, q: Pivot)
    requires TablePivot(rows, id, kind, start, end, pivot)
    requires a in rows && b in rows && InSeries(a, id, kind, start, end) && InSeries(b, id, kind, start, end)
    requires a != b && SameCell(a, b) && !Hidden(rows, a, b, priority)
    ensures TablePivot(rows, id, kind, start, end, p) && TablePivot(rows, id, kind, start, end, q)
    ensures SeriesOf(id, kind, p, priority) != SeriesOf(id, kind, q, priority)
  {
    if InChosenCell(rows, a, priority) {
      p, q := ChosenTieShows(rows, id, kind, start, end, pivot, a, b, priority);
    } else {
      var c :| c in rows && SameInstant(c, a) && InChosenCell(rows, c, priority)
               && (c.point.value != a.point.value || c.point.value != b.point.value);
      if c.point.value != a.point.value {
        p, q := OtherTieShows(rows, id, kind, start, end, pivot, a, b, c, priority);
      } else {
        p, q := OtherTieShows(rows, id, kind, start, end, pivot, b, a, c, priority);
      }
    }
  }

  // ---- the answers ----

  /** Whatever row order the tables see, their answer under this priority is the memory's. */
  ghost predicate SureToAgree(t: Tables, id: IssuerId, kind: MarketSeriesKind, start: Timestamp, end: Timestamp,
                              priority: seq<Source>, mine: MarketSeries) {
    forall theirs :: SeriesFrom(t.marketPoints, id, kind, start, end, priority, theirs) ==> theirs == mine
  }

  /** Under one priority both stores are sure to answer alike exactly when every tie is hidden. */
  lemma SeriesAgreeIffTiesHidden(m: Memory, t: Tables, id: IssuerId, kind: MarketSeriesKind,
                                 start: Timestamp, end: Timestamp, priority: seq<Source>, mine: MarketSeries)
    requires Represents(m, t) && SeriesIn(m, id, kind, start, end, priority, mine)
    ensures SureToAgree(t, id, kind, start, end, priority, mine)
       <==> TiesHidden(t.marketPoints, id, kind, start, end, priority)
  {
    var rows := t.marketPoints;
    var own :| PivotIn(m, id, kind, start, end, own) && mine == SeriesOf(id, kind, own, priority);
    MemoryPivotIsATablePivot(m, t, id, kind, start, end, own);
    if TiesHidden(rows, id, kind, start, end, priority) {
      forall theirs | SeriesFrom(rows, id, kind, start, end, priority, theirs) ensures theirs == mine {
        var pivot :| TablePivot(rows, id, kind, start, end, pivot) && theirs == SeriesOf(id, kind, pivot, priority);
        HiddenTiesAgree(rows, id, kind, start, end, own, pivot, priority);
      }
    } else {
      var a, b :| a in rows && b in rows && InSeries(a, id, kind, start, end) && InSeries(b, id, kind, start, end)
        && SameCell(a, b) && a != b && !Hidden(rows, a, b, priority);
      var p, q := ShowingTie(rows, id, kind, start, end, own, a, b, priority);
      assert SeriesFrom(rows, id, kind, start, end, priority, SeriesOf(id, kind, p, priority));
      assert SeriesFrom(rows, id, kind, start, end, priority, SeriesOf(id, kind, q, priority));
    }
  }

  lemma HiddenTiesAgree(rows: multiset<MarketRow>, id: IssuerId, kind: MarketSeriesKind, start: Timestamp,
                        end: Timestamp, a: Pivot, b: Pivot, priority: seq<Source>)
    requires TablePivot(rows, id, kind, start, end, a) && TablePivot(rows, id, kind, start, end, b)
    requires TiesHidden(rows, id, kind, start, end, priority)
    ensures SeriesOf(id, kind, a, priority) == SeriesOf(id, kind, b, priority)
  {
    TablePivotsSameShape(rows, id, kind, start, end, a, b);
    forall t | t in a ensures HasPoint(a[t]) && HasPoint(b[t]) && SameAt(a[t], b[t], priority) {
      HiddenTiesAgreeAt(rows, id, kind, start, end, a, b, priority, t);
    }
    SeriesSameIff(a, b, id, kind, priority);
  }

  /** With the priority list naming the tied source, the tie is in the chosen cell. */
  lemma NamedSourceIsChosen(rows: multiset<MarketRow>, row: MarketRow)
    requires row in rows
    ensures InChosenCell(rows, row, [row.point.provenance.source])
  {
    assert row.point.provenance.source
        in SourcesAt(rows, row.issuerId, row.kind, row.point.timestamp);
  }

  /** Under every priority they are sure to exactly when no two different rows of the series tie. */
  lemma SeriesAgreeIffNoTies(m: Memory, t: Tables, id: IssuerId, kind: MarketSeriesKind, start: Timestamp,
                             end: Timestamp, own: Pivot)
    requires Represents(m, t) && PivotIn(m, id, kind, start, end, own)
    ensures (forall priority :: SureToAgree(t, id, kind, start, end, priority, SeriesOf(id, kind, own, priority)))
       <==> NoTies(t.marketPoints, id, kind, start, end)
  {
    var rows := t.marketPoints;
    if NoTies(rows, id, kind, start, end) {
      forall priority ensures SureToAgree(t, id, kind, start, end, priority, SeriesOf(id, kind, own, priority)) {
        SeriesAgreeIffTiesHidden(m, t, id, kind, start, end, priority, SeriesOf(id, kind, own, priority));
      }
    } else {
      var a, b :| a in rows && b in rows && InSeries(a, id, kind, start, end) && InSeries(b, id, kind, start, end)
        && SameCell(a, b) && a != b;
      var priority := [a.point.provenance.source];
      NamedSourceIsChosen(rows, a);
      assert !Hidden(rows, a, b, priority);
      SeriesAgreeIffTiesHidden(m, t, id, kind, start, end, priority, SeriesOf(id, kind, own, priority));
    }
  }

  // ---- what a series shows ----

  /** The point of the preferred source at an instant. */
  ghost predicate ShownAt(pivot: Pivot, t: Timestamp, priority: seq<Source>, p: MarketPoint) {
    t in pivot && exists s :: IsPreferred(pivot[t].Keys, priority, s) && p == pivot[t][s]
  }

  /** A record of a conflict: what was chosen, and every point of another source that has another value. */
  ghost predicate TellsConflict(pivot: Pivot, c: ConflictRecord, t: Timestamp, chosen: MarketPoint) {
    && t in pivot && c.timestamp == t && c.chosen == chosen && c.discarded != {}
    && forall p :: p in c.discarded
             <==> p in pivot[t].Values && p.provenance.source != chosen.provenance.source && p.value != chosen.value
  }

  ghost predicate Contradicted(pivot: Pivot, t: Timestamp, chosen: MarketPoint) {
    t in pivot && exists p :: p in pivot[t].Values && Disagrees(p, chosen)
  }

  /** Instants in order, each once. */
  ghost predicate InstantsOf(pivot: Pivot, ts: seq<Timestamp>) {
    (forall t :: t in ts <==> t in pivot) && forall i, j :: 0 <= i < j < |ts| ==> ts[i] < ts[j]
  }

  /** A series shows, instant by instant, the point of the preferred source. */
  lemma SeriesMeans(id: IssuerId, kind: MarketSeriesKind, pivot: Pivot, priority: seq<Source>)
    returns (ts: seq<Timestamp>)
    requires ValidPivot(pivot)
    ensures InstantsOf(pivot, ts)
    ensures var series := SeriesOf(id, kind, pivot, priority);
            && series.issuerId == id && series.kind == kind && |series.points| == |ts|
            && forall i :: 0 <= i < |ts| ==> ShownAt(pivot, ts[i], priority, series.points[i])
  {
    ts := AscendingInts(pivot.Keys);
    AllTimes(pivot);
    SelectedLength(pivot, ts, priority);
    forall i | 0 <= i < |ts|
      ensures ShownAt(pivot, ts[i], priority, SeriesOf(id, kind, pivot, priority).points[i]) {
      SelectedPoint(pivot, ts, priority, i);
      ChosenIsPreferred(pivot[ts[i]].Keys, priority);
    }
  }

  ghost predicate InOrder(log: seq<ConflictRecord>) {
    forall i, j :: 0 <= i < j < |log| ==> log[i].timestamp < log[j].timestamp
  }

  /** Its log has the conflicts in order: one record for each instant where another source has another value. */
  ghost predicate LogsConflicts(pivot: Pivot, ts: seq<Timestamp>, points: seq<MarketPoint>, log: seq<ConflictRecord>)
    requires |points| == |ts|
  {
    && (forall c <- log :: exists i :: 0 <= i < |ts| && TellsConflict(pivot, c, ts[i], points[i]))
    && InOrder(log)
    && (forall i :: 0 <= i < |ts| && Contradicted(pivot, ts[i], points[i]) ==>
          exists c <- log :: c.timestamp == ts[i])
  }

  lemma SeriesLogsConflicts(id: IssuerId, kind: MarketSeriesKind, pivot: Pivot, priority: seq<Source>,
                            ts: seq<Timestamp>)
    requires ValidPivot(pivot) && InstantsOf(pivot, ts) && |SeriesOf(id, kind, pivot, priority).points| == |ts|
    ensures LogsConflicts(pivot, ts, SeriesOf(id, kind, pivot, priority).points,
                          SeriesOf(id, kind, pivot, priority).conflictLog)
  {
    AllTimes(pivot);
    SameInstants(pivot, ts, AscendingInts(pivot.Keys));
    SelectionLogsConflicts(pivot, ts, priority);
  }

  lemma SelectionLogsConflicts(pivot: Pivot, ts: seq<Timestamp>, priority: seq<Source>)
    requires TimesOf(pivot, ts) && forall i, j :: 0 <= i < j < |ts| ==> ts[i] < ts[j]
    ensures var sel := SelectedAt(pivot, ts, priority);
            |sel.points| == |ts| && LogsConflicts(pivot, ts, sel.points, sel.conflicts)
  {
    var sel := SelectedAt(pivot, ts, priority);
    SelectedLength(pivot, ts, priority);
    ConflictsAscend(pivot, ts, priority);
    forall c | c in sel.conflicts ensures exists i :: 0 <= i < |ts| && TellsConflict(pivot, c, ts[i], sel.points[i]) {
      var i := ConflictTold(pivot, ts, priority, c);
    }
    forall i | 0 <= i < |ts| && Contradicted(pivot, ts[i], sel.points[i])
      ensures exists c <- sel.conflicts :: c.timestamp == ts[i] {
      SelectedPoint(pivot, ts, priority, i);
      var c := SomeRecord(pivot, ts[i], priority);
      ConflictMember(pivot, ts, priority, c);
    }
  }

  lemma ConflictTold(pivot: Pivot, ts: seq<Timestamp>, priority: seq<Source>, c: ConflictRecord) returns (i: nat)
    requires TimesOf(pivot, ts) && c in SelectedAt(pivot, ts, priority).conflicts
    requires |SelectedAt(pivot, ts, priority).points| == |ts|
    ensures i < |ts| && TellsConflict(pivot, c, ts[i], SelectedAt(pivot, ts, priority).points[i])
  {
    ConflictMember(pivot, ts, priority, c);
    i :| 0 <= i < |ts| && ts[i] == c.timestamp;
    SelectedPoint(pivot, ts, priority, i);
    RecordTells(pivot, c, ts[i], priority);
  }

  lemma RecordTells(pivot: Pivot, c: ConflictRecord, t: Timestamp, priority: seq<Source>)
    requires t in pivot && HasPoint(pivot[t]) && c in ConflictAt(pivot[t], t, priority)
    ensures TellsConflict(pivot, c, t, ChoosePoint(pivot[t], priority))
  {
  }

  lemma SomeRecord(pivot: Pivot, t: Timestamp, priority: seq<Source>) returns (c: ConflictRecord)
    requires t in pivot && HasPoint(pivot[t]) && Contradicted(pivot, t, ChoosePoint(pivot[t], priority))
    ensures c in ConflictAt(pivot[t], t, priority) && c.timestamp == t
  {
    var chosen := ChoosePoint(pivot[t], priority);
    var p :| p in pivot[t].Values && Disagrees(p, chosen);
    assert p in Discarded(pivot[t], chosen);
    c := ConflictRecord(t, chosen, Discarded(pivot[t], chosen));
  }

  lemma OneConflictMore(before: seq<ConflictRecord>, now: seq<ConflictRecord>, t: Timestamp)
    requires InOrder(before) && |now| <= 1
    requires (forall c <- before :: c.timestamp < t) && forall c <- now :: c.timestamp == t
    ensures InOrder(before + now)
  {
    forall i, j | 0 <= i < j < |before + now| ensures (before + now)[i].timestamp < (before + now)[j].timestamp {
      assert (before + now)[i] == before[i] && before[i] in before;
      assert j == |before| ==> (before + now)[j] == now[0] && now[0] in now;
    }
  }

  lemma {:induction false} ConflictsAscend(pivot: Pivot, ts: seq<Timestamp>, priority: seq<Source>)
    requires TimesOf(pivot, ts) && forall i, j :: 0 <= i < j < |ts| ==> ts[i] < ts[j]
    ensures InOrder(SelectedAt(pivot, ts, priority).conflicts)
  {
    if ts != [] {
      var n := |ts| - 1;
      var before := SelectedAt(pivot, ts[..n], priority).conflicts;
      ConflictsAscend(pivot, ts[..n], priority);
      AtMostOne(pivot[ts[n]], ts[n], priority);
      ConflictsBefore(pivot, ts, n, priority);
      OneConflictMore(before, ConflictAt(pivot[ts[n]], ts[n], priority), ts[n]);
    }
  }

  lemma ConflictsBefore(pivot: Pivot, ts: seq<Timestamp>, n: nat, priority: seq<Source>)
    requires TimesOf(pivot, ts) && n < |ts| && forall i, j :: 0 <= i < j < |ts| ==> ts[i] < ts[j]
    ensures forall c <- SelectedAt(pivot, ts[..n], priority).conflicts :: c.timestamp < ts[n]
  {
    forall c | c in SelectedAt(pivot, ts[..n], priority).conflicts ensures c.timestamp < ts[n] {
      ConflictMember(pivot, ts[..n], priority, c);
    }
  }

  lemma SameInstants(pivot: Pivot, a: seq<Timestamp>, b: seq<Timestamp>)
    requires InstantsOf(pivot, a) && InstantsOf(pivot, b)
    ensures a == b
  {
    SameAscending(a, b);
  }

  lemma EmptyTogether(a: seq<int>, b: seq<int>)
    requires forall t :: t in a <==> t in b
    ensures a == [] <==> b == []
  {
    if a != [] {
      var t := a[0];
      assert t in a && t in b;
    }
    if b != [] {
      var t := b[0];
      assert t in b && t in a;
    }
  }

  lemma {:induction false} SameAscending(a: seq<int>, b: seq<int>)
    requires forall i, j :: 0 <= i < j < |a| ==> a[i] < a[j]
    requires forall i, j :: 0 <= i < j < |b| ==> b[i] < b[j]
    requires forall t :: t in a <==> t in b
    ensures a == b
  {
    EmptyTogether(a, b);
    if a != [] {
      var n := |a| - 1;
      assert a[n] in a;
      var k := |b| - 1;
      assert b[k] in b;
      assert a == a[..n] + [a[n]] && b == b[..k] + [b[k]];
      forall t ensures t in a[..n] <==> t in b[..k] {
        assert t in a <==> t in b;
      }
      SameAscending(a[..n], b[..k]);
    }
  }
}
