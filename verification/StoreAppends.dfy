/** What each query answers after an append, told from the fields of what was appended, for both stores. */
module StoreAppends {
  import opened Wrappers
  import opened Sorting
  import opened Entities
  import opened MemoryModel
  import opened TableModel
  import opened StoreQueries
  import StoreSeries
  import Seqs

  // ---- relations ----

  /** The instant lies in the relation's period: from its start on, before its end if it has one. */
  predicate During(r: Relation, at: Timestamp) {
    r.validFrom <= at && if r.validTo.Some? then at < r.validTo.value else true
  }

  /** The relation makes its from-end a subsidiary of this issuer at that instant. */
  predicate Subsidises(r: Relation, id: IssuerId, at: Timestamp) {
    r.kind == SubsidiaryOf && r.toId == id && During(r, at)
  }

  /** The relation has this issuer at one of its ends, and is of the kind and alive at the instant asked for, if any. */
  predicate Touches(r: Relation, id: IssuerId, kind: Option<RelationKind>, at: Option<Timestamp>) {
    && (r.fromId == id || r.toId == id)
    && (kind == None || kind == Some(r.kind))
    && (at.Some? ==> During(r, at.value))
  }

  ghost predicate RelationAppended(m: Memory, r: Relation, m': Memory) {
    ValidMemory(m) && ValidMemory(m') && MemoryStep(m, Op.AppendRelation(r), m', Done)
  }

  /** The to-end of a new subsidiary relation gains the record of the from-end, for the instants of its period. */
  lemma SubsidiaryAppended(m: Memory, r: Relation, m': Memory, id: IssuerId, at: Timestamp)
    requires RelationAppended(m, r, m')
    ensures r.fromId in m.issuers && r.toId in m.issuers
    ensures SubsidiariesIn(m', id, at)
         == SubsidiariesIn(m, id, at) + (if Subsidises(r, id, at) then [m.issuers[r.fromId]] else [])
  {
    var q := SubsidiaryQuery(id, at);
    Seqs.FilterOneMore(m.relations + [r], m.relations, r, q);
    assert (m.relations + [r])[..|m.relations|] == m.relations;
  }

  lemma RelationAdded(m: Memory, r: Relation, m': Memory, id: IssuerId, kind: Option<RelationKind>,
                      at: Option<Timestamp>)
    requires RelationAppended(m, r, m')
    ensures RelationsIn(m', id, kind, at)
        == RelationsIn(m, id, kind, at) + (if Touches(r, id, kind, at) then [r] else [])
  {
    assert (m.relations + [r])[..|m.relations|] == m.relations;
    Seqs.FilterOneMore(m.relations + [r], m.relations, r, RelationQuery(id, kind, at));
  }

  // ---- relations in the tables ----

  ghost predicate RowAppended(t: Tables, op: Op, t': Tables) {
    TableStep(t, op) == (t', Done)
  }

  function SourceRecord(t: Tables): Relation -> Issuer {
    (r: Relation) => if r.fromId in t.issuers then IssuerFromRow(t, r.fromId) else Issuer("", None, None, "", [])
  }

  lemma JoinedIsMapped(t: Tables, id: IssuerId, at: Timestamp, rows: seq<Relation>, answer: seq<Issuer>)
    requires JoinedRows(t, id, at, rows, answer)
    ensures answer == Seqs.Map(rows, SourceRecord(t))
  {
  }

  /** The bag of the answer gains the record of the from-end exactly then. */
  lemma SubsidiaryRowAppended(t: Tables, r: Relation, t': Tables, id: IssuerId, at: Timestamp,
                              answer: seq<Issuer>, answer': seq<Issuer>)
    requires RowAppended(t, Op.AppendRelation(r), t')
    requires SubsidiariesAnswer(t, id, at, answer) && SubsidiariesAnswer(t', id, at, answer')
    ensures r.fromId in t.issuers && r.toId in t.issuers
    ensures multiset(answer')
         == multiset(answer) + (if Subsidises(r, id, at) then multiset{IssuerFromRow(t, r.fromId)} else multiset{})
  {
    var rows :| JoinedRows(t, id, at, rows, answer);
    var rows' :| JoinedRows(t', id, at, rows', answer');
    JoinedIsMapped(t, id, at, rows, answer);
    JoinedIsMapped(t', id, at, rows', answer');
    SameRecords(t, t', rows');
    var more := if Subsidises(r, id, at) then [r] else [];
    RowsGrow(t, r, t', id, at, rows, rows', more);
    SameBagMapped(rows', rows + more, SourceRecord(t));
    Seqs.MapAppend(rows, more, SourceRecord(t));
    OneMapped(r, more, SourceRecord(t));
  }

  lemma OneMapped(r: Relation, more: seq<Relation>, f: Relation -> Issuer)
    requires more == [] || more == [r]
    ensures multiset(Seqs.Map(more, f)) == if more == [] then multiset{} else multiset{f(r)}
  {
    assert more == [r] ==> Seqs.Map(more, f) == [f(r)];
  }

  lemma RowsGrow(t: Tables, r: Relation, t': Tables, id: IssuerId, at: Timestamp, rows: seq<Relation>,
                 rows': seq<Relation>, more: seq<Relation>)
    requires t'.relations == t.relations + multiset{r} && more == if Subsidises(r, id, at) then [r] else []
    requires forall x :: multiset(rows)[x] == if IsSubsidiary(x, id, at) then t.relations[x] else 0
    requires forall x :: multiset(rows')[x] == if IsSubsidiary(x, id, at) then t'.relations[x] else 0
    ensures multiset(rows') == multiset(rows + more)
  {
    assert multiset(rows + more) == multiset(rows) + multiset(more);
  }

  lemma SameBagMapped<A, B>(a: seq<A>, b: seq<A>, f: A -> B)
    requires multiset(a) == multiset(b)
    ensures multiset(Seqs.Map(a, f)) == multiset(Seqs.Map(b, f))
  {
    Seqs.UpdateRowsOfSeq(a, f);
    Seqs.UpdateRowsOfSeq(b, f);
  }

  lemma SameRecords(t: Tables, t': Tables, rows: seq<Relation>)
    requires t'.issuers == t.issuers && t'.identifiers == t.identifiers
    ensures Seqs.Map(rows, SourceRecord(t')) == Seqs.Map(rows, SourceRecord(t))
  {
    forall i | 0 <= i < |rows| ensures SourceRecord(t')(rows[i]) == SourceRecord(t)(rows[i]) {
      if rows[i].fromId in t.issuers {
        assert IdentifiersOf(t', rows[i].fromId) == IdentifiersOf(t, rows[i].fromId);
      }
    }
  }

  lemma RelationRowAdded(t: Tables, r: Relation, t': Tables, id: IssuerId, kind: Option<RelationKind>,
                         at: Option<Timestamp>, answer: seq<Relation>, answer': seq<Relation>)
    requires RowAppended(t, Op.AppendRelation(r), t')
    requires RelationsAnswer(t, id, kind, at, answer) && RelationsAnswer(t', id, kind, at, answer')
    ensures multiset(answer') == multiset(answer) + (if Touches(r, id, kind, at) then multiset{r} else multiset{})
  {
  }

  // ---- filings ----

  /** The filing is this issuer's, submitted in the period, both ends included, and of a type asked for, if any. */
  predicate Submitted(f: Filing, id: IssuerId, start: Timestamp, end: Timestamp, codes: Option<seq<string>>) {
    f.issuerId == id && start <= f.submittedAt && f.submittedAt <= end && (codes.Some? ==> f.docTypeCode in codes.value)
  }

  /** By the instant of submission, earlier ones first. */
  ghost predicate EarlierFirst(answer: seq<Filing>) {
    forall i, j :: 0 <= i < j < |answer| ==> answer[i].submittedAt <= answer[j].submittedAt
  }

  /** The filings of one instant, in the order of the answer. */
  function OfInstant(answer: seq<Filing>, at: Timestamp): seq<Filing> {
    Seqs.Filter(answer, (f: Filing) => f.submittedAt == at)
  }

  lemma AnswerInOrder(m: Memory, id: IssuerId, start: Timestamp, end: Timestamp, codes: Option<seq<string>>,
                      at: Timestamp)
    ensures EarlierFirst(FilingsIn(m, id, start, end, codes))
    ensures OfInstant(FilingsIn(m, id, start, end, codes), at)
         == Seqs.Filter(m.filings, MatchingAt(id, start, end, codes, at))
  {
    var f := Filing(id, "", "", at, None, Provenance(JQuants, at, "", None));
    FilingsAnswered(m, id, start, end, codes, f, at);
    SameFilter(FilingsIn(m, id, start, end, codes), SubmittedAt(at), (g: Filing) => g.submittedAt == at);
  }

  lemma {:induction false} SameFilter(s: seq<Filing>, p: Filing -> bool, q: Filing -> bool)
    requires forall g :: p(g) <==> q(g)
    ensures Seqs.Filter(s, p) == Seqs.Filter(s, q)
  {
    if s != [] {
      SameFilter(s[..|s| - 1], p, q);
    }
  }

  /** Answers list earlier filings first; a new filing comes last of its instant in those it matches,
      no other changes. */
  lemma FilingAdded(m: Memory, f: Filing, m': Memory, id: IssuerId, start: Timestamp, end: Timestamp,
                    codes: Option<seq<string>>, at: Timestamp)
    requires MemoryStep(m, Op.AppendFiling(f), m', Done)
    ensures EarlierFirst(FilingsIn(m', id, start, end, codes))
    ensures OfInstant(FilingsIn(m', id, start, end, codes), at)
         == OfInstant(FilingsIn(m, id, start, end, codes), at)
            + (if Submitted(f, id, start, end, codes) && f.submittedAt == at then [f] else [])
  {
    AnswerInOrder(m, id, start, end, codes, at);
    AnswerInOrder(m', id, start, end, codes, at);
    var q := MatchingAt(id, start, end, codes, at);
    assert (m.filings + [f])[..|m.filings|] == m.filings;
    Seqs.FilterOneMore(m.filings + [f], m.filings, f, q);
  }

  /** In the tables the same, with the filings of one instant in any order. */
  lemma FilingRowAdded(t: Tables, f: Filing, t': Tables, id: IssuerId, start: Timestamp, end: Timestamp,
                       codes: Option<seq<string>>, answer: seq<Filing>, answer': seq<Filing>)
    requires RowAppended(t, Op.AppendFiling(f), t')
    requires FilingsAnswer(t, id, start, end, codes, answer) && FilingsAnswer(t', id, start, end, codes, answer')
    ensures EarlierFirst(answer')
    ensures multiset(answer')
         == multiset(answer) + (if Submitted(f, id, start, end, codes) then multiset{f} else multiset{})
  {
    forall i, j | 0 <= i < j < |answer'| ensures answer'[i].submittedAt <= answer'[j].submittedAt {
      assert BySubmission(answer'[i], answer'[j]);
    }
    forall g ensures multiset(answer')[g]
                  == multiset(answer)[g] + (if Submitted(f, id, start, end, codes) && g == f then 1 else 0) {
    }
  }

  // ---- market points ----

  /** The latest of the points for an instant and a source. */
  predicate IsLatest(points: seq<MarketPoint>, i: nat, t: Timestamp, s: Source) {
    && i < |points| && points[i].timestamp == t && points[i].provenance.source == s
    && forall j :: i < j < |points| ==> !(points[j].timestamp == t && points[j].provenance.source == s)
  }

  predicate HasNone(points: seq<MarketPoint>, t: Timestamp, s: Source) {
    forall p <- points :: !(p.timestamp == t && p.provenance.source == s)
  }

  /** The latest appended point for an instant in range and a source is what the cell shows from then on. */
  lemma PointsAdded(m: Memory, id: IssuerId, kind: MarketSeriesKind, points: seq<MarketPoint>, m': Memory,
                    start: Timestamp, end: Timestamp, t: Timestamp, s: Source)
    requires MemoryStep(m, Op.AppendPoints(id, kind, points), m', Done)
    ensures HasNone(points, t, s) ==>
              CellIn(m', id, kind, start, end, t, s) == CellIn(m, id, kind, start, end, t, s)
    ensures forall i: nat :: IsLatest(points, i, t, s) ==>
              CellIn(m', id, kind, start, end, t, s) == if start <= t && t <= end then Some(points[i]) else None
  {
    var was, more := Points(m.marketPoints, id, kind, s), Seqs.Filter(points, FromSource(s));
    LastAtConcat(was, more, t);
    StoreSeries.LastAtIsThere(more, t);
    forall i: nat | IsLatest(points, i, t, s) ensures LastAt(more, t) == Some(points[i]) {
      LatestIsLast(points, s, t, i);
    }
  }

  lemma {:induction false} LatestIsLast(points: seq<MarketPoint>, s: Source, t: Timestamp, i: nat)
    requires IsLatest(points, i, t, s)
    ensures LastAt(Seqs.Filter(points, FromSource(s)), t) == Some(points[i])
  {
    var n := |points| - 1;
    var init := Seqs.Filter(points[..n], FromSource(s));
    Seqs.FilterOneMore(points, points[..n], points[n], FromSource(s));
    if i < n {
      LatestIsLast(points[..n], s, t, i);
      assert init + [points[n]] == Seqs.Filter(points, FromSource(s)) || init == Seqs.Filter(points, FromSource(s));
      assert (init + [points[n]])[..|init|] == init;
    }
  }

  /** Other issuers' and other kinds' cells are as before. */
  lemma PointsLeaveOthers(m: Memory, id: IssuerId, kind: MarketSeriesKind, points: seq<MarketPoint>, m': Memory,
                          other: IssuerId, otherKind: MarketSeriesKind, start: Timestamp, end: Timestamp,
                          t: Timestamp, s: Source)
    requires MemoryStep(m, Op.AppendPoints(id, kind, points), m', Done) && (other != id || otherKind != kind)
    ensures CellIn(m', other, otherKind, start, end, t, s) == CellIn(m, other, otherKind, start, end, t, s)
  {
  }

  /** A cell of the tables shows a row of its issuer, kind, instant in range and source, exactly when there is one. */
  lemma TableCell(rows: multiset<MarketRow>, id: IssuerId, kind: MarketSeriesKind, start: Timestamp, end: Timestamp,
                  pivot: Pivot, t: Timestamp, s: Source)
    requires TablePivot(rows, id, kind, start, end, pivot)
    ensures Cell(pivot, t, s).Some? <==>
              start <= t && t <= end
              && exists row :: row in rows && row.issuerId == id && row.kind == kind
                               && row.point.timestamp == t && row.point.provenance.source == s
    ensures Cell(pivot, t, s).Some? ==>
              var p := Cell(pivot, t, s).value;
              && p.timestamp == t && p.provenance.source == s
              && exists row :: row in rows && row.issuerId == id && row.kind == kind && row.point == p
  {
    if Cell(pivot, t, s).Some? {
      assert MarketRow(id, kind, Cell(pivot, t, s).value) in rows;
    }
    if start <= t && t <= end
       && exists row :: row in rows && row.issuerId == id && row.kind == kind
                        && row.point.timestamp == t && row.point.provenance.source == s {
      var row :| row in rows && row.issuerId == id && row.kind == kind
                 && row.point.timestamp == t && row.point.provenance.source == s;
      assert InSeries(row, id, kind, start, end);
    }
  }
}
