/** The persistent entity store, one statement after the other. */
module DuckDbStore {
  import opened Wrappers
  import opened Sorting
  import opened Entities
  import opened TableModel
  import Seqs

  lemma IdentifierRowsReplaced(was: Tables, issuer: Issuer, rows: map<Identifier, IssuerId>)
    requires forall k :: k in rows <==>
      k in issuer.identifiers || (k in was.identifiers && was.identifiers[k] != issuer.id)
    requires forall k :: k in rows ==> rows[k] == if k in issuer.identifiers then issuer.id else was.identifiers[k]
    ensures rows == UpsertedTables(was, issuer).identifiers
  {
  }

  class DuckDbEntityStore {
    var issuers: map<IssuerId, IssuerRow>
    var identifiers: map<Identifier, IssuerId>
    var marketPoints: multiset<MarketRow>
    var filings: map<string, Filing>
    var relations: multiset<Relation>

    function State(): Tables
      reads this
    {
      Tables(issuers, identifiers, marketPoints, filings, relations)
    }

    constructor ()
      ensures State() == EmptyTables
    {
      issuers, identifiers, filings := map[], map[], map[];
      marketPoints, relations := multiset{}, multiset{};
    }

    method GetIssuer(id: IssuerId) returns (r: Option<Issuer>)
      ensures r == GetIssuerRow(State(), id)
    {
      r := GetIssuerRow(State(), id);
    }

    method LookupIssuer(k: Identifier) returns (r: Option<Issuer>)
      ensures r == LookupRow(State(), k)
    {
      r := LookupRow(State(), k);
    }

    method CheckConflicts(issuer: Issuer) returns (r: Option<StoreError>)
      ensures r == FirstConflict(identifiers, issuer.identifiers, issuer.id)
    {
      var ks := issuer.identifiers;
      for i := 0 to |ks|
        invariant FirstConflict(identifiers, ks, issuer.id) == FirstConflict(identifiers, ks[i..], issuer.id)
      {
        var k := ks[i];
        assert ks[i..][0] == k && ks[i..][1..] == ks[i + 1..];
        if k in identifiers && identifiers[k] != issuer.id {
          return Some(IdentifierConflict(k.kind, k.value, identifiers[k], issuer.id));
        }
      }
      r := None;
    }

    /** Replaces the issuer's identifier rows; false when a key repeats, leaving rows half inserted. */
    method ReplaceIdentifierRows(issuer: Issuer) returns (ok: bool)
      requires FirstConflict(identifiers, issuer.identifiers, issuer.id).None?
      modifies this`identifiers
      ensures ok <==> NoDuplicates(issuer.identifiers)
      ensures ok ==> identifiers == UpsertedTables(old(State()), issuer).identifiers
    {
      ghost var before, was := identifiers, State();
      var ks := issuer.identifiers;
      identifiers := map k | k in identifiers && identifiers[k] != issuer.id :: identifiers[k];
      for i := 0 to |ks|
        invariant NoDuplicates(ks[..i])
        invariant forall k :: k in identifiers <==> k in ks[..i] || (k in before && before[k] != issuer.id)
        invariant forall k :: k in identifiers ==> identifiers[k] == if k in ks[..i] then issuer.id else before[k]
      {
        NoDuplicatesStep(ks, i);
        assert ks[i] in ks;
        if ks[i] in identifiers {
          return false;
        }
        identifiers := identifiers[ks[i] := issuer.id];
      }
      Seqs.FullPrefix(ks);
      IdentifierRowsReplaced(was, issuer, identifiers);
      ok := true;
    }

    method UpsertIssuer(issuer: Issuer) returns (r: Result<Issuer, StoreError>)
      modifies this`issuers, this`identifiers
      ensures (State(), OfResult(r)) == TableStep(old(State()), Upsert(issuer))
    {
      var conflict := CheckConflicts(issuer);
      if conflict.Some? {
        return Err(conflict.value);
      }
      var savedIssuers, savedIdentifiers := issuers, identifiers;
      issuers := issuers[issuer.id := RowOf(issuer)];
      var ok := ReplaceIdentifierRows(issuer);
      if !ok {
        issuers, identifiers := savedIssuers, savedIdentifiers;
        return Err(ConstraintViolation);
      }
      r := Ok(issuer);
    }

    /** `UPDATE` row by row, in whatever order the engine visits them. */
    static method UpdatedRows<T(==)>(rows: multiset<T>, f: T -> T) returns (r: multiset<T>)
      ensures r == Seqs.UpdateRows(rows, f)
    {
      r := multiset{};
      var rest := rows;
      while rest != multiset{}
        invariant Seqs.UpdateRows(rows, f) == Seqs.UpdateRows(rest, f) + r
        decreases |rest|
      {
        var row :| row in rest;
        Seqs.UpdateRow(rest, f, row);
        r := r + multiset{f(row)};
        rest := rest - multiset{row};
      }
    }

    method MergeIssuers(keep: IssuerId, drop: IssuerId) returns (r: Result<Issuer, StoreError>)
      modifies this
      ensures (State(), OfResult(r)) == TableStep(old(State()), Merge(keep, drop))
    {
      if keep !in issuers {
        return Err(UnknownIssuer(keep));
      }
      var keepIssuer := IssuerFromRow(State(), keep);
      if keep == drop || drop !in issuers {
        return Ok(keepIssuer);
      }
      var dropIssuer := IssuerFromRow(State(), drop);
      r := Ok(keepIssuer.(identifiers := IdentifierUnion(keepIssuer.identifiers, dropIssuer.identifiers)));
      RepointRows(keep, drop);
    }

    /** The UPDATE statements of a merge and the final DELETE. */
    method RepointRows(keep: IssuerId, drop: IssuerId)
      modifies this
      ensures State() == MergedTables(old(State()), keep, drop)
    {
      var after := RepointedTables(keep, drop);
      Put(after);
    }

    method Put(t: Tables)
      modifies this
      ensures State() == t
    {
      issuers, identifiers, marketPoints := t.issuers, t.identifiers, t.marketPoints;
      filings, relations := t.filings, t.relations;
    }

    method RepointedTables(keep: IssuerId, drop: IssuerId) returns (after: Tables)
      ensures after == MergedTables(State(), keep, drop)
    {
      var from := UpdatedRows(relations, FromRenamer(keep, drop));
      var both := UpdatedRows(from, ToRenamer(keep, drop));
      var points := UpdatedRows(marketPoints, MarketRenamer(keep, drop));
      after := Tables(issuers - {drop}, RenamedIndex(identifiers, keep, drop), points,
                      RenamedFilings(filings, keep, drop), both);
    }

    method AppendMarketPoints(id: IssuerId, kind: MarketSeriesKind, points: seq<MarketPoint>)
      returns (r: Option<StoreError>)
      modifies this`marketPoints
      ensures (State(), OfOption(r)) == TableStep(old(State()), Op.AppendPoints(id, kind, points))
    {
      if id !in issuers {
        return Some(UnknownIssuer(id));
      }
      marketPoints := marketPoints + multiset(Seqs.Map(points, RowMaker(id, kind)));
      r := None;
    }

    method AppendFiling(f: Filing) returns (r: Option<StoreError>)
      modifies this`filings
      ensures (State(), OfOption(r)) == TableStep(old(State()), Op.AppendFiling(f))
    {
      if f.issuerId !in issuers {
        return Some(UnknownIssuer(f.issuerId));
      }
      if f.docId in filings {
        return Some(ConstraintViolation);
      }
      filings := filings[f.docId := f];
      r := None;
    }

    method AppendRelation(relation: Relation) returns (r: Option<StoreError>)
      modifies this`relations
      ensures (State(), OfOption(r)) == TableStep(old(State()), Op.AppendRelation(relation))
    {
      if relation.fromId !in issuers {
        return Some(UnknownIssuer(relation.fromId));
      }
      if relation.toId !in issuers {
        return Some(UnknownIssuer(relation.toId));
      }
      relations := relations + multiset{relation};
      r := None;
    }

    method FilingsFor(id: IssuerId, start: Timestamp, end: Timestamp, codes: Option<seq<string>>)
      returns (r: seq<Filing>)
      requires forall d :: d in filings ==> filings[d].docId == d
      ensures FilingsAnswer(State(), id, start, end, codes, r)
    {
      if codes == Some([]) {
        return [];
      }
      var rows := [];
      var rest := filings.Keys;
      while rest != {}
        invariant rest <= filings.Keys
        invariant forall f: Filing :: multiset(rows)[f] ==
                              if f.docId in filings && f.docId !in rest && filings[f.docId] == f
                                 && FilingMatches(f, id, start, end, codes) then 1 else 0
        decreases rest
      {
        var d :| d in rest;
        if FilingMatches(filings[d], id, start, end, codes) {
          rows := rows + [filings[d]];
        }
        rest := rest - {d};
      }
      BySubmissionIsTotalPreorder();
      StableSortSorts(rows, BySubmission);
      r := StableSort(rows, BySubmission);
    }

    /** The matching relation rows in whatever order the engine produces them. */
    method SelectRelations(p: Relation -> bool) returns (rows: seq<Relation>)
      ensures forall r :: multiset(rows)[r] == if p(r) then relations[r] else 0
    {
      rows := [];
      var rest := relations;
      while rest != multiset{}
        invariant rest <= relations
        invariant forall r :: multiset(rows)[r] == if p(r) then relations[r] - rest[r] else 0
        decreases |rest|
      {
        var r :| r in rest;
        if p(r) {
          rows := rows + [r];
        }
        rest := rest - multiset{r};
      }
    }

    method RelationsFor(id: IssuerId, kind: Option<RelationKind>, at: Option<Timestamp>) returns (r: seq<Relation>)
      ensures RelationsAnswer(State(), id, kind, at, r)
    {
      r := SelectRelations((r: Relation) => RelationMatches(r, id, kind, at));
    }

    method SubsidiariesOf(id: IssuerId, at: Timestamp) returns (r: seq<Issuer>)
      requires forall row :: row in relations ==> row.fromId in issuers
      ensures SubsidiariesAnswer(State(), id, at, r)
    {
      var rows := SelectRelations((r: Relation) => IsSubsidiary(r, id, at));
      assert forall i :: 0 <= i < |rows| ==> rows[i].fromId in issuers by {
        forall i | 0 <= i < |rows| ensures rows[i].fromId in issuers {
          assert multiset(rows)[rows[i]] > 0;
        }
      }
      var state := State();
      r := seq(|rows|, i requires 0 <= i < |rows| => IssuerFromRow(state, rows[i].fromId));
      assert JoinedRows(State(), id, at, rows, r);
    }

    method GetMarketSeries(id: IssuerId, kind: MarketSeriesKind, start: Timestamp, end: Timestamp,
                           priority: seq<Source>)
      returns (series: MarketSeries)
      ensures SeriesFrom(marketPoints, id, kind, start, end, priority, series)
    {
      var byTimestamp: Pivot := map[];
      var rest := marketPoints;
      while rest != multiset{}
        invariant rest <= marketPoints
        invariant TablePivot(marketPoints - rest, id, kind, start, end, byTimestamp)
        decreases |rest|
      {
        var row :| row in rest;
        RowsTaken(marketPoints, rest, row);
        if row.issuerId == id && row.kind == kind && start <= row.point.timestamp <= end {
          PivotOneMore(marketPoints, rest, row, id, kind, start, end, byTimestamp);
          byTimestamp := PutCell(byTimestamp, row.point);
        }
        rest := rest - multiset{row};
      }
      assert marketPoints - rest == marketPoints;
      series := AssembleSeries(id, kind, byTimestamp, priority);
    }
  }

  lemma BySubmissionIsTotalPreorder()
    ensures TotalPreorder(BySubmission)
  {
  }

  lemma RowsTaken(rows: multiset<MarketRow>, rest: multiset<MarketRow>, row: MarketRow)
    requires row in rest && rest <= rows
    ensures forall r :: r in rows - (rest - multiset{row}) <==> r in rows - rest || r == row
  {
    forall r ensures r in rows - (rest - multiset{row}) <==> r in rows - rest || r == row {
    }
  }

  lemma PivotOneMore(rows: multiset<MarketRow>, rest: multiset<MarketRow>, row: MarketRow, id: IssuerId,
                     kind: MarketSeriesKind, start: Timestamp, end: Timestamp, pivot: Pivot)
    requires row in rest && rest <= rows && InSeries(row, id, kind, start, end)
    requires TablePivot(rows - rest, id, kind, start, end, pivot)
    ensures TablePivot(rows - (rest - multiset{row}), id, kind, start, end, PutCell(pivot, row.point))
  {
    var after := PutCell(pivot, row.point);
    PutCellSetsOne(pivot, row.point, row.point.timestamp, row.point.provenance.source);
    forall u, s ensures Cell(after, u, s) ==
      if u == row.point.timestamp && s == row.point.provenance.source then Some(row.point) else Cell(pivot, u, s) {
      PutCellSetsOne(pivot, row.point, u, s);
    }
    RowsTaken(rows, rest, row);
  }
}
