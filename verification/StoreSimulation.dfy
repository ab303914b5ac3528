/** The persistent tables simulate the in-memory store. */
module StoreSimulation {
  import opened Wrappers
  import opened Sorting
  import opened Entities
  import opened MemoryModel
  import opened TableModel
  import Seqs

  ghost predicate SameIssuers(m: Memory, t: Tables) {
    && m.issuers.Keys == t.issuers.Keys
    && forall id :: id in m.issuers ==> RowOf(m.issuers[id]) == t.issuers[id]
  }

  ghost predicate SameMarket(market: Market, rows: multiset<MarketRow>) {
    forall row: MarketRow ::
      rows[row] == multiset(Points(market, row.issuerId, row.kind, row.point.provenance.source))[row.point]
  }

  ghost predicate DistinctDocs(filings: seq<Filing>) {
    forall i, j :: 0 <= i < j < |filings| ==> filings[i].docId != filings[j].docId
  }

  ghost predicate SameFilings(filings: seq<Filing>, table: map<string, Filing>) {
    && DistinctDocs(filings)
    && (forall f :: f in filings <==> f.docId in table && table[f.docId] == f)
    && (forall d :: d in table ==> table[d].docId == d)
  }

  /** The representation relation between the two stores. */
  ghost predicate Represents(m: Memory, t: Tables) {
    && ValidMemory(m)
    && SameIssuers(m, t)
    && t.identifiers == m.identifiers
    && SameMarket(m.marketPoints, t.marketPoints)
    && SameFilings(m.filings, t.filings)
    && t.relations == multiset(m.relations)
  }

  /** The table constraints the in-memory store does not have: no repeated identifier inside one record that
      is accepted, and no document id filed twice. */
  ghost predicate Clean(m: Memory, op: Op) {
    match op
    case Upsert(issuer) =>
      FirstConflict(m.identifiers, issuer.identifiers, issuer.id).Some? || NoDuplicates(issuer.identifiers)
    case AppendFiling(f) =>
      f.issuerId !in m.issuers || forall g :: g in m.filings ==> g.docId != f.docId
    case _ => true
  }

  // ---- issuers ----

  lemma SameRecord(m: Memory, t: Tables, id: IssuerId)
    requires Represents(m, t) && id in m.issuers
    ensures SameIssuer(m.issuers[id], IssuerFromRow(t, id))
  {
    forall k ensures k in IdentifierSet(m.issuers[id]) <==> k in IdentifiersOf(t, id) {
      assert Owns(m, id, k) <==> k in m.issuers[id].identifiers;
      if k in m.identifiers {
        assert Owns(m, m.identifiers[k], k);
      }
    }
  }

  lemma SimulateUpsert(m: Memory, t: Tables, issuer: Issuer)
    requires Represents(m, t)
    requires FirstConflict(m.identifiers, issuer.identifiers, issuer.id).None?
    ensures Represents(Upserted(m, issuer), UpsertedTables(t, issuer))
  {
    UpsertKeepsValid(m, issuer);
    var index, rows := IndexAfter(m, issuer), UpsertedTables(t, issuer).identifiers;
    forall k ensures k in index <==> k in rows {
      if k in m.identifiers {
        assert Owns(m, m.identifiers[k], k);
        if issuer.id in m.issuers && k in m.issuers[issuer.id].identifiers {
          assert Owns(m, issuer.id, k);
        }
      }
    }
    assert index == rows;
  }

  // ---- merge ----

  lemma MergedRowCount(rows: multiset<MarketRow>, keep: IssuerId, drop: IssuerId, row: MarketRow)
    requires keep != drop
    ensures Seqs.UpdateRows(rows, MarketRenamer(keep, drop))[row] ==
            if row.issuerId == drop then 0
            else if row.issuerId == keep then rows[row] + rows[row.(issuerId := drop)]
            else rows[row]
  {
    var f := MarketRenamer(keep, drop);
    if row.issuerId == drop {
      forall x ensures f(x) != row {
      }
      Seqs.UpdateCountNone(rows, f, row);
    } else if row.issuerId == keep {
      var other := row.(issuerId := drop);
      forall x | f(x) == row ensures x == row || x == other {
        assert x.(issuerId := keep) == row;
      }
      Seqs.UpdateCount(rows, f, row, row, other);
    } else {
      forall x | f(x) == row ensures x == row {
      }
      Seqs.UpdateCountOne(rows, f, row, row);
    }
  }

  lemma SimulateMergedMarket(m: Memory, t: Tables, keep: IssuerId, drop: IssuerId, market': Market)
    requires SameMarket(m.marketPoints, t.marketPoints) && keep != drop
    requires MergedMarket(m.marketPoints, market', keep, drop)
    ensures SameMarket(market', Seqs.UpdateRows(t.marketPoints, MarketRenamer(keep, drop)))
  {
    var rows' := Seqs.UpdateRows(t.marketPoints, MarketRenamer(keep, drop));
    forall row: MarketRow
      ensures rows'[row] == multiset(Points(market', row.issuerId, row.kind, row.point.provenance.source))[row.point] {
      MergedRowCount(t.marketPoints, keep, drop, row);
      var kind, source := row.kind, row.point.provenance.source;
      if row.issuerId == drop {
        assert MarketKey(drop, kind, source) !in market';
      } else if row.issuerId == keep {
        var a, b := Points(m.marketPoints, keep, kind, source), Points(m.marketPoints, drop, kind, source);
        assert multiset(Points(market', keep, kind, source)) == multiset(a) + multiset(b);
        assert t.marketPoints[row.(issuerId := drop)] == multiset(b)[row.point];
      }
    }
  }

  lemma SimulateMergedFilings(filings: seq<Filing>, table: map<string, Filing>, keep: IssuerId, drop: IssuerId)
    requires SameFilings(filings, table)
    ensures SameFilings(Seqs.Map(filings, FilingRenamer(keep, drop)), RenamedFilings(table, keep, drop))
  {
    var filings', table' := Seqs.Map(filings, FilingRenamer(keep, drop)), RenamedFilings(table, keep, drop);
    forall f ensures f in filings' <==> f.docId in table' && table'[f.docId] == f {
      if f in filings' {
        var i :| 0 <= i < |filings'| && filings'[i] == f;
        assert filings[i] in filings;
      }
      if f.docId in table' && table'[f.docId] == f {
        assert table[f.docId] in filings;
        var i :| 0 <= i < |filings| && filings[i] == table[f.docId];
        assert filings'[i] == f;
      }
    }
  }

  lemma TwoUpdatesAreOne(relations: seq<Relation>, keep: IssuerId, drop: IssuerId)
    ensures Seqs.UpdateRows(Seqs.UpdateRows(multiset(relations), FromRenamer(keep, drop)), ToRenamer(keep, drop))
            == multiset(Seqs.Map(relations, RelationRenamer(keep, drop)))
  {
    var once := Seqs.Map(relations, FromRenamer(keep, drop));
    Seqs.UpdateRowsOfSeq(relations, FromRenamer(keep, drop));
    Seqs.UpdateRowsOfSeq(once, ToRenamer(keep, drop));
    assert Seqs.Map(once, ToRenamer(keep, drop)) == Seqs.Map(relations, RelationRenamer(keep, drop));
  }

  lemma SimulateMerge(m: Memory, t: Tables, keep: IssuerId, drop: IssuerId, m': Memory)
    requires Represents(m, t) && keep in m.issuers && drop in m.issuers && keep != drop
    requires Merged(m, keep, drop, m')
    ensures Represents(m', MergedTables(t, keep, drop))
  {
    var t' := MergedTables(t, keep, drop);
    assert ValidMemory(m') by { MergeKeepsValid(m, keep, drop, m'); }
    assert SameIssuers(m', t') && t'.identifiers == m'.identifiers by { SimulateMergedIssuers(m, t, keep, drop, m'); }
    SimulateMergedMarket(m, t, keep, drop, m'.marketPoints);
    SimulateMergedFilings(m.filings, t.filings, keep, drop);
    TwoUpdatesAreOne(m.relations, keep, drop);
  }

  lemma SimulateMergedIssuers(m: Memory, t: Tables, keep: IssuerId, drop: IssuerId, m': Memory)
    requires SameIssuers(m, t) && t.identifiers == m.identifiers && keep in m.issuers && drop in m.issuers
        && keep != drop
    requires Merged(m, keep, drop, m')
    ensures SameIssuers(m', MergedTables(t, keep, drop)) && MergedTables(t, keep, drop).identifiers == m'.identifiers
  {
  }

  lemma SameMergedRecord(m: Memory, t: Tables, keep: IssuerId, drop: IssuerId)
    requires Represents(m, t) && keep in m.issuers && drop in m.issuers
    ensures SameIssuer(MergedIssuer(m, keep, drop), MergedRecord(t, keep, drop))
  {
    SameRecord(m, t, keep);
    SameRecord(m, t, drop);
    var a, b := MergedIssuer(m, keep, drop), MergedRecord(t, keep, drop);
    forall k ensures k in a.identifiers <==> k in b.identifiers {
      assert k in m.issuers[keep].identifiers <==> k in IdentifierSet(m.issuers[keep]);
      assert k in m.issuers[drop].identifiers <==> k in IdentifierSet(m.issuers[drop]);
      assert k in IssuerFromRow(t, keep).identifiers <==> k in IdentifierSet(IssuerFromRow(t, keep));
      assert k in IssuerFromRow(t, drop).identifiers <==> k in IdentifierSet(IssuerFromRow(t, drop));
    }
    assert IdentifierSet(a) == IdentifierSet(b);
  }

  // ---- appends ----

  lemma {:induction false} MadeRowCount(points: seq<MarketPoint>, id: IssuerId, kind: MarketSeriesKind, row: MarketRow)
    ensures multiset(Seqs.Map(points, RowMaker(id, kind)))[row] ==
            if row.issuerId == id && row.kind == kind then multiset(points)[row.point] else 0
  {
    if points != [] {
      var n := |points| - 1;
      var made := Seqs.Map(points, RowMaker(id, kind));
      Seqs.SplitLast(points);
      Seqs.SplitLast(made);
      assert made[..n] == Seqs.Map(points[..n], RowMaker(id, kind));
      MadeRowCount(points[..n], id, kind, row);
    }
  }

  lemma SimulatePoints(m: Memory, t: Tables, id: IssuerId, kind: MarketSeriesKind, points: seq<MarketPoint>,
                       market': Market)
    requires SameMarket(m.marketPoints, t.marketPoints)
    requires PointsAppended(m.marketPoints, market', id, kind, points)
    ensures SameMarket(market', t.marketPoints + multiset(Seqs.Map(points, RowMaker(id, kind))))
  {
    var rows' := t.marketPoints + multiset(Seqs.Map(points, RowMaker(id, kind)));
    forall row: MarketRow
      ensures rows'[row] == multiset(Points(market', row.issuerId, row.kind, row.point.provenance.source))[row.point] {
      MadeRowCount(points, id, kind, row);
      Seqs.FilterCount(points, FromSource(row.point.provenance.source), row.point);
    }
  }

  lemma SimulateFiling(filings: seq<Filing>, table: map<string, Filing>, f: Filing)
    requires SameFilings(filings, table)
    ensures f.docId in table <==> exists g :: g in filings && g.docId == f.docId
    ensures f.docId !in table ==> SameFilings(filings + [f], table[f.docId := f])
  {
    if f.docId in table {
      assert table[f.docId] in filings;
    } else {
      forall i | 0 <= i < |filings| ensures filings[i].docId != f.docId {
        assert filings[i] in filings;
      }
    }
  }

  // ---- one step, and whole runs ----

  /** On clean operations the tables keep representing the memory and answer as it does. */
  lemma SimulateStep(m: Memory, t: Tables, op: Op, m': Memory, r: Response)
    requires Represents(m, t) && MemoryStep(m, op, m', r) && Clean(m, op)
    ensures Represents(m', TableStep(t, op).0) && SameResponse(r, TableStep(t, op).1)
  {
    match op
    case Upsert(issuer) =>
      if FirstConflict(m.identifiers, issuer.identifiers, issuer.id).None? {
        SimulateUpsert(m, t, issuer);
      }
    case Merge(keep, drop) =>
      if keep in m.issuers {
        SameRecord(m, t, keep);
        if keep != drop && drop in m.issuers {
          SimulateMerge(m, t, keep, drop, m');
          SameMergedRecord(m, t, keep, drop);
        }
      }
    case AppendPoints(id, kind, points) =>
      if id in m.issuers {
        SimulatePoints(m, t, id, kind, points, m'.marketPoints);
      }
    case AppendFiling(f) =>
      SimulateFiling(m.filings, t.filings, f);
      if f.issuerId in m.issuers {
        FilingKeepsValid(m, f);
      }
    case AppendRelation(rel) =>
      if rel.fromId in m.issuers && rel.toId in m.issuers {
        RelationKeepsValid(m, rel);
      }
  }

  /** The two stores answer an operation alike exactly when it is clean; otherwise only the tables refuse it. */
  lemma AgreeIffClean(m: Memory, t: Tables, op: Op, m': Memory, r: Response)
    requires Represents(m, t) && MemoryStep(m, op, m', r)
    ensures SameResponse(r, TableStep(t, op).1) <==> Clean(m, op)
    ensures !Clean(m, op) ==> !r.Failed? && TableStep(t, op) == (t, Failed(ConstraintViolation))
  {
    if Clean(m, op) {
      SimulateStep(m, t, op, m', r);
    } else if op.AppendFiling? {
      SimulateFiling(m.filings, t.filings, op.filing);
    }
  }

  ghost function TablesAfter(ops: seq<Op>): Tables {
    if ops == [] then EmptyTables else TableStep(TablesAfter(ops[..|ops| - 1]), ops[|ops| - 1]).0
  }

  /** A run of the in-memory store from empty: its successive states and responses. */
  ghost predicate MemoryRun(ops: seq<Op>, states: seq<Memory>, responses: seq<Response>) {
    && |states| == |ops| + 1 && |responses| == |ops|
    && states[0] == EmptyMemory
    && forall i :: 0 <= i < |ops| ==> MemoryStep(states[i], ops[i], states[i + 1], responses[i])
  }

  lemma NextTables(ops: seq<Op>, n: nat)
    requires n < |ops|
    ensures TablesAfter(ops[..n + 1]) == TableStep(TablesAfter(ops[..n]), ops[n]).0
  {
    assert ops[..n + 1][..n] == ops[..n];
  }

  lemma {:induction false} RepresentsRun(ops: seq<Op>, states: seq<Memory>, responses: seq<Response>, n: nat)
    requires MemoryRun(ops, states, responses) && n <= |ops|
    requires forall i :: 0 <= i < |ops| ==> Clean(states[i], ops[i])
    ensures Represents(states[n], TablesAfter(ops[..n]))
  {
    if n > 0 {
      RepresentsRun(ops, states, responses, n - 1);
      NextTables(ops, n - 1);
      SimulateStep(states[n - 1], TablesAfter(ops[..n - 1]), ops[n - 1], states[n], responses[n - 1]);
    }
  }

  /** Over every run of clean operations the tables represent the memory after each step, and every
      response is the same. */
  lemma SimulateRun(ops: seq<Op>, states: seq<Memory>, responses: seq<Response>, n: nat)
    requires MemoryRun(ops, states, responses) && n <= |ops|
    requires forall i :: 0 <= i < |ops| ==> Clean(states[i], ops[i])
    ensures Represents(states[n], TablesAfter(ops[..n]))
    ensures n < |ops| ==> SameResponse(responses[n], TableStep(TablesAfter(ops[..n]), ops[n]).1)
  {
    RepresentsRun(ops, states, responses, n);
    if n < |ops| {
      SimulateStep(states[n], TablesAfter(ops[..n]), ops[n], states[n + 1], responses[n]);
    }
  }
}
