/** Seeding told by names and key sets alone, and exactly when running it again upserts nothing. */
module ReconciliationFamilies {
  import opened Wrappers
  import opened Sorting
  import opened Entities
  import opened MemoryModel
  import opened Reconciliation
  import opened ReconciliationRuns
  import opened ReconciliationReruns
  import Seqs

  // ---- what seeding sees of a store ----

  /** A record as the loops see it. */
  datatype Kept = Kept(name: string, keys: set<Identifier>)

  function KeptOf(issuer: Issuer): Kept {
    Kept(issuer.displayName, IdentifierSet(issuer))
  }

  function FamilyOf(m: Memory): set<Kept> {
    set id | id in m.issuers :: KeptOf(m.issuers[id])
  }

  predicate Meets(e: Kept, row: Row) {
    exists k :: k in e.keys && k in RowKeys(row)
  }

  /** The record bars the row from being upserted: another name, the same keys, or not the only one it meets. */
  predicate Bars(family: set<Kept>, e: Kept, row: Row) {
    && Meets(e, row)
    && (e.name != row.displayName || e.keys == RowKeys(row) || exists f <- family :: f != e && Meets(f, row))
  }

  predicate Content(family: set<Kept>, row: Row) {
    row.identifiers == [] || exists e <- family :: Bars(family, e, row)
  }

  function Apart(family: set<Kept>, row: Row): set<Kept> {
    set e | e in family && !Meets(e, row)
  }

  /** A row that is not barred takes the place of what it meets. */
  function StepFamily(family: set<Kept>, row: Row): set<Kept> {
    if Content(family, row) then family else Apart(family, row) + {Kept(row.displayName, RowKeys(row))}
  }

  function FoldFamily(family: set<Kept>, rows: seq<Row>): set<Kept> {
    if rows == [] then family else StepFamily(FoldFamily(family, rows[..|rows| - 1]), rows[|rows| - 1])
  }

  function Changes(family: set<Kept>, rows: seq<Row>): nat {
    if rows == [] then 0
    else
      var n := |rows| - 1;
      Changes(family, rows[..n]) + (if Content(FoldFamily(family, rows[..n]), rows[n]) then 0 else 1)
  }

  // ---- one row ----

  /** A record met is that of the owner of every key it shares with the row. */
  lemma MetByOwner(m: Memory, id: IssuerId, row: Row, k: Identifier)
    requires ValidMemory(m) && id in m.issuers && k in IdentifierSet(m.issuers[id])
    ensures k in m.identifiers && m.identifiers[k] == id
  {
    assert Owns(m, id, k);
  }

  lemma OwnerMeets(m: Memory, row: Row, k: Identifier)
    requires ValidMemory(m) && k in row.identifiers && k in m.identifiers
    ensures m.identifiers[k] in m.issuers
    ensures var e := KeptOf(m.issuers[m.identifiers[k]]);
            e in FamilyOf(m) && k in e.keys && Meets(e, row)
  {
    assert Owns(m, m.identifiers[k], k);
    assert k in RowKeys(row);
  }

  lemma MetIsBound(m: Memory, e: Kept, row: Row) returns (k: Identifier, id: IssuerId)
    requires ValidMemory(m) && e in FamilyOf(m) && Meets(e, row)
    ensures k in row.identifiers && k in e.keys && k in m.identifiers && m.identifiers[k] == id
    ensures id in m.issuers && KeptOf(m.issuers[id]) == e
  {
    k :| k in e.keys && k in RowKeys(row);
    id :| id in m.issuers && KeptOf(m.issuers[id]) == e;
    MetByOwner(m, id, row, k);
  }

  /** A row that meets no record has no key bound. */
  lemma UnmetRow(m: Memory, row: Row)
    requires ValidMemory(m) && forall e <- FamilyOf(m) :: !Meets(e, row)
    ensures forall k :: k in row.identifiers ==> k !in m.identifiers
  {
    forall k | k in row.identifiers ensures k !in m.identifiers {
      if k in m.identifiers {
        OwnerMeets(m, row, k);
      }
    }
  }

  /** Every bound key of a row that is not content leads to the same record, of its name and with other keys. */
  lemma MetOnce(m: Memory, row: Row, e: Kept) returns (k: Identifier, id: IssuerId)
    requires ValidMemory(m) && !Content(FamilyOf(m), row) && e in FamilyOf(m) && Meets(e, row)
    ensures k in row.identifiers && k in m.identifiers && id in m.issuers && KeptOf(m.issuers[id]) == e
    ensures e.name == row.displayName && e.keys != RowKeys(row)
    ensures forall j :: j in row.identifiers && j in m.identifiers ==> m.identifiers[j] == id
    ensures forall f <- FamilyOf(m) :: Meets(f, row) ==> f == e
  {
    assert !Bars(FamilyOf(m), e, row);
    k, id := MetIsBound(m, e, row);
    forall j | j in row.identifiers && j in m.identifiers ensures m.identifiers[j] == id {
      OwnerMeets(m, row, j);
      MetByOwner(m, m.identifiers[j], row, k);
    }
  }

  /** Putting a record under an id replaces what was there. */
  lemma FamilyAfterPut(m: Memory, issuer: Issuer, m': Memory)
    requires m'.issuers == m.issuers[issuer.id := issuer]
    ensures forall e :: e in FamilyOf(m') <==>
              e == KeptOf(issuer) || exists id :: id in m.issuers && id != issuer.id && KeptOf(m.issuers[id]) == e
  {
    forall e | e in FamilyOf(m')
      ensures e == KeptOf(issuer) || exists id :: id in m.issuers && id != issuer.id && KeptOf(m.issuers[id]) == e {
      var id :| id in m'.issuers && KeptOf(m'.issuers[id]) == e;
    }
    forall id | id in m.issuers && id != issuer.id ensures KeptOf(m.issuers[id]) in FamilyOf(m') {
      assert id in m'.issuers;
    }
    assert issuer.id in m'.issuers;
  }

  lemma SeededKept(row: Row, id: IssuerId)
    requires Normal(row)
    ensures KeptOf(Seeded(row.(minted := id))) == Kept(row.displayName, RowKeys(row))
  {
    SameKeys(row);
  }

  lemma FamilyAfterSeed(m: Memory, row: Row, id: IssuerId, m': Memory)
    requires Normal(row) && !Content(FamilyOf(m), row)
    requires m'.issuers == m.issuers[id := Seeded(row.(minted := id))]
    requires id in m.issuers ==> Meets(KeptOf(m.issuers[id]), row)
    requires forall j :: j in m.issuers && Meets(KeptOf(m.issuers[j]), row) ==> j == id
    ensures FamilyOf(m') == StepFamily(FamilyOf(m), row)
  {
    SeededKept(row, id);
    FamilyAfterPut(m, Seeded(row.(minted := id)), m');
  }

  /** One row does to the store what a step does to its family, and is counted exactly when that changes it. */
  ghost predicate Steps(m: Memory, l: Ledger, row: Row, m': Memory, l': Ledger) {
    && ValidMemory(m') && FamilyOf(m') == StepFamily(FamilyOf(m), row)
    && m'.issuers.Keys <= m.issuers.Keys + {row.minted}
    && if Content(FamilyOf(m), row) then m' == m && l'.upserted == l.upserted else l'.upserted == l.upserted + 1
  }

  lemma SeededRowSteps(m: Memory, l: Ledger, row: Row)
    requires ValidMemory(m) && Normal(row) && row.minted !in m.issuers
    requires row.identifiers != [] && forall e <- FamilyOf(m) :: !Meets(e, row)
    ensures var (m', l') := AfterRow(m, l, row, false); Steps(m, l, row, m', l')
  {
    UnmetRow(m, row);
    SeedOne(m, l, row);
    SeededKept(row, row.minted);
    assert row.(minted := row.minted) == row;
    UpsertHolds(m, row, row.minted, RowKeys(row));
    FamilyAfterSeed(m, row, row.minted, MemoryModel.Upserted(m, Seeded(row)));
  }

  lemma ReplacingRowSteps(m: Memory, l: Ledger, row: Row, e: Kept)
    requires ValidMemory(m) && Normal(row) && !Content(FamilyOf(m), row) && e in FamilyOf(m) && Meets(e, row)
    ensures var (m', l') := AfterRow(m, l, row, false); Steps(m, l, row, m', l')
  {
    var k, id := MetOnce(m, row, e);
    UnsettledRowIsUpserted(m, l, row, k, id);
    UpsertHolds(m, row, id, RowKeys(row));
    forall j | j in m.issuers && Meets(KeptOf(m.issuers[j]), row) ensures j == id {
      var k' :| k' in KeptOf(m.issuers[j]).keys && k' in RowKeys(row);
      MetByOwner(m, j, row, k');
    }
    FamilyAfterSeed(m, row, id, MemoryModel.Upserted(m, Seeded(row.(minted := id))));
  }

  /** A barred row writes nothing: its first bound key has an owner of another name, its own record, or a rival. */
  lemma BarredRowWritesNothing(m: Memory, l: Ledger, row: Row, e: Kept)
    requires ValidMemory(m) && Normal(row) && e in FamilyOf(m) && Bars(FamilyOf(m), e, row)
    ensures var (m', l') := AfterRow(m, l, row, false); m' == m && l'.upserted == l.upserted
  {
    var k, id := MetIsBound(m, e, row);
    var first := FindExistingOwner(m, row.identifiers).value;
    OwnerMeets(m, row, first);
    var owner := m.identifiers[first];
    if Quiet(m, row) {
      QuietRow(m, l, row, false);
    } else {
      var rival, other := AnotherOwner(m, row, e, k, id, owner);
      RivalRefuses(m, l, row, rival);
    }
  }

  lemma RivalRefuses(m: Memory, l: Ledger, row: Row, rival: Identifier)
    requires Normal(row) && rival in row.identifiers && rival in m.identifiers
    requires m.identifiers[rival] != Candidate(m, row).id
    ensures var (m', l') := AfterRow(m, l, row, false); m' == m && l'.upserted == l.upserted
  {
    SameKeys(row);
    assert rival in Candidate(m, row).identifiers;
  }

  /** A barred row whose first owner has its name but other keys also meets a record of some other owner. */
  lemma AnotherOwner(m: Memory, row: Row, e: Kept, k: Identifier, id: IssuerId, owner: IssuerId)
    returns (rival: Identifier, other: IssuerId)
    requires ValidMemory(m) && Normal(row) && Bars(FamilyOf(m), e, row) && e in FamilyOf(m)
    requires k in row.identifiers && k in e.keys && k in m.identifiers && m.identifiers[k] == id
    requires id in m.issuers && KeptOf(m.issuers[id]) == e
    requires FindExistingOwner(m, row.identifiers).Some? && !Renamed(m, row) && !Settled(m, row)
    requires owner == m.identifiers[FindExistingOwner(m, row.identifiers).value] && owner in m.issuers
    ensures rival in row.identifiers && rival in m.identifiers && m.identifiers[rival] == other != owner
  {
    SameKeys(row);
    if id != owner {
      return k, id;
    }
    assert IdentifierSet(Candidate(m, row)) == RowKeys(row);
    var f :| f in FamilyOf(m) && f != e && Meets(f, row);
    rival, other := MetIsBound(m, f, row);
  }

  lemma RowSteps(m: Memory, l: Ledger, row: Row)
    requires ValidMemory(m) && Normal(row) && row.minted !in m.issuers
    ensures var (m', l') := AfterRow(m, l, row, false); Steps(m, l, row, m', l')
  {
    if Content(FamilyOf(m), row) {
      if row.identifiers != [] {
        var e :| e in FamilyOf(m) && Bars(FamilyOf(m), e, row);
        BarredRowWritesNothing(m, l, row, e);
      }
    } else if e :| e in FamilyOf(m) && Meets(e, row) {
      ReplacingRowSteps(m, l, row, e);
    } else {
      SeededRowSteps(m, l, row);
    }
  }

  // ---- runs ----

  /** Ids minted for the rows: new to the store and to each other. */
  ghost predicate FreshIds(m: Memory, rows: seq<Row>) {
    && (forall i :: 0 <= i < |rows| ==> Normal(rows[i]) && rows[i].minted !in m.issuers)
    && forall i, j :: 0 <= i < j < |rows| ==> rows[i].minted != rows[j].minted
  }

  /** A run does to the store what the fold does to its family, and counts what changes it. */
  ghost predicate RunsAs(m: Memory, rows: seq<Row>, m': Memory, l': Ledger) {
    && ValidMemory(m') && FamilyOf(m') == FoldFamily(FamilyOf(m), rows)
    && l'.upserted == Changes(FamilyOf(m), rows)
    && m'.issuers.Keys <= m.issuers.Keys + MintedIds(rows)
  }

  lemma {:induction false} RunRefinesFold(m: Memory, rows: seq<Row>)
    requires ValidMemory(m) && FreshIds(m, rows)
    ensures var (m', l') := AfterRows(m, EmptyLedger, rows, false); RunsAs(m, rows, m', l')
  {
    if rows != [] {
      var n := |rows| - 1;
      var done, row := rows[..n], rows[n];
      RunRefinesFold(m, done);
      var (m1, l1) := AfterRows(m, EmptyLedger, done, false);
      assert row.minted !in MintedIds(done);
      RowSteps(m1, l1, row);
      LastRow(m, EmptyLedger, rows, done, row, false, (m1, l1));
      RunOneMore(m, rows, done, row, m1, l1, AfterRow(m1, l1, row, false).0, AfterRow(m1, l1, row, false).1);
    }
  }

  lemma RunOneMore(m: Memory, rows: seq<Row>, done: seq<Row>, row: Row, m1: Memory, l1: Ledger, m2: Memory, l2: Ledger)
    requires rows != [] && rows[..|rows| - 1] == done && rows[|rows| - 1] == row
    requires RunsAs(m, done, m1, l1) && Steps(m1, l1, row, m2, l2)
    ensures RunsAs(m, rows, m2, l2)
  {
    assert rows == done + [row];
    assert MintedIds(rows) == MintedIds(done) + {row.minted};
  }

  /** A run that changes nothing is one whose rows are all content with what was there. */
  lemma {:induction false} NoChangesIff(family: set<Kept>, rows: seq<Row>)
    ensures Changes(family, rows) == 0 <==> forall row <- rows :: Content(family, row)
    ensures Changes(family, rows) == 0 ==> FoldFamily(family, rows) == family
  {
    if rows != [] {
      var n := |rows| - 1;
      NoChangesIff(family, rows[..n]);
      Seqs.SplitLast(rows);
    }
  }

  lemma {:induction false} ContentRunIsQuiet(m: Memory, l: Ledger, rows: seq<Row>)
    requires ValidMemory(m) && forall row <- rows :: Normal(row) && Content(FamilyOf(m), row)
    ensures AfterRows(m, l, rows, false).0 == m
  {
    if rows != [] {
      var n := |rows| - 1;
      Seqs.SplitLast(rows);
      ContentRunIsQuiet(m, l, rows[..n]);
      ContentRowIsQuiet(m, AfterRows(m, l, rows[..n], false).1, rows[n]);
    }
  }

  lemma ContentRowIsQuiet(m: Memory, l: Ledger, row: Row)
    requires ValidMemory(m) && Normal(row) && Content(FamilyOf(m), row)
    ensures var (m', l') := AfterRow(m, l, row, false); m' == m && l'.upserted == l.upserted
  {
    if row.identifiers != [] {
      var e :| e in FamilyOf(m) && Bars(FamilyOf(m), e, row);
      BarredRowWritesNothing(m, l, row, e);
    }
  }

  /** The same rows, whatever ids they would be minted now. */
  ghost predicate SameRows(rows: seq<Row>, again: seq<Row>) {
    |again| == |rows| && forall i :: 0 <= i < |rows| ==> SameRow(rows[i], again[i])
  }

  lemma SameRowsContent(family: set<Kept>, rows: seq<Row>, again: seq<Row>)
    requires SameRows(rows, again)
    ensures (forall row <- rows :: Content(family, row)) <==> (forall row <- again :: Content(family, row))
  {
    forall i | 0 <= i < |rows| ensures Content(family, rows[i]) <==> Content(family, again[i]) {
      SameRowContent(family, rows[i], again[i]);
    }
    if forall row <- rows :: Content(family, row) {
      forall row | row in again ensures Content(family, row) {
        var i :| 0 <= i < |again| && again[i] == row;
        assert rows[i] in rows;
      }
    }
    if forall row <- again :: Content(family, row) {
      forall row | row in rows ensures Content(family, row) {
        var i :| 0 <= i < |rows| && rows[i] == row;
        assert again[i] in again;
      }
    }
  }

  lemma SameRowContent(family: set<Kept>, row: Row, again: Row)
    requires SameRow(row, again)
    ensures Content(family, row) <==> Content(family, again)
  {
    assert RowKeys(row) == RowKeys(again);
    forall e ensures Meets(e, row) <==> Meets(e, again) {
    }
    forall e ensures Bars(family, e, row) <==> Bars(family, e, again) {
    }
  }

  /**
   * For any list and any store: a second run upserts nothing if and only if every row is content with the family
   * the first run leaves, which the names and key sets of the store and the list determine.
   */
  lemma RerunUpsertsNothingIff(m: Memory, rows: seq<Row>, again: seq<Row>)
    requires ValidMemory(m) && FreshIds(m, rows) && SameRows(rows, again)
    requires FreshIds(AfterRows(m, EmptyLedger, rows, false).0, again)
    ensures var m' := AfterRows(m, EmptyLedger, rows, false).0;
            var (m'', l) := AfterRows(m', EmptyLedger, again, false);
            && (l.upserted == 0 <==> forall row <- rows :: Content(FoldFamily(FamilyOf(m), rows), row))
            && (l.upserted == 0 ==> m'' == m')
  {
    var m' := AfterRows(m, EmptyLedger, rows, false).0;
    RunRefinesFold(m, rows);
    RunRefinesFold(m', again);
    NoChangesIff(FamilyOf(m'), again);
    SameRowsContent(FamilyOf(m'), rows, again);
    if forall row <- again :: Content(FamilyOf(m'), row) {
      assert forall row <- again :: Normal(row);
      ContentRunIsQuiet(m', EmptyLedger, again);
    }
  }

  // ---- lists of rows new to the store ----

  /** No record of the base meets any of the rows. */
  ghost predicate Foreign(base: set<Kept>, rows: seq<Row>) {
    forall e <- base, row <- rows :: !Meets(e, row)
  }

  lemma ForeignContent(base: set<Kept>, family: set<Kept>, row: Row)
    requires forall e <- base :: !Meets(e, row)
    ensures Content(base + family, row) <==> Content(family, row)
    ensures StepFamily(base + family, row) == base + StepFamily(family, row)
  {
    forall e | e in family ensures Bars(base + family, e, row) <==> Bars(family, e, row) {
    }
    assert Apart(base + family, row) == base + Apart(family, row);
  }

  lemma {:induction false} ForeignFold(base: set<Kept>, rows: seq<Row>)
    requires Foreign(base, rows)
    ensures FoldFamily(base, rows) == base + FoldFamily({}, rows)
  {
    if rows != [] {
      var n := |rows| - 1;
      Seqs.SplitLast(rows);
      ForeignFold(base, rows[..n]);
      ForeignContent(base, FoldFamily({}, rows[..n]), rows[n]);
    }
  }

  lemma NewRowsAreForeign(m: Memory, rows: seq<Row>)
    requires ValidMemory(m) && forall row <- rows :: NewTo(m, row)
    ensures Foreign(FamilyOf(m), rows)
  {
    forall e, row | e in FamilyOf(m) && row in rows ensures !Meets(e, row) {
      if Meets(e, row) {
        var k, id := MetIsBound(m, e, row);
      }
    }
  }

  /** For rows new to the store the list alone decides. */
  lemma NewListSettlesIff(m: Memory, rows: seq<Row>, again: seq<Row>)
    requires ValidMemory(m) && Fresh(m, rows) && SameRows(rows, again)
    requires FreshIds(AfterRows(m, EmptyLedger, rows, false).0, again)
    ensures var m' := AfterRows(m, EmptyLedger, rows, false).0;
            AfterRows(m', EmptyLedger, again, false).1.upserted == 0
            <==> forall row <- rows :: Content(FoldFamily({}, rows), row)
  {
    RerunUpsertsNothingIff(m, rows, again);
    NewRowsAreForeign(m, rows);
    ForeignFold(FamilyOf(m), rows);
    forall row | row in rows
      ensures Content(FamilyOf(m) + FoldFamily({}, rows), row) <==> Content(FoldFamily({}, rows), row) {
      ForeignContent(FamilyOf(m), FoldFamily({}, rows), row);
    }
  }

  /**
   * Overlapping rows of one name that settle all the same: with keys x, then y, then both, the third row meets two
   * records in every run and is refused by each.
   */
  lemma OverlapMaySettle(m: Memory, x: Identifier, y: Identifier, a: Row, b: Row, c: Row, again: seq<Row>)
    requires ValidMemory(m) && x != y && a.identifiers == [x] && b.identifiers == [y] && c.identifiers == [x, y]
    requires a.displayName == b.displayName == c.displayName && Fresh(m, [a, b, c]) && SameRows([a, b, c], again)
    requires FreshIds(AfterRows(m, EmptyLedger, [a, b, c], false).0, again)
    ensures Clash(a, c) && Clash(b, c)
    ensures AfterRows(AfterRows(m, EmptyLedger, [a, b, c], false).0, EmptyLedger, again, false).1.upserted == 0
  {
    var rows := [a, b, c];
    var e, f := Kept(a.displayName, {x}), Kept(a.displayName, {y});
    OverlapKeys(x, y, a, b, c);
    TwoThenBoth(a, b, c, e, f);
    NewListSettlesIff(m, rows, again);
  }

  lemma OverlapKeys(x: Identifier, y: Identifier, a: Row, b: Row, c: Row)
    requires x != y && a.identifiers == [x] && b.identifiers == [y] && c.identifiers == [x, y]
    requires a.displayName == b.displayName == c.displayName
    ensures RowKeys(a) == {x} && RowKeys(b) == {y} && RowKeys(c) == {x, y}
    ensures Clash(a, c) && Clash(b, c)
  {
    assert [x, y][0] == x && [x, y][1] == y;
    assert x in RowKeys(c) && y in RowKeys(c) && x in RowKeys(a) && y in RowKeys(b);
  }

  lemma TwoThenBoth(a: Row, b: Row, c: Row, e: Kept, f: Kept)
    requires a.identifiers != [] && b.identifiers != [] && RowKeys(a) !! RowKeys(b)
    requires e == Kept(a.displayName, RowKeys(a)) && f == Kept(b.displayName, RowKeys(b)) && e != f
    requires RowKeys(c) == RowKeys(a) + RowKeys(b)
    ensures FoldFamily({}, [a, b, c]) == {e, f}
    ensures forall row <- [a, b, c] :: Content({e, f}, row)
  {
    assert [a, b, c][..2] == [a, b] && [a, b][..1] == [a] && [a][..0] == [];
    assert a.identifiers[0] in RowKeys(a) && b.identifiers[0] in RowKeys(b);
    assert FoldFamily({}, [a]) == {e};
    assert !Meets(e, b) && Meets(e, a) && Meets(f, b) && Meets(e, c) && Meets(f, c);
    assert FoldFamily({}, [a, b]) == {e, f};
    assert Bars({e, f}, e, a) && Bars({e, f}, f, b) && Bars({e, f}, e, c);
  }
}
