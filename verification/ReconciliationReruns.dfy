/** Running the seeding loop again: when it changes nothing, and when it never stops changing things. */
module ReconciliationReruns {
  import opened Wrappers
  import opened Sorting
  import opened Entities
  import opened MemoryModel
  import opened Reconciliation
  import opened ReconciliationRuns
  import Seqs

  // ---- rows that agree where they share a name ----

  /** Rows of one name have the same keys or none in common. */
  ghost predicate Compatible(a: Row, b: Row) {
    a.displayName == b.displayName ==> RowKeys(a) == RowKeys(b) || RowKeys(a) !! RowKeys(b)
  }

  ghost predicate AllCompatible(rows: seq<Row>) {
    forall i, j :: 0 <= i < |rows| && 0 <= j < |rows| ==> Compatible(rows[i], rows[j])
  }

  /** A row the store knows nothing of: no key bound, and the id it would be minted free. */
  ghost predicate NewTo(m: Memory, row: Row) {
    && Normal(row) && row.minted !in m.issuers
    && forall k :: k in row.identifiers ==> k !in m.identifiers
  }

  /** Every row new to the store, and no two of them minted the same id. */
  ghost predicate Fresh(m: Memory, rows: seq<Row>) {
    && (forall i :: 0 <= i < |rows| ==> NewTo(m, rows[i]))
    && forall i, j :: 0 <= i < j < |rows| ==> rows[i].minted != rows[j].minted
  }

  ghost predicate Touched(m: Memory, row: Row) {
    exists k <- row.identifiers :: k in m.identifiers
  }

  /** The record that a row of the list was seeded as, untouched since. */
  ghost predicate SeededBy(m: Memory, id: IssuerId, rows: seq<Row>) {
    id in m.issuers && exists row <- rows :: row.minted == id && m.issuers[id] == Seeded(row)
  }

  /** What seeding has made of a store: its own records, some rows' records, and a key of every row bound. */
  ghost predicate Grown(m: Memory, m': Memory, done: seq<Row>) {
    && ValidMemory(m')
    && (forall id :: id in m.issuers ==> id in m'.issuers && m'.issuers[id] == m.issuers[id])
    && (forall id :: id in m'.issuers ==> id in m.issuers || SeededBy(m', id, done))
    && (forall row <- done :: row.identifiers != [] ==> Touched(m', row))
  }

  /** Processing the row would write nothing. */
  ghost predicate Quiet(m: Memory, row: Row) {
    row.identifiers == [] || Renamed(m, row) || Settled(m, row)
  }

  lemma FoundOwner(m: Memory, m': Memory, done: seq<Row>, row: Row) returns (r: Row, k: Identifier)
    requires ValidMemory(m) && Grown(m, m', done) && NewTo(m, row) && Touched(m', row)
    ensures FindExistingOwner(m', row.identifiers) == Some(k) && k in row.identifiers
    ensures r in done && m'.identifiers[k] == r.minted && r.minted in m'.issuers
    ensures m'.issuers[r.minted] == Seeded(r) && k in r.record
  {
    k := FindExistingOwner(m', row.identifiers).value;
    var id := m'.identifiers[k];
    assert Owns(m', id, k);
    if id in m.issuers {
      assert Owns(m, id, k);
    }
    assert SeededBy(m', id, done);
    r :| r in done && r.minted == id && m'.issuers[id] == Seeded(r);
  }

  lemma SameNameSettled(m: Memory, row: Row, r: Row, k: Identifier)
    requires Normal(row) && Normal(r) && Compatible(row, r) && row.displayName == r.displayName
    requires FindExistingOwner(m, row.identifiers) == Some(k) && k in row.identifiers && k in r.record
    requires k in m.identifiers && m.identifiers[k] == r.minted && r.minted in m.issuers
        && m.issuers[r.minted] == Seeded(r)
    ensures Settled(m, row)
  {
    SameKeys(row);
    SameKeys(r);
    assert k in RowKeys(row) && k in RowKeys(r);
    assert RowKeys(row) == RowKeys(r);
    assert IdentifierSet(Seeded(r)) == RowKeys(r);
    assert Candidate(m, row) == Issuer(r.minted, None, None, row.displayName, row.record);
    assert IdentifierSet(Candidate(m, row)) == RowKeys(row);
  }

  lemma TouchedIsQuiet(m: Memory, m': Memory, done: seq<Row>, row: Row)
    requires ValidMemory(m) && Grown(m, m', done) && NewTo(m, row) && Touched(m', row)
    requires forall r <- done :: Normal(r) && Compatible(row, r)
    ensures Quiet(m', row)
  {
    var r, k := FoundOwner(m, m', done, row);
    if r.displayName == row.displayName {
      SameNameSettled(m', row, r, k);
    }
  }

  lemma QuietRow(m: Memory, l: Ledger, row: Row, dryRun: bool)
    requires Quiet(m, row)
    ensures var (m', l') := AfterRow(m, l, row, dryRun);
            m' == m && l'.upserted == l.upserted && l'.skipped == l.skipped + 1 && l'.provenance == l.provenance
  {
  }

  lemma GrowSeeded(m: Memory, m': Memory, done: seq<Row>, row: Row)
    requires ValidMemory(m) && Grown(m, m', done) && NewTo(m, row) && row.identifiers != [] && !Touched(m', row)
    requires row.minted !in m'.issuers
    ensures Grown(m, MemoryModel.Upserted(m', Seeded(row)), done + [row])
  {
    var after := MemoryModel.Upserted(m', Seeded(row));
    SeedOneKeepsValid(m', row);
    SameKeys(row);
    assert row in done + [row] && forall r <- done :: r in done + [row];
    forall id | id in after.issuers ensures id in m.issuers || SeededBy(after, id, done + [row]) {
      if id != row.minted && id !in m.issuers {
        assert SeededBy(m', id, done);
      }
    }
    forall r | r in done + [row] && r.identifiers != [] ensures Touched(after, r) {
      if r in done {
        TouchedStays(m', row, r);
      } else {
        assert row.identifiers[0] in row.identifiers;
      }
    }
  }

  lemma TouchedStays(m: Memory, row: Row, r: Row)
    requires row.minted !in m.issuers && Touched(m, r)
    ensures Touched(MemoryModel.Upserted(m, Seeded(row)), r)
  {
    var k :| k in r.identifiers && k in m.identifiers;
    KeysStay(m, row, k);
  }

  lemma KeysStay(m: Memory, row: Row, k: Identifier)
    requires row.minted !in m.issuers && k in m.identifiers
    ensures k in MemoryModel.Upserted(m, Seeded(row)).identifiers
  {
  }

  lemma GrowQuiet(m: Memory, m': Memory, done: seq<Row>, row: Row)
    requires Grown(m, m', done) && (row.identifiers == [] || Touched(m', row))
    ensures Grown(m, m', done + [row])
  {
    assert forall r <- done :: r in done + [row];
    forall id | id in m'.issuers ensures id in m.issuers || SeededBy(m', id, done + [row]) {
      if id !in m.issuers {
        assert SeededBy(m', id, done);
      }
    }
  }

  ghost predicate Follows(row: Row, done: seq<Row>) {
    forall r <- done :: Normal(r) && Compatible(row, r) && r.minted != row.minted
  }

  lemma FollowsEarlier(m: Memory, rows: seq<Row>, n: nat)
    requires Fresh(m, rows) && AllCompatible(rows) && n < |rows|
    ensures Follows(rows[n], rows[..n]) && NewTo(m, rows[n])
  {
  }

  lemma GrowOne(m: Memory, m': Memory, l: Ledger, done: seq<Row>, row: Row)
    requires ValidMemory(m) && Grown(m, m', done) && NewTo(m, row) && Follows(row, done)
    ensures Grown(m, AfterRow(m', l, row, false).0, done + [row])
  {
    if row.identifiers == [] || Touched(m', row) {
      if row.identifiers != [] {
        TouchedIsQuiet(m, m', done, row);
      }
      QuietRow(m', l, row, false);
      GrowQuiet(m, m', done, row);
    } else {
      assert row.minted !in m'.issuers by {
        assert row.minted in m'.issuers ==> SeededBy(m', row.minted, done);
      }
      SeedOne(m', l, row);
      GrowSeeded(m, m', done, row);
    }
  }

  lemma {:induction false} GrownAfter(m: Memory, rows: seq<Row>)
    requires ValidMemory(m) && Fresh(m, rows) && AllCompatible(rows)
    ensures Grown(m, AfterRows(m, EmptyLedger, rows, false).0, rows)
  {
    if rows != [] {
      var n := |rows| - 1;
      var done, row := rows[..n], rows[n];
      assert Fresh(m, done) && AllCompatible(done);
      GrownAfter(m, done);
      FollowsEarlier(m, rows, n);
      var at := AfterRows(m, EmptyLedger, done, false);
      GrowOne(m, at.0, at.1, done, row);
      LastRow(m, EmptyLedger, rows, done, row, false, at);
      Seqs.SplitLast(rows);
    }
  }

  lemma {:induction false} QuietRun(m: Memory, rows: seq<Row>, dryRun: bool)
    requires forall row <- rows :: Quiet(m, row)
    ensures var (m', l) := AfterRows(m, EmptyLedger, rows, dryRun);
            m' == m && l.upserted == 0 && l.skipped == |rows| && l.provenance == []
  {
    if rows != [] {
      var n := |rows| - 1;
      Seqs.SplitLast(rows);
      QuietRun(m, rows[..n], dryRun);
      assert rows[n] in rows;
      QuietRow(m, AfterRows(m, EmptyLedger, rows[..n], dryRun).1, rows[n], dryRun);
    }
  }

  lemma SameRowQuiet(m: Memory, row: Row, again: Row)
    requires SameRow(row, again) && row.identifiers != [] && Touched(m, row) && Quiet(m, row)
    ensures Quiet(m, again)
  {
    assert FindExistingOwner(m, row.identifiers).Some?;
  }

  /**
   * Seeding twice is seeding once, whatever ids the second run would mint, if any two rows of one name have the
   * same keys or none in common. Rows of different names may share keys, and rows may repeat.
   */
  lemma CompatibleRowsSettle(m: Memory, rows: seq<Row>, again: seq<Row>, dryRun: bool)
    requires ValidMemory(m) && Fresh(m, rows) && AllCompatible(rows)
    requires |again| == |rows| && forall i :: 0 <= i < |rows| ==> SameRow(rows[i], again[i])
    ensures var m' := AfterRows(m, EmptyLedger, rows, false).0;
            var (m'', l) := AfterRows(m', EmptyLedger, again, dryRun);
            m'' == m' && l.upserted == 0 && l.skipped == |rows| && l.provenance == []
  {
    var m' := AfterRows(m, EmptyLedger, rows, false).0;
    GrownAfter(m, rows);
    forall row | row in again ensures Quiet(m', row) {
      var i :| 0 <= i < |again| && again[i] == row;
      assert rows[i] in rows && SameRow(rows[i], again[i]);
      if rows[i].identifiers != [] {
        forall r | r in rows ensures Normal(r) && Compatible(rows[i], r) {
          var j :| 0 <= j < |rows| && rows[j] == r;
        }
        TouchedIsQuiet(m, m', rows, rows[i]);
        SameRowQuiet(m', rows[i], row);
      }
    }
    QuietRun(m', again, dryRun);
  }

  // ---- two rows of one name that overlap without agreeing ----

  /** Rows of one name with a key in common and different key sets. */
  ghost predicate Clash(a: Row, b: Row) {
    a.displayName == b.displayName && !Compatible(a, b)
  }

  /** A row whose keys lead nowhere else but is not what its owner's record says replaces that record. */
  lemma UnsettledRowIsUpserted(m: Memory, l: Ledger, row: Row, k: Identifier, id: IssuerId)
    requires ValidMemory(m) && Normal(row) && id in m.issuers && m.issuers[id].displayName == row.displayName
    requires k in row.identifiers && k in m.identifiers
    requires forall j :: j in row.identifiers && j in m.identifiers ==> m.identifiers[j] == id
    requires IdentifierSet(m.issuers[id]) != RowKeys(row)
    ensures AfterRow(m, l, row, false)
            == (MemoryModel.Upserted(m, Seeded(row.(minted := id))), ApplyOutcome(l, Outcome.Upserted, row.provenance))
  {
    SameKeys(row);
    assert IdentifierSet(Seeded(row)) == RowKeys(row);
    assert Candidate(m, row) == Seeded(row.(minted := id));
  }

  /** The store as it is with the row's record under the id, its keys and no other of `known` bound. */
  ghost predicate Holds(m: Memory, id: IssuerId, row: Row, known: set<Identifier>) {
    && ValidMemory(m) && Normal(row) && id in m.issuers && m.issuers[id] == Seeded(row.(minted := id))
    && forall j :: j in known ==> if j in row.identifiers then j in m.identifiers && m.identifiers[j] == id
                                  else j !in m.identifiers
  }

  lemma UpsertHolds(m: Memory, row: Row, id: IssuerId, known: set<Identifier>)
    requires ValidMemory(m) && Normal(row) && RowKeys(row) <= known
    requires forall j :: j in known && j in m.identifiers ==> m.identifiers[j] == id
    ensures Holds(MemoryModel.Upserted(m, Seeded(row.(minted := id))), id, row, known)
  {
    var record := Seeded(row.(minted := id));
    SameKeys(row);
    assert forall k :: k in record.identifiers ==> k in RowKeys(row);
    assert FirstConflict(m.identifiers, record.identifiers, id).None?;
    UpsertKeepsValid(m, record);
    var m' := MemoryModel.Upserted(m, record);
    forall j | j in known ensures if j in row.identifiers then j in m'.identifiers && m'.identifiers[j] == id
                                  else j !in m'.identifiers {
      if j !in row.identifiers && j in m.identifiers {
        assert Owns(m, id, j);
        assert Released(m, record, j);
      }
    }
  }

  /** Whatever the ledger, the row is upserted and leaves this store. */
  ghost predicate Upserts(m: Memory, row: Row, m': Memory) {
    forall l :: AfterRow(m, l, row, false) == (m', ApplyOutcome(l, Outcome.Upserted, row.provenance))
  }

  lemma TwoUpserts(p: Provenance, q: Provenance)
    ensures ApplyOutcome(ApplyOutcome(EmptyLedger, Outcome.Upserted, p), Outcome.Upserted, q)
        == Ledger(2, 0, [], [p, q])
  {
  }

  lemma TwoRows(m: Memory, l: Ledger, a: Row, b: Row, m1: Memory, l1: Ledger, m2: Memory, l2: Ledger)
    requires AfterRow(m, l, a, false) == (m1, l1) && AfterRow(m1, l1, b, false) == (m2, l2)
    ensures AfterRows(m, l, [a, b], false) == (m2, l2)
  {
    assert [a, b][..1] == [a] && [a][..0] == [];
    assert AfterRows(m, l, [], false) == (m, l);
    assert AfterRows(m, l, [a], false) == (m1, l1);
  }

  lemma PairRun(m: Memory, a: Row, b: Row, m1: Memory, m2: Memory)
    requires Upserts(m, a, m1) && Upserts(m1, b, m2)
    ensures AfterRows(m, EmptyLedger, [a, b], false) == (m2, Ledger(2, 0, [], [a.provenance, b.provenance]))
  {
    var l1 := ApplyOutcome(EmptyLedger, Outcome.Upserted, a.provenance);
    var l2 := ApplyOutcome(l1, Outcome.Upserted, b.provenance);
    TwoRows(m, EmptyLedger, a, b, m1, l1, m2, l2);
    TwoUpserts(a.provenance, b.provenance);
  }

  lemma OneMore(m: Memory, rows: seq<Row>, row: Row, m1: Memory, l1: Ledger, m2: Memory, l2: Ledger)
    requires AfterRows(m, EmptyLedger, rows, false) == (m1, l1) && AfterRow(m1, l1, row, false) == (m2, l2)
    ensures AfterRows(m, EmptyLedger, rows + [row], false) == (m2, l2)
  {
    assert (rows + [row])[..|rows|] == rows;
  }

  lemma TripleRun(m: Memory, a: Row, b: Row, c: Row, m1: Memory, m2: Memory, m3: Memory)
    requires Upserts(m, a, m1) && Upserts(m1, b, m2) && Upserts(m2, c, m3)
    ensures AfterRows(m, EmptyLedger, [a, b, c], false).0 == m3
  {
    PairRun(m, a, b, m1, m2);
    var l := Ledger(2, 0, [], [a.provenance, b.provenance]);
    OneMore(m, [a, b], c, m2, l, m3, ApplyOutcome(l, Outcome.Upserted, c.provenance));
    assert [a, b, c] == [a, b] + [c];
  }

  /** From a store holding one of two clashing rows, the other one is upserted in its place. */
  lemma FlipTo(m: Memory, held: Row, next: Row, id: IssuerId, known: set<Identifier>) returns (m': Memory)
    requires Holds(m, id, held, known) && Normal(next) && Clash(held, next)
    requires RowKeys(held) <= known && RowKeys(next) <= known
    ensures m' == MemoryModel.Upserted(m, Seeded(next.(minted := id)))
    ensures Upserts(m, next, m') && Holds(m', id, next, known) && m'.issuers.Keys == m.issuers.Keys
  {
    m' := MemoryModel.Upserted(m, Seeded(next.(minted := id)));
    var k :| k in RowKeys(held) && k in RowKeys(next);
    SameKeys(held);
    assert IdentifierSet(m.issuers[id]) == RowKeys(held);
    forall j | j in next.identifiers && j in m.identifiers ensures m.identifiers[j] == id {
      assert j in RowKeys(next);
    }
    forall l ensures AfterRow(m, l, next, false) == (m', ApplyOutcome(l, Outcome.Upserted, next.provenance)) {
      UnsettledRowIsUpserted(m, l, next, k, id);
    }
    UpsertHolds(m, next, id, known);
  }

  /** The rows of one run after another: the same two rows each time, whatever ids they would be minted. */
  ghost predicate Repeating(batch: nat -> (Row, Row), a: Row, b: Row) {
    forall n :: SameRow(a, batch(n).0) && SameRow(b, batch(n).1)
  }

  ghost predicate RunsTo(before: Memory, rows: (Row, Row), after: Memory) {
    AfterRows(before, EmptyLedger, [rows.0, rows.1], false).0 == after
  }

  /** The stores before the first run and after each one. */
  ghost predicate Runs(states: seq<Memory>, batch: nat -> (Row, Row)) {
    states != [] && forall i :: 0 <= i < |states| - 1 ==> RunsTo(states[i], batch(i), states[i + 1])
  }

  lemma HoldsSame(m: Memory, id: IssuerId, row: Row, again: Row, known: set<Identifier>)
    requires SameRow(row, again) && Normal(row)
    ensures Holds(m, id, row, known) <==> Holds(m, id, again, known)
    ensures Normal(again) && RowKeys(again) == RowKeys(row)
  {
  }

  /** One run over two clashing rows from a store that holds the second: both are upserted, and it holds it again. */
  lemma FlipTwice(m: Memory, a: Row, b: Row, id: IssuerId, known: set<Identifier>)
    requires Holds(m, id, b, known) && Normal(a) && Clash(b, a) && known == RowKeys(a) + RowKeys(b)
    ensures var (m', l) := AfterRows(m, EmptyLedger, [a, b], false);
            m' == m && l == Ledger(2, 0, [], [a.provenance, b.provenance])
  {
    var m1 := FlipTo(m, b, a, id, known);
    var m2 := FlipTo(m1, a, b, id, known);
    PairRun(m, a, b, m1, m2);
    FlippedBack(m, m1, m2, a, b, id, known);
  }

  /** Putting the other record in and this one back leaves every record and every key as it was. */
  lemma FlippedBack(m: Memory, m1: Memory, m2: Memory, a: Row, b: Row, id: IssuerId, known: set<Identifier>)
    requires Holds(m, id, b, known) && Holds(m1, id, a, known) && Holds(m2, id, b, known)
    requires known == RowKeys(a) + RowKeys(b)
    requires m1 == MemoryModel.Upserted(m, Seeded(a.(minted := id)))
    requires m2 == MemoryModel.Upserted(m1, Seeded(b.(minted := id)))
    ensures m2 == m
  {
    forall k ensures (k in m2.identifiers <==> k in m.identifiers)
                     && (k in m.identifiers ==> m2.identifiers[k] == m.identifiers[k]) {
      UnknownKeysStay(m, m1, m2, a, b, id, k);
    }
    SameEntries(m.identifiers, m2.identifiers);
    PutBack(m.issuers, id, Seeded(a.(minted := id)), Seeded(b.(minted := id)));
  }

  lemma SameEntries(f: map<Identifier, IssuerId>, g: map<Identifier, IssuerId>)
    requires forall k :: (k in g <==> k in f) && (k in f ==> g[k] == f[k])
    ensures f == g
  {
  }

  lemma PutBack(issuers: map<IssuerId, Issuer>, id: IssuerId, other: Issuer, own: Issuer)
    requires id in issuers && issuers[id] == own
    ensures issuers[id := other][id := own] == issuers
  {
  }

  lemma UnknownKeysStay(m: Memory, m1: Memory, m2: Memory, a: Row, b: Row, id: IssuerId, k: Identifier)
    requires Holds(m, id, b, RowKeys(a) + RowKeys(b)) && Holds(m2, id, b, RowKeys(a) + RowKeys(b))
    requires Holds(m1, id, a, RowKeys(a) + RowKeys(b))
    requires m1 == MemoryModel.Upserted(m, Seeded(a.(minted := id)))
    requires m2 == MemoryModel.Upserted(m1, Seeded(b.(minted := id)))
    ensures k in m2.identifiers <==> k in m.identifiers
    ensures k in m.identifiers ==> m2.identifiers[k] == m.identifiers[k]
  {
    SameKeys(a);
    SameKeys(b);
    if k !in RowKeys(a) + RowKeys(b) {
      OthersKeep(m, Seeded(a.(minted := id)), k);
      OthersKeep(m1, Seeded(b.(minted := id)), k);
    }
  }

  /** A key of neither the old nor the new record is bound as before. */
  lemma OthersKeep(m: Memory, issuer: Issuer, k: Identifier)
    requires issuer.id in m.issuers && k !in m.issuers[issuer.id].identifiers && k !in issuer.identifiers
    ensures var m' := MemoryModel.Upserted(m, issuer);
            && (k in m'.identifiers <==> k in m.identifiers)
            && (k in m.identifiers ==> m'.identifiers[k] == m.identifiers[k])
  {
  }

  lemma FirstRun(m: Memory, a: Row, b: Row)
    requires ValidMemory(m) && NewTo(m, a) && Normal(b) && Clash(a, b) && a.identifiers != []
    requires forall k :: k in RowKeys(a) + RowKeys(b) ==> k !in m.identifiers
    ensures var (m', l) := AfterRows(m, EmptyLedger, [a, b], false);
            Holds(m', a.minted, b, RowKeys(a) + RowKeys(b)) && l == Ledger(2, 0, [], [a.provenance, b.provenance])
  {
    var known := RowKeys(a) + RowKeys(b);
    var m1 := SeedNew(m, a, known);
    var m2 := FlipTo(m1, a, b, a.minted, known);
    PairRun(m, a, b, m1, m2);
  }

  /** A row the store knows nothing of is upserted as its own record. */
  lemma SeedNew(m: Memory, a: Row, known: set<Identifier>) returns (m': Memory)
    requires ValidMemory(m) && NewTo(m, a) && a.identifiers != [] && RowKeys(a) <= known
    requires forall k :: k in known ==> k !in m.identifiers
    ensures m' == MemoryModel.Upserted(m, Seeded(a))
    ensures Upserts(m, a, m') && Holds(m', a.minted, a, known) && m'.issuers.Keys == m.issuers.Keys + {a.minted}
  {
    m' := MemoryModel.Upserted(m, Seeded(a));
    forall l ensures AfterRow(m, l, a, false) == (m', ApplyOutcome(l, Outcome.Upserted, a.provenance)) {
      SeedOne(m, l, a);
    }
    assert a.(minted := a.minted) == a;
    UpsertHolds(m, a, a.minted, known);
  }

  /** Clashing rows a store knows nothing of, given to one run after another. */
  ghost predicate ClashingRuns(m: Memory, a: Row, b: Row, batch: nat -> (Row, Row)) {
    && ValidMemory(m) && NewTo(m, batch(0).0) && Normal(b) && Clash(a, b) && Repeating(batch, a, b)
    && forall k :: k in b.identifiers ==> k !in m.identifiers
  }

  /** A run over the pair that upserts both rows and logs both provenances. */
  ghost predicate UpsertsBoth(before: Memory, rows: (Row, Row), after: Memory) {
    AfterRows(before, EmptyLedger, [rows.0, rows.1], false)
    == (after, Ledger(2, 0, [], [rows.0.provenance, rows.1.provenance]))
  }

  /**
   * Clashing rows never settle: every run, the first and each one after any number of runs, upserts both of them
   * and logs both provenances, although from the second run on the store is left as it was found.
   */
  lemma {:induction false} ClashingRowsNeverSettle(states: seq<Memory>, a: Row, b: Row, batch: nat -> (Row, Row),
                                                   n: nat)
    requires Runs(states, batch) && ClashingRuns(states[0], a, b, batch) && n + 1 < |states|
    ensures UpsertsBoth(states[n], batch(n), states[n + 1])
    ensures n > 0 ==> states[n + 1] == states[n]
    ensures Holds(states[n + 1], batch(0).0.minted, b, RowKeys(a) + RowKeys(b))
  {
    assert RunsTo(states[n], batch(n), states[n + 1]);
    if n == 0 {
      FirstRunHolds(states[0], a, b, batch, states[1]);
    } else {
      ClashingRowsNeverSettle(states, a, b, batch, n - 1);
      LaterRun(states[0], a, b, batch, n, states[n], states[n + 1]);
    }
  }

  lemma FirstRunHolds(m: Memory, a: Row, b: Row, batch: nat -> (Row, Row), after: Memory)
    requires ClashingRuns(m, a, b, batch) && RunsTo(m, batch(0), after)
    ensures UpsertsBoth(m, batch(0), after) && Holds(after, batch(0).0.minted, b, RowKeys(a) + RowKeys(b))
  {
    var (x, y) := batch(0);
    assert SameRow(a, batch(0).0) && SameRow(b, batch(0).1);
    ClashSame(a, b, x, y);
    FirstRun(m, x, y);
    HoldsSame(after, x.minted, b, y, RowKeys(a) + RowKeys(b));
  }

  lemma LaterRun(m: Memory, a: Row, b: Row, batch: nat -> (Row, Row), n: nat, now: Memory, after: Memory)
    requires ClashingRuns(m, a, b, batch) && Holds(now, batch(0).0.minted, b, RowKeys(a) + RowKeys(b))
    requires RunsTo(now, batch(n), after)
    ensures UpsertsBoth(now, batch(n), after) && after == now
  {
    var (x, y) := batch(n);
    assert SameRow(a, batch(n).0) && SameRow(b, batch(n).1) && SameRow(a, batch(0).0);
    ClashSame(a, b, x, y);
    OneMoreRun(now, b, x, y, batch(0).0.minted, RowKeys(a) + RowKeys(b));
  }

  lemma OneMoreRun(now: Memory, b: Row, x: Row, y: Row, id: IssuerId, known: set<Identifier>)
    requires Holds(now, id, b, known) && Normal(b) && SameRow(b, y) && Normal(x) && Clash(y, x)
    requires known == RowKeys(x) + RowKeys(y)
    ensures AfterRows(now, EmptyLedger, [x, y], false) == (now, Ledger(2, 0, [], [x.provenance, y.provenance]))
  {
    HoldsSame(now, id, b, y, known);
    FlipTwice(now, x, y, id, known);
  }

  lemma ClashSame(a: Row, b: Row, x: Row, y: Row)
    requires Clash(a, b) && SameRow(a, x) && SameRow(b, y)
    ensures Clash(x, y) && Clash(y, x) && RowKeys(x) == RowKeys(a) && RowKeys(y) == RowKeys(b)
    ensures x.identifiers != [] && (Normal(a) <==> Normal(x)) && (Normal(b) <==> Normal(y))
  {
  }

  /** For two rows the condition is exact: a second run upserts nothing if and only if they do not clash. */
  lemma TwoRowsSettleIff(m: Memory, a: Row, b: Row, a': Row, b': Row)
    requires ValidMemory(m) && Fresh(m, [a, b]) && SameRow(a, a') && SameRow(b, b')
    ensures var m' := AfterRows(m, EmptyLedger, [a, b], false).0;
            AfterRows(m', EmptyLedger, [a', b'], false).1.upserted == 0 <==> !Clash(a, b)
  {
    assert [a, b][0] == a && [a, b][1] == b;
    if Clash(a, b) {
      TwoClash(m, a, b, a', b');
    } else {
      TwoSettle(m, a, b, a', b');
    }
  }

  lemma TwoClash(m: Memory, a: Row, b: Row, a': Row, b': Row)
    requires ValidMemory(m) && NewTo(m, a) && NewTo(m, b) && SameRow(a, a') && SameRow(b, b') && Clash(a, b)
    ensures var m' := AfterRows(m, EmptyLedger, [a, b], false).0;
            AfterRows(m', EmptyLedger, [a', b'], false).1.upserted == 2
  {
    var m' := AfterRows(m, EmptyLedger, [a, b], false).0;
    ClashSame(a, b, a', b');
    FirstRun(m, a, b);
    HoldsSame(m', a.minted, b, b', RowKeys(a) + RowKeys(b));
    FlipTwice(m', a', b', a.minted, RowKeys(a) + RowKeys(b));
  }

  lemma TwoSettle(m: Memory, a: Row, b: Row, a': Row, b': Row)
    requires ValidMemory(m) && Fresh(m, [a, b]) && SameRow(a, a') && SameRow(b, b') && !Clash(a, b)
    ensures var m' := AfterRows(m, EmptyLedger, [a, b], false).0;
            AfterRows(m', EmptyLedger, [a', b'], false).1.upserted == 0
  {
    PairCompatible(a, b);
    CompatibleRowsSettle(m, [a, b], [a', b'], false);
  }

  lemma PairCompatible(a: Row, b: Row)
    requires !Clash(a, b)
    ensures AllCompatible([a, b])
  {
  }

  // ---- three rows of one name: a second run even changes the store ----

  /** Keys x, then x and y, then y: the first run ends with y alone bound, so the next one mints x a second issuer. */
  lemma NamesakesMintAgain(m: Memory, x: Identifier, y: Identifier, a: Row, b: Row, c: Row, a': Row)
    returns (after: Memory, again: Memory)
    requires ValidMemory(m) && x != y && a.identifiers == [x] && b.identifiers == [x, y] && c.identifiers == [y]
    requires a.displayName == b.displayName == c.displayName && Normal(b) && Normal(c)
    requires NewTo(m, a) && NewTo(m, a') && SameRow(a, a') && a'.minted != a.minted && y !in m.identifiers
    ensures after == AfterRows(m, EmptyLedger, [a, b, c], false).0 && Upserts(after, a', again)
    ensures a.minted in after.issuers && a'.minted !in after.issuers
    ensures a.minted in again.issuers && a'.minted in again.issuers
    ensures again.issuers[a.minted].displayName == again.issuers[a'.minted].displayName == a.displayName
  {
    var known, id := {x, y}, a.minted;
    NamesakeKeys(x, y, a, b, c);
    var m1 := SeedNew(m, a, known);
    var m2 := FlipTo(m1, a, b, id, known);
    after := FlipTo(m2, b, c, id, known);
    TripleRun(m, a, b, c, m1, m2, after);
    assert x !in c.identifiers && x in known;
    again := MintSecond(after, id, c, known, a', x);
  }

  lemma NamesakeKeys(x: Identifier, y: Identifier, a: Row, b: Row, c: Row)
    requires x != y && a.identifiers == [x] && b.identifiers == [x, y] && c.identifiers == [y]
    requires a.displayName == b.displayName == c.displayName
    ensures RowKeys(a) == {x} && RowKeys(b) == {x, y} && RowKeys(c) == {y}
    ensures Clash(a, b) && Clash(b, c)
  {
    assert [x, y][0] == x && [x, y][1] == y;
    assert x in RowKeys(a) && x in RowKeys(b) && y in RowKeys(b) && y in RowKeys(c);
  }

  lemma MintSecond(m: Memory, id: IssuerId, c: Row, known: set<Identifier>, a: Row, x: Identifier) returns (m': Memory)
    requires Holds(m, id, c, known) && Normal(a) && a.identifiers == [x] && x in known && x !in c.identifiers
    requires a.minted !in m.issuers
    ensures Upserts(m, a, m') && id in m'.issuers && a.minted in m'.issuers
    ensures m'.issuers[id].displayName == c.displayName && m'.issuers[a.minted].displayName == a.displayName
    ensures x in m'.identifiers && m'.identifiers[x] == a.minted
    ensures forall k :: k in c.identifiers && k in known ==> k in m'.identifiers && m'.identifiers[k] == id
  {
    m' := MemoryModel.Upserted(m, Seeded(a));
    forall l ensures AfterRow(m, l, a, false) == (m', ApplyOutcome(l, Outcome.Upserted, a.provenance)) {
      SeedOne(m, l, a);
    }
  }

  // ---- the order of the rows ----

  lemma {:induction false} OthersUntouched(m: Memory, l: Ledger, rows: seq<Row>, dryRun: bool)
    ensures var m' := AfterRows(m, l, rows, dryRun).0;
            m'.marketPoints == m.marketPoints && m'.filings == m.filings && m'.relations == m.relations
  {
    if rows != [] {
      OthersUntouched(m, l, rows[..|rows| - 1], dryRun);
    }
  }

  lemma IndependentIsFresh(m: Memory, rows: seq<Row>)
    requires Independent(m, rows)
    ensures Fresh(m, rows) && AllCompatible(rows)
  {
    forall i, j | 0 <= i < j < |rows| ensures rows[i].minted != rows[j].minted && RowKeys(rows[i]) !! RowKeys(rows[j]) {
      assert IndependentRow(m, rows[..j], rows[j]);
      assert rows[..j][i] == rows[i] && rows[i] in rows[..j];
      forall k | k in RowKeys(rows[i]) ensures k in KeysOf(rows[..j]) {
      }
    }
    forall i | 0 <= i < |rows| ensures NewTo(m, rows[i]) {
      assert IndependentRow(m, rows[..i], rows[i]);
    }
  }

  function RowSet(rows: seq<Row>): set<Row> {
    set row <- rows
  }

  /** What seeding independent rows leaves, told without reference to their order. */
  ghost predicate Plants(m: Memory, rows: set<Row>, m': Memory) {
    && ValidMemory(m')
    && m'.issuers.Keys == m.issuers.Keys + (set row | row in rows :: row.minted)
    && (forall id :: id in m.issuers ==> id in m'.issuers && m'.issuers[id] == m.issuers[id])
    && (forall row <- rows :: row.minted in m'.issuers && m'.issuers[row.minted] == Seeded(row))
    && m'.marketPoints == m.marketPoints && m'.filings == m.filings && m'.relations == m.relations
  }

  lemma IndependentPlants(m: Memory, rows: seq<Row>)
    requires ValidMemory(m) && Independent(m, rows)
    ensures Plants(m, RowSet(rows), AfterRows(m, EmptyLedger, rows, false).0)
  {
    var (m', l) := AfterRows(m, EmptyLedger, rows, false);
    IndependentRowsAllUpserted(m, rows);
    IndependentIsFresh(m, rows);
    GrownAfter(m, rows);
    OthersUntouched(m, EmptyLedger, rows, false);
    SeededPlants(m, rows, m', l);
  }

  lemma SeededPlants(m: Memory, rows: seq<Row>, m': Memory, l: Ledger)
    requires AllUpserted(m, rows, m', l) && Grown(m, m', rows)
    requires m'.marketPoints == m.marketPoints && m'.filings == m.filings && m'.relations == m.relations
    ensures Plants(m, RowSet(rows), m')
  {
    forall row | row in rows ensures row.minted in m'.issuers && m'.issuers[row.minted] == Seeded(row) {
      assert RowSeeded(m', row);
    }
    assert MintedIds(rows) == set row | row in RowSet(rows) :: row.minted;
  }

  /** The index is determined by the records. */
  lemma SameIndex(a: Memory, b: Memory)
    requires ValidMemory(a) && ValidMemory(b) && a.issuers == b.issuers
    ensures a.identifiers == b.identifiers
  {
    forall k ensures k in a.identifiers <==> k in b.identifiers {
      if k in a.identifiers {
        assert Owns(a, a.identifiers[k], k);
        assert Owns(b, a.identifiers[k], k);
      }
      if k in b.identifiers {
        assert Owns(b, b.identifiers[k], k);
        assert Owns(a, b.identifiers[k], k);
      }
    }
    forall k | k in a.identifiers ensures a.identifiers[k] == b.identifiers[k] {
      assert Owns(a, a.identifiers[k], k);
      assert Owns(b, a.identifiers[k], k);
    }
  }

  lemma PlantsOnce(m: Memory, rows: set<Row>, a: Memory, b: Memory)
    requires Plants(m, rows, a) && Plants(m, rows, b)
    ensures a == b
  {
    assert a.issuers.Keys == b.issuers.Keys;
    forall id | id in a.issuers ensures a.issuers[id] == b.issuers[id] {
      if id !in m.issuers {
        var row :| row in rows && row.minted == id;
      }
    }
    assert a.issuers == b.issuers;
    SameIndex(a, b);
  }

  /** Independent rows leave the same store in whatever order they are seeded. */
  lemma SeedingOrderIsIrrelevant(m: Memory, rows: seq<Row>, other: seq<Row>)
    requires ValidMemory(m) && Independent(m, rows) && Independent(m, other)
    requires RowSet(rows) == RowSet(other)
    ensures AfterRows(m, EmptyLedger, rows, false).0 == AfterRows(m, EmptyLedger, other, false).0
  {
    IndependentPlants(m, rows);
    IndependentPlants(m, other);
    PlantsOnce(m, RowSet(rows), AfterRows(m, EmptyLedger, rows, false).0, AfterRows(m, EmptyLedger, other, false).0);
  }

  /** Clashing rows leave a different record depending on which comes last. */
  lemma ClashDependsOnOrder(m: Memory, a: Row, b: Row)
    requires ValidMemory(m) && NewTo(m, a) && NewTo(m, b) && Clash(a, b)
    ensures var ab, ba := AfterRows(m, EmptyLedger, [a, b], false).0, AfterRows(m, EmptyLedger, [b, a], false).0;
            && a.minted in ab.issuers && IdentifierSet(ab.issuers[a.minted]) == RowKeys(b)
            && b.minted in ba.issuers && IdentifierSet(ba.issuers[b.minted]) == RowKeys(a)
            && RowKeys(a) != RowKeys(b)
  {
    ClashSame(a, b, a, b);
    FirstRun(m, a, b);
    FirstRun(m, b, a);
    SameKeys(a);
    SameKeys(b);
    HeldKeys(AfterRows(m, EmptyLedger, [a, b], false).0, a.minted, b, RowKeys(a) + RowKeys(b));
    HeldKeys(AfterRows(m, EmptyLedger, [b, a], false).0, b.minted, a, RowKeys(b) + RowKeys(a));
  }

  lemma HeldKeys(m: Memory, id: IssuerId, row: Row, known: set<Identifier>)
    requires Holds(m, id, row, known)
    ensures id in m.issuers && IdentifierSet(m.issuers[id]) == RowKeys(row)
  {
    SameKeys(row);
  }
}
