/** What holds over every reconciliation run. */
module ReconciliationRuns {
  import opened Wrappers
  import opened Sorting
  import opened Entities
  import opened MemoryModel
  import opened Reconciliation
  import Seqs

  // ---- accounting ----

  lemma RowKeepsValid(m: Memory, l: Ledger, row: Row, dryRun: bool)
    requires ValidMemory(m)
    ensures ValidMemory(AfterRow(m, l, row, dryRun).0)
    ensures dryRun ==> AfterRow(m, l, row, dryRun).0 == m
  {
    var candidate := Candidate(m, row);
    if FirstConflict(m.identifiers, candidate.identifiers, candidate.id).None? {
      UpsertKeepsValid(m, candidate);
    }
  }

  /** The books of a run over `seen` rows: each counted once, conflicts among the skipped, one provenance per commit. */
  ghost predicate Accounted(m: Memory, seen: nat, dryRun: bool, m': Memory, l: Ledger) {
    && ValidMemory(m')
    && l.upserted + l.skipped == seen
    && |l.conflicts| <= l.skipped
    && |l.provenance| == (if dryRun then 0 else l.upserted)
    && (dryRun ==> m' == m)
    && (l.upserted == 0 ==> m' == m)
  }

  lemma AccountOneMore(m: Memory, seen: nat, dryRun: bool, m': Memory, l: Ledger, row: Row)
    requires Accounted(m, seen, dryRun, m', l)
    ensures Accounted(m, seen + 1, dryRun, AfterRow(m', l, row, dryRun).0, AfterRow(m', l, row, dryRun).1)
  {
    RowKeepsValid(m', l, row, dryRun);
  }

  /** Upserted and skipped rows add up to the rows seen, over every run. */
  lemma {:induction false} RunAccounting(m: Memory, rows: seq<Row>, dryRun: bool)
    requires ValidMemory(m)
    ensures Accounted(m, |rows|, dryRun, AfterRows(m, EmptyLedger, rows, dryRun).0,
                      AfterRows(m, EmptyLedger, rows, dryRun).1)
  {
    if rows != [] {
      var n := |rows| - 1;
      RunAccounting(m, rows[..n], dryRun);
      var (m', l') := AfterRows(m, EmptyLedger, rows[..n], dryRun);
      AccountOneMore(m, n, dryRun, m', l', rows[n]);
    }
  }

  // ---- rows that share nothing ----

  function RowKeys(row: Row): set<Identifier> {
    set k <- row.identifiers
  }

  function MintedIds(rows: seq<Row>): set<IssuerId> {
    set row <- rows :: row.minted
  }

  function KeysOf(rows: seq<Row>): set<Identifier> {
    set row <- rows, k <- row.identifiers :: k
  }

  lemma OneMoreRow(rows: seq<Row>, row: Row)
    ensures MintedIds(rows + [row]) == MintedIds(rows) + {row.minted}
    ensures KeysOf(rows + [row]) == KeysOf(rows) + RowKeys(row)
  {
    assert forall r <- rows :: r in rows + [row];
    assert row in rows + [row];
  }

  /** A row with identifiers that neither the store nor an earlier row binds, and a fresh id. */
  ghost predicate IndependentRow(m: Memory, earlier: seq<Row>, row: Row) {
    && Normal(row) && row.identifiers != []
    && row.minted !in m.issuers && row.minted !in MintedIds(earlier)
    && forall k :: k in row.identifiers ==> k !in m.identifiers && k !in KeysOf(earlier)
  }

  ghost predicate Independent(m: Memory, rows: seq<Row>) {
    forall n :: 0 <= n < |rows| ==> IndependentRow(m, rows[..n], rows[n])
  }

  /** The record a row is seeded as. */
  function Seeded(row: Row): Issuer {
    Issuer(row.minted, None, None, row.displayName, row.record)
  }

  lemma SameKeys(row: Row)
    requires Normal(row)
    ensures forall k :: k in row.record <==> k in row.identifiers
  {
    forall k ensures k in row.record <==> k in row.identifiers {
      assert k in multiset(row.record) <==> k in multiset(row.identifiers);
    }
  }

  ghost predicate RowSeeded(m: Memory, row: Row) {
    && row.minted in m.issuers && m.issuers[row.minted] == Seeded(row)
    && forall k :: k in row.identifiers ==> k in m.identifiers && m.identifiers[k] == row.minted
  }

  /** Exactly the rows' ids and keys were added, every key leading to its own row's record. */
  ghost predicate SeededInto(m: Memory, m': Memory, rows: seq<Row>) {
    && m'.issuers.Keys == m.issuers.Keys + MintedIds(rows)
    && m'.identifiers.Keys == m.identifiers.Keys + KeysOf(rows)
    && forall row :: row in rows ==> RowSeeded(m', row)
  }

  lemma SeedOne(m: Memory, l: Ledger, row: Row)
    requires ValidMemory(m) && Normal(row) && row.identifiers != [] && row.minted !in m.issuers
    requires forall k :: k in row.identifiers ==> k !in m.identifiers
    ensures AfterRow(m, l, row, false)
            == (MemoryModel.Upserted(m, Seeded(row)), ApplyOutcome(l, Outcome.Upserted, row.provenance))
  {
    SameKeys(row);
    assert FindExistingOwner(m, row.identifiers).None?;
    assert Candidate(m, row) == Seeded(row);
  }

  lemma SeedStep(m: Memory, m': Memory, done: seq<Row>, row: Row)
    requires IndependentRow(m, done, row) && SeededInto(m, m', done)
    ensures row.minted !in m'.issuers && (forall k :: k in row.identifiers ==> k !in m'.identifiers)
    ensures SeededInto(m, MemoryModel.Upserted(m', Seeded(row)), done + [row])
  {
    var after := MemoryModel.Upserted(m', Seeded(row));
    SameKeys(row);
    OneMoreRow(done, row);
    assert after.identifiers.Keys == m'.identifiers.Keys + RowKeys(row);
    forall r | r in done ensures RowSeeded(after, r) {
      StillSeeded(m, m', done, row, r);
    }
    assert RowSeeded(after, row);
  }

  lemma StillSeeded(m: Memory, m': Memory, done: seq<Row>, row: Row, r: Row)
    requires IndependentRow(m, done, row) && SeededInto(m, m', done) && r in done
    ensures RowSeeded(MemoryModel.Upserted(m', Seeded(row)), r)
  {
    SameKeys(row);
    assert RowSeeded(m', r);
    assert r.minted in MintedIds(done);
    forall k | k in r.identifiers ensures k !in row.identifiers {
      assert k in KeysOf(done);
    }
  }

  function ProvenanceOf(): Row -> Provenance {
    (row: Row) => row.provenance
  }

  lemma IndependentPrefix(m: Memory, rows: seq<Row>)
    requires Independent(m, rows) && rows != []
    ensures Independent(m, rows[..|rows| - 1]) && IndependentRow(m, rows[..|rows| - 1], rows[|rows| - 1])
  {
    var n := |rows| - 1;
    forall i | 0 <= i < n ensures IndependentRow(m, rows[..n][..i], rows[..n][i]) {
      assert rows[..n][..i] == rows[..i];
      assert IndependentRow(m, rows[..i], rows[i]);
    }
  }

  /** Every row became its own record, with its provenance logged in order. */
  ghost predicate AllUpserted(m: Memory, rows: seq<Row>, m': Memory, l: Ledger) {
    && ValidMemory(m') && SeededInto(m, m', rows)
    && l == Ledger(|rows|, 0, [], Seqs.Map(rows, ProvenanceOf()))
  }

  lemma SeedOneKeepsValid(m: Memory, row: Row)
    requires ValidMemory(m) && Normal(row) && row.identifiers != [] && row.minted !in m.issuers
    requires forall k :: k in row.identifiers ==> k !in m.identifiers
    ensures ValidMemory(MemoryModel.Upserted(m, Seeded(row)))
  {
    SameKeys(row);
    UpsertKeepsValid(m, Seeded(row));
  }

  lemma LogOneMore(done: seq<Row>, row: Row, l: Ledger)
    requires l == Ledger(|done|, 0, [], Seqs.Map(done, ProvenanceOf()))
    ensures ApplyOutcome(l, Outcome.Upserted, row.provenance)
         == Ledger(|done + [row]|, 0, [], Seqs.Map(done + [row], ProvenanceOf()))
  {
    Seqs.MapAppend(done, [row], ProvenanceOf());
    assert Seqs.Map([row], ProvenanceOf()) == [row.provenance];
  }

  lemma UpsertOneMore(m: Memory, done: seq<Row>, row: Row, m': Memory, l: Ledger)
    requires AllUpserted(m, done, m', l) && IndependentRow(m, done, row)
    ensures var after := MemoryModel.Upserted(m', Seeded(row));
            && AllUpserted(m, done + [row], after, ApplyOutcome(l, Outcome.Upserted, row.provenance))
            && row.minted !in m'.issuers && (forall k :: k in row.identifiers ==> k !in m'.identifiers)
  {
    SeedStep(m, m', done, row);
    SeedOneKeepsValid(m', row);
    LogOneMore(done, row, l);
  }

  /** Independent rows are all upserted. */
  lemma {:induction false} IndependentRowsAllUpserted(m: Memory, rows: seq<Row>)
    requires ValidMemory(m) && Independent(m, rows)
    ensures AllUpserted(m, rows, AfterRows(m, EmptyLedger, rows, false).0, AfterRows(m, EmptyLedger, rows, false).1)
  {
    if rows == [] {
      assert Seqs.Map(rows, ProvenanceOf()) == [];
    } else {
      var n := |rows| - 1;
      IndependentPrefix(m, rows);
      IndependentRowsAllUpserted(m, rows[..n]);
      var (m', l') := AfterRows(m, EmptyLedger, rows[..n], false);
      UpsertOneMore(m, rows[..n], rows[n], m', l');
      SeedOne(m', l', rows[n]);
      Seqs.SplitLast(rows);
    }
  }

  // ---- running it again ----

  /** A row that differs from an earlier one only in the id it would be minted. */
  ghost predicate SameRow(a: Row, b: Row) {
    a.displayName == b.displayName && a.identifiers == b.identifiers && a.record == b.record
  }

  lemma SeededRowIsSettled(m0: Memory, m: Memory, rows: seq<Row>, i: nat, again: Row)
    requires SeededInto(m0, m, rows) && i < |rows| && SameRow(rows[i], again)
    requires Normal(rows[i]) && rows[i].identifiers != []
    ensures !Renamed(m, again) && Settled(m, again)
  {
    SameKeys(again);
    assert RowSeeded(m, rows[i]);
    assert again.identifiers[0] in again.identifiers;
    var owner := FindExistingOwner(m, again.identifiers);
    assert owner.Some?;
    assert Candidate(m, again) == Seeded(rows[i]);
  }

  lemma {:induction false} SettledRowsDoNothing(m: Memory, rows: seq<Row>, dryRun: bool)
    requires forall i :: 0 <= i < |rows| ==> !Renamed(m, rows[i]) && Settled(m, rows[i])
    ensures AfterRows(m, EmptyLedger, rows, dryRun) == (m, Ledger(0, |rows|, [], []))
  {
    if rows != [] {
      SettledRowsDoNothing(m, rows[..|rows| - 1], dryRun);
    }
  }

  /** A second run over independent rows upserts nothing and leaves the store as it was. */
  lemma SecondRunIsNoOp(m: Memory, rows: seq<Row>, again: seq<Row>, dryRun: bool)
    requires ValidMemory(m) && Independent(m, rows)
    requires |again| == |rows| && forall i :: 0 <= i < |rows| ==> SameRow(rows[i], again[i])
    ensures var m' := AfterRows(m, EmptyLedger, rows, false).0;
            AfterRows(m', EmptyLedger, again, dryRun) == (m', Ledger(0, |rows|, [], []))
  {
    IndependentRowsAllUpserted(m, rows);
    var m' := AfterRows(m, EmptyLedger, rows, false).0;
    forall i | 0 <= i < |again| ensures !Renamed(m', again[i]) && Settled(m', again[i]) {
      assert IndependentRow(m, rows[..i], rows[i]);
      SeededRowIsSettled(m, m', rows, i, again[i]);
    }
    SettledRowsDoNothing(m', again, dryRun);
  }

  // ---- pagination ----

  function AllRows(pages: seq<Page>): seq<Row> {
    if pages == [] then [] else pages[0].data + AllRows(pages[1..])
  }

  /** With an accurate total on every page, pagination reads every row, and no row twice. */
  lemma {:induction false} AccurateTotalsReadEverything(pages: seq<Page>, seen: nat, total: nat)
    requires forall i :: 0 <= i < |pages| ==> pages[i].data != [] && pages[i].total == Some(total)
    requires total == seen + |AllRows(pages)|
    ensures RowsRead(pages, seen) == AllRows(pages)
  {
    if pages != [] {
      var now := seen + |pages[0].data|;
      if LastPage(pages[0], now) {
        assert AllRows(pages[1..]) == [];
      } else {
        AccurateTotalsReadEverything(pages[1..], now, total);
      }
    }
  }

  lemma RowsReadAtMost(pages: seq<Page>, seen: nat)
    ensures |RowsRead(pages, seen)| <= |AllRows(pages)|
  {
    if pages != [] && pages[0].data != [] {
      RowsReadAtMost(pages[1..], seen + |pages[0].data|);
    }
  }

  /** Without totals, everything is read exactly when only the final page is short. */
  lemma {:induction false} NoTotalsReadEverythingIff(pages: seq<Page>, seen: nat)
    requires forall i :: 0 <= i < |pages| ==> pages[i].data != [] && pages[i].total == None
    ensures RowsRead(pages, seen) == AllRows(pages) <==>
            forall i :: 0 <= i < |pages| - 1 ==> |pages[i].data| >= EDB_PAGE_SIZE
  {
    if |pages| > 1 {
      var now := seen + |pages[0].data|;
      NoTotalsReadEverythingIff(pages[1..], now);
      assert AllRows(pages[1..]) == pages[1..][0].data + AllRows(pages[1..][1..]);
      if |pages[0].data| < EDB_PAGE_SIZE {
        assert |AllRows(pages)| > |RowsRead(pages, seen)|;
      } else {
        assert RowsRead(pages, seen)[|pages[0].data|..] == RowsRead(pages[1..], now);
        assert AllRows(pages)[|pages[0].data|..] == AllRows(pages[1..]);
        assert forall i :: 0 <= i < |pages| - 2 ==> pages[1..][i] == pages[i + 1];
        if forall i :: 0 <= i < |pages[1..]| - 1 ==> |pages[1..][i].data| >= EDB_PAGE_SIZE {
          forall i | 0 <= i < |pages| - 1 ensures |pages[i].data| >= EDB_PAGE_SIZE {
            if i > 0 {
              assert pages[1..][i - 1] == pages[i];
            }
          }
        }
      }
    } else if |pages| == 1 {
      assert AllRows(pages[1..]) == [] && RowsRead(pages[1..], seen + |pages[0].data|) == [];
    }
  }
}
