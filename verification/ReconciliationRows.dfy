/** What one row comes to, told from the row and the records it meets; what dry runs foretell and paginations read. */
module ReconciliationRows {
  import opened Wrappers
  import opened Sorting
  import opened Entities
  import opened MemoryModel
  import opened Reconciliation
  import opened ReconciliationRuns
  import Seqs

  // ---- one row ----

  /** The issuer a row is about: the owner of its first identifier that has one, or else a newly minted one. */
  ghost predicate About(m: Memory, row: Row, at: Option<nat>, id: IssuerId)
    requires ValidMemory(m)
  {
    match at
    case None => id == row.minted && forall k <- row.identifiers :: LookupIn(m, k).None?
    case Some(i) =>
      && i < |row.identifiers| && FindsAt(m, row.identifiers[i], id)
      && forall j :: 0 <= j < i ==> LookupIn(m, row.identifiers[j]).None?
  }

  ghost predicate FindsAt(m: Memory, k: Identifier, id: IssuerId)
    requires ValidMemory(m)
  {
    LookupIn(m, k).Some? && LookupIn(m, k).value.id == id && id in m.issuers
  }

  ghost predicate FirstBound(m: Memory, ks: seq<Identifier>, i: nat) {
    i < |ks| && ks[i] in m.identifiers && forall j :: 0 <= j < i ==> ks[j] !in m.identifiers
  }

  lemma {:induction false} FirstOwner(m: Memory, ks: seq<Identifier>) returns (i: nat)
    requires FindExistingOwner(m, ks).Some?
    ensures FirstBound(m, ks, i) && FindExistingOwner(m, ks) == Some(ks[i])
  {
    if ks[0] in m.identifiers {
      i := 0;
    } else {
      i := FirstOwner(m, ks[1..]);
      i := i + 1;
      assert forall j :: 1 <= j < i ==> ks[j] == ks[1..][j - 1];
    }
  }

  /** Every row is about some issuer. */
  lemma SomeIssuer(m: Memory, row: Row) returns (at: Option<nat>, id: IssuerId)
    requires ValidMemory(m)
    ensures About(m, row, at, id)
  {
    if FindExistingOwner(m, row.identifiers).Some? {
      var i := FirstOwner(m, row.identifiers);
      assert Owns(m, m.identifiers[row.identifiers[i]], row.identifiers[i]);
      at, id := Some(i), m.identifiers[row.identifiers[i]];
    } else {
      at, id := None, row.minted;
    }
  }

  predicate Tallied(l: Ledger, l': Ledger, upserted: nat, skipped: nat, notes: seq<ConflictNote>,
                    committed: seq<Provenance>) {
    && l'.upserted == l.upserted + upserted && l'.skipped == l.skipped + skipped
    && l'.conflicts == l.conflicts + notes && l'.provenance == l.provenance + committed
  }

  /** The first identifier of a record that leads to another issuer. */
  ghost predicate FirstTaken(m: Memory, record: seq<Identifier>, id: IssuerId, j: nat, owner: IssuerId)
    requires ValidMemory(m)
  {
    && j < |record| && FindsAt(m, record[j], owner) && owner != id
    && forall i :: 0 <= i < j ==> LookupIn(m, record[i]).None? || FindsAt(m, record[i], id)
  }

  ghost predicate SomeTaken(m: Memory, record: seq<Identifier>, id: IssuerId)
    requires ValidMemory(m)
  {
    exists k <- record :: LookupIn(m, k).Some? && LookupIn(m, k).value.id != id
  }

  /** The issuer has the row's name and exactly its identifiers. */
  predicate Says(m: Memory, row: Row, id: IssuerId) {
    && id in m.issuers && m.issuers[id].displayName == row.displayName
    && (forall k <- m.issuers[id].identifiers :: k in row.record)
    && (forall k <- row.record :: k in m.issuers[id].identifiers)
  }

  function RecordOf(row: Row, id: IssuerId): Issuer {
    Issuer(id, None, None, row.displayName, row.record)
  }

  /**
   * A row without identifiers is skipped. A row about an issuer of another name is a conflict; one that says what
   * the issuer's record says already is skipped; a dry run counts any other as upserted and changes nothing; a real
   * run is refused if some identifier of the record is another issuer's, and else upserts the record.
   */
  ghost predicate Comes(m: Memory, l: Ledger, row: Row, dryRun: bool, at: Option<nat>, id: IssuerId, m': Memory,
                        l': Ledger)
    requires ValidMemory(m) && About(m, row, at, id)
  {
    if row.identifiers == [] then m' == m && Tallied(l, l', 0, 1, [], [])
    else if at.Some? && m.issuers[id].displayName != row.displayName then
      m' == m && Tallied(l, l', 0, 1, [ConflictNote(row.identifiers[at.value], id, id)], [])
    else if Says(m, row, id) then m' == m && Tallied(l, l', 0, 1, [], [])
    else if dryRun then m' == m && Tallied(l, l', 1, 0, [], [])
    else if SomeTaken(m, row.record, id) then
      && m' == m
      && exists j: nat, owner :: FirstTaken(m, row.record, id, j, owner)
                            && Tallied(l, l', 0, 1, [ConflictNote(row.record[j], owner, id)], [])
    else
      && MemoryStep(m, Upsert(RecordOf(row, id)), m', Returned(RecordOf(row, id)))
      && Tallied(l, l', 1, 0, [], [row.provenance])
  }

  lemma RowComes(m: Memory, l: Ledger, row: Row, dryRun: bool, at: Option<nat>, id: IssuerId)
    requires ValidMemory(m) && About(m, row, at, id)
    ensures Comes(m, l, row, dryRun, at, id, AfterRow(m, l, row, dryRun).0, AfterRow(m, l, row, dryRun).1)
  {
    OwnerIs(m, row, at, id);
    SettledSays(m, row, id);
    if row.identifiers != [] && !Renamed(m, row) && !Settled(m, row) && !dryRun {
      CommitComes(m, l, row, at, id);
    }
  }

  lemma CommitComes(m: Memory, l: Ledger, row: Row, at: Option<nat>, id: IssuerId)
    requires ValidMemory(m) && row.identifiers != [] && Candidate(m, row) == RecordOf(row, id)
    requires !Renamed(m, row) && !Settled(m, row)
    ensures var (m', l') := AfterRow(m, l, row, false);
            if SomeTaken(m, row.record, id) then
              && m' == m
              && exists j: nat, owner :: FirstTaken(m, row.record, id, j, owner)
                                    && Tallied(l, l', 0, 1, [ConflictNote(row.record[j], owner, id)], [])
            else
              && MemoryStep(m, Upsert(RecordOf(row, id)), m', Returned(RecordOf(row, id)))
              && Tallied(l, l', 1, 0, [], [row.provenance])
  {
    var e := FirstConflict(m.identifiers, row.record, id);
    if e.Some? {
      var j, owner := TakenFirst(m, row.record, id);
      assert Identifier(row.record[j].kind, row.record[j].value) == row.record[j];
      assert AfterRow(m, l, row, false).1
          == l.(skipped := l.skipped + 1, conflicts := l.conflicts + [ConflictNote(row.record[j], owner, id)]);
    } else {
      NoneTaken(m, row.record, id);
    }
  }

  lemma OneFirst(m: Memory, ks: seq<Identifier>, i: nat, j: nat)
    requires FirstBound(m, ks, i) && FirstBound(m, ks, j)
    ensures i == j
  {
  }

  lemma OwnerIs(m: Memory, row: Row, at: Option<nat>, id: IssuerId)
    requires ValidMemory(m) && About(m, row, at, id)
    ensures Candidate(m, row) == RecordOf(row, id)
    ensures at.None? ==> !Renamed(m, row)
    ensures at.Some? ==>
              && FindExistingOwner(m, row.identifiers) == Some(row.identifiers[at.value])
              && m.identifiers[row.identifiers[at.value]] == id
              && (Renamed(m, row) <==> m.issuers[id].displayName != row.displayName)
  {
    if at.Some? {
      var k := row.identifiers[at.value];
      assert k in row.identifiers && k in m.identifiers;
      assert Owns(m, m.identifiers[k], k);
      assert FirstBound(m, row.identifiers, at.value) by {
        forall j | 0 <= j < at.value ensures row.identifiers[j] !in m.identifiers {
          assert LookupIn(m, row.identifiers[j]).None?;
        }
      }
      var i := FirstOwner(m, row.identifiers);
      OneFirst(m, row.identifiers, i, at.value);
    }
  }

  lemma SettledSays(m: Memory, row: Row, id: IssuerId)
    requires Candidate(m, row) == RecordOf(row, id) && ValidMemory(m)
    ensures Settled(m, row) <==> Says(m, row, id)
  {
    if id in m.issuers {
      var a, b := m.issuers[id].identifiers, row.record;
      assert IdentifierSet(m.issuers[id]) == IdentifierSet(RecordOf(row, id))
        <==> (forall k <- a :: k in b) && (forall k <- b :: k in a) by {
        SameSets(m.issuers[id], RecordOf(row, id));
      }
    }
  }

  lemma SameSets(a: Issuer, b: Issuer)
    ensures IdentifierSet(a) == IdentifierSet(b)
       <==> (forall k <- a.identifiers :: k in b.identifiers) && (forall k <- b.identifiers :: k in a.identifiers)
  {
    assert forall k :: k in a.identifiers <==> k in IdentifierSet(a);
    assert forall k :: k in b.identifiers <==> k in IdentifierSet(b);
  }

  lemma TakenFirst(m: Memory, record: seq<Identifier>, id: IssuerId) returns (j: nat, owner: IssuerId)
    requires ValidMemory(m) && FirstConflict(m.identifiers, record, id).Some?
    ensures SomeTaken(m, record, id) && FirstTaken(m, record, id, j, owner)
    ensures FirstConflict(m.identifiers, record, id)
         == Some(IdentifierConflict(record[j].kind, record[j].value, owner, id))
  {
    j := FirstConflictIsFirst(m.identifiers, record, id);
    owner := m.identifiers[record[j]];
    assert forall k :: k in m.identifiers ==> Owns(m, m.identifiers[k], k);
    assert LookupIn(m, record[j]).Some? && record[j] in record;
    forall i | 0 <= i < j ensures LookupIn(m, record[i]).None? || FindsAt(m, record[i], id) {
      assert !OwnedByAnother(m.identifiers, record[i], id);
    }
  }

  lemma NoneTaken(m: Memory, record: seq<Identifier>, id: IssuerId)
    requires ValidMemory(m) && FirstConflict(m.identifiers, record, id).None?
    ensures !SomeTaken(m, record, id)
  {
    assert forall k :: k in m.identifiers ==> Owns(m, m.identifiers[k], k);
  }

  // ---- dry runs ----

  /** The row is about nobody the store knows. */
  ghost predicate Unknown(m: Memory, row: Row) {
    row.identifiers != [] && row.minted !in m.issuers && forall k <- row.identifiers :: k !in m.identifiers
  }

  /** A dry run over rows about nobody known counts them all as upserted, and commits none. */
  lemma {:induction false} DryRunCountsNewRows(m: Memory, rows: seq<Row>)
    requires ValidMemory(m) && forall row <- rows :: Unknown(m, row)
    ensures AfterRows(m, EmptyLedger, rows, true).0 == m
    ensures Tallied(EmptyLedger, AfterRows(m, EmptyLedger, rows, true).1, |rows|, 0, [], [])
  {
    if rows != [] {
      var n := |rows| - 1;
      DryRunCountsNewRows(m, rows[..n]);
      var row := rows[n];
      assert Unknown(m, row);
      var at, id := SomeIssuer(m, row);
      assert forall i :: 0 <= i < |row.identifiers| ==> LookupIn(m, row.identifiers[i]).None?;
      RowComes(m, AfterRows(m, EmptyLedger, rows[..n], true).1, row, true, at, id);
    }
  }

  /** Over independent rows it foretells the counts of the run itself. */
  lemma DryRunForetells(m: Memory, rows: seq<Row>)
    requires ValidMemory(m) && Independent(m, rows)
    ensures var (dry, run) := (AfterRows(m, EmptyLedger, rows, true).1, AfterRows(m, EmptyLedger, rows, false).1);
            && dry.upserted == run.upserted == |rows| && dry.skipped == run.skipped == 0
            && dry.conflicts == run.conflicts == []
            && dry.provenance == [] && |run.provenance| == |rows|
  {
    forall row | row in rows ensures Unknown(m, row) {
      var n :| 0 <= n < |rows| && rows[n] == row;
      assert IndependentRow(m, rows[..n], rows[n]);
    }
    DryRunCountsNewRows(m, rows);
    RunCounts(m, rows, AfterRows(m, EmptyLedger, rows, false).1);
  }

  lemma RunCounts(m: Memory, rows: seq<Row>, l: Ledger)
    requires ValidMemory(m) && Independent(m, rows) && l == AfterRows(m, EmptyLedger, rows, false).1
    ensures l.upserted == |rows| && l.skipped == 0 && l.conflicts == [] && |l.provenance| == |rows|
  {
    IndependentRowsAllUpserted(m, rows);
  }

  // ---- pagination ----

  /** Another page is asked for after this one: fewer rows than the total so far, or a full page without a total. */
  predicate AsksOn(page: Page, read: nat) {
    if page.total.Some? then read < page.total.value else |page.data| >= 500
  }

  /** Some first pages were read, none of them empty and all but the last asking for more; then it was over. */
  ghost predicate ReadUpTo(pages: seq<Page>, seen: nat, n: nat) {
    && n <= |pages|
    && (forall i :: 0 <= i < n ==> pages[i].data != [])
    && (forall i :: 0 < i < n ==> AsksOn(pages[i - 1], seen + |AllRows(pages[..i])|))
    && (n == |pages| || pages[n].data == [] || (n > 0 && !AsksOn(pages[n - 1], seen + |AllRows(pages[..n])|)))
  }

  /** A pagination reads the rows of the pages up to the first that is empty or the last one asked for. */
  lemma {:induction false} PagesRead(pages: seq<Page>, seen: nat) returns (n: nat)
    ensures ReadUpTo(pages, seen, n) && RowsRead(pages, seen) == AllRows(pages[..n])
  {
    if pages == [] || pages[0].data == [] {
      n := 0;
    } else {
      var now := seen + |pages[0].data|;
      if LastPage(pages[0], now) {
        n := 1;
        ReadJustOne(pages, seen);
      } else {
        n := PagesRead(pages[1..], now);
        ReadOneMore(pages, seen, n);
        n := n + 1;
      }
    }
  }

  lemma ReadJustOne(pages: seq<Page>, seen: nat)
    requires pages != [] && pages[0].data != [] && !AsksOn(pages[0], seen + |pages[0].data|)
    ensures ReadUpTo(pages, seen, 1) && RowsRead(pages, seen) == AllRows(pages[..1])
  {
    OneMorePage(pages, 0);
  }

  lemma OneMorePage(pages: seq<Page>, i: nat)
    requires i < |pages|
    ensures AllRows(pages[..i + 1]) == pages[0].data + AllRows(pages[1..][..i])
    ensures i == 0 ==> AllRows(pages[..i + 1]) == pages[0].data
  {
    assert pages[..i + 1][1..] == pages[1..][..i];
    assert i == 0 ==> pages[1..][..i] == [];
  }

  lemma ReadOneMore(pages: seq<Page>, seen: nat, n: nat)
    requires pages != [] && pages[0].data != [] && AsksOn(pages[0], seen + |pages[0].data|)
    requires ReadUpTo(pages[1..], seen + |pages[0].data|, n)
    requires RowsRead(pages[1..], seen + |pages[0].data|) == AllRows(pages[1..][..n])
    ensures ReadUpTo(pages, seen, n + 1) && RowsRead(pages, seen) == AllRows(pages[..n + 1])
  {
    var rest := pages[1..];
    forall i | 0 <= i < n + 1 ensures pages[i].data != [] {
      assert i > 0 ==> pages[i] == rest[i - 1];
    }
    forall i | 0 < i < n + 1 ensures AsksOn(pages[i - 1], seen + |AllRows(pages[..i])|) {
      OneMorePage(pages, i - 1);
      if i > 1 {
        assert pages[i - 1] == rest[i - 2];
      }
    }
    OneMorePage(pages, n);
    assert n > 0 ==> pages[n] == rest[n - 1];
    assert n < |rest| ==> pages[n + 1] == rest[n];
  }
}
