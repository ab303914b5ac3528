/** Seeding the entity store from source listings: one upsert attempt per row, counted and never raised. */
module Reconciliation {
  import opened Wrappers
  import opened Sorting
  import opened Entities
  import opened MemoryModel
  import opened InMemoryStore
  import Seqs

  // ---- rows ----

  /**
   * One source row as the loops see it: `record` is its identifiers as the issuer record's constructor orders
   * them, `minted` the id that would be minted for it.
   */
  datatype Row = Row(displayName: string, identifiers: seq<Identifier>, record: seq<Identifier>,
                     provenance: Provenance, minted: IssuerId)

  /** By kind, then value. */
  predicate Normal(row: Row) {
    row.record == StableSort(row.identifiers, IdentifierLe)
  }

  // ---- one row ----

  datatype ConflictNote = ConflictNote(key: Identifier, existing: IssuerId, proposed: IssuerId)

  datatype Outcome = Upserted | NoOp | Planned | Conflict(note: ConflictNote)

  /** The first identifier that the store already binds. */
  function FindExistingOwner(m: Memory, ks: seq<Identifier>): (r: Option<Identifier>)
    ensures r.None? <==> forall k :: k in ks ==> k !in m.identifiers
    ensures r.Some? ==> r.value in ks && r.value in m.identifiers
  {
    if ks == [] then None
    else if ks[0] in m.identifiers then Some(ks[0])
    else
      assert ks == [ks[0]] + ks[1..];
      FindExistingOwner(m, ks[1..])
  }

  function Candidate(m: Memory, row: Row): Issuer {
    var owner := FindExistingOwner(m, row.identifiers);
    Issuer(if owner.Some? then m.identifiers[owner.value] else row.minted, None, None, row.displayName,
           row.record)
  }

  predicate Equivalent(a: Issuer, b: Issuer) {
    a.id == b.id && a.displayName == b.displayName && IdentifierSet(a) == IdentifierSet(b)
  }

  ghost predicate Renamed(m: Memory, row: Row) {
    var owner := FindExistingOwner(m, row.identifiers);
    && owner.Some? && m.identifiers[owner.value] in m.issuers
    && m.issuers[m.identifiers[owner.value]].displayName != row.displayName
  }

  ghost predicate Settled(m: Memory, row: Row) {
    var candidate := Candidate(m, row);
    candidate.id in m.issuers && Equivalent(m.issuers[candidate.id], candidate)
  }

  /** What one attempt does to the store and how it is tagged. */
  ghost function TryUpsertResult(m: Memory, row: Row, dryRun: bool): (Memory, Outcome) {
    var candidate := Candidate(m, row);
    if Renamed(m, row) then
      var key := FindExistingOwner(m, row.identifiers).value;
      (m, Conflict(ConflictNote(key, m.identifiers[key], m.identifiers[key])))
    else if Settled(m, row) then (m, NoOp)
    else if dryRun then (m, Planned)
    else
      var e := FirstConflict(m.identifiers, candidate.identifiers, candidate.id);
      if e.Some? then
        (m, Conflict(ConflictNote(Identifier(e.value.kind, e.value.value), e.value.existing, e.value.proposed)))
      else (MemoryModel.Upserted(m, candidate), Outcome.Upserted)
  }

  // ---- the ledger ----

  datatype Ledger = Ledger(upserted: nat, skipped: nat, conflicts: seq<ConflictNote>, provenance: seq<Provenance>)

  const EmptyLedger := Ledger(0, 0, [], [])

  function ApplyOutcome(l: Ledger, outcome: Outcome, provenance: Provenance): Ledger {
    match outcome
    case Upserted => l.(upserted := l.upserted + 1, provenance := l.provenance + [provenance])
    case Planned => l.(upserted := l.upserted + 1)
    case NoOp => l.(skipped := l.skipped + 1)
    case Conflict(note) => l.(skipped := l.skipped + 1, conflicts := l.conflicts + [note])
  }

  ghost function AfterRow(m: Memory, l: Ledger, row: Row, dryRun: bool): (Memory, Ledger) {
    if row.identifiers == [] then (m, l.(skipped := l.skipped + 1))
    else
      var (m', outcome) := TryUpsertResult(m, row, dryRun);
      (m', ApplyOutcome(l, outcome, row.provenance))
  }

  ghost function AfterRows(m: Memory, l: Ledger, rows: seq<Row>, dryRun: bool): (Memory, Ledger) {
    if rows == [] then (m, l)
    else
      var n := |rows| - 1;
      var (m', l') := AfterRows(m, l, rows[..n], dryRun);
      AfterRow(m', l', rows[n], dryRun)
  }

  // ---- the loops ----

  method TryUpsert(store: InMemoryEntityStore, row: Row, dryRun: bool) returns (outcome: Outcome)
    requires store.Valid() && row.identifiers != []
    modifies store
    ensures store.Valid()
    ensures (store.State(), outcome) == TryUpsertResult(old(store.State()), row, dryRun)
  {
    ghost var before := store.State();
    var id := row.minted;
    var i := 0;
    while i < |row.identifiers|
      invariant i <= |row.identifiers|
      invariant store.State() == before && store.Valid() && id == row.minted
      invariant FindExistingOwner(before, row.identifiers) == FindExistingOwner(before, row.identifiers[i..])
    {
      var k := row.identifiers[i];
      assert row.identifiers[i..][0] == k && row.identifiers[i..][1..] == row.identifiers[i + 1..];
      var existing := store.LookupIssuer(k);
      if existing.Some? {
        assert Owns(before, before.identifiers[k], k);
        assert FindExistingOwner(before, row.identifiers) == Some(k);
        if existing.value.displayName != row.displayName {
          return Conflict(ConflictNote(k, existing.value.id, existing.value.id));
        }
        id := existing.value.id;
        break;
      }
      i := i + 1;
    }
    var candidate := Issuer(id, None, None, row.displayName, row.record);
    assert candidate == Candidate(before, row) && !Renamed(before, row);
    var existing := store.GetIssuer(id);
    if existing.Some? && Equivalent(existing.value, candidate) {
      return NoOp;
    }
    if dryRun {
      return Planned;
    }
    var r := store.UpsertIssuer(candidate);
    if r.Err? {
      return Conflict(ConflictNote(Identifier(r.error.kind, r.error.value), r.error.existing, r.error.proposed));
    }
    outcome := Outcome.Upserted;
  }

  /** The row loop both loaders run. */
  method ReconcileRows(store: InMemoryEntityStore, rows: seq<Row>, dryRun: bool, start: Ledger) returns (ledger: Ledger)
    requires store.Valid()
    modifies store
    ensures store.Valid()
    ensures (store.State(), ledger) == AfterRows(old(store.State()), start, rows, dryRun)
  {
    ledger := start;
    for i := 0 to |rows|
      invariant store.Valid()
      invariant (store.State(), ledger) == AfterRows(old(store.State()), start, rows[..i], dryRun)
    {
      assert rows[..i + 1][..i] == rows[..i];
      if rows[i].identifiers == [] {
        ledger := ledger.(skipped := ledger.skipped + 1);
      } else {
        var outcome := TryUpsert(store, rows[i], dryRun);
        ledger := ApplyOutcome(ledger, outcome, rows[i].provenance);
      }
    }
    Seqs.FullPrefix(rows);
  }

  const EDB_PAGE_SIZE := 500

  /** One page of a paginated listing, with the row total when the upstream reports it. */
  datatype Page = Page(data: seq<Row>, total: Option<nat>)

  predicate LastPage(page: Page, seen: nat) {
    match page.total
    case Some(total) => seen >= total
    case None => |page.data| < EDB_PAGE_SIZE
  }

  /** The rows read from a page on: up to an empty page, the reported total, or a short page without one. */
  function RowsRead(pages: seq<Page>, seen: nat): seq<Row> {
    if pages == [] || pages[0].data == [] then []
    else
      var now := seen + |pages[0].data|;
      pages[0].data + (if LastPage(pages[0], now) then [] else RowsRead(pages[1..], now))
  }

  /** Paginates to exhaustion; requesting past the last page yields an empty one. */
  method ReconcilePages(store: InMemoryEntityStore, pages: seq<Page>, dryRun: bool) returns (ledger: Ledger)
    requires store.Valid()
    modifies store
    ensures store.Valid()
    ensures (store.State(), ledger) == AfterRows(old(store.State()), EmptyLedger, RowsRead(pages, 0), dryRun)
  {
    ghost var before, rest, done := store.State(), pages, [];
    ledger := EmptyLedger;
    NothingProcessed(before, dryRun);
    var page: nat, seen: nat := 0, 0;
    while page < |pages| && pages[page].data != []
      invariant page <= |pages| && rest == pages[page..] && store.Valid()
      invariant Processed(before, done, dryRun, store.State(), ledger)
      invariant Remaining(pages, done, rest, seen)
      decreases |pages| - page
    {
      ledger := ReconcilePage(store, pages[page].data, dryRun, ledger, before, done);
      NextPage(pages, done, rest, seen);
      done := done + pages[page].data;
      seen := seen + |pages[page].data|;
      if LastPage(pages[page], seen) {
        AllProcessed(before, done, dryRun, store.State(), ledger);
        return;
      }
      rest := rest[1..];
      page := page + 1;
    }
    NoPageLeft(pages, done, rest, seen);
    AllProcessed(before, done, dryRun, store.State(), ledger);
  }

  method ReconcilePage(store: InMemoryEntityStore, data: seq<Row>, dryRun: bool, start: Ledger,
                       ghost before: Memory, ghost done: seq<Row>) returns (ledger: Ledger)
    requires store.Valid() && Processed(before, done, dryRun, store.State(), start)
    modifies store
    ensures store.Valid() && Processed(before, done + data, dryRun, store.State(), ledger)
  {
    ghost var was := store.State();
    ledger := ReconcileRows(store, data, dryRun, start);
    MoreProcessed(before, done, data, dryRun, was, start, store.State(), ledger);
  }

  /** These rows have led from the one store to the other, and to this ledger. */
  ghost predicate Processed(before: Memory, done: seq<Row>, dryRun: bool, m: Memory, l: Ledger) {
    forall rows :: rows == done ==> AfterRows(before, EmptyLedger, rows, dryRun) == (m, l)
  }

  lemma NothingProcessed(before: Memory, dryRun: bool)
    ensures Processed(before, [], dryRun, before, EmptyLedger)
  {
  }

  lemma MoreProcessed(before: Memory, done: seq<Row>, data: seq<Row>, dryRun: bool, m: Memory, l: Ledger,
                      m': Memory, l': Ledger)
    requires Processed(before, done, dryRun, m, l) && AfterRows(m, l, data, dryRun) == (m', l')
    ensures Processed(before, done + data, dryRun, m', l')
  {
    AfterMoreRows(before, EmptyLedger, done, data, dryRun, (m, l), (m', l'));
  }

  lemma AllProcessed(before: Memory, done: seq<Row>, dryRun: bool, m: Memory, l: Ledger)
    requires Processed(before, done, dryRun, m, l)
    ensures AfterRows(before, EmptyLedger, done, dryRun) == (m, l)
  {
  }

  /** What was read so far and what the remaining pages give are the rows to be read. */
  ghost predicate Remaining(pages: seq<Page>, done: seq<Row>, rest: seq<Page>, seen: nat) {
    done + RowsRead(rest, seen) == RowsRead(pages, 0)
  }

  lemma NextPage(pages: seq<Page>, done: seq<Row>, rest: seq<Page>, seen: nat)
    requires Remaining(pages, done, rest, seen) && rest != [] && rest[0].data != []
    ensures var now := seen + |rest[0].data|;
            if LastPage(rest[0], now) then done + rest[0].data == RowsRead(pages, 0)
            else Remaining(pages, done + rest[0].data, rest[1..], now)
  {
    var now := seen + |rest[0].data|;
    if !LastPage(rest[0], now) {
      Seqs.Assoc(done, rest[0].data, RowsRead(rest[1..], now));
    }
  }

  lemma NoPageLeft(pages: seq<Page>, done: seq<Row>, rest: seq<Page>, seen: nat)
    requires Remaining(pages, done, rest, seen) && (rest == [] || rest[0].data == [])
    ensures done == RowsRead(pages, 0)
  {
  }

  lemma LastRow(m: Memory, l: Ledger, rows: seq<Row>, before: seq<Row>, row: Row, dryRun: bool, at: (Memory, Ledger))
    requires rows != [] && rows[..|rows| - 1] == before && rows[|rows| - 1] == row
    requires AfterRows(m, l, before, dryRun) == at
    ensures AfterRows(m, l, rows, dryRun) == AfterRow(at.0, at.1, row, dryRun)
  {
  }

  lemma {:induction false} AfterMoreRows(m: Memory, l: Ledger, first: seq<Row>, more: seq<Row>, dryRun: bool,
                                         at: (Memory, Ledger), goal: (Memory, Ledger))
    requires AfterRows(m, l, first, dryRun) == at && AfterRows(at.0, at.1, more, dryRun) == goal
    ensures AfterRows(m, l, first + more, dryRun) == goal
  {
    if more == [] {
      assert first + more == first;
    } else {
      var n := |more| - 1;
      var mid := AfterRows(at.0, at.1, more[..n], dryRun);
      AfterMoreRows(m, l, first, more[..n], dryRun, at, mid);
      Seqs.PrefixOfConcat(first, more, |first| + n);
      LastRow(m, l, first + more, first + more[..n], more[n], dryRun, mid);
    }
  }
}
