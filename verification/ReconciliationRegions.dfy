/** A seeding run reads and writes only the part of the store that its rows' keys lead to, so disjoint runs commute. */
module ReconciliationRegions {
  import opened Wrappers
  import opened Sorting
  import opened Entities
  import opened MemoryModel
  import opened Reconciliation
  import opened ReconciliationRuns
  import opened ReconciliationReruns
  import Seqs

  // ---- regions of a store ----

  ghost predicate AlikeOn<K(!new), V>(f: map<K, V>, g: map<K, V>, s: set<K>) {
    forall k :: k in s ==> (k in f <==> k in g) && (k in f ==> f[k] == g[k])
  }

  ghost predicate AlikeOff<K(!new), V>(f: map<K, V>, g: map<K, V>, s: set<K>) {
    forall k :: k !in s ==> (k in f <==> k in g) && (k in f ==> f[k] == g[k])
  }

  /** Some keys and some issuers that have to do with each other only. */
  datatype Region = Region(keys: set<Identifier>, ids: set<IssuerId>)

  /** The keys are bound to these issuers, if at all, and these issuers have no other keys. */
  ghost predicate Closed(m: Memory, g: Region) {
    && ValidMemory(m)
    && (forall k :: k in g.keys && k in m.identifiers ==> m.identifiers[k] in g.ids)
    && (forall id :: id in g.ids && id in m.issuers ==> IdentifierSet(m.issuers[id]) <= g.keys)
  }

  ghost predicate SameInside(m: Memory, n: Memory, g: Region) {
    AlikeOn(m.identifiers, n.identifiers, g.keys) && AlikeOn(m.issuers, n.issuers, g.ids)
  }

  ghost predicate SameOutside(m: Memory, n: Memory, g: Region) {
    AlikeOff(m.identifiers, n.identifiers, g.keys) && AlikeOff(m.issuers, n.issuers, g.ids)
  }

  ghost predicate Within(row: Row, g: Region) {
    Normal(row) && RowKeys(row) <= g.keys && row.minted in g.ids
  }

  // ---- one row ----

  lemma {:induction false} SameOwner(m: Memory, n: Memory, ks: seq<Identifier>, g: Region)
    requires SameInside(m, n, g) && forall k :: k in ks ==> k in g.keys
    ensures FindExistingOwner(m, ks) == FindExistingOwner(n, ks)
  {
    if ks != [] {
      assert ks[0] in ks;
      SameOwner(m, n, ks[1..], g);
    }
  }

  lemma {:induction false} SameConflict(f: map<Identifier, IssuerId>, f': map<Identifier, IssuerId>,
                                        ks: seq<Identifier>, id: IssuerId)
    requires AlikeOn(f, f', set k | k in ks)
    ensures FirstConflict(f, ks, id) == FirstConflict(f', ks, id)
  {
    if ks != [] {
      assert ks[0] in ks;
      assert forall k :: k in ks[1..] ==> k in ks;
      SameConflict(f, f', ks[1..], id);
    }
  }

  /** The record a row within the region would be upserted as belongs to the region. */
  lemma CandidateWithin(m: Memory, row: Row, g: Region)
    requires Closed(m, g) && Within(row, g)
    ensures Candidate(m, row).id in g.ids && IdentifierSet(Candidate(m, row)) <= g.keys
  {
    SameKeys(row);
    var owner := FindExistingOwner(m, row.identifiers);
    if owner.Some? {
      assert owner.value in RowKeys(row);
    }
    assert forall k :: k in row.record ==> k in RowKeys(row);
  }

  lemma UpsertStaysInside(m: Memory, issuer: Issuer, g: Region)
    requires Closed(m, g) && issuer.id in g.ids && IdentifierSet(issuer) <= g.keys
    requires FirstConflict(m.identifiers, issuer.identifiers, issuer.id).None?
    ensures var m' := MemoryModel.Upserted(m, issuer);
            Closed(m', g) && SameOutside(m, m', g)
  {
    UpsertKeepsValid(m, issuer);
    var m' := MemoryModel.Upserted(m, issuer);
    assert forall k :: k in issuer.identifiers ==> k in IdentifierSet(issuer);
    forall k | k !in g.keys ensures (k in m.identifiers <==> k in m'.identifiers)
                                    && (k in m.identifiers ==> m.identifiers[k] == m'.identifiers[k]) {
      if issuer.id in m.issuers {
        assert k !in IdentifierSet(m.issuers[issuer.id]);
      }
    }
  }

  lemma UpsertsAlike(m: Memory, n: Memory, issuer: Issuer, g: Region)
    requires SameInside(m, n, g) && issuer.id in g.ids
    ensures SameInside(MemoryModel.Upserted(m, issuer), MemoryModel.Upserted(n, issuer), g)
  {
  }

  lemma StaysInside(m: Memory, m': Memory, c: Issuer, g: Region)
    requires Closed(m, g) && c.id in g.ids && IdentifierSet(c) <= g.keys
    requires m' == m || (m' == MemoryModel.Upserted(m, c) && FirstConflict(m.identifiers, c.identifiers, c.id).None?)
    ensures Closed(m', g) && SameOutside(m, m', g)
  {
    if m' != m {
      UpsertStaysInside(m, c, g);
    }
  }

  /** A row leaves the store alone or upserts its candidate, which then meets no conflict. */
  lemma RowUpsertsOrNot(m: Memory, l: Ledger, row: Row, dryRun: bool, m': Memory, c: Issuer)
    requires m' == AfterRow(m, l, row, dryRun).0 && c == Candidate(m, row)
    ensures m' == m || (m' == MemoryModel.Upserted(m, c) && FirstConflict(m.identifiers, c.identifiers, c.id).None?)
  {
  }

  /** A row within a closed region leaves it closed, and everything outside as it was. */
  lemma RowStaysInside(m: Memory, l: Ledger, row: Row, dryRun: bool, g: Region, m': Memory)
    requires Closed(m, g) && Within(row, g) && m' == AfterRow(m, l, row, dryRun).0
    ensures Closed(m', g) && SameOutside(m, m', g)
  {
    CandidateWithin(m, row, g);
    RowUpsertsOrNot(m, l, row, dryRun, m', Candidate(m, row));
    StaysInside(m, m', Candidate(m, row), g);
  }

  lemma SameCandidate(m: Memory, n: Memory, row: Row, g: Region)
    requires SameInside(m, n, g) && Within(row, g)
    ensures Candidate(m, row) == Candidate(n, row)
    ensures FindExistingOwner(m, row.identifiers) == FindExistingOwner(n, row.identifiers)
  {
    assert forall k :: k in row.identifiers ==> k in RowKeys(row);
    SameOwner(m, n, row.identifiers, g);
  }

  lemma SameVerdict(m: Memory, n: Memory, row: Row, g: Region)
    requires Closed(m, g) && Closed(n, g) && SameInside(m, n, g) && Within(row, g)
    ensures Renamed(m, row) <==> Renamed(n, row)
    ensures Settled(m, row) <==> Settled(n, row)
    ensures var c := Candidate(m, row);
            FirstConflict(m.identifiers, c.identifiers, c.id) == FirstConflict(n.identifiers, c.identifiers, c.id)
  {
    var c := Candidate(m, row);
    CandidateWithin(m, row, g);
    SameCandidate(m, n, row, g);
    assert forall k :: k in c.identifiers ==> k in IdentifierSet(c);
    SameConflict(m.identifiers, n.identifiers, c.identifiers, c.id);
    assert forall k :: k in row.identifiers ==> k in RowKeys(row);
  }

  /** What a row within a closed region does there depends only on what is there. */
  lemma RowActsAlike(m: Memory, n: Memory, l: Ledger, l': Ledger, row: Row, dryRun: bool, g: Region)
    requires Closed(m, g) && Closed(n, g) && SameInside(m, n, g) && Within(row, g)
    ensures SameInside(AfterRow(m, l, row, dryRun).0, AfterRow(n, l', row, dryRun).0, g)
    ensures l == l' ==> AfterRow(m, l, row, dryRun).1 == AfterRow(n, l', row, dryRun).1
  {
    SameVerdict(m, n, row, g);
    SameCandidate(m, n, row, g);
    CandidateWithin(m, row, g);
    AttemptedAlike(m, n, l, l', row, dryRun, g, Candidate(m, row));
  }

  lemma AttemptedAlike(m: Memory, n: Memory, l: Ledger, l': Ledger, row: Row, dryRun: bool, g: Region, c: Issuer)
    requires SameInside(m, n, g) && c == Candidate(m, row) == Candidate(n, row) && c.id in g.ids
    requires (Renamed(m, row) <==> Renamed(n, row)) && (Settled(m, row) <==> Settled(n, row))
    requires FindExistingOwner(m, row.identifiers) == FindExistingOwner(n, row.identifiers)
    requires FirstConflict(m.identifiers, c.identifiers, c.id) == FirstConflict(n.identifiers, c.identifiers, c.id)
    ensures SameInside(AfterRow(m, l, row, dryRun).0, AfterRow(n, l', row, dryRun).0, g)
    ensures l == l' ==> AfterRow(m, l, row, dryRun).1 == AfterRow(n, l', row, dryRun).1
  {
    UpsertsAlike(m, n, c, g);
    var m', n' := AfterRow(m, l, row, dryRun).0, AfterRow(n, l', row, dryRun).0;
    assert (m' == m && n' == n) || (m' == MemoryModel.Upserted(m, c) && n' == MemoryModel.Upserted(n, c));
  }

  // ---- a run ----

  ghost predicate AllWithin(rows: seq<Row>, g: Region) {
    forall row :: row in rows ==> Within(row, g)
  }

  lemma AlikeOffTwice(m: Memory, n: Memory, o: Memory, g: Region)
    requires SameOutside(m, n, g) && SameOutside(n, o, g)
    ensures SameOutside(m, o, g)
  {
  }

  /** A run over rows within a closed region leaves it closed, and everything outside as it was. */
  lemma {:induction false} RunStaysInside(m: Memory, l: Ledger, rows: seq<Row>, dryRun: bool, g: Region)
    requires Closed(m, g) && AllWithin(rows, g)
    ensures var m' := AfterRows(m, l, rows, dryRun).0;
            Closed(m', g) && SameOutside(m, m', g)
  {
    if rows != [] {
      var n := |rows| - 1;
      var (m1, l1) := AfterRows(m, l, rows[..n], dryRun);
      RunStaysInside(m, l, rows[..n], dryRun, g);
      assert rows[n] in rows;
      var m' := AfterRow(m1, l1, rows[n], dryRun).0;
      RowStaysInside(m1, l1, rows[n], dryRun, g, m');
      AlikeOffTwice(m, m1, m', g);
    }
  }

  /** What it does inside depends only on what is inside. */
  lemma {:induction false} RunActsAlike(m: Memory, n: Memory, l: Ledger, l': Ledger, rows: seq<Row>, dryRun: bool,
                                        g: Region)
    requires Closed(m, g) && Closed(n, g) && SameInside(m, n, g) && AllWithin(rows, g)
    ensures SameInside(AfterRows(m, l, rows, dryRun).0, AfterRows(n, l', rows, dryRun).0, g)
    ensures l == l' ==> AfterRows(m, l, rows, dryRun).1 == AfterRows(n, l', rows, dryRun).1
  {
    if rows != [] {
      var last := |rows| - 1;
      var (m1, l1) := AfterRows(m, l, rows[..last], dryRun);
      var (n1, l1') := AfterRows(n, l', rows[..last], dryRun);
      RunActsAlike(m, n, l, l', rows[..last], dryRun, g);
      RunStaysInside(m, l, rows[..last], dryRun, g);
      RunStaysInside(n, l', rows[..last], dryRun, g);
      assert rows[last] in rows;
      RowActsAlike(m1, n1, l1, l1', rows[last], dryRun, g);
    }
  }

  // ---- two runs ----

  ghost predicate Apart(g: Region, h: Region) {
    g.keys !! h.keys && g.ids !! h.ids
  }

  lemma OutsideIsTheOther(m: Memory, n: Memory, g: Region, h: Region)
    requires Apart(g, h) && SameOutside(m, n, h)
    ensures SameInside(m, n, g)
    ensures Closed(m, g) && ValidMemory(n) ==> Closed(n, g)
  {
  }

  /** Running one list in its region before or after another list in another one makes no difference to the first. */
  lemma OneSide(m: Memory, rows: seq<Row>, others: seq<Row>, dryRun: bool, g: Region, h: Region)
    requires Closed(m, g) && Closed(m, h) && Apart(g, h) && AllWithin(rows, g) && AllWithin(others, h)
    ensures var first, second := AfterRows(m, EmptyLedger, rows, dryRun).0, AfterRows(m, EmptyLedger, others, dryRun).0;
            && Closed(first, h) && Closed(second, g)
            && SameInside(first, AfterRows(second, EmptyLedger, rows, dryRun).0, g)
            && SameInside(first, AfterRows(first, EmptyLedger, others, dryRun).0, g)
            && AfterRows(second, EmptyLedger, rows, dryRun).1 == AfterRows(m, EmptyLedger, rows, dryRun).1
  {
    var first, second := AfterRows(m, EmptyLedger, rows, dryRun).0, AfterRows(m, EmptyLedger, others, dryRun).0;
    RunStaysInside(m, EmptyLedger, rows, dryRun, g);
    RunStaysInside(m, EmptyLedger, others, dryRun, h);
    OutsideIsTheOther(m, second, g, h);
    OutsideIsTheOther(m, first, h, g);
    RunActsAlike(m, second, EmptyLedger, EmptyLedger, rows, dryRun, g);
    RunStaysInside(first, EmptyLedger, others, dryRun, h);
    OutsideIsTheOther(first, AfterRows(first, EmptyLedger, others, dryRun).0, g, h);
  }

  lemma SameEverywhere(m: Memory, n: Memory, g: Region, h: Region)
    requires SameInside(m, n, g) && SameInside(m, n, h)
    requires AlikeOff(m.identifiers, n.identifiers, g.keys + h.keys) && AlikeOff(m.issuers, n.issuers, g.ids + h.ids)
    requires m.marketPoints == n.marketPoints && m.filings == n.filings && m.relations == n.relations
    ensures m == n
  {
    forall k ensures (k in m.identifiers <==> k in n.identifiers)
                     && (k in m.identifiers ==> m.identifiers[k] == n.identifiers[k]) {
      assert k in g.keys || k in h.keys || k !in g.keys + h.keys;
    }
    forall id ensures (id in m.issuers <==> id in n.issuers) && (id in m.issuers ==> m.issuers[id] == n.issuers[id]) {
      assert id in g.ids || id in h.ids || id !in g.ids + h.ids;
    }
    assert m.identifiers == n.identifiers && m.issuers == n.issuers;
  }

  lemma OutsideBoth(m: Memory, n: Memory, o: Memory, g: Region, h: Region)
    requires SameOutside(m, n, g) && SameOutside(n, o, h)
    ensures AlikeOff(m.identifiers, o.identifiers, g.keys + h.keys) && AlikeOff(m.issuers, o.issuers, g.ids + h.ids)
  {
  }

  /** Two runs over rows of regions apart leave the same store, and the same ledgers, whichever comes first. */
  lemma RunsApartCommute(m: Memory, rows: seq<Row>, others: seq<Row>, dryRun: bool, g: Region, h: Region)
    requires Closed(m, g) && Closed(m, h) && Apart(g, h) && AllWithin(rows, g) && AllWithin(others, h)
    ensures var (first, l) := AfterRows(m, EmptyLedger, rows, dryRun);
            var (second, k) := AfterRows(m, EmptyLedger, others, dryRun);
            var (oneWay, k') := AfterRows(first, EmptyLedger, others, dryRun);
            var (otherWay, l') := AfterRows(second, EmptyLedger, rows, dryRun);
            oneWay == otherWay && l == l' && k == k'
  {
    var first, second := AfterRows(m, EmptyLedger, rows, dryRun).0, AfterRows(m, EmptyLedger, others, dryRun).0;
    OneSide(m, rows, others, dryRun, g, h);
    OneSide(m, others, rows, dryRun, h, g);
    BothSides(m, first, second, rows, others, dryRun, g, h);
  }

  lemma BothSides(m: Memory, first: Memory, second: Memory, rows: seq<Row>, others: seq<Row>, dryRun: bool,
                  g: Region, h: Region)
    requires Closed(m, g) && Closed(m, h) && Closed(first, h) && Closed(second, g)
    requires AllWithin(rows, g) && AllWithin(others, h)
    requires first == AfterRows(m, EmptyLedger, rows, dryRun).0 && second == AfterRows(m, EmptyLedger, others, dryRun).0
    requires SameInside(first, AfterRows(second, EmptyLedger, rows, dryRun).0, g)
    requires SameInside(first, AfterRows(first, EmptyLedger, others, dryRun).0, g)
    requires SameInside(second, AfterRows(first, EmptyLedger, others, dryRun).0, h)
    requires SameInside(second, AfterRows(second, EmptyLedger, rows, dryRun).0, h)
    ensures AfterRows(first, EmptyLedger, others, dryRun).0 == AfterRows(second, EmptyLedger, rows, dryRun).0
  {
    var oneWay := AfterRows(first, EmptyLedger, others, dryRun).0;
    var otherWay := AfterRows(second, EmptyLedger, rows, dryRun).0;
    RunStaysInside(m, EmptyLedger, rows, dryRun, g);
    RunStaysInside(first, EmptyLedger, others, dryRun, h);
    RunStaysInside(m, EmptyLedger, others, dryRun, h);
    RunStaysInside(second, EmptyLedger, rows, dryRun, g);
    OutsideBoth(m, first, oneWay, g, h);
    OutsideBoth(m, second, otherWay, h, g);
    OthersUntouched(m, EmptyLedger, rows, dryRun);
    OthersUntouched(first, EmptyLedger, others, dryRun);
    OthersUntouched(m, EmptyLedger, others, dryRun);
    OthersUntouched(second, EmptyLedger, rows, dryRun);
    SameBothWays(m, oneWay, otherWay, g, h);
    SameEverywhere(oneWay, otherWay, g, h);
  }

  lemma SameBothWays(m: Memory, oneWay: Memory, otherWay: Memory, g: Region, h: Region)
    requires AlikeOff(m.identifiers, oneWay.identifiers, g.keys + h.keys)
    requires AlikeOff(m.issuers, oneWay.issuers, g.ids + h.ids)
    requires AlikeOff(m.identifiers, otherWay.identifiers, h.keys + g.keys)
    requires AlikeOff(m.issuers, otherWay.issuers, h.ids + g.ids)
    ensures AlikeOff(oneWay.identifiers, otherWay.identifiers, g.keys + h.keys)
    ensures AlikeOff(oneWay.issuers, otherWay.issuers, g.ids + h.ids)
  {
  }

  // ---- lists of new rows ----

  ghost predicate AllNew(m: Memory, rows: seq<Row>) {
    forall row :: row in rows ==> NewTo(m, row)
  }

  lemma NewRowsAreClosed(m: Memory, rows: seq<Row>)
    requires ValidMemory(m) && AllNew(m, rows)
    ensures var g := Region(KeysOf(rows), MintedIds(rows));
            Closed(m, g) && AllWithin(rows, g)
  {
    var g := Region(KeysOf(rows), MintedIds(rows));
    forall k | k in g.keys ensures k !in m.identifiers {
      var row :| row in rows && k in RowKeys(row);
      assert NewTo(m, row);
    }
    forall id | id in g.ids ensures id !in m.issuers {
      var row :| row in rows && row.minted == id;
      assert NewTo(m, row);
    }
    forall row | row in rows ensures Within(row, g) {
      assert NewTo(m, row);
      forall k | k in RowKeys(row) ensures k in g.keys {
      }
    }
  }

  /**
   * Two lists without a key in common, however their own rows overlap, clash or repeat, leave the same store
   * whichever is loaded first.
   */
  lemma DisjointListsCommute(m: Memory, rows: seq<Row>, others: seq<Row>, dryRun: bool)
    requires ValidMemory(m) && AllNew(m, rows) && AllNew(m, others)
    requires KeysOf(rows) !! KeysOf(others) && MintedIds(rows) !! MintedIds(others)
    ensures var first, second := AfterRows(m, EmptyLedger, rows, dryRun).0, AfterRows(m, EmptyLedger, others, dryRun).0;
            AfterRows(first, EmptyLedger, others, dryRun).0 == AfterRows(second, EmptyLedger, rows, dryRun).0
  {
    NewRowsAreClosed(m, rows);
    NewRowsAreClosed(m, others);
    RunsApartCommute(m, rows, others, dryRun, Region(KeysOf(rows), MintedIds(rows)),
                     Region(KeysOf(others), MintedIds(others)));
  }

  // ---- lists that share an issuer but no key ----

  lemma OneRow(m: Memory, row: Row, m': Memory)
    requires Upserts(m, row, m')
    ensures AfterRows(m, EmptyLedger, [row], false).0 == m'
  {
    assert [row][..0] == [];
    assert AfterRows(m, EmptyLedger, [], false) == (m, EmptyLedger);
  }

  /** Two rows without a key in common, both of an issuer the store already has: whichever is loaded first keeps it. */
  lemma SharedIssuerDependsOnOrder(m: Memory, id: IssuerId, both: Row, x: Identifier, y: Identifier, a: Row, b: Row)
    requires Holds(m, id, both, {x, y}) && x != y && both.identifiers == [x, y]
    requires Normal(a) && a.identifiers == [x] && Normal(b) && b.identifiers == [y]
    requires a.displayName == b.displayName == both.displayName
    requires a.minted !in m.issuers && b.minted !in m.issuers
    ensures var first, second := AfterRows(m, EmptyLedger, [a], false).0, AfterRows(m, EmptyLedger, [b], false).0;
            var oneWay := AfterRows(first, EmptyLedger, [b], false).0;
            var otherWay := AfterRows(second, EmptyLedger, [a], false).0;
            && x in oneWay.identifiers && oneWay.identifiers[x] == id
            && x in otherWay.identifiers && otherWay.identifiers[x] == a.minted != id
  {
    NamesakeKeys(x, y, a, both, b);
    ClashesBothWays(a, both);
    var first := FlipTo(m, both, a, id, {x, y});
    var oneWay := MintSecond(first, id, a, {x, y}, b, y);
    var second := FlipTo(m, both, b, id, {x, y});
    var otherWay := MintSecond(second, id, b, {x, y}, a, x);
    OneRow(m, a, first);
    OneRow(first, b, oneWay);
    OneRow(m, b, second);
    OneRow(second, a, otherWay);
  }

  lemma ClashesBothWays(a: Row, b: Row)
    requires Clash(a, b)
    ensures Clash(b, a)
  {
  }
}
