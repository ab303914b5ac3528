/** What each write of the stores answers and leaves of the records, told from the records themselves. */
module StoreRecords {
  import opened Wrappers
  import opened Sorting
  import opened Entities
  import opened MemoryModel
  import opened TableModel
  import Seqs

  // ---- upserts ----

  /** Some identifier of the record leads to another issuer already. */
  ghost predicate Contested(m: Memory, issuer: Issuer)
    requires ValidMemory(m)
  {
    exists k <- issuer.identifiers :: LookupIn(m, k).Some? && LookupIn(m, k).value.id != issuer.id
  }

  /** An upsert is refused exactly when an identifier is another's; otherwise the record is there as it was given. */
  lemma UpsertAnswered(m: Memory, issuer: Issuer, m': Memory, r: Response)
    requires ValidMemory(m) && MemoryStep(m, Upsert(issuer), m', r)
    ensures Contested(m, issuer) ==> r.Failed? && r.error.IdentifierConflict? && m' == m
    ensures !Contested(m, issuer) ==>
              && r == Returned(issuer) && ValidMemory(m') && m'.issuers == m.issuers[issuer.id := issuer]
              && m'.filings == m.filings && m'.relations == m.relations && m'.marketPoints == m.marketPoints
  {
    var conflict := FirstConflict(m.identifiers, issuer.identifiers, issuer.id);
    if conflict.None? {
      UpsertKeepsValid(m, issuer);
    } else {
      var k :| k in issuer.identifiers && k in m.identifiers && m.identifiers[k] != issuer.id;
      assert LookupIn(m, k).Some?;
    }
  }

  /** From then on its identifiers find it, those it gave up find nothing, and all others find what they found. */
  lemma UpsertedLookups(m: Memory, issuer: Issuer, m': Memory, k: Identifier)
    requires ValidMemory(m) && ValidMemory(m') && MemoryStep(m, Upsert(issuer), m', Returned(issuer))
    ensures LookupIn(m', k)
         == if k in issuer.identifiers then Some(issuer)
            else if LookupIn(m, k).Some? && LookupIn(m, k).value.id == issuer.id then None
            else LookupIn(m, k)
  {
    assert Owns(m', issuer.id, k) <==> k in issuer.identifiers;
  }

  // ---- merges ----

  /** Two different issuers, both known. */
  predicate Mergeable(m: Memory, keep: IssuerId, drop: IssuerId) {
    keep != drop && keep in m.issuers && drop in m.issuers
  }

  /** A merge of an unknown issuer is refused; of an issuer with itself or an unknown one, it is no change. */
  lemma IdleMergeAnswered(m: Memory, keep: IssuerId, drop: IssuerId, m': Memory, r: Response)
    requires MemoryStep(m, Merge(keep, drop), m', r) && !Mergeable(m, keep, drop)
    ensures m' == m
    ensures r == if keep in m.issuers then Returned(m.issuers[keep]) else Failed(UnknownIssuer(keep))
  {
  }

  /**
   * A merge keeps the names of the kept issuer, gives it the identifiers of both, its own first and each once, and
   * leaves no record of the other; nobody else's record changes.
   */
  lemma MergeAnswered(m: Memory, keep: IssuerId, drop: IssuerId, m': Memory, r: Response)
    requires ValidMemory(m) && MemoryStep(m, Merge(keep, drop), m', r) && Mergeable(m, keep, drop)
    ensures ValidMemory(m') && m'.issuers.Keys == m.issuers.Keys - {drop} && r == Returned(m'.issuers[keep])
    ensures forall id :: id in m'.issuers && id != keep ==> m'.issuers[id] == m.issuers[id]
    ensures var (was, gone, now) := (m.issuers[keep], m.issuers[drop], m'.issuers[keep]);
            && now.id == keep && now.lei == was.lei && now.jcn == was.jcn && now.displayName == was.displayName
            && (forall k :: k in now.identifiers <==> k in was.identifiers || k in gone.identifiers)
            && ByFirstIndex(now.identifiers, was.identifiers + gone.identifiers)
  {
    MergeKeepsValid(m, keep, drop, m');
    IdentifierUnionOrder(m.issuers[keep].identifiers, m.issuers[drop].identifiers);
  }

  /** Both issuers' identifiers find the merged record, all others find what they found. */
  lemma MergedLookups(m: Memory, keep: IssuerId, drop: IssuerId, m': Memory, r: Response, k: Identifier)
    requires ValidMemory(m) && MemoryStep(m, Merge(keep, drop), m', r) && Mergeable(m, keep, drop)
    requires ValidMemory(m') && keep in m'.issuers
    ensures LookupIn(m', k)
         == if LookupIn(m, k).Some? && (LookupIn(m, k).value.id == keep || LookupIn(m, k).value.id == drop)
            then Some(m'.issuers[keep])
            else LookupIn(m, k)
  {
  }

  /** What is recorded of the dropped issuer is recorded of the kept one, and is otherwise as it was. */
  lemma MergeRelabels(m: Memory, keep: IssuerId, drop: IssuerId, m': Memory, r: Response, i: nat)
    requires MemoryStep(m, Merge(keep, drop), m', r) && Mergeable(m, keep, drop)
    ensures |m'.filings| == |m.filings| && |m'.relations| == |m.relations|
    ensures i < |m.filings| ==>
              var (f, f') := (m.filings[i], m'.filings[i]);
              && f'.issuerId == (if f.issuerId == drop then keep else f.issuerId)
              && f'.docId == f.docId && f'.docTypeCode == f.docTypeCode && f'.submittedAt == f.submittedAt
              && f'.parentDocId == f.parentDocId && f'.provenance == f.provenance
    ensures i < |m.relations| ==>
              var (x, x') := (m.relations[i], m'.relations[i]);
              && x'.fromId == (if x.fromId == drop then keep else x.fromId)
              && x'.toId == (if x.toId == drop then keep else x.toId)
              && x'.kind == x.kind && x'.validFrom == x.validFrom && x'.validTo == x.validTo
              && x'.provenance == x.provenance
  {
    assert Merged(m, keep, drop, m');
  }

  /** The kept issuer's keys before the others, keys of one issuer by kind and value. */
  ghost predicate InMergedOrder(t: Tables, keep: IssuerId, x: Identifier, y: Identifier) {
    && x in t.identifiers && y in t.identifiers
    && x != y && (t.identifiers[y] == keep ==> t.identifiers[x] == keep)
    && (t.identifiers[x] == t.identifiers[y] ==> ByKindThenValue(x, y))
  }

  /** In the tables: the kept row under the keys of both, the kept issuer's first, each part by kind and value. */
  lemma TableMergeAnswered(t: Tables, keep: IssuerId, drop: IssuerId, t': Tables, issuer: Issuer)
    requires TableStep(t, Merge(keep, drop)) == (t', Returned(issuer))
    requires keep != drop && keep in t.issuers && drop in t.issuers
    ensures t'.issuers == t.issuers - {drop} && issuer.id == keep
    ensures var row := t.issuers[keep];
            issuer.lei == row.lei && issuer.jcn == row.jcn && issuer.displayName == row.displayName
    ensures forall k :: k in issuer.identifiers
                   <==> k in t.identifiers && (t.identifiers[k] == keep || t.identifiers[k] == drop)
    ensures forall i, j :: 0 <= i < j < |issuer.identifiers| ==>
              InMergedOrder(t, keep, issuer.identifiers[i], issuer.identifiers[j])
  {
    var first, second := SortedIdentifiers(IdentifiersOf(t, keep)), SortedIdentifiers(IdentifiersOf(t, drop));
    UnionOfMerged(t, keep, drop, first, second);
    assert issuer == IssuerFromRow(t, keep).(identifiers := first + second);
    forall i, j | 0 <= i < j < |issuer.identifiers|
      ensures InMergedOrder(t, keep, issuer.identifiers[i], issuer.identifiers[j]) {
      TwoMergedKeys(t, keep, drop, first, second, i, j);
    }
  }

  lemma UnionOfMerged(t: Tables, keep: IssuerId, drop: IssuerId, first: seq<Identifier>, second: seq<Identifier>)
    requires keep != drop
    requires first == SortedIdentifiers(IdentifiersOf(t, keep)) && second == SortedIdentifiers(IdentifiersOf(t, drop))
    ensures IdentifierUnion(first, second) == first + second
    ensures forall k :: k in first + second
                   <==> k in t.identifiers && (t.identifiers[k] == keep || t.identifiers[k] == drop)
  {
    MergedKeysDiffer(t, keep, drop, first, second);
    KeepAll([], first + second);
    assert [] + (first + second) == first + second;
  }

  lemma MergedKeysDiffer(t: Tables, keep: IssuerId, drop: IssuerId, first: seq<Identifier>, second: seq<Identifier>)
    requires keep != drop
    requires first == SortedIdentifiers(IdentifiersOf(t, keep)) && second == SortedIdentifiers(IdentifiersOf(t, drop))
    ensures NoDuplicates([] + (first + second))
  {
    assert [] + (first + second) == first + second;
    forall i, j | 0 <= i < j < |first + second| ensures (first + second)[i] != (first + second)[j] {
      TwoMergedKeys(t, keep, drop, first, second, i, j);
    }
  }

  lemma {:induction false} KeepAll(kept: seq<Identifier>, rest: seq<Identifier>)
    requires NoDuplicates(kept + rest)
    ensures NoDuplicates(kept) && KeepFirst(kept, rest) == kept + rest
    decreases rest
  {
    assert forall i :: 0 <= i < |kept| ==> (kept + rest)[i] == kept[i];
    if rest == [] {
      assert kept + rest == kept;
    } else {
      assert kept + rest == (kept + [rest[0]]) + rest[1..];
      assert (kept + rest)[|kept|] == rest[0];
      KeepAll(kept + [rest[0]], rest[1..]);
    }
  }

  lemma TwoMergedKeys(t: Tables, keep: IssuerId, drop: IssuerId, first: seq<Identifier>, second: seq<Identifier>,
                      i: nat, j: nat)
    requires first == SortedIdentifiers(IdentifiersOf(t, keep)) && second == SortedIdentifiers(IdentifiersOf(t, drop))
    requires keep != drop && i < j < |first + second|
    ensures InMergedOrder(t, keep, (first + second)[i], (first + second)[j])
  {
    var (x, y) := ((first + second)[i], (first + second)[j]);
    assert x in (if i < |first| then first else second) && y in (if j < |first| then first else second);
    IdentifierLeIsLinearOrder();
    IdentifierLeMeans(x, y);
  }

  // ---- appends ----

  /** An append is refused exactly for an unknown issuer, the first one it names, and then leaves everything alone. */
  lemma AppendAnswered(m: Memory, op: Op, m': Memory, r: Response)
    requires MemoryStep(m, op, m', r)
    ensures op.AppendPoints? ==> r == if op.id in m.issuers then Done else Failed(UnknownIssuer(op.id))
    ensures op.AppendFiling? ==>
              r == if op.filing.issuerId in m.issuers then Done else Failed(UnknownIssuer(op.filing.issuerId))
    ensures op.AppendRelation? ==>
              r == if op.relation.fromId !in m.issuers then Failed(UnknownIssuer(op.relation.fromId))
                   else if op.relation.toId in m.issuers then Done
                   else Failed(UnknownIssuer(op.relation.toId))
    ensures !op.Upsert? && !op.Merge? ==>
              && m'.issuers == m.issuers && m'.identifiers == m.identifiers
              && (m'.filings == m.filings || op.AppendFiling?) && (m'.relations == m.relations || op.AppendRelation?)
              && (m'.marketPoints == m.marketPoints || op.AppendPoints?)
    ensures r.Failed? ==> m' == m
  {
  }
}
