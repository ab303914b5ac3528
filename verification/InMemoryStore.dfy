/** The pure in-memory entity store. */
module InMemoryStore {
  import opened Wrappers
  import opened Sorting
  import opened Entities
  import opened MemoryModel
  import Seqs

  class InMemoryEntityStore {
    var issuers: map<IssuerId, Issuer>
    var identifiers: map<Identifier, IssuerId>
    var marketPoints: Market
    var filings: seq<Filing>
    var relations: seq<Relation>

    ghost function State(): Memory
      reads this
    {
      Memory(issuers, identifiers, marketPoints, filings, relations)
    }

    ghost predicate Valid()
      reads this
    {
      ValidMemory(State())
    }

    constructor ()
      ensures Valid() && State() == EmptyMemory
    {
      issuers, identifiers, marketPoints := map[], map[], map[];
      filings, relations := [], [];
    }

    method GetIssuer(id: IssuerId) returns (r: Option<Issuer>)
      ensures r == if id in issuers then Some(issuers[id]) else None
    {
      r := if id in issuers then Some(issuers[id]) else None;
    }

    method LookupIssuer(k: Identifier) returns (r: Option<Issuer>)
      requires Valid()
      ensures r == LookupIn(State(), k)
    {
      if k !in identifiers {
        return None;
      }
      assert Owns(State(), identifiers[k], k);
      r := Some(issuers[identifiers[k]]);
    }

    method CheckConflicts(issuer: Issuer) returns (r: Option<StoreError>)
      ensures r == FirstConflict(identifiers, issuer.identifiers, issuer.id)
    {
      var ks := issuer.identifiers;
      for i := 0 to |ks|
        invariant FirstConflict(identifiers, ks, issuer.id) == FirstConflict(identifiers, ks[i..], issuer.id)
      {
        var k := ks[i];
        assert ks[i..][0] == k && ks[i..][1..] == ks[i + 1..];
        if k in identifiers && identifiers[k] != issuer.id {
          return Some(IdentifierConflict(k.kind, k.value, identifiers[k], issuer.id));
        }
      }
      r := None;
    }

    /** Drops the index entries the issuer's previous record held and the new one gives up. */
    method ReleaseKeys(issuer: Issuer)
      modifies this`identifiers
      ensures identifiers == KeptIndex(old(State()), issuer)
    {
      ghost var before := State();
      if issuer.id in issuers {
        var newKeys := set k <- issuer.identifiers;
        var previous := issuers[issuer.id].identifiers;
        for i := 0 to |previous|
          invariant identifiers
            == map k | k in before.identifiers && !(k in previous[..i] && Released(before, issuer, k))
                     :: before.identifiers[k]
        {
          var k := previous[i];
          assert previous[..i + 1] == previous[..i] + [k];
          if k !in newKeys && k in identifiers && identifiers[k] == issuer.id {
            identifiers := identifiers - {k};
          }
        }
        Seqs.FullPrefix(previous);
      }
    }

    method ClaimKeys(issuer: Issuer)
      modifies this`identifiers
      ensures identifiers == map k | k in old(identifiers).Keys + IdentifierSet(issuer) ::
                if k in issuer.identifiers then issuer.id else old(identifiers)[k]
    {
      var ks := issuer.identifiers;
      for i := 0 to |ks|
        invariant identifiers == map k | k in old(identifiers).Keys + IdentifierSet(issuer.(identifiers := ks[..i])) ::
                    if k in ks[..i] then issuer.id else old(identifiers)[k]
      {
        assert ks[..i + 1] == ks[..i] + [ks[i]];
        identifiers := identifiers[ks[i] := issuer.id];
      }
      Seqs.FullPrefix(ks);
    }

    /** Rejects an identifier owned by another issuer; otherwise replaces the record and re-indexes it. */
    method UpsertIssuer(issuer: Issuer) returns (r: Result<Issuer, StoreError>)
      modifies this`issuers, this`identifiers
      ensures MemoryStep(old(State()), Upsert(issuer), State(), OfResult(r))
      ensures old(Valid()) ==> Valid()
    {
      var conflict := CheckConflicts(issuer);
      if conflict.Some? {
        return Err(conflict.value);
      }
      ghost var before := State();
      ReleaseKeys(issuer);
      issuers := issuers[issuer.id := issuer];
      ClaimKeys(issuer);
      ReleaseThenClaim(before, issuer);
      if ValidMemory(before) {
        UpsertKeepsValid(before, issuer);
      }
      r := Ok(issuer);
    }

    /** Re-points the dropped issuer's keys at the kept one. The identifier-conflict error cannot arise. */
    method RepointKeys(keep: IssuerId, drop: IssuerId)
      requires Valid() && keep in issuers && drop in issuers && keep != drop
      modifies this`identifiers
      ensures identifiers == map k | k in old(identifiers) :: Rename(old(identifiers)[k], keep, drop)
    {
      var ks := issuers[drop].identifiers;
      DroppedKeys(State(), drop);
      ghost var before := identifiers;
      for i := 0 to |ks|
        invariant identifiers.Keys == before.Keys
        invariant forall k :: k in before ==> identifiers[k] == if k in ks[..i] then keep else before[k]
      {
        var k := ks[i];
        assert k in before && before[k] == drop;
        assert forall j :: j in ks[..i + 1] <==> j in ks[..i] || j == k;
        if k in identifiers && identifiers[k] != keep && identifiers[k] != drop {
          assert false;
        }
        identifiers := identifiers[k := keep];
      }
      Seqs.FullPrefix(ks);
    }

    /** Moves the dropped issuer's market lists to the kept one; the order of the two parts follows
        the iteration order of the dictionary. */
    method TransferMarketPoints(keep: IssuerId, drop: IssuerId)
      requires keep != drop
      modifies this`marketPoints
      ensures MergedMarket(old(marketPoints), marketPoints, keep, drop)
    {
      var transferred: Market := map[];
      var rest := marketPoints.Keys;
      while rest != {}
        invariant marketPoints == old(marketPoints) && rest <= marketPoints.Keys
        invariant Transferred(marketPoints, marketPoints.Keys - rest, transferred, keep, drop)
        decreases rest
      {
        var key :| key in rest;
        var target := MarketKey(Rename(key.issuerId, keep, drop), key.kind, key.source);
        var soFar := if target in transferred then transferred[target] else [];
        TransferOne(marketPoints, marketPoints.Keys - rest, transferred, keep, drop, key);
        transferred := transferred[target := soFar + marketPoints[key]];
        assert marketPoints.Keys - (rest - {key}) == marketPoints.Keys - rest + {key};
        rest := rest - {key};
      }
      assert marketPoints.Keys - rest == marketPoints.Keys;
      TransferredAll(marketPoints, transferred, keep, drop);
      marketPoints := transferred;
    }

    /** Folds `drop` into `keep`; a missing `drop` is a no-op and a missing `keep` an error. */
    method MergeIssuers(keep: IssuerId, drop: IssuerId) returns (r: Result<Issuer, StoreError>)
      requires Valid()
      modifies this
      ensures Valid()
      ensures MemoryStep(old(State()), Merge(keep, drop), State(), OfResult(r))
    {
      if keep !in issuers {
        return Err(UnknownIssuer(keep));
      }
      if keep == drop || drop !in issuers {
        return Ok(issuers[keep]);
      }
      ghost var before := State();
      var merged := issuers[keep].(
        identifiers := IdentifierUnion(issuers[keep].identifiers, issuers[drop].identifiers));
      RepointKeys(keep, drop);
      ghost var repointed := identifiers;
      RepointedIsMerged(before, keep, drop, merged, repointed);
      var upserted := UpsertIssuer(merged);
      TransferMarketPoints(keep, drop);
      filings := Seqs.Map(filings, FilingRenamer(keep, drop));
      relations := Seqs.Map(relations, RelationRenamer(keep, drop));
      issuers := issuers - {drop};
      assert Merged(before, keep, drop, State());
      MergeKeepsValid(before, keep, drop, State());
      r := Ok(merged);
    }

    method RequireIssuer(id: IssuerId) returns (r: Option<StoreError>)
      ensures r == if id in issuers then None else Some(UnknownIssuer(id))
    {
      r := if id in issuers then None else Some(UnknownIssuer(id));
    }

    method AppendMarketPoints(id: IssuerId, kind: MarketSeriesKind, points: seq<MarketPoint>)
      returns (r: Option<StoreError>)
      requires Valid()
      modifies this`marketPoints
      ensures Valid()
      ensures MemoryStep(old(State()), Op.AppendPoints(id, kind, points), State(), OfOption(r))
    {
      r := RequireIssuer(id);
      if r.Some? {
        return;
      }
      for i := 0 to |points|
        invariant Valid()
        invariant PointsAppended(old(marketPoints), marketPoints, id, kind, points[..i])
      {
        var key := MarketKey(id, kind, points[i].provenance.source);
        var soFar := if key in marketPoints then marketPoints[key] else [];
        AppendOne(old(marketPoints), marketPoints, id, kind, points, i);
        PointKeepsValid(State(), id, kind, points[i]);
        marketPoints := marketPoints[key := soFar + [points[i]]];
      }
      Seqs.FullPrefix(points);
    }

    method AppendFiling(filing: Filing) returns (r: Option<StoreError>)
      requires Valid()
      modifies this`filings
      ensures Valid()
      ensures MemoryStep(old(State()), Op.AppendFiling(filing), State(), OfOption(r))
    {
      r := RequireIssuer(filing.issuerId);
      if r.None? {
        FilingKeepsValid(State(), filing);
        filings := filings + [filing];
      }
    }

    method AppendRelation(relation: Relation) returns (r: Option<StoreError>)
      requires Valid()
      modifies this`relations
      ensures Valid()
      ensures MemoryStep(old(State()), Op.AppendRelation(relation), State(), OfOption(r))
    {
      r := RequireIssuer(relation.fromId);
      if r.None? {
        r := RequireIssuer(relation.toId);
      }
      if r.None? {
        RelationKeepsValid(State(), relation);
        relations := relations + [relation];
      }
    }

    method FilingsFor(id: IssuerId, start: Timestamp, end: Timestamp, codes: Option<seq<string>>)
      returns (r: seq<Filing>)
      ensures r == FilingsIn(State(), id, start, end, codes)
    {
      var matching := Seqs.Filter(filings, FilingQuery(id, start, end, codes));
      r := StableSort(matching, BySubmission);
    }

    method RelationsFor(id: IssuerId, kind: Option<RelationKind>, at: Option<Timestamp>) returns (r: seq<Relation>)
      ensures r == RelationsIn(State(), id, kind, at)
    {
      r := Seqs.Filter(relations, RelationQuery(id, kind, at));
    }

    method SubsidiariesOf(id: IssuerId, at: Timestamp) returns (r: seq<Issuer>)
      requires Valid()
      ensures r == SubsidiariesIn(State(), id, at)
    {
      r := FromIssuers(issuers, Seqs.Filter(relations, SubsidiaryQuery(id, at)));
    }

    /** Points of one list into the pivot, later points overwriting earlier ones. */
    method PivotList(pivot: Pivot, id: IssuerId, kind: MarketSeriesKind, source: Source,
                     points: seq<MarketPoint>, start: Timestamp, end: Timestamp)
      returns (r: Pivot)
      requires ValidPivot(pivot)
      requires forall p :: p in points ==> p.provenance.source == source
      requires forall t :: Cell(pivot, t, source) == None
      ensures ValidPivot(r)
      ensures forall t, s :: Cell(r, t, s) == ListCell(pivot, source, points, start, end, t, s)
    {
      r := pivot;
      for i := 0 to |points|
        invariant ValidPivot(r)
        invariant forall t, s :: Cell(r, t, s) == ListCell(pivot, source, points[..i], start, end, t, s)
      {
        var p := points[i];
        assert points[..i + 1][..i] == points[..i];
        if start <= p.timestamp <= end {
          PutCellSetsOne(r, p, p.timestamp, source);
          forall t, s
            ensures Cell(PutCell(r, p), t, s) ==
                    if t == p.timestamp && s == p.provenance.source then Some(p) else Cell(r, t, s) {
            PutCellSetsOne(r, p, t, s);
          }
          assert p in points;
          r := PutCell(r, p);
        }
      }
      Seqs.FullPrefix(points);
    }

    method GetMarketSeries(id: IssuerId, kind: MarketSeriesKind, start: Timestamp, end: Timestamp,
                           priority: seq<Source>)
      returns (series: MarketSeries)
      requires Valid()
      ensures SeriesIn(State(), id, kind, start, end, priority, series)
    {
      var byTimestamp: Pivot := map[];
      var rest := marketPoints.Keys;
      while rest != {}
        invariant rest <= marketPoints.Keys
        invariant ValidPivot(byTimestamp)
        invariant forall t, s :: Cell(byTimestamp, t, s) ==
                                 if MarketKey(id, kind, s) in rest then None
                                 else CellIn(State(), id, kind, start, end, t, s)
        decreases rest
      {
        var key :| key in rest;
        if key.issuerId == id && key.kind == kind {
          byTimestamp := PivotList(byTimestamp, id, kind, key.source, marketPoints[key], start, end);
        }
        rest := rest - {key};
      }
      assert PivotIn(State(), id, kind, start, end, byTimestamp);
      series := AssembleSeries(id, kind, byTimestamp, priority);
    }
  }

  // ---- what the loops maintain ----

  ghost function KeptIndex(m: Memory, issuer: Issuer): map<Identifier, IssuerId> {
    map k | k in m.identifiers && !Released(m, issuer, k) :: m.identifiers[k]
  }

  lemma ReleaseThenClaim(m: Memory, issuer: Issuer)
    ensures IndexAfter(m, issuer) == map k | k in KeptIndex(m, issuer).Keys + IdentifierSet(issuer) ::
              if k in issuer.identifiers then issuer.id else KeptIndex(m, issuer)[k]
  {
  }

  /** The index sends a key to an issuer exactly when that issuer's record lists it. */
  lemma DroppedKeys(m: Memory, drop: IssuerId)
    requires ValidMemory(m) && drop in m.issuers
    ensures forall k :: k in m.issuers[drop].identifiers <==> k in m.identifiers && m.identifiers[k] == drop
  {
    forall k ensures k in m.issuers[drop].identifiers <==> k in m.identifiers && m.identifiers[k] == drop {
      assert k in m.issuers[drop].identifiers <==> Owns(m, drop, k);
      if k in m.identifiers {
        assert Owns(m, m.identifiers[k], k);
      }
    }
  }

  ghost function ListCell(pivot: Pivot, source: Source, points: seq<MarketPoint>, start: Timestamp, end: Timestamp,
                          t: Timestamp, s: Source): Option<MarketPoint>
  {
    if s != source then Cell(pivot, t, s)
    else if start <= t <= end then LastAt(points, t)
    else None
  }

  ghost function PartOf(market: Market, done: set<MarketKey>, id: IssuerId, kind: MarketSeriesKind, source: Source)
    : seq<MarketPoint>
  {
    var key := MarketKey(id, kind, source);
    if key in done && key in market then market[key] else []
  }

  /** The transfer restricted to the keys handled so far. */
  ghost predicate Transferred(market: Market, done: set<MarketKey>, transferred: Market, keep: IssuerId,
                              drop: IssuerId) {
    && (forall key :: key in transferred <==>
          key.issuerId != drop
          && (key in done || (key.issuerId == keep && MarketKey(drop, key.kind, key.source) in done)))
    && (forall id, kind, source :: id != keep && id != drop ==>
          Points(transferred, id, kind, source) == PartOf(market, done, id, kind, source))
    && (forall kind, source ::
          var a, b := PartOf(market, done, keep, kind, source), PartOf(market, done, drop, kind, source);
          Points(transferred, keep, kind, source) == a + b || Points(transferred, keep, kind, source) == b + a)
  }

  lemma TransferOne(market: Market, done: set<MarketKey>, transferred: Market, keep: IssuerId, drop: IssuerId,
                    key: MarketKey)
    requires keep != drop && key in market && key !in done && done <= market.Keys
    requires Transferred(market, done, transferred, keep, drop)
    ensures var target := MarketKey(Rename(key.issuerId, keep, drop), key.kind, key.source);
            var soFar := if target in transferred then transferred[target] else [];
            Transferred(market, done + {key}, transferred[target := soFar + market[key]], keep, drop)
  {
    var target := MarketKey(Rename(key.issuerId, keep, drop), key.kind, key.source);
    var soFar := Points(transferred, target.issuerId, target.kind, target.source);
    var after, done' := transferred[target := soFar + market[key]], done + {key};
    forall id, kind, source | id != keep && id != drop
      ensures Points(after, id, kind, source) == PartOf(market, done', id, kind, source) {
      assert Points(transferred, id, kind, source) == PartOf(market, done, id, kind, source);
    }
    forall kind, source
      ensures var a, b := PartOf(market, done', keep, kind, source), PartOf(market, done', drop, kind, source);
              Points(after, keep, kind, source) == a + b || Points(after, keep, kind, source) == b + a {
      TransferAtKeep(market, done, transferred, keep, drop, key, kind, source);
    }
  }

  lemma TransferAtKeep(market: Market, done: set<MarketKey>, transferred: Market, keep: IssuerId, drop: IssuerId,
                       key: MarketKey, kind: MarketSeriesKind, source: Source)
    requires keep != drop && key in market && key !in done && done <= market.Keys
    requires Transferred(market, done, transferred, keep, drop)
    ensures var target := MarketKey(Rename(key.issuerId, keep, drop), key.kind, key.source);
            var was := Points(transferred, target.issuerId, target.kind, target.source);
            var after := transferred[target := was + market[key]];
            var a := PartOf(market, done + {key}, keep, kind, source);
            var b := PartOf(market, done + {key}, drop, kind, source);
            Points(after, keep, kind, source) == a + b || Points(after, keep, kind, source) == b + a
  {
    var a, b := PartOf(market, done, keep, kind, source), PartOf(market, done, drop, kind, source);
    assert Points(transferred, keep, kind, source) == a + b || Points(transferred, keep, kind, source) == b + a;
    if key == MarketKey(keep, kind, source) {
      assert a == [];
      assert b + market[key] == PartOf(market, done + {key}, drop, kind, source) + market[key];
    } else if key == MarketKey(drop, kind, source) {
      assert b == [];
    }
  }

  lemma TransferredAll(market: Market, transferred: Market, keep: IssuerId, drop: IssuerId)
    requires keep != drop && Transferred(market, market.Keys, transferred, keep, drop)
    ensures MergedMarket(market, transferred, keep, drop)
  {
    forall id, kind, source ensures PartOf(market, market.Keys, id, kind, source) == Points(market, id, kind, source) {
    }
  }

  /** After re-pointing, the merged record raises no conflict, releases nothing, and changes no index entry. */
  lemma RepointedIsMerged(m: Memory, keep: IssuerId, drop: IssuerId, merged: Issuer,
                          repointed: map<Identifier, IssuerId>)
    requires ValidMemory(m) && keep in m.issuers && drop in m.issuers && keep != drop
    requires merged == MergedIssuer(m, keep, drop)
    requires repointed == map k | k in m.identifiers :: Rename(m.identifiers[k], keep, drop)
    ensures merged.id == keep
    ensures FirstConflict(repointed, merged.identifiers, keep).None?
    ensures IndexAfter(m.(identifiers := repointed), merged) == repointed
  {
    forall k | k in merged.identifiers ensures k in repointed && repointed[k] == keep {
      assert Owns(m, keep, k) || Owns(m, drop, k);
    }
    var m1 := m.(identifiers := repointed);
    forall k | k in m.issuers[keep].identifiers ensures !Released(m1, merged, k) {
    }
  }

  lemma AppendOne(market: Market, market': Market, id: IssuerId, kind: MarketSeriesKind, points: seq<MarketPoint>,
                  i: nat)
    requires i < |points|
    requires PointsAppended(market, market', id, kind, points[..i])
    ensures var key := MarketKey(id, kind, points[i].provenance.source);
            var soFar := if key in market' then market'[key] else [];
            PointsAppended(market, market'[key := soFar + [points[i]]], id, kind, points[..i + 1])
  {
    var key := MarketKey(id, kind, points[i].provenance.source);
    var after := market'[key := (if key in market' then market'[key] else []) + [points[i]]];
    forall j, k, s ensures Points(after, j, k, s) ==
      if j == id && k == kind then Points(market, j, k, s) + Seqs.Filter(points[..i + 1], FromSource(s))
      else Points(market, j, k, s) {
      PutPoint(market', key, points[i], j, k, s);
      if j == id && k == kind {
        CellAfterOne(Points(market, j, k, s), Points(market', j, k, s), points, i, s);
      }
    }
  }

  lemma PutPoint(market: Market, key: MarketKey, p: MarketPoint, id: IssuerId, kind: MarketSeriesKind, s: Source)
    ensures Points(market[key := (if key in market then market[key] else []) + [p]], id, kind, s)
         == Points(market, id, kind, s) + (if key == MarketKey(id, kind, s) then [p] else [])
  {
  }

  lemma CellAfterOne(before: seq<MarketPoint>, now: seq<MarketPoint>, points: seq<MarketPoint>, i: nat, s: Source)
    requires i < |points| && now == before + Seqs.Filter(points[..i], FromSource(s))
    ensures before + Seqs.Filter(points[..i + 1], FromSource(s))
         == now + (if points[i].provenance.source == s then [points[i]] else [])
  {
    assert points[..i + 1][..i] == points[..i];
    Seqs.FilterOneMore(points[..i + 1], points[..i], points[i], FromSource(s));
    Seqs.Assoc(before, Seqs.Filter(points[..i], FromSource(s)),
               if points[i].provenance.source == s then [points[i]] else []);
  }
}
