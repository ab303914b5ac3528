/** The in-memory store's contents as a value, and what each operation does to them. */
module MemoryModel {
  import opened Wrappers
  import opened Sorting
  import opened Entities
  import Seqs

  datatype MarketKey = MarketKey(issuerId: IssuerId, kind: MarketSeriesKind, source: Source)

  type Market = map<MarketKey, seq<MarketPoint>>

  datatype Memory = Memory(
    issuers: map<IssuerId, Issuer>,
    identifiers: map<Identifier, IssuerId>,
    marketPoints: Market,
    filings: seq<Filing>,
    relations: seq<Relation>)

  const EmptyMemory := Memory(map[], map[], map[], [], [])

  // ---- what every operation keeps ----

  ghost predicate Owns(m: Memory, id: IssuerId, k: Identifier) {
    id in m.issuers && k in m.issuers[id].identifiers
  }

  /** The reverse index is exactly the inverse of the issuers' identifier sets. */
  ghost predicate IndexExact(m: Memory) {
    && (forall k :: k in m.identifiers ==> Owns(m, m.identifiers[k], k))
    && (forall id, k :: Owns(m, id, k) ==> k in m.identifiers && m.identifiers[k] == id)
  }

  /** Nothing recorded refers to an issuer that is not there. */
  ghost predicate NoDangling(m: Memory) {
    && (forall key :: key in m.marketPoints ==> key.issuerId in m.issuers)
    && (forall f :: f in m.filings ==> f.issuerId in m.issuers)
    && (forall r :: r in m.relations ==> r.fromId in m.issuers && r.toId in m.issuers)
  }

  ghost predicate SourcesFiled(market: Market) {
    forall key :: key in market ==> forall p :: p in market[key] ==> p.provenance.source == key.source
  }

  ghost predicate ValidMemory(m: Memory) {
    && (forall id :: id in m.issuers ==> m.issuers[id].id == id)
    && IndexExact(m) && NoDangling(m) && SourcesFiled(m.marketPoints)
  }

  // ---- issuers ----

  function LookupIn(m: Memory, k: Identifier): (r: Option<Issuer>)
    requires ValidMemory(m)
    ensures r.Some? <==> k in m.identifiers
  {
    if k in m.identifiers then
      assert Owns(m, m.identifiers[k], k);
      Some(m.issuers[m.identifiers[k]])
    else None
  }

  /** Keys the issuer's previous record held and the new one gives up. */
  ghost predicate Released(m: Memory, issuer: Issuer, k: Identifier) {
    && k !in issuer.identifiers
    && issuer.id in m.issuers && k in m.issuers[issuer.id].identifiers
    && k in m.identifiers && m.identifiers[k] == issuer.id
  }

  ghost function IndexAfter(m: Memory, issuer: Issuer): map<Identifier, IssuerId> {
    map k | k in m.identifiers.Keys + IdentifierSet(issuer) && !Released(m, issuer, k) ::
      if k in issuer.identifiers then issuer.id else m.identifiers[k]
  }

  ghost function Upserted(m: Memory, issuer: Issuer): Memory {
    m.(issuers := m.issuers[issuer.id := issuer], identifiers := IndexAfter(m, issuer))
  }

  lemma UpsertKeepsValid(m: Memory, issuer: Issuer)
    requires ValidMemory(m) && FirstConflict(m.identifiers, issuer.identifiers, issuer.id).None?
    ensures ValidMemory(Upserted(m, issuer))
  {
    var m' := Upserted(m, issuer);
    forall k | k in m'.identifiers ensures Owns(m', m'.identifiers[k], k) {
      if k !in issuer.identifiers {
        assert Owns(m, m.identifiers[k], k);
      }
    }
    forall id, k | Owns(m', id, k) ensures k in m'.identifiers && m'.identifiers[k] == id {
      if id != issuer.id {
        assert Owns(m, id, k);
      }
    }
  }

  // ---- appends ----

  lemma FilingKeepsValid(m: Memory, f: Filing)
    requires ValidMemory(m) && f.issuerId in m.issuers
    ensures ValidMemory(m.(filings := m.filings + [f]))
  {
    var m' := m.(filings := m.filings + [f]);
    forall id, k ensures Owns(m', id, k) <==> Owns(m, id, k) {
    }
    assert IndexExact(m') && NoDangling(m');
  }

  lemma RelationKeepsValid(m: Memory, r: Relation)
    requires ValidMemory(m) && r.fromId in m.issuers && r.toId in m.issuers
    ensures ValidMemory(m.(relations := m.relations + [r]))
  {
    var m' := m.(relations := m.relations + [r]);
    forall id, k ensures Owns(m', id, k) <==> Owns(m, id, k) {
    }
    assert IndexExact(m') && NoDangling(m');
  }

  function WithPoint(market: Market, id: IssuerId, kind: MarketSeriesKind, p: MarketPoint): Market {
    var key := MarketKey(id, kind, p.provenance.source);
    market[key := (if key in market then market[key] else []) + [p]]
  }

  lemma PointKeepsValid(m: Memory, id: IssuerId, kind: MarketSeriesKind, p: MarketPoint)
    requires ValidMemory(m) && id in m.issuers
    ensures ValidMemory(m.(marketPoints := WithPoint(m.marketPoints, id, kind, p)))
  {
    var m' := m.(marketPoints := WithPoint(m.marketPoints, id, kind, p));
    forall i, k ensures Owns(m', i, k) <==> Owns(m, i, k) {
    }
    assert IndexExact(m') && NoDangling(m');
    forall key, q | key in m'.marketPoints && q in m'.marketPoints[key] ensures q.provenance.source == key.source {
      assert (q == p && key.source == p.provenance.source) || (key in m.marketPoints && q in m.marketPoints[key]);
    }
  }

  /** Points added to one issuer and kind, each at the end of its source's list. */
  ghost predicate PointsAppended(market: Market, market': Market, id: IssuerId, kind: MarketSeriesKind,
                                 points: seq<MarketPoint>) {
    && (forall key :: key in market' ==> key in market || key.issuerId == id)
    && (forall i, k, s :: Points(market', i, k, s) ==
          if i == id && k == kind then Points(market, i, k, s) + Seqs.Filter(points, FromSource(s))
          else Points(market, i, k, s))
  }

  function FromSource(s: Source): MarketPoint -> bool {
    (p: MarketPoint) => p.provenance.source == s
  }

  // ---- merge ----

  ghost function MergedIssuer(m: Memory, keep: IssuerId, drop: IssuerId): Issuer
    requires keep in m.issuers && drop in m.issuers
  {
    m.issuers[keep].(identifiers := IdentifierUnion(m.issuers[keep].identifiers, m.issuers[drop].identifiers))
  }

  ghost function Points(market: Market, id: IssuerId, kind: MarketSeriesKind, source: Source): seq<MarketPoint> {
    var key := MarketKey(id, kind, source);
    if key in market then market[key] else []
  }

  /** Market points after a merge: the kept issuer's lists take in the dropped issuer's, on either side. */
  ghost predicate MergedMarket(market: Market, market': Market, keep: IssuerId, drop: IssuerId) {
    && (forall key :: key in market' <==>
          key.issuerId != drop
          && (key in market || (key.issuerId == keep && MarketKey(drop, key.kind, key.source) in market)))
    && (forall id, kind, source :: id != keep && id != drop ==>
          Points(market', id, kind, source) == Points(market, id, kind, source))
    && (forall kind, source ::
          var a, b := Points(market, keep, kind, source), Points(market, drop, kind, source);
          Points(market', keep, kind, source) == a + b || Points(market', keep, kind, source) == b + a)
  }

  function FilingRenamer(keep: IssuerId, drop: IssuerId): Filing -> Filing {
    (f: Filing) => RenameFiling(f, keep, drop)
  }

  function RelationRenamer(keep: IssuerId, drop: IssuerId): Relation -> Relation {
    (r: Relation) => RenameRelation(r, keep, drop)
  }

  /** What merging two different known issuers leaves behind. */
  ghost predicate Merged(m: Memory, keep: IssuerId, drop: IssuerId, m': Memory)
    requires keep in m.issuers && drop in m.issuers
  {
    && m'.issuers == m.issuers[keep := MergedIssuer(m, keep, drop)] - {drop}
    && m'.identifiers == (map k | k in m.identifiers :: Rename(m.identifiers[k], keep, drop))
    && MergedMarket(m.marketPoints, m'.marketPoints, keep, drop)
    && m'.filings == Seqs.Map(m.filings, FilingRenamer(keep, drop))
    && m'.relations == Seqs.Map(m.relations, RelationRenamer(keep, drop))
  }

  lemma MergedOwners(m: Memory, keep: IssuerId, drop: IssuerId, m': Memory, id: IssuerId, k: Identifier)
    requires ValidMemory(m) && keep in m.issuers && drop in m.issuers && keep != drop
    requires Merged(m, keep, drop, m')
    ensures Owns(m', id, k) <==>
            id != drop && (Owns(m, id, k) || (id == keep && Owns(m, drop, k)))
  {
  }

  /** The index after a merge is again the exact inverse of the identifier sets. */
  lemma MergeKeepsIndex(m: Memory, keep: IssuerId, drop: IssuerId, m': Memory)
    requires ValidMemory(m) && keep in m.issuers && drop in m.issuers && keep != drop
    requires Merged(m, keep, drop, m')
    ensures IndexExact(m')
  {
    forall k | k in m'.identifiers ensures Owns(m', m'.identifiers[k], k) {
      assert Owns(m, m.identifiers[k], k);
      MergedOwners(m, keep, drop, m', m'.identifiers[k], k);
    }
    forall id, k | Owns(m', id, k) ensures k in m'.identifiers && m'.identifiers[k] == id {
      MergedOwners(m, keep, drop, m', id, k);
      assert Owns(m, id, k) || Owns(m, drop, k);
    }
  }

  lemma MergeLeavesNothingDangling(m: Memory, keep: IssuerId, drop: IssuerId, m': Memory)
    requires ValidMemory(m) && keep in m.issuers && drop in m.issuers && keep != drop
    requires Merged(m, keep, drop, m')
    ensures NoDangling(m')
  {
    forall key | key in m'.marketPoints ensures key.issuerId in m'.issuers {
      assert key in m.marketPoints || key.issuerId == keep;
    }
    RenamedFilingsHang(m.filings, m.issuers.Keys, keep, drop);
    RenamedRelationsHang(m.relations, m.issuers.Keys, keep, drop);
  }

  lemma RenamedFilingsHang(filings: seq<Filing>, known: set<IssuerId>, keep: IssuerId, drop: IssuerId)
    requires (forall f :: f in filings ==> f.issuerId in known) && keep in known && keep != drop
    ensures forall f :: f in Seqs.Map(filings, FilingRenamer(keep, drop)) ==> f.issuerId in known - {drop}
  {
    forall f | f in Seqs.Map(filings, FilingRenamer(keep, drop)) ensures f.issuerId in known - {drop} {
      var i :| 0 <= i < |filings| && Seqs.Map(filings, FilingRenamer(keep, drop))[i] == f;
      assert filings[i] in filings;
    }
  }

  lemma RenamedRelationsHang(relations: seq<Relation>, known: set<IssuerId>, keep: IssuerId, drop: IssuerId)
    requires (forall r :: r in relations ==> r.fromId in known && r.toId in known) && keep in known && keep != drop
    ensures forall r :: r in Seqs.Map(relations, RelationRenamer(keep, drop)) ==>
              r.fromId in known - {drop} && r.toId in known - {drop}
  {
    forall r | r in Seqs.Map(relations, RelationRenamer(keep, drop))
      ensures r.fromId in known - {drop} && r.toId in known - {drop} {
      var i :| 0 <= i < |relations| && Seqs.Map(relations, RelationRenamer(keep, drop))[i] == r;
      assert relations[i] in relations;
    }
  }

  lemma MergeKeepsSources(market: Market, market': Market, keep: IssuerId, drop: IssuerId)
    requires SourcesFiled(market) && MergedMarket(market, market', keep, drop)
    ensures SourcesFiled(market')
  {
    forall key, p | key in market' && p in market'[key] ensures p.provenance.source == key.source {
      assert market'[key] == Points(market', key.issuerId, key.kind, key.source);
      if key.issuerId == keep {
        var a, b := Points(market, keep, key.kind, key.source), Points(market, drop, key.kind, key.source);
        assert p in a || p in b;
      } else {
        assert p in Points(market, key.issuerId, key.kind, key.source);
      }
    }
  }

  lemma MergeKeepsValid(m: Memory, keep: IssuerId, drop: IssuerId, m': Memory)
    requires ValidMemory(m) && keep in m.issuers && drop in m.issuers && keep != drop
    requires Merged(m, keep, drop, m')
    ensures ValidMemory(m')
  {
    MergeKeepsIndex(m, keep, drop, m');
    MergeLeavesNothingDangling(m, keep, drop, m');
    MergeKeepsSources(m.marketPoints, m'.marketPoints, keep, drop);
  }

  // ---- one operation ----

  /** One operation of the in-memory store. */
  ghost predicate MemoryStep(m: Memory, op: Op, m': Memory, r: Response) {
    match op
    case Upsert(issuer) =>
      var conflict := FirstConflict(m.identifiers, issuer.identifiers, issuer.id);
      if conflict.Some? then m' == m && r == Failed(conflict.value)
      else m' == Upserted(m, issuer) && r == Returned(issuer)
    case Merge(keep, drop) =>
      if keep !in m.issuers then m' == m && r == Failed(UnknownIssuer(keep))
      else if keep == drop || drop !in m.issuers then m' == m && r == Returned(m.issuers[keep])
      else Merged(m, keep, drop, m') && r == Returned(MergedIssuer(m, keep, drop))
    case AppendPoints(id, kind, points) =>
      if id !in m.issuers then m' == m && r == Failed(UnknownIssuer(id))
      else m' == m.(marketPoints := m'.marketPoints)
           && PointsAppended(m.marketPoints, m'.marketPoints, id, kind, points) && ValidMemory(m') && r == Done
    case AppendFiling(f) =>
      if f.issuerId !in m.issuers then m' == m && r == Failed(UnknownIssuer(f.issuerId))
      else m' == m.(filings := m.filings + [f]) && r == Done
    case AppendRelation(rel) =>
      if rel.fromId !in m.issuers then m' == m && r == Failed(UnknownIssuer(rel.fromId))
      else if rel.toId !in m.issuers then m' == m && r == Failed(UnknownIssuer(rel.toId))
      else m' == m.(relations := m.relations + [rel]) && r == Done
  }

  // ---- queries ----

  function FilingQuery(id: IssuerId, start: Timestamp, end: Timestamp, codes: Option<seq<string>>): Filing -> bool {
    (f: Filing) => FilingMatches(f, id, start, end, codes)
  }

  function RelationQuery(id: IssuerId, kind: Option<RelationKind>, at: Option<Timestamp>): Relation -> bool {
    (r: Relation) => RelationMatches(r, id, kind, at)
  }

  function SubsidiaryQuery(id: IssuerId, at: Timestamp): Relation -> bool {
    (r: Relation) => IsSubsidiary(r, id, at)
  }

  ghost function FilingsIn(m: Memory, id: IssuerId, start: Timestamp, end: Timestamp, codes: Option<seq<string>>)
    : seq<Filing>
  {
    StableSort(Seqs.Filter(m.filings, FilingQuery(id, start, end, codes)), BySubmission)
  }

  ghost function RelationsIn(m: Memory, id: IssuerId, kind: Option<RelationKind>, at: Option<Timestamp>)
    : seq<Relation>
  {
    Seqs.Filter(m.relations, RelationQuery(id, kind, at))
  }

  function FromIssuers(issuers: map<IssuerId, Issuer>, relations: seq<Relation>): seq<Issuer>
    requires forall r :: r in relations ==> r.fromId in issuers
  {
    seq(|relations|, i requires 0 <= i < |relations| =>
      assert relations[i] in relations;
      issuers[relations[i].fromId])
  }

  ghost function SubsidiariesIn(m: Memory, id: IssuerId, at: Timestamp): seq<Issuer>
    requires ValidMemory(m)
  {
    FromIssuers(m.issuers, Seqs.Filter(m.relations, SubsidiaryQuery(id, at)))
  }

  /** The last point recorded for an instant. */
  function LastAt(points: seq<MarketPoint>, t: Timestamp): Option<MarketPoint> {
    if points == [] then None
    else
      var p := points[|points| - 1];
      if p.timestamp == t then Some(p) else LastAt(points[..|points| - 1], t)
  }

  ghost function CellIn(m: Memory, id: IssuerId, kind: MarketSeriesKind, start: Timestamp, end: Timestamp,
                        t: Timestamp, source: Source): Option<MarketPoint>
  {
    if start <= t <= end then LastAt(Points(m.marketPoints, id, kind, source), t) else None
  }

  /** The points of one issuer and kind inside a range, the latest recorded winning each cell. */
  ghost predicate PivotIn(m: Memory, id: IssuerId, kind: MarketSeriesKind, start: Timestamp, end: Timestamp,
                          pivot: Pivot) {
    && ValidPivot(pivot)
    && forall t, source :: Cell(pivot, t, source) == CellIn(m, id, kind, start, end, t, source)
  }

  /** What the series query answers. */
  ghost predicate SeriesIn(m: Memory, id: IssuerId, kind: MarketSeriesKind, start: Timestamp, end: Timestamp,
                           priority: seq<Source>, series: MarketSeries) {
    exists pivot :: PivotIn(m, id, kind, start, end, pivot) && series == SeriesOf(id, kind, pivot, priority)
  }
}
