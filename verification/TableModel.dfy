/** The persistent store's tables under ideal relational semantics: a table with a primary key is a map,
    a table without one a bag of rows, and a result set without ORDER BY may come in any order. */
module TableModel {
  import opened Wrappers
  import opened Sorting
  import opened Entities
  import Seqs

  datatype IssuerRow = IssuerRow(lei: Option<string>, jcn: Option<string>, displayName: string)

  datatype MarketRow = MarketRow(issuerId: IssuerId, kind: MarketSeriesKind, point: MarketPoint)

  datatype Tables = Tables(
    issuers: map<IssuerId, IssuerRow>,
    identifiers: map<Identifier, IssuerId>,
    marketPoints: multiset<MarketRow>,
    filings: map<string, Filing>,
    relations: multiset<Relation>)

  const EmptyTables := Tables(map[], map[], multiset{}, map[], multiset{})

  // ---- issuers ----

  function IdentifiersOf(t: Tables, id: IssuerId): set<Identifier> {
    set k | k in t.identifiers && t.identifiers[k] == id
  }

  function RowOf(issuer: Issuer): IssuerRow {
    IssuerRow(issuer.lei, issuer.jcn, issuer.displayName)
  }

  function IssuerFromRow(t: Tables, id: IssuerId): (r: Issuer)
    requires id in t.issuers
    ensures r.id == id && RowOf(r) == t.issuers[id] && IdentifierSet(r) == IdentifiersOf(t, id)
  {
    var row := t.issuers[id];
    Issuer(id, row.lei, row.jcn, row.displayName, SortedIdentifiers(IdentifiersOf(t, id)))
  }

  function GetIssuerRow(t: Tables, id: IssuerId): Option<Issuer> {
    if id in t.issuers then Some(IssuerFromRow(t, id)) else None
  }

  /** The join of `issuers` with the one `identifiers` row of a key. */
  function LookupRow(t: Tables, k: Identifier): Option<Issuer> {
    if k in t.identifiers && t.identifiers[k] in t.issuers then Some(IssuerFromRow(t, t.identifiers[k])) else None
  }

  /** A key's lookup: the row of its owner, with exactly the keys bound to that owner, each once, by kind and value. */
  lemma LookupAnswered(t: Tables, k: Identifier)
    ensures LookupRow(t, k).Some? <==> k in t.identifiers && t.identifiers[k] in t.issuers
    ensures LookupRow(t, k).Some? ==>
      var r := LookupRow(t, k).value;
      && r.id == t.identifiers[k] && RowOf(r) == t.issuers[r.id]
      && (forall j :: j in r.identifiers <==> j in t.identifiers && t.identifiers[j] == r.id)
      && NoDuplicates(r.identifiers)
      && forall i, j :: 0 <= i < j < |r.identifiers| ==> ByKindThenValue(r.identifiers[i], r.identifiers[j])
  {
    if LookupRow(t, k).Some? {
      var keys := IdentifiersOf(t, t.identifiers[k]);
      IdentifierLeIsLinearOrder();
      var ids := SortedIdentifiers(keys);
      assert IsListing(ids, keys, IdentifierLe);
      forall i, j | 0 <= i < j < |ids| ensures ByKindThenValue(ids[i], ids[j]) {
        IdentifierLeMeans(ids[i], ids[j]);
      }
    }
  }

  ghost function UpsertedTables(t: Tables, issuer: Issuer): Tables {
    t.(issuers := t.issuers[issuer.id := RowOf(issuer)],
       identifiers := map k | k in t.identifiers.Keys + IdentifierSet(issuer)
                              && (k in issuer.identifiers || t.identifiers[k] != issuer.id) ::
         if k in issuer.identifiers then issuer.id else t.identifiers[k])
  }

  /** DELETE then INSERT of the issuer's identifier rows; a repeated key breaks the primary key and rolls back. */
  ghost function UpsertResult(t: Tables, issuer: Issuer): (Tables, Result<Issuer, StoreError>) {
    var conflict := FirstConflict(t.identifiers, issuer.identifiers, issuer.id);
    if conflict.Some? then (t, Err(conflict.value))
    else if !NoDuplicates(issuer.identifiers) then (t, Err(ConstraintViolation))
    else (UpsertedTables(t, issuer), Ok(issuer))
  }

  // ---- merge ----

  function MarketRenamer(keep: IssuerId, drop: IssuerId): MarketRow -> MarketRow {
    (row: MarketRow) => row.(issuerId := Rename(row.issuerId, keep, drop))
  }

  function FromRenamer(keep: IssuerId, drop: IssuerId): Relation -> Relation {
    (r: Relation) => r.(fromId := Rename(r.fromId, keep, drop))
  }

  function ToRenamer(keep: IssuerId, drop: IssuerId): Relation -> Relation {
    (r: Relation) => r.(toId := Rename(r.toId, keep, drop))
  }

  function RenamedIndex(index: map<Identifier, IssuerId>, keep: IssuerId, drop: IssuerId): map<Identifier, IssuerId> {
    map k | k in index :: Rename(index[k], keep, drop)
  }

  function RenamedFilings(filings: map<string, Filing>, keep: IssuerId, drop: IssuerId): map<string, Filing> {
    map d | d in filings :: RenameFiling(filings[d], keep, drop)
  }

  ghost function MergedTables(t: Tables, keep: IssuerId, drop: IssuerId): Tables {
    Tables(
      t.issuers - {drop},
      RenamedIndex(t.identifiers, keep, drop),
      Seqs.UpdateRows(t.marketPoints, MarketRenamer(keep, drop)),
      RenamedFilings(t.filings, keep, drop),
      Seqs.UpdateRows(Seqs.UpdateRows(t.relations, FromRenamer(keep, drop)), ToRenamer(keep, drop)))
  }

  ghost function MergedRecord(t: Tables, keep: IssuerId, drop: IssuerId): Issuer
    requires keep in t.issuers && drop in t.issuers
  {
    var a, b := IssuerFromRow(t, keep), IssuerFromRow(t, drop);
    a.(identifiers := IdentifierUnion(a.identifiers, b.identifiers))
  }

  ghost function MergeResult(t: Tables, keep: IssuerId, drop: IssuerId): (Tables, Result<Issuer, StoreError>) {
    if keep !in t.issuers then (t, Err(UnknownIssuer(keep)))
    else if keep == drop || drop !in t.issuers then (t, Ok(IssuerFromRow(t, keep)))
    else (MergedTables(t, keep, drop), Ok(MergedRecord(t, keep, drop)))
  }

  // ---- appends ----

  function RowMaker(id: IssuerId, kind: MarketSeriesKind): MarketPoint -> MarketRow {
    (p: MarketPoint) => MarketRow(id, kind, p)
  }

  ghost function AppendPointsResult(t: Tables, id: IssuerId, kind: MarketSeriesKind, points: seq<MarketPoint>)
    : (Tables, Option<StoreError>)
  {
    if id !in t.issuers then (t, Some(UnknownIssuer(id)))
    else (t.(marketPoints := t.marketPoints + multiset(Seqs.Map(points, RowMaker(id, kind)))), None)
  }

  ghost function AppendFilingResult(t: Tables, f: Filing): (Tables, Option<StoreError>) {
    if f.issuerId !in t.issuers then (t, Some(UnknownIssuer(f.issuerId)))
    else if f.docId in t.filings then (t, Some(ConstraintViolation))
    else (t.(filings := t.filings[f.docId := f]), None)
  }

  ghost function AppendRelationResult(t: Tables, r: Relation): (Tables, Option<StoreError>) {
    if r.fromId !in t.issuers then (t, Some(UnknownIssuer(r.fromId)))
    else if r.toId !in t.issuers then (t, Some(UnknownIssuer(r.toId)))
    else (t.(relations := t.relations + multiset{r}), None)
  }

  // ---- one operation ----

  /** One operation of the persistent store. */
  ghost function TableStep(t: Tables, op: Op): (Tables, Response) {
    match op
    case Upsert(issuer) => var (t', r) := UpsertResult(t, issuer); (t', OfResult(r))
    case Merge(keep, drop) => var (t', r) := MergeResult(t, keep, drop); (t', OfResult(r))
    case AppendPoints(id, kind, points) => var (t', r) := AppendPointsResult(t, id, kind, points); (t', OfOption(r))
    case AppendFiling(f) => var (t', r) := AppendFilingResult(t, f); (t', OfOption(r))
    case AppendRelation(rel) => var (t', r) := AppendRelationResult(t, rel); (t', OfOption(r))
  }

  // ---- result sets ----

  /** A result set of `filings` rows: every matching row once, by submission instant, ties in any order. */
  ghost predicate FilingsAnswer(t: Tables, id: IssuerId, start: Timestamp, end: Timestamp,
                                codes: Option<seq<string>>, answer: seq<Filing>)
  {
    && (forall f :: multiset(answer)[f] ==
          if f.docId in t.filings && t.filings[f.docId] == f && FilingMatches(f, id, start, end, codes) then 1 else 0)
    && SortedBy(answer, BySubmission)
  }

  ghost predicate RelationsAnswer(t: Tables, id: IssuerId, kind: Option<RelationKind>, at: Option<Timestamp>,
                                  answer: seq<Relation>)
  {
    forall r :: multiset(answer)[r] == if RelationMatches(r, id, kind, at) then t.relations[r] else 0
  }

  /** `rows` lists the matching relation rows and `answer` the issuer each one joins to. */
  ghost predicate JoinedRows(t: Tables, id: IssuerId, at: Timestamp, rows: seq<Relation>, answer: seq<Issuer>) {
    && (forall r :: multiset(rows)[r] == if IsSubsidiary(r, id, at) then t.relations[r] else 0)
    && |answer| == |rows|
    && forall i :: 0 <= i < |rows| ==> rows[i].fromId in t.issuers && answer[i] == IssuerFromRow(t, rows[i].fromId)
  }

  /** One joined issuer per matching relation row, in any order. */
  ghost predicate SubsidiariesAnswer(t: Tables, id: IssuerId, at: Timestamp, answer: seq<Issuer>) {
    exists rows :: JoinedRows(t, id, at, rows, answer)
  }

  ghost predicate InSeries(row: MarketRow, id: IssuerId, kind: MarketSeriesKind, start: Timestamp, end: Timestamp) {
    row.issuerId == id && row.kind == kind && start <= row.point.timestamp <= end
  }

  /** One matching row per (timestamp, source): which one, when there are several, is up to the engine. */
  ghost predicate TablePivot(rows: multiset<MarketRow>, id: IssuerId, kind: MarketSeriesKind,
                             start: Timestamp, end: Timestamp, pivot: Pivot)
  {
    && ValidPivot(pivot)
    && (forall u, s :: Cell(pivot, u, s).Some? ==>
          var p := Cell(pivot, u, s).value;
          p.timestamp == u && p.provenance.source == s && MarketRow(id, kind, p) in rows && start <= u <= end)
    && (forall row :: row in rows && InSeries(row, id, kind, start, end) ==>
          Cell(pivot, row.point.timestamp, row.point.provenance.source).Some?)
  }

  /** What the series query may answer, depending on the order in which tied rows come. */
  ghost predicate SeriesFrom(rows: multiset<MarketRow>, id: IssuerId, kind: MarketSeriesKind, start: Timestamp,
                             end: Timestamp, priority: seq<Source>, series: MarketSeries) {
    exists pivot :: TablePivot(rows, id, kind, start, end, pivot) && series == SeriesOf(id, kind, pivot, priority)
  }
}
