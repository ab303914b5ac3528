/** Canonical issuers and what is recorded about them, shared by both entity stores. */
module Entities {
  import opened Wrappers
  import opened Sorting
  import Seqs

  type IssuerId = string

  /** An instant, normalised to UTC. */
  type Timestamp = int

  datatype Source =
    | JQuants | YFinance | PolymarketClob | PolymarketGamma | PolymarketArchive | Edinet | EdinetDb

  datatype IdentifierKind =
    | JQuantsCode | SecCode | YFinanceTicker | EdinetCode | Jcn | Lei | PolymarketToken

  /** An identifier is nothing but its (kind, value) key. */
  datatype Identifier = Identifier(kind: IdentifierKind, value: string)

  datatype Issuer = Issuer(
    id: IssuerId,
    lei: Option<string>,
    jcn: Option<string>,
    displayName: string,
    identifiers: seq<Identifier>)

  datatype Provenance = Provenance(
    source: Source, fetchedAt: Timestamp, payloadHash: string, cacheKey: Option<string>)

  datatype MarketSeriesKind =
    | DailyOpen | DailyHigh | DailyLow | DailyClose | DailyAdjClose | DailyVolume | PolymarketMidpoint

  datatype MarketPoint = MarketPoint(timestamp: Timestamp, value: real, provenance: Provenance)

  datatype Filing = Filing(
    issuerId: IssuerId,
    docId: string,
    docTypeCode: string,
    submittedAt: Timestamp,
    parentDocId: Option<string>,
    provenance: Provenance)

  datatype RelationKind = SubsidiaryOf | LargeShareholderOf | PublicTenderTarget | PolymarketSubject

  datatype Relation = Relation(
    fromId: IssuerId,
    toId: IssuerId,
    kind: RelationKind,
    validFrom: Timestamp,
    validTo: Option<Timestamp>,
    provenance: Provenance)

  datatype StoreError =
    | IdentifierConflict(kind: IdentifierKind, value: string, existing: IssuerId, proposed: IssuerId)
    | UnknownIssuer(id: IssuerId)
    | ConstraintViolation

  // ---- identifiers ----

  function IdentifierSet(issuer: Issuer): set<Identifier> {
    set k <- issuer.identifiers
  }

  ghost predicate NoDuplicates<T>(s: seq<T>) {
    forall i, j :: 0 <= i < j < |s| ==> s[i] != s[j]
  }

  lemma NoDuplicatesStep<T>(s: seq<T>, i: nat)
    requires i < |s| && NoDuplicates(s[..i])
    ensures NoDuplicates(s[..i + 1]) <==> s[i] !in s[..i]
    ensures s[i] in s[..i] ==> !NoDuplicates(s)
    ensures forall x :: x in s[..i + 1] <==> x in s[..i] || x == s[i]
  {
    var prefix, longer := s[..i], s[..i + 1];
    assert longer == prefix + [s[i]];
    if s[i] in prefix {
      var j :| 0 <= j < i && prefix[j] == s[i];
      assert s[j] == s[i] && longer[j] == longer[i];
    } else {
      forall a, b | 0 <= a < b < |longer| ensures longer[a] != longer[b] {
        if b == i {
          assert longer[a] in prefix;
        } else {
          assert prefix[a] != prefix[b];
        }
      }
    }
  }

  /** The first identifier, in order, that some other issuer already owns. */
  function FirstConflict(index: map<Identifier, IssuerId>, wanted: seq<Identifier>, id: IssuerId)
    : (r: Option<StoreError>)
    ensures r.None? <==> forall k <- wanted :: k in index ==> index[k] == id
    ensures r.Some? ==> r.value.IdentifierConflict?
  {
    if wanted == [] then None
    else
      assert wanted == [wanted[0]] + wanted[1..];
      var k := wanted[0];
      if k in index && index[k] != id then Some(IdentifierConflict(k.kind, k.value, index[k], id))
      else FirstConflict(index, wanted[1..], id)
  }

  predicate OwnedByAnother(index: map<Identifier, IssuerId>, k: Identifier, id: IssuerId) {
    k in index && index[k] != id
  }

  ghost predicate FirstOwnedAt(index: map<Identifier, IssuerId>, wanted: seq<Identifier>, id: IssuerId, i: nat) {
    && i < |wanted| && OwnedByAnother(index, wanted[i], id)
    && forall j :: 0 <= j < i ==> !OwnedByAnother(index, wanted[j], id)
  }

  /** The error names the first identifier, in order, that another issuer owns, its owner, and the issuer refused. */
  lemma {:induction false} FirstConflictIsFirst(index: map<Identifier, IssuerId>, wanted: seq<Identifier>, id: IssuerId)
    returns (i: nat)
    requires FirstConflict(index, wanted, id).Some?
    ensures FirstOwnedAt(index, wanted, id, i)
    ensures FirstConflict(index, wanted, id)
         == Some(IdentifierConflict(wanted[i].kind, wanted[i].value, index[wanted[i]], id))
  {
    if OwnedByAnother(index, wanted[0], id) {
      i := 0;
    } else {
      var rest := wanted[1..];
      i := FirstConflictIsFirst(index, rest, id);
      forall j | 0 <= j < i + 1 ensures !OwnedByAnother(index, wanted[j], id) {
        assert j == 0 || wanted[j] == rest[j - 1];
      }
      i := i + 1;
    }
  }

  /** Position of a kind's name in alphabetical order. */
  function KindRank(k: IdentifierKind): nat {
    match k
    case EdinetCode => 0
    case Jcn => 1
    case JQuantsCode => 2
    case Lei => 3
    case PolymarketToken => 4
    case SecCode => 5
    case YFinanceTicker => 6
  }

  function KindName(k: IdentifierKind): string {
    match k
    case JQuantsCode => "jquants_code"
    case SecCode => "sec_code"
    case YFinanceTicker => "yfinance_ticker"
    case EdinetCode => "edinet_code"
    case Jcn => "jcn"
    case Lei => "lei"
    case PolymarketToken => "polymarket_token"
  }

  const KIND_NAMES :=
    ["edinet_code", "jcn", "jquants_code", "lei", "polymarket_token", "sec_code", "yfinance_ticker"]

  /** Kinds are ranked as their names sort. */
  lemma KindsAreAlphabetical(a: IdentifierKind, b: IdentifierKind)
    ensures StrLe(KindName(a), KindName(b)) <==> KindRank(a) <= KindRank(b)
  {
    KindNamesAscend();
    KindNameAt(a);
    KindNameAt(b);
    AlphabeticalOrder(KIND_NAMES, KindRank(a), KindRank(b));
  }

  lemma KindNameAt(k: IdentifierKind)
    ensures KIND_NAMES[KindRank(k)] == KindName(k)
  {
  }

  lemma KindNamesAscend()
    ensures Alphabetical(KIND_NAMES)
  {
    KindsBefore();
    SevenInOrder("edinet_code", "jcn", "jquants_code", "lei", "polymarket_token", "sec_code", "yfinance_ticker");
  }

  lemma KindsBefore()
    ensures SortsBefore("edinet_code", "jcn") && SortsBefore("jcn", "jquants_code")
        && SortsBefore("jquants_code", "lei")
    ensures SortsBefore("lei", "polymarket_token") && SortsBefore("polymarket_token", "sec_code")
    ensures SortsBefore("sec_code", "yfinance_ticker")
  {
  }

  predicate IdentifierLe(a: Identifier, b: Identifier) {
    KindRank(a.kind) < KindRank(b.kind) || (a.kind == b.kind && StrLe(a.value, b.value))
  }

  /** By the names of the kinds, then by value. */
  predicate ByKindThenValue(a: Identifier, b: Identifier) {
    if a.kind == b.kind then StrLe(a.value, b.value) else StrLe(KindName(a.kind), KindName(b.kind))
  }

  lemma IdentifierLeMeans(a: Identifier, b: Identifier)
    ensures IdentifierLe(a, b) <==> ByKindThenValue(a, b)
  {
    KindsAreAlphabetical(a.kind, b.kind);
  }

  lemma IdentifierLeIsLinearOrder()
    ensures LinearOrder(IdentifierLe)
  {
    forall a: Identifier, b: Identifier
      ensures IdentifierLe(a, b) || IdentifierLe(b, a)
      ensures IdentifierLe(a, b) && IdentifierLe(b, a) ==> a == b
    {
      StrLeTotal(a.value, b.value);
    }
    forall a: Identifier, b: Identifier, c: Identifier | IdentifierLe(a, b) && IdentifierLe(b, c)
      ensures IdentifierLe(a, c)
    {
      if a.kind == b.kind == c.kind {
        StrLeTransitive(a.value, b.value, c.value);
      }
    }
  }

  /** Identifiers by kind, then value, as the persistent store returns them. */
  function SortedIdentifiers(s: set<Identifier>): (r: seq<Identifier>)
    ensures forall k :: k in r <==> k in s
    ensures NoDuplicates(r)
  {
    IdentifierLeIsLinearOrder();
    Listing(s, IdentifierLe)
  }

  /** Keys of both lists, first occurrences kept, in order of first appearance. */
  function IdentifierUnion(first: seq<Identifier>, second: seq<Identifier>): (r: seq<Identifier>)
    ensures forall k :: k in r <==> k in first || k in second
    ensures NoDuplicates(r)
  {
    KeepFirst([], first + second)
  }

  function KeepFirst(kept: seq<Identifier>, rest: seq<Identifier>): (r: seq<Identifier>)
    requires NoDuplicates(kept)
    ensures forall k :: k in r <==> k in kept || k in rest
    ensures NoDuplicates(r)
    decreases rest
  {
    if rest == [] then kept
    else
      assert rest == [rest[0]] + rest[1..];
      KeepFirst(if rest[0] in kept then kept else kept + [rest[0]], rest[1..])
  }

  /** Elements in the order in which a list first has them. */
  ghost predicate ByFirstIndex(r: seq<Identifier>, whole: seq<Identifier>) {
    && (forall k <- r :: k in whole)
    && (forall i, j :: 0 <= i < j < |r| ==> Seqs.FirstIndex(whole, r[i]) < Seqs.FirstIndex(whole, r[j]))
  }

  lemma {:induction false} KeptByFirstIndex(done: seq<Identifier>, kept: seq<Identifier>, rest: seq<Identifier>)
    requires NoDuplicates(kept) && (forall k :: k in kept <==> k in done) && ByFirstIndex(kept, done + rest)
    ensures ByFirstIndex(KeepFirst(kept, rest), done + rest)
    decreases rest
  {
    if rest != [] {
      var x, whole := rest[0], done + rest;
      assert whole == done + [x] + rest[1..];
      if x !in kept {
        forall k | k in kept ensures Seqs.FirstIndex(whole, k) < |done| <= Seqs.FirstIndex(whole, x) {
          var i :| 0 <= i < |done| && done[i] == k;
          assert whole[i] == k;
          assert forall j :: 0 <= j < |done| ==> whole[j] != x;
        }
        assert whole[|done|] == x;
        assert ByFirstIndex(kept + [x], whole);
      }
      KeptByFirstIndex(done + [x], if x in kept then kept else kept + [x], rest[1..]);
    }
  }

  /** The union lists each key of either list once, in the order in which the two lists first have them. */
  lemma IdentifierUnionOrder(first: seq<Identifier>, second: seq<Identifier>)
    ensures forall k :: k in IdentifierUnion(first, second) <==> k in first || k in second
    ensures ByFirstIndex(IdentifierUnion(first, second), first + second)
  {
    KeptByFirstIndex([], [], first + second);
    assert [] + (first + second) == first + second;
  }

  /** Two records of one issuer, compared up to the order of its identifiers. */
  ghost predicate SameIssuer(a: Issuer, b: Issuer) {
    && a.id == b.id && a.lei == b.lei && a.jcn == b.jcn && a.displayName == b.displayName
    && IdentifierSet(a) == IdentifierSet(b)
  }

  // ---- relations ----

  predicate RelationActiveAt(r: Relation, at: Timestamp) {
    r.validFrom <= at && (r.validTo.None? || at < r.validTo.value)
  }

  predicate RelationMatches(r: Relation, id: IssuerId, kind: Option<RelationKind>, at: Option<Timestamp>) {
    && (id == r.fromId || id == r.toId)
    && (kind.None? || r.kind == kind.value)
    && (at.None? || RelationActiveAt(r, at.value))
  }

  predicate IsSubsidiary(r: Relation, id: IssuerId, at: Timestamp) {
    r.kind == SubsidiaryOf && r.toId == id && RelationActiveAt(r, at)
  }

  function Rename(id: IssuerId, keep: IssuerId, drop: IssuerId): IssuerId {
    if id == drop then keep else id
  }

  function RenameFiling(f: Filing, keep: IssuerId, drop: IssuerId): Filing {
    f.(issuerId := Rename(f.issuerId, keep, drop))
  }

  function RenameRelation(r: Relation, keep: IssuerId, drop: IssuerId): Relation {
    r.(fromId := Rename(r.fromId, keep, drop), toId := Rename(r.toId, keep, drop))
  }

  // ---- filings ----

  predicate FilingMatches(f: Filing, id: IssuerId, start: Timestamp, end: Timestamp, codes: Option<seq<string>>) {
    && f.issuerId == id
    && start <= f.submittedAt <= end
    && (codes.None? || f.docTypeCode in codes.value)
  }

  predicate BySubmission(a: Filing, b: Filing) {
    a.submittedAt <= b.submittedAt
  }

  // ---- market series ----

  datatype ConflictRecord = ConflictRecord(timestamp: Timestamp, chosen: MarketPoint, discarded: set<MarketPoint>)

  datatype MarketSeries = MarketSeries(
    issuerId: IssuerId, kind: MarketSeriesKind, points: seq<MarketPoint>, conflictLog: seq<ConflictRecord>)

  /** Observations by timestamp, then by source: at most one point per cell. */
  type Pivot = map<Timestamp, map<Source, MarketPoint>>

  predicate HasPoint(row: map<Source, MarketPoint>) {
    row.Keys != {}
  }

  ghost predicate ValidPivot(pivot: Pivot) {
    forall t :: t in pivot ==> HasPoint(pivot[t])
  }

  function Cell(pivot: Pivot, t: Timestamp, s: Source): Option<MarketPoint> {
    if t in pivot && s in pivot[t] then Some(pivot[t][s]) else None
  }

  function PutCell(pivot: Pivot, p: MarketPoint): Pivot {
    var row := if p.timestamp in pivot then pivot[p.timestamp] else map[];
    pivot[p.timestamp := row[p.provenance.source := p]]
  }

  lemma PutCellSetsOne(pivot: Pivot, p: MarketPoint, t: Timestamp, s: Source)
    requires ValidPivot(pivot)
    ensures ValidPivot(PutCell(pivot, p))
    ensures Cell(PutCell(pivot, p), t, s) ==
            if t == p.timestamp && s == p.provenance.source then Some(p) else Cell(pivot, t, s)
  {
    var after := PutCell(pivot, p);
    assert p.provenance.source in after[p.timestamp].Keys;
    forall u | u in after ensures HasPoint(after[u]) {
      if u != p.timestamp {
        assert u in pivot && HasPoint(pivot[u]);
      }
    }
  }

  /** Position of a source's name in alphabetical order. */
  function SourceRank(s: Source): nat {
    match s
    case Edinet => 0
    case EdinetDb => 1
    case JQuants => 2
    case PolymarketArchive => 3
    case PolymarketClob => 4
    case PolymarketGamma => 5
    case YFinance => 6
  }

  const POLYMARKET := "polymarket_"

  function SourceName(s: Source): string {
    match s
    case JQuants => "jquants"
    case YFinance => "yfinance"
    case PolymarketClob => POLYMARKET + "clob"
    case PolymarketGamma => POLYMARKET + "gamma"
    case PolymarketArchive => POLYMARKET + "archive"
    case Edinet => "edinet"
    case EdinetDb => "edinetdb"
  }

  const SOURCE_NAMES :=
    ["edinet", "edinetdb", "jquants", POLYMARKET + "archive", POLYMARKET + "clob", POLYMARKET + "gamma", "yfinance"]

  lemma SourceNamesAscend()
    ensures Alphabetical(SOURCE_NAMES)
  {
    PolymarketNamesAscend();
    OtherNamesAscend();
    SevenInOrder("edinet", "edinetdb", "jquants", POLYMARKET + "archive", POLYMARKET + "clob", POLYMARKET + "gamma",
                 "yfinance");
  }

  lemma OtherNamesAscend()
    ensures SortsBefore("edinet", "edinetdb") && SortsBefore("edinetdb", "jquants")
    ensures SortsBefore("jquants", POLYMARKET + "archive") && SortsBefore(POLYMARKET + "gamma", "yfinance")
  {
  }

  lemma PolymarketNamesAscend()
    ensures SortsBefore(POLYMARKET + "archive", POLYMARKET + "clob")
        && SortsBefore(POLYMARKET + "clob", POLYMARKET + "gamma")
  {
    StrLeAfter(POLYMARKET, "archive", "clob");
    StrLeAfter(POLYMARKET, "clob", "gamma");
  }

  /** Sources are ranked as their names sort. */
  lemma SourcesAreAlphabetical(a: Source, b: Source)
    ensures StrLe(SourceName(a), SourceName(b)) <==> SourceLe(a, b)
  {
    SourceNamesAscend();
    assert SOURCE_NAMES[SourceRank(a)] == SourceName(a) && SOURCE_NAMES[SourceRank(b)] == SourceName(b);
    AlphabeticalOrder(SOURCE_NAMES, SourceRank(a), SourceRank(b));
  }

  predicate SourceLe(a: Source, b: Source) {
    SourceRank(a) <= SourceRank(b)
  }

  lemma SourceLeIsLinearOrder()
    ensures LinearOrder(SourceLe)
  {
  }

  /** The first source of the priority list that is there, else the alphabetically first one that is. */
  function ChooseSource(sources: set<Source>, priority: seq<Source>): (s: Source)
    requires sources != {}
    ensures s in sources
  {
    if priority == [] then
      SourceLeIsLinearOrder();
      Listing(sources, SourceLe)[0]
    else if priority[0] in sources then priority[0]
    else ChooseSource(sources, priority[1..])
  }

  function ChoosePoint(row: map<Source, MarketPoint>, priority: seq<Source>): (p: MarketPoint)
    requires HasPoint(row)
    ensures p in row.Values
  {
    row[ChooseSource(row.Keys, priority)]
  }

  /** s is the earliest entry of the priority list that is there, or, with none there, the least that is. */
  ghost predicate IsPreferred(sources: set<Source>, priority: seq<Source>, s: Source) {
    && s in sources
    && if exists p <- priority :: p in sources
       then s in priority && forall j :: 0 <= j < Seqs.FirstIndex(priority, s) ==> priority[j] !in sources
       else forall o :: o in sources ==> StrLe(SourceName(s), SourceName(o))
  }

  lemma {:induction false} ChosenIsPreferred(sources: set<Source>, priority: seq<Source>)
    requires sources != {}
    ensures IsPreferred(sources, priority, ChooseSource(sources, priority))
  {
    SourceLeIsLinearOrder();
    if priority == [] {
      var listing := Listing(sources, SourceLe);
      forall o | o in sources ensures StrLe(SourceName(listing[0]), SourceName(o)) {
        assert o in listing;
        SourcesAreAlphabetical(listing[0], o);
      }
    } else if priority[0] in sources {
      assert priority[0] in priority;
    } else {
      var rest, s := priority[1..], ChooseSource(sources, priority);
      ChosenIsPreferred(sources, rest);
      assert priority == [priority[0]] + rest;
      if exists p <- priority :: p in sources {
        assert exists p <- rest :: p in sources;
        assert Seqs.FirstIndex(priority, s) == Seqs.FirstIndex(rest, s) + 1;
        forall j | 0 <= j < Seqs.FirstIndex(priority, s) ensures priority[j] !in sources {
          assert j == 0 || priority[j] == rest[j - 1];
        }
      }
    }
  }

  function Discarded(row: map<Source, MarketPoint>, chosen: MarketPoint): set<MarketPoint> {
    set p | p in row.Values && p.provenance.source != chosen.provenance.source && p.value != chosen.value
  }

  function ConflictAt(row: map<Source, MarketPoint>, t: Timestamp, priority: seq<Source>): seq<ConflictRecord>
    requires HasPoint(row)
  {
    var chosen := ChoosePoint(row, priority);
    var discarded := Discarded(row, chosen);
    if discarded == {} then [] else [ConflictRecord(t, chosen, discarded)]
  }

  ghost predicate TimesOf(pivot: Pivot, ts: seq<Timestamp>) {
    forall i :: 0 <= i < |ts| ==> ts[i] in pivot && HasPoint(pivot[ts[i]])
  }

  datatype Selection = Selection(points: seq<MarketPoint>, conflicts: seq<ConflictRecord>)

  function AddSelection(sel: Selection, row: map<Source, MarketPoint>, t: Timestamp, priority: seq<Source>): Selection
    requires HasPoint(row)
  {
    Selection(sel.points + [ChoosePoint(row, priority)], sel.conflicts + ConflictAt(row, t, priority))
  }

  function SelectedAt(pivot: Pivot, ts: seq<Timestamp>, priority: seq<Source>): Selection
    requires TimesOf(pivot, ts)
  {
    if ts == [] then Selection([], [])
    else
      var n := |ts| - 1;
      AddSelection(SelectedAt(pivot, ts[..n], priority), pivot[ts[n]], ts[n], priority)
  }

  /** One point per timestamp, ascending, with a conflict wherever another source disagreed on value. */
  function SeriesOf(id: IssuerId, kind: MarketSeriesKind, pivot: Pivot, priority: seq<Source>): MarketSeries
    requires ValidPivot(pivot)
  {
    var ts := AscendingInts(pivot.Keys);
    AllTimes(pivot);
    var sel := SelectedAt(pivot, ts, priority);
    MarketSeries(id, kind, sel.points, sel.conflicts)
  }

  lemma AllTimes(pivot: Pivot)
    requires ValidPivot(pivot)
    ensures TimesOf(pivot, AscendingInts(pivot.Keys))
  {
    var ts := AscendingInts(pivot.Keys);
    forall i | 0 <= i < |ts| ensures ts[i] in pivot && HasPoint(pivot[ts[i]]) {
      var t := ts[i];
      assert t in pivot && HasPoint(pivot[t]);
    }
  }

  lemma SelectedStep(pivot: Pivot, ts: seq<Timestamp>, i: nat, priority: seq<Source>)
    requires TimesOf(pivot, ts) && i < |ts|
    ensures SelectedAt(pivot, ts[..i + 1], priority)
            == AddSelection(SelectedAt(pivot, ts[..i], priority), pivot[ts[i]], ts[i], priority)
  {
    assert ts[..i + 1][..i] == ts[..i];
  }

  /** One more chosen point, and one more conflict record exactly when another source disagrees with it on value. */
  ghost predicate Selects(sel: Selection, row: map<Source, MarketPoint>, t: Timestamp, priority: seq<Source>,
                          r: Selection) {
    exists s :: IsPreferred(row.Keys, priority, s) && SelectsFrom(sel, row, t, row[s], r)
  }

  ghost predicate Disagrees(p: MarketPoint, chosen: MarketPoint) {
    p.provenance.source != chosen.provenance.source && p.value != chosen.value
  }

  ghost predicate SelectsFrom(sel: Selection, row: map<Source, MarketPoint>, t: Timestamp, chosen: MarketPoint,
                              r: Selection) {
    && r.points == sel.points + [chosen]
    && if exists p :: p in row.Values && Disagrees(p, chosen) then
         exists d :: r.conflicts == sel.conflicts + [ConflictRecord(t, chosen, d)]
                     && forall p :: p in d <==> p in row.Values && Disagrees(p, chosen)
       else r.conflicts == sel.conflicts
  }

  /** One timestamp: the chosen point, and a conflict record when some other source disagreed. */
  method Select(sel: Selection, row: map<Source, MarketPoint>, t: Timestamp, priority: seq<Source>)
    returns (r: Selection)
    requires HasPoint(row)
    ensures r == AddSelection(sel, row, t, priority)
  {
    var chosen := ChoosePoint(row, priority);
    var discarded := Discarded(row, chosen);
    var conflicts := sel.conflicts;
    if discarded != {} {
      conflicts := conflicts + [ConflictRecord(t, chosen, discarded)];
    }
    r := Selection(sel.points + [chosen], conflicts);
  }

  /** What adding one timestamp to a selection amounts to, said of its points. */
  lemma SelectionMeans(sel: Selection, row: map<Source, MarketPoint>, t: Timestamp, priority: seq<Source>)
    requires HasPoint(row)
    ensures Selects(sel, row, t, priority, AddSelection(sel, row, t, priority))
  {
    var s := ChooseSource(row.Keys, priority);
    ChosenIsPreferred(row.Keys, priority);
    var discarded := Discarded(row, row[s]);
    forall p ensures p in discarded <==> p in row.Values && Disagrees(p, row[s]) {
    }
    assert SelectsFrom(sel, row, t, row[s], AddSelection(sel, row, t, priority)) by {
      if discarded != {} {
        var p :| p in discarded;
        assert Disagrees(p, row[s]);
      }
    }
  }

  /** The loop both stores run once their points are pivoted. */
  method SelectAll(pivot: Pivot, ts: seq<Timestamp>, priority: seq<Source>) returns (sel: Selection)
    requires TimesOf(pivot, ts)
    ensures sel == SelectedAt(pivot, ts, priority)
  {
    sel := Selection([], []);
    for i := 0 to |ts|
      invariant sel == SelectedAt(pivot, ts[..i], priority)
    {
      SelectedStep(pivot, ts, i, priority);
      var t := ts[i];
      sel := Select(sel, pivot[t], t, priority);
    }
    Seqs.FullPrefix(ts);
  }

  method AssembleSeries(id: IssuerId, kind: MarketSeriesKind, pivot: Pivot, priority: seq<Source>)
    returns (series: MarketSeries)
    requires ValidPivot(pivot)
    ensures series == SeriesOf(id, kind, pivot, priority)
  {
    var ts := AscendingInts(pivot.Keys);
    AllTimes(pivot);
    var sel := SelectAll(pivot, ts, priority);
    series := MarketSeries(id, kind, sel.points, sel.conflicts);
  }

  // ---- operations and their responses ----

  datatype Op =
    | Upsert(issuer: Issuer)
    | Merge(keep: IssuerId, drop: IssuerId)
    | AppendPoints(id: IssuerId, kind: MarketSeriesKind, points: seq<MarketPoint>)
    | AppendFiling(filing: Filing)
    | AppendRelation(relation: Relation)

  datatype Response = Done | Returned(issuer: Issuer) | Failed(error: StoreError)

  function OfOption(e: Option<StoreError>): Response {
    if e.Some? then Failed(e.value) else Done
  }

  function OfResult(r: Result<Issuer, StoreError>): Response {
    match r
    case Ok(issuer) => Returned(issuer)
    case Err(e) => Failed(e)
  }

  /** Same error, or same success with issuers compared up to identifier order. */
  ghost predicate SameResponse(a: Response, b: Response) {
    if a.Returned? && b.Returned? then SameIssuer(a.issuer, b.issuer) else a == b
  }
}
