/** Every query answers alike on both stores, and what a merge does to every query. */
module StoreQueries {
  import opened Wrappers
  import opened Sorting
  import opened Entities
  import opened MemoryModel
  import opened TableModel
  import opened StoreSimulation
  import Seqs

  // ---- what the queries answer ----

  function SubmittedAt(at: Timestamp): Filing -> bool {
    (f: Filing) => f.submittedAt == at
  }

  function MatchingAt(id: IssuerId, start: Timestamp, end: Timestamp, codes: Option<seq<string>>, at: Timestamp)
    : Filing -> bool
  {
    (f: Filing) => FilingMatches(f, id, start, end, codes) && f.submittedAt == at
  }

  lemma {:induction false} FilterTwice(filings: seq<Filing>, p: Filing -> bool, q: Filing -> bool, both: Filing -> bool)
    requires forall f :: both(f) <==> p(f) && q(f)
    ensures Seqs.Filter(Seqs.Filter(filings, p), q) == Seqs.Filter(filings, both)
  {
    if filings != [] {
      var n := |filings| - 1;
      FilterTwice(filings[..n], p, q, both);
      var last := [filings[n]];
      assert last[..0] == [];
      Seqs.FilterAppend(Seqs.Filter(filings[..n], p), if p(filings[n]) then last else [], q);
    }
  }

  /** The matching filings, each as often as recorded, by submission; filings of one instant in insertion order. */
  lemma FilingsAnswered(m: Memory, id: IssuerId, start: Timestamp, end: Timestamp, codes: Option<seq<string>>,
                        f: Filing, at: Timestamp)
    ensures var answer := FilingsIn(m, id, start, end, codes);
            && SortedBy(answer, BySubmission)
            && multiset(answer)[f] == (if FilingMatches(f, id, start, end, codes) then multiset(m.filings)[f] else 0)
            && Seqs.Filter(answer, SubmittedAt(at)) == Seqs.Filter(m.filings, MatchingAt(id, start, end, codes, at))
  {
    var query := FilingQuery(id, start, end, codes);
    var matching := Seqs.Filter(m.filings, query);
    assert TotalPreorder(BySubmission);
    StableSortSorts(matching, BySubmission);
    Seqs.FilterCount(m.filings, query, f);
    StableSortKeepsTies(matching, BySubmission, SubmittedAt(at));
    FilterTwice(m.filings, query, SubmittedAt(at), MatchingAt(id, start, end, codes, at));
  }

  /** The matching relations at their ascending positions among the recorded ones, and no other. */
  lemma RelationsAnswered(m: Memory, id: IssuerId, kind: Option<RelationKind>, at: Option<Timestamp>)
    returns (positions: seq<nat>)
    ensures Seqs.Picks(m.relations, RelationQuery(id, kind, at), RelationsIn(m, id, kind, at), positions)
  {
    positions := Seqs.FilterPicks(m.relations, RelationQuery(id, kind, at));
  }

  /** One record for each active subsidiary relation to the issuer, that of the relation's source, in recorded order. */
  lemma SubsidiariesAnswered(m: Memory, id: IssuerId, at: Timestamp)
    returns (positions: seq<nat>, picked: seq<Relation>)
    requires ValidMemory(m)
    ensures Seqs.Picks(m.relations, SubsidiaryQuery(id, at), picked, positions)
    ensures var answer := SubsidiariesIn(m, id, at);
            |answer| == |picked| && forall i :: 0 <= i < |picked| ==>
              picked[i].fromId in m.issuers && answer[i] == m.issuers[picked[i].fromId]
  {
    picked := Seqs.Filter(m.relations, SubsidiaryQuery(id, at));
    positions := Seqs.FilterPicks(m.relations, SubsidiaryQuery(id, at));
    forall i | 0 <= i < |picked| ensures picked[i].fromId in m.issuers {
      assert picked[i] in picked;
    }
  }

  // ---- agreement ----

  lemma LookupsAgree(m: Memory, t: Tables, id: IssuerId, k: Identifier)
    requires Represents(m, t)
    ensures LookupIn(m, k).Some? <==> LookupRow(t, k).Some?
    ensures LookupIn(m, k).Some? ==> SameIssuer(LookupIn(m, k).value, LookupRow(t, k).value)
    ensures id in m.issuers <==> GetIssuerRow(t, id).Some?
    ensures id in m.issuers ==> SameIssuer(m.issuers[id], GetIssuerRow(t, id).value)
  {
    if id in m.issuers {
      SameRecord(m, t, id);
    }
    if k in m.identifiers {
      assert Owns(m, m.identifiers[k], k);
      SameRecord(m, t, m.identifiers[k]);
    }
  }

  lemma {:induction false} FiledOnce(filings: seq<Filing>, f: Filing)
    requires DistinctDocs(filings)
    ensures multiset(filings)[f] == if f in filings then 1 else 0
  {
    if filings != [] {
      var n := |filings| - 1;
      Seqs.SplitLast(filings);
      FiledOnce(filings[..n], f);
      assert forall i :: 0 <= i < n ==> filings[..n][i].docId != filings[n].docId;
    }
  }

  /** Any result set of the tables is a reordering, within equal submission instants, of the memory's answer. */
  lemma FilingsAgree(m: Memory, t: Tables, id: IssuerId, start: Timestamp, end: Timestamp,
                     codes: Option<seq<string>>, answer: seq<Filing>)
    requires Represents(m, t) && FilingsAnswer(t, id, start, end, codes, answer)
    ensures multiset(answer) == multiset(FilingsIn(m, id, start, end, codes))
    ensures SortedBy(answer, BySubmission) && SortedBy(FilingsIn(m, id, start, end, codes), BySubmission)
  {
    var matching := Seqs.Filter(m.filings, FilingQuery(id, start, end, codes));
    forall f: Filing ensures multiset(answer)[f] == multiset(matching)[f] {
      Seqs.FilterCount(m.filings, FilingQuery(id, start, end, codes), f);
      FiledOnce(m.filings, f);
    }
    assert TotalPreorder(BySubmission);
    StableSortSorts(matching, BySubmission);
  }

  lemma RelationsAgree(m: Memory, t: Tables, id: IssuerId, kind: Option<RelationKind>, at: Option<Timestamp>,
                       answer: seq<Relation>)
    requires Represents(m, t) && RelationsAnswer(t, id, kind, at, answer)
    ensures multiset(answer) == multiset(RelationsIn(m, id, kind, at))
  {
    forall r: Relation ensures multiset(answer)[r] == multiset(RelationsIn(m, id, kind, at))[r] {
      Seqs.FilterCount(m.relations, RelationQuery(id, kind, at), r);
    }
  }

  /** An issuer up to the order of its identifiers. */
  datatype Record = Record(id: IssuerId, row: IssuerRow, identifiers: set<Identifier>)

  function RecordOf(): Issuer -> Record {
    (issuer: Issuer) => Record(issuer.id, RowOf(issuer), IdentifierSet(issuer))
  }

  /** The record a relation's `from` side joins to. */
  function Joined(t: Tables): Relation -> Record {
    (r: Relation) =>
      Record(r.fromId, if r.fromId in t.issuers then t.issuers[r.fromId] else IssuerRow(None, None, ""),
             IdentifiersOf(t, r.fromId))
  }

  lemma JoinedRecords(m: Memory, t: Tables, id: IssuerId, at: Timestamp, rows: seq<Relation>, answer: seq<Issuer>)
    requires Represents(m, t) && JoinedRows(t, id, at, rows, answer)
    ensures multiset(rows) == multiset(Seqs.Filter(m.relations, SubsidiaryQuery(id, at)))
    ensures Seqs.Map(answer, RecordOf()) == Seqs.Map(rows, Joined(t))
  {
    forall r: Relation ensures multiset(rows)[r] == multiset(Seqs.Filter(m.relations, SubsidiaryQuery(id, at)))[r] {
      Seqs.FilterCount(m.relations, SubsidiaryQuery(id, at), r);
    }
  }

  lemma MemoryRecords(m: Memory, t: Tables, id: IssuerId, at: Timestamp)
    requires Represents(m, t)
    ensures Seqs.Map(SubsidiariesIn(m, id, at), RecordOf())
            == Seqs.Map(Seqs.Filter(m.relations, SubsidiaryQuery(id, at)), Joined(t))
  {
    var matching, mine := Seqs.Filter(m.relations, SubsidiaryQuery(id, at)), SubsidiariesIn(m, id, at);
    forall i | 0 <= i < |mine| ensures RecordOf()(mine[i]) == Joined(t)(matching[i]) {
      assert matching[i] in m.relations;
      SameRecord(m, t, matching[i].fromId);
    }
  }

  /** The same subsidiaries, each as often, up to row order and identifier order. */
  lemma SubsidiariesAgree(m: Memory, t: Tables, id: IssuerId, at: Timestamp, answer: seq<Issuer>)
    requires Represents(m, t) && SubsidiariesAnswer(t, id, at, answer)
    ensures multiset(Seqs.Map(answer, RecordOf())) == multiset(Seqs.Map(SubsidiariesIn(m, id, at), RecordOf()))
  {
    var rows :| JoinedRows(t, id, at, rows, answer);
    JoinedRecords(m, t, id, at, rows, answer);
    MemoryRecords(m, t, id, at);
    Seqs.UpdateRowsOfSeq(rows, Joined(t));
    Seqs.UpdateRowsOfSeq(Seqs.Filter(m.relations, SubsidiaryQuery(id, at)), Joined(t));
  }

  // ---- what a merge does to the queries ----

  /** Every key that found an issuer still does: the same one, or the kept one in place of the dropped one. */
  lemma MergeRenamesLookups(m: Memory, keep: IssuerId, drop: IssuerId, m': Memory, k: Identifier)
    requires ValidMemory(m) && keep in m.issuers && drop in m.issuers && keep != drop && Merged(m, keep, drop, m')
    requires ValidMemory(m')
    ensures LookupIn(m', k).Some? <==> LookupIn(m, k).Some?
    ensures LookupIn(m, k).Some? ==> LookupIn(m', k).value.id == Rename(LookupIn(m, k).value.id, keep, drop)
    ensures LookupIn(m, k).Some? && LookupIn(m, k).value.id !in {keep, drop} ==> LookupIn(m', k) == LookupIn(m, k)
  {
    if k in m.identifiers {
      assert Owns(m, m.identifiers[k], k);
      assert Owns(m', m'.identifiers[k], k);
    }
  }

  lemma {:induction false} MergedFilingCount(filings: seq<Filing>, keep: IssuerId, drop: IssuerId, start: Timestamp,
                                             end: Timestamp, codes: Option<seq<string>>)
    requires keep != drop
    ensures multiset(Seqs.Filter(Seqs.Map(filings, FilingRenamer(keep, drop)), FilingQuery(keep, start, end, codes)))
            == multiset(Seqs.Map(Seqs.Filter(filings, FilingQuery(keep, start, end, codes)), FilingRenamer(keep, drop)))
               + multiset(Seqs.Map(Seqs.Filter(filings, FilingQuery(drop, start, end, codes)),
                                   FilingRenamer(keep, drop)))
  {
    if filings != [] {
      var f := FilingRenamer(keep, drop);
      MergedFilingCount(filings[..|filings| - 1], keep, drop, start, end, codes);
      Seqs.FilterMapStep(filings, f, FilingQuery(keep, start, end, codes));
      Seqs.MapFilterStep(filings, FilingQuery(keep, start, end, codes), f);
      Seqs.MapFilterStep(filings, FilingQuery(drop, start, end, codes), f);
    }
  }

  /** After a merge the kept issuer's filings are exactly its own and the dropped one's. */
  lemma MergeUnitesFilings(m: Memory, keep: IssuerId, drop: IssuerId, m': Memory, start: Timestamp, end: Timestamp,
                           codes: Option<seq<string>>)
    requires keep in m.issuers && drop in m.issuers && keep != drop && Merged(m, keep, drop, m')
    ensures multiset(FilingsIn(m', keep, start, end, codes))
            == multiset(Seqs.Map(FilingsIn(m, keep, start, end, codes), FilingRenamer(keep, drop)))
               + multiset(Seqs.Map(FilingsIn(m, drop, start, end, codes), FilingRenamer(keep, drop)))
    ensures FilingsIn(m', drop, start, end, codes) == []
  {
    var f := FilingRenamer(keep, drop);
    MergedFilingCount(m.filings, keep, drop, start, end, codes);
    var ofKeep := Seqs.Filter(m.filings, FilingQuery(keep, start, end, codes));
    var ofDrop := Seqs.Filter(m.filings, FilingQuery(drop, start, end, codes));
    SortThenMap(ofKeep, f);
    SortThenMap(ofDrop, f);
    Seqs.FilterNone(m'.filings, FilingQuery(drop, start, end, codes));
  }

  lemma SortThenMap(filings: seq<Filing>, f: Filing -> Filing)
    ensures multiset(Seqs.Map(StableSort(filings, BySubmission), f)) == multiset(Seqs.Map(filings, f))
  {
    Seqs.UpdateRowsOfSeq(filings, f);
    Seqs.UpdateRowsOfSeq(StableSort(filings, BySubmission), f);
  }

  /** Nobody else's filings change. */
  lemma MergeLeavesOtherFilings(m: Memory, keep: IssuerId, drop: IssuerId, m': Memory, id: IssuerId,
                                start: Timestamp, end: Timestamp, codes: Option<seq<string>>)
    requires keep in m.issuers && drop in m.issuers && keep != drop && Merged(m, keep, drop, m')
    requires id != keep && id != drop
    ensures FilingsIn(m', id, start, end, codes) == FilingsIn(m, id, start, end, codes)
  {
    var f, q := FilingRenamer(keep, drop), FilingQuery(id, start, end, codes);
    Seqs.FilterMap(m.filings, f, q, q);
    var matching := Seqs.Filter(m.filings, q);
    assert Seqs.Map(matching, f) == matching;
  }

  function EitherQuery(keep: IssuerId, drop: IssuerId, kind: Option<RelationKind>, at: Option<Timestamp>)
    : Relation -> bool
  {
    (r: Relation) => RelationMatches(r, keep, kind, at) || RelationMatches(r, drop, kind, at)
  }

  /** The kept issuer's relations are those that touched either, in order, with the dropped end renamed. */
  lemma MergeUnitesRelations(m: Memory, keep: IssuerId, drop: IssuerId, m': Memory,
                             kind: Option<RelationKind>, at: Option<Timestamp>)
    requires keep in m.issuers && drop in m.issuers && keep != drop && Merged(m, keep, drop, m')
    ensures RelationsIn(m', keep, kind, at)
            == Seqs.Map(Seqs.Filter(m.relations, EitherQuery(keep, drop, kind, at)), RelationRenamer(keep, drop))
  {
    Seqs.FilterMap(m.relations, RelationRenamer(keep, drop), EitherQuery(keep, drop, kind, at),
                   RelationQuery(keep, kind, at));
  }

  /** Everyone else keeps the same relations, with a dropped other end renamed. */
  lemma MergeRenamesOtherRelations(m: Memory, keep: IssuerId, drop: IssuerId, m': Memory, id: IssuerId,
                                   kind: Option<RelationKind>, at: Option<Timestamp>)
    requires keep in m.issuers && drop in m.issuers && keep != drop && Merged(m, keep, drop, m')
    requires id != keep && id != drop
    ensures RelationsIn(m', id, kind, at) == Seqs.Map(RelationsIn(m, id, kind, at), RelationRenamer(keep, drop))
  {
    Seqs.FilterMap(m.relations, RelationRenamer(keep, drop), RelationQuery(id, kind, at), RelationQuery(id, kind, at));
  }

  /** Market points: the kept issuer has the bag union, everyone else the same lists. */
  lemma MergeUnitesMarketPoints(m: Memory, keep: IssuerId, drop: IssuerId, m': Memory, id: IssuerId,
                                kind: MarketSeriesKind, source: Source)
    requires keep in m.issuers && drop in m.issuers && keep != drop && Merged(m, keep, drop, m')
    ensures multiset(Points(m'.marketPoints, keep, kind, source))
            == multiset(Points(m.marketPoints, keep, kind, source))
               + multiset(Points(m.marketPoints, drop, kind, source))
    ensures Points(m'.marketPoints, drop, kind, source) == []
    ensures id != keep && id != drop
        ==> Points(m'.marketPoints, id, kind, source) == Points(m.marketPoints, id, kind, source)
  {
    assert MarketKey(drop, kind, source) !in m'.marketPoints;
  }

  function EitherSubsidiary(keep: IssuerId, drop: IssuerId, at: Timestamp): Relation -> bool {
    (r: Relation) => IsSubsidiary(r, keep, at) || IsSubsidiary(r, drop, at)
  }

  /** The record a relation's source has once the merge is done. */
  ghost function MergedSource(m: Memory, keep: IssuerId, drop: IssuerId, r: Relation): Issuer
    requires keep in m.issuers && drop in m.issuers && r.fromId in m.issuers
  {
    if r.fromId == keep || r.fromId == drop then MergedIssuer(m, keep, drop) else m.issuers[r.fromId]
  }

  /** `answer` has the merged source record of each picked relation, in order. */
  ghost predicate SourcesOf(m: Memory, keep: IssuerId, drop: IssuerId, picked: seq<Relation>, answer: seq<Issuer>)
    requires keep in m.issuers && drop in m.issuers
  {
    |answer| == |picked| && forall i :: 0 <= i < |picked| ==>
      picked[i].fromId in m.issuers && answer[i] == MergedSource(m, keep, drop, picked[i])
  }

  /** Two different known issuers merged, in a valid store that stays valid. */
  ghost predicate ProperMerge(m: Memory, keep: IssuerId, drop: IssuerId, m': Memory) {
    && ValidMemory(m) && ValidMemory(m')
    && keep in m.issuers && drop in m.issuers && keep != drop && Merged(m, keep, drop, m')
  }

  lemma RenamedSources(m: Memory, keep: IssuerId, drop: IssuerId, m': Memory, picked: seq<Relation>)
    requires ProperMerge(m, keep, drop, m')
    requires forall r :: r in picked ==> r.fromId in m.issuers
    requires forall r :: r in Seqs.Map(picked, RelationRenamer(keep, drop)) ==> r.fromId in m'.issuers
    ensures SourcesOf(m, keep, drop, picked, FromIssuers(m'.issuers, Seqs.Map(picked, RelationRenamer(keep, drop))))
  {
    var answer := FromIssuers(m'.issuers, Seqs.Map(picked, RelationRenamer(keep, drop)));
    forall i | 0 <= i < |picked|
      ensures picked[i].fromId in m.issuers && answer[i] == MergedSource(m, keep, drop, picked[i]) {
      assert picked[i] in picked;
    }
  }

  /** The kept issuer's subsidiaries are those of either, in recorded order, as their merged records. */
  lemma MergeUnitesSubsidiaries(m: Memory, keep: IssuerId, drop: IssuerId, m': Memory, at: Timestamp)
    requires ProperMerge(m, keep, drop, m')
    ensures SourcesOf(m, keep, drop, Seqs.Filter(m.relations, EitherSubsidiary(keep, drop, at)),
                      SubsidiariesIn(m', keep, at))
  {
    var picked := Seqs.Filter(m.relations, EitherSubsidiary(keep, drop, at));
    RenamingJoinsParents(keep, drop, at);
    Seqs.FilterMap(m.relations, RelationRenamer(keep, drop), EitherSubsidiary(keep, drop, at),
                   SubsidiaryQuery(keep, at));
    RenamedSources(m, keep, drop, m', picked);
  }

  /** Everyone else keeps the same subsidiaries, with the merged record in place of the two merged ones. */
  lemma MergeRenamesOtherSubsidiaries(m: Memory, keep: IssuerId, drop: IssuerId, m': Memory, id: IssuerId,
                                      at: Timestamp)
    requires ProperMerge(m, keep, drop, m') && id != keep && id != drop
    ensures var was, now := SubsidiariesIn(m, id, at), SubsidiariesIn(m', id, at);
            |now| == |was| && forall i :: 0 <= i < |was| ==>
              now[i] == if was[i].id == keep || was[i].id == drop then MergedIssuer(m, keep, drop) else was[i]
  {
    var picked := Seqs.Filter(m.relations, SubsidiaryQuery(id, at));
    RenamingKeepsOtherParents(keep, drop, id, at);
    Seqs.FilterMap(m.relations, RelationRenamer(keep, drop), SubsidiaryQuery(id, at), SubsidiaryQuery(id, at));
    RenamedSources(m, keep, drop, m', picked);
    SourceIds(m, picked);
  }

  lemma RenamingJoinsParents(keep: IssuerId, drop: IssuerId, at: Timestamp)
    ensures forall r ::
              SubsidiaryQuery(keep, at)(RelationRenamer(keep, drop)(r)) <==> EitherSubsidiary(keep, drop, at)(r)
  {
  }

  lemma RenamingKeepsOtherParents(keep: IssuerId, drop: IssuerId, id: IssuerId, at: Timestamp)
    requires id != keep && id != drop
    ensures forall r :: SubsidiaryQuery(id, at)(RelationRenamer(keep, drop)(r)) <==> SubsidiaryQuery(id, at)(r)
  {
  }

  lemma SourceIds(m: Memory, picked: seq<Relation>)
    requires ValidMemory(m) && forall r :: r in picked ==> r.fromId in m.issuers
    ensures var was := FromIssuers(m.issuers, picked);
            |was| == |picked| && forall i :: 0 <= i < |was| ==>
              was[i].id == picked[i].fromId && was[i] == m.issuers[picked[i].fromId]
  {
    forall i | 0 <= i < |picked| ensures picked[i].fromId in m.issuers {
      assert picked[i] in picked;
    }
  }

  lemma {:induction false} LastAtConcat(a: seq<MarketPoint>, b: seq<MarketPoint>, t: Timestamp)
    ensures LastAt(a + b, t) == if LastAt(b, t).Some? then LastAt(b, t) else LastAt(a, t)
  {
    if b == [] {
      assert a + b == a;
    } else {
      var n := |b| - 1;
      Seqs.PrefixOfConcat(a, b, |a| + n);
      LastAtConcat(a, b[..n], t);
      assert (a + b)[|a| + n] == b[n];
    }
  }

  /** Each observation of the kept issuer is one that either issuer had there: the only one, or one of two. */
  lemma MergeUnitesCells(m: Memory, keep: IssuerId, drop: IssuerId, m': Memory, kind: MarketSeriesKind,
                         start: Timestamp, end: Timestamp, t: Timestamp, source: Source)
    requires keep in m.issuers && drop in m.issuers && keep != drop && Merged(m, keep, drop, m')
    ensures var a, b := CellIn(m, keep, kind, start, end, t, source), CellIn(m, drop, kind, start, end, t, source);
            var merged := CellIn(m', keep, kind, start, end, t, source);
            && (merged == a || merged == b)
            && (a.None? ==> merged == b) && (b.None? ==> merged == a)
  {
    var a, b := Points(m.marketPoints, keep, kind, source), Points(m.marketPoints, drop, kind, source);
    LastAtConcat(a, b, t);
    LastAtConcat(b, a, t);
  }

  /** Everyone else's series are untouched, and the dropped issuer has none left. */
  lemma MergeLeavesOtherSeries(m: Memory, keep: IssuerId, drop: IssuerId, m': Memory, id: IssuerId,
                               kind: MarketSeriesKind, start: Timestamp, end: Timestamp, priority: seq<Source>,
                               series: MarketSeries)
    requires keep in m.issuers && drop in m.issuers && keep != drop && Merged(m, keep, drop, m') && id != keep
    ensures id != drop ==>
      (SeriesIn(m', id, kind, start, end, priority, series) <==> SeriesIn(m, id, kind, start, end, priority, series))
    ensures id == drop && SeriesIn(m', id, kind, start, end, priority, series)
        ==> series.points == [] && series.conflictLog == []
  {
    if id != drop {
      forall pivot ensures PivotIn(m', id, kind, start, end, pivot) <==> PivotIn(m, id, kind, start, end, pivot) {
        SamePivots(m, m', id, kind, start, end, pivot);
      }
    } else {
      forall pivot | PivotIn(m', drop, kind, start, end, pivot) ensures pivot == map[] {
        NoPivot(m, keep, drop, m', kind, start, end, pivot);
      }
      assert AscendingInts({}) == [];
    }
  }

  lemma SamePivots(m: Memory, m': Memory, id: IssuerId, kind: MarketSeriesKind, start: Timestamp, end: Timestamp,
                   pivot: Pivot)
    requires forall source :: Points(m'.marketPoints, id, kind, source) == Points(m.marketPoints, id, kind, source)
    ensures PivotIn(m', id, kind, start, end, pivot) <==> PivotIn(m, id, kind, start, end, pivot)
  {
    assert forall t, source ::
      CellIn(m', id, kind, start, end, t, source) == CellIn(m, id, kind, start, end, t, source);
  }

  lemma NoPivot(m: Memory, keep: IssuerId, drop: IssuerId, m': Memory, kind: MarketSeriesKind, start: Timestamp,
                end: Timestamp, pivot: Pivot)
    requires keep in m.issuers && drop in m.issuers && keep != drop && Merged(m, keep, drop, m')
    requires PivotIn(m', drop, kind, start, end, pivot)
    ensures pivot == map[]
  {
    forall t, s ensures Cell(pivot, t, s).None? {
      assert MarketKey(drop, kind, s) !in m'.marketPoints;
      assert Cell(pivot, t, s) == CellIn(m', drop, kind, start, end, t, s);
    }
    EmptyPivot(pivot);
  }

  lemma EmptyPivot(pivot: Pivot)
    requires ValidPivot(pivot) && forall t, s :: Cell(pivot, t, s).None?
    ensures pivot == map[]
  {
    HasCells(pivot);
    assert forall t :: t in pivot ==> exists s :: Cell(pivot, t, s).Some?;
    assert forall t :: t !in pivot;
  }

  lemma HasCells(pivot: Pivot)
    requires ValidPivot(pivot)
    ensures forall t :: t in pivot ==> exists s :: Cell(pivot, t, s).Some?
  {
    forall t | t in pivot ensures exists s :: Cell(pivot, t, s).Some? {
      assert HasPoint(pivot[t]);
      var s :| s in pivot[t].Keys;
      assert Cell(pivot, t, s).Some?;
    }
  }

  // ---- where the stores part ways ----

  /** A record repeating an identifier is accepted in memory and refused by the tables' primary key. */
  lemma RepeatedIdentifierDiverges()
    ensures var k := Identifier(Jcn, "1");
            var issuer := Issuer("I0000000000000001", None, None, "A", [k, k]);
            && MemoryStep(EmptyMemory, Upsert(issuer), Upserted(EmptyMemory, issuer), Returned(issuer))
            && TableStep(EmptyTables, Upsert(issuer)).1 == Failed(ConstraintViolation)
  {
    var k := Identifier(Jcn, "1");
    assert FirstConflict(map[], [k, k], "I0000000000000001").None?;
    assert [k, k][0] == [k, k][1];
    assert !NoDuplicates([k, k]);
  }
}
