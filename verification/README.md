# Verified models of a research and trading system

A Dafny model of six stateful parts of a quantitative research system, with proofs of what every run of them
keeps. `dafny verify dfyconfig.toml` checks the whole project (Dafny 4.11).

Objects that the system updates in place are classes; each of their methods is proved against functions or
relations on values, and the properties of whole runs are proved about those.

## What is modelled

* **Entity stores.** `Entities`, `MemoryModel` and `InMemoryStore` are the dictionary store with its reverse
  index; `TableModel` and `DuckDbStore` are the same store as relational tables with ideal statement semantics
  (keyed tables are maps, unkeyed ones bags of rows, a result set is any order the statement allows).
  `StoreSimulation`, `StoreQueries` and `StoreSeries` relate the two: the same answers and errors over every run
  of operations that respect the tables' keys, and exactly where they part. `StoreRecords` and `StoreAppends` tell
  what each write leaves, and what each query then answers, from the fields of what was written. `Reconciliation`,
  `ReconciliationRuns`, `ReconciliationRows`, `ReconciliationReruns`, `ReconciliationFamilies`,
  `ReconciliationRegions` and `ReconciliationTables` are the loops that seed the store from source listings, what a
  single row and a dry run come to, what running them again does, when two runs commute, and the same loops over
  the tables.
* **Decision, gateway, paper broker.** `Decisions` (validators and policy gateway), `Portfolio`, `Rebalancing`,
  `PaperExecution`, `PaperOutcomes` and `PaperBroker`: a full rebalance with sells first and weighted-average cost,
  over exact reals.
* **Live trading.** `LiveSubmission`, `LiveBroker` and `LiveRuns` are the live adapter with its kill switch, loss
  cap and venue submission, `LiveRequests` and `LiveOutcomes` what it asks of the venue, records and reports;
  `LiveJournal`, `TradeStream` and `StreamProtocol` are the journal, the trade-update loop, and the protocol of
  registrations, deliveries, duplicates and crashes around them, `StreamContents` what a message leaves there.
* **Cycle runner.** `CycleEvents` (log, state machine, budget guard), `CyclePipeline` (a cycle as a recursion over
  its agents), `CycleRunner` (the unrolled runner, which refines it), `CycleTraces` (the grammar of a cycle's
  events, what it implies, and that every run obeys it) and `CycleOutcomes` (result and log of a cycle, told from
  the replies of its agents, gateway, prices and broker).
* **Walk-forward backtest.** `BacktestEngine` (the metric loops of a fold), `BacktestProperties`, `BacktestFolds`
  (folds reported or refused, and the backtest over them), `RankSignals` and `RankGrowth` (cross-sectional ranking,
  and what it selects in terms of closes), `NoLookahead` (signals and engine together) and `FoldMeanings` (the
  numbers of a fold, told from closes and weights).
* **Lint and loop detection.** `ImportReach` and `CredentialAudit` (breadth-first reachability with shortest
  import chains, and the audit over it); `LoopDetector` (verdicts on a bounded window against the unbounded
  history).

`Seqs`, `Sums`, `Sorting`, `Wrappers` and `ExecutionReports` hold shared definitions and lemmas.

## Main results

* Two implementations of the entity store answer alike over every run that respects the tables' keys, errors
  included, and a single operation exactly then (`SimulateRun`, `AgreeIffClean`); their market series agree exactly
  when every tie is hidden (`SeriesAgreeIffTiesHidden`).
* A merge keeps the reverse index exact and unites the two issuers' data in every query, without touching anyone
  else's (`MergeKeepsIndex` and the `Merge...` lemmas of `StoreQueries`).
* Seeding refines a fold over names and key sets, which decides exactly when running a list again upserts nothing
  (`RunRefinesFold`, `RerunUpsertsNothingIff`); rows of one name with equal or disjoint keys always settle, a list of
  two that clash never does (`CompatibleRowsSettle`, `ClashingRowsNeverSettle`). Runs that share no key and no issuer
  commute, ledgers included (`RunsApartCommute`), and both stores give the same ledgers (`SeedingAgrees`).
* A rebalance conserves equity, lands on its targets and never overdraws, exactly when the priced weights allow it;
  equity and books are kept by every single fill and over every session (`RebalanceOutcome`,
  `CashStaysNonNegativeIff`, `EveryFillKeepsTheBooks`, `SessionStaysSolvent`); holdings end up as weights of equity
  at kept or averaged cost (`HoldingsAreWeights`, `RebalanceKeepsCost`).
* At-least-once delivery is absorbed into exactly-once emission, with crashes costing one event each at most
  (`ExactlyOnce`, `RedeliveryIsInvisible`, `LogIsTheAnnouncedRecordings`, `CrashesLoseOneEach`).
* A rejected live batch is rolled back or the switch is engaged; nothing is submitted from a kill to a re-enable; the
  outcome of an execute is decided by its first bad leg (`RejectedReportRollsBack`, `NoSubmitWhileKilled`,
  `OutcomeOfExecute`); what the venue is asked for is what the paper book moved by (`SubmittedAsksForTheMove`).
* Every cycle's event trace obeys one grammar and agrees with its result (`EveryCycleIsWellFormed`, `EveryResultIsSound`),
  and both are determined by the replies of agents, gateway, prices and broker (`CycleComesTo`, `CycleLogsExactly`).
* No lookahead from ranking through the equity curve; drawdown is the maximum over pairs (`NothingThroughTLooksAhead`,
  `DrawdownIsMaxOverPairs`); a reported fold never gains from higher costs (`ReportedFoldsNeverEarnMore`); ranking is
  decided by the number of rivals and selects what grew most over the lookback (`WinsIffFewRivals`, `SelectedOutgrow`).
* Breadth-first search finds exactly the reachable modules by shortest chains, and the audit misses and invents nothing
  (`BfsReachable`, `AuditCredentialIsolation`).
* The loop detector's bounded window gives the verdicts of the unbounded history (`Detect...` methods).

## Assumptions

* Decimals and floats are exact reals; timestamps are integers; an issuer or cycle id is a string.
* What the outside world does is an input: the venue's answers (any answer to any attempt), agent replies and
  clock readings, upstream pages, the engine's row order. `Echoes` (the venue echoes client order ids) and
  `AcceptsAll` (it accepts every order) are assumed only where a lemma names them.
* `Row.record` is a source row's identifiers in the order the record's constructor puts them; lemmas that need
  that order name it (`Normal`).
* A crash step of the stream protocol is a delivery interrupted after the journal write and before the event.

## Where the code and its description part

* A rejected live batch is documented as having no effect, but the paper pre-flight has already rebalanced the
  paper book: trying again submits nothing and reports success (`LiveRuns.RetryAfterRejectionSubmitsNothing`).
* The integrity error of a repeated client order id is not caught by the submission loop: it escapes with the
  batch's orders open and no kill switch (`LiveSubmission.IntegrityErrorLeavesOrdersOpen`). A process restarted
  after a SUBMITTED batch and given the same action gets there, whatever the digest, if the venue accepts a client
  order id it has seen before (`LiveRuns.ConcreteResubmissionRaises`); a venue that refuses it gets the batch REJECTED.
* Seeding is documented as idempotent, independent of row order, and commuting for lists of disjoint identifiers
  (`docs/research/data-integration/03-phase-e3-reconciliation.md:95-98`). A second run upserts nothing exactly when
  every row is barred by the family of names and key sets the first one leaves
  (`ReconciliationFamilies.RerunUpsertsNothingIff`). A list of two rows of one name that overlap without agreeing is
  upserted by every run for ever, although from the second run on the store no longer changes
  (`ReconciliationReruns.ClashingRowsNeverSettle`); in a longer list such rows may settle
  (`ReconciliationFamilies.OverlapMaySettle`) or mint a second issuer (`ReconciliationReruns.NamesakesMintAgain`).
  Order does not matter for independent rows, and decides the record for two that overlap
  (`ReconciliationReruns.ClashDependsOnOrder`). Disjoint lists commute unless they meet in an issuer that is already
  there (`ReconciliationRegions.SharedIssuerDependsOnOrder`).
* The two entity stores differ on records that repeat an identifier and on re-filed documents
  (`StoreSimulation.AgreeIffClean`), and may differ on market series whose rows tie. For one priority they are sure to
  agree exactly when no tie is in a chosen cell and all tied rows elsewhere have the chosen value; for every
  priority, exactly when there is no tie (`StoreSeries.SeriesAgreeIffTiesHidden`, `StoreSeries.SeriesAgreeIffNoTies`).
* Sentinel scores are documented as never selected; they are when fewer than k tickers have data
  (`RankSignals.MissingWinsIff`).
* The lowered same-tool threshold of the loop detector never decides for an ordinary tool; for a tolerant one it
  does, lowering five calls to three failures (`LoopDetector.SameToolIff`).
* The plan schema accepts costs at which a fold has no report: once a day costs more than there is, the drawdown
  exceeds the 100 % of the metrics record and building it fails (`BacktestFolds.RunFold`,
  `BacktestFolds.AcceptedPlansRefused`). The drawdown stays below 100 % exactly when every day's cost is affordable
  (`BacktestProperties.DrawdownBelow100Iff`). Higher costs may turn a refused fold into a reported one, but between
  reported ones the dearer never earns more (`BacktestFolds.ReportedFoldsNeverEarnMore`).

## Model

| member | source | states |
|---|---|---|
| `MemoryModel.UpsertKeepsValid` | src/caqrs/entities/in_memory.py:48-70 | after an accepted upsert the reverse index is again exactly the inverse of the records' identifier sets, and nothing recorded dangles |
| `MemoryModel.MergeKeepsIndex` | src/caqrs/entities/in_memory.py:83-96 | after a merge the index is again exactly that inverse, with the dropped record's keys leading to the kept one |
| `MemoryModel.MergeLeavesNothingDangling` | src/caqrs/entities/in_memory.py:98-112 | after a merge no filing, relation, market point or index entry names an issuer that is gone |
| `MemoryModel.MergeKeepsValid` | src/caqrs/entities/in_memory.py:72-113 | the whole store invariant survives a merge |
| `InMemoryStore.RepointedIsMerged` | src/caqrs/entities/in_memory.py:85-96 | the conflict error inside a merge cannot be raised, and the nested upsert releases and moves no key |
| `InMemoryStore.InMemoryEntityStore.UpsertIssuer` | src/caqrs/entities/in_memory.py:48-70 | the dict-editing method does exactly one step of the store's transition relation, error or new state, and keeps the invariant |
| `InMemoryStore.InMemoryEntityStore.MergeIssuers` | src/caqrs/entities/in_memory.py:72-113 | the same for a merge: unknown keep is the error, equal or unknown drop changes nothing, otherwise everything is renamed |
| `InMemoryStore.InMemoryEntityStore.TransferMarketPoints` | src/caqrs/entities/in_memory.py:232-237 | rebuilding the point map renames the dropped issuer's lists and joins them, in whichever order the dictionary is iterated, to the kept issuer's |
| `InMemoryStore.InMemoryEntityStore.AppendMarketPoints` | src/caqrs/entities/in_memory.py:156-165 | points are filed under issuer, kind and their own source, in order; an unknown issuer is refused |
| `InMemoryStore.InMemoryEntityStore.AppendFiling` | src/caqrs/entities/in_memory.py:167-169 | a filing of a known issuer is appended, any other refused |
| `InMemoryStore.InMemoryEntityStore.AppendRelation` | src/caqrs/entities/in_memory.py:193-196 | both ends are checked in order before the relation is appended |
| `StoreQueries.FilingsAnswered` | src/caqrs/entities/in_memory.py:171-191 | the matching filings and no other, each as often as recorded, ascending by submission; those of one instant in insertion order |
| `StoreQueries.RelationsAnswered` | src/caqrs/entities/in_memory.py:213-226 | the answer is the recorded relations at ascending positions: exactly those that touch the issuer and pass kind and activity |
| `StoreQueries.SubsidiariesAnswered` | src/caqrs/entities/in_memory.py:198-211 | the answer, read through the predicate that `StoreAppends.SubsidiaryAppended` tells from the relation's fields, is the stored records of the sources of exactly the active subsidiary relations onto the issuer, in recorded order |
| `InMemoryStore.InMemoryEntityStore.GetMarketSeries` | src/caqrs/entities/in_memory.py:115-154 | the two dictionary loops return the series of some pivot of the stored points: later points win their cell, one chosen point per timestamp, a conflict record wherever another source disagreed |
| `Entities.SelectionMeans` | src/caqrs/entities/in_memory.py:134-147 | one timestamp adds one point, from the preferred source; a conflict record exactly when another source disagrees on the value, holding exactly the points that do |
| `Entities.ChosenIsPreferred` | src/caqrs/entities/in_memory.py:254-263 | the first source of the priority list that has a point wins, and without one the alphabetically first source |
| `StoreSeries.SeriesMeans` | src/caqrs/entities/in_memory.py:134-154 | a series has one point per instant, ascending: that of the first listed source there, or else of the alphabetically first by name |
| `StoreSeries.SeriesLogsConflicts` | src/caqrs/entities/in_memory.py:139-154 | its conflict log has, in order, one record for each instant at which another source has another value, with exactly the points that do |
| `StoreRecords.UpsertAnswered` | src/caqrs/entities/in_memory.py:48-70 | an upsert is refused, changing nothing, exactly when one of its identifiers leads to another issuer; otherwise the record is there as it was given, and no other record, filing, relation or point changes |
| `StoreRecords.UpsertedLookups` | src/caqrs/entities/in_memory.py:58-70 | from then on its identifiers find it, those it gave up find nothing, and every other finds what it found |
| `StoreRecords.IdleMergeAnswered` | src/caqrs/entities/in_memory.py:72-81 | a merge of an unknown issuer is refused; of an issuer with itself or with an unknown one it answers the issuer and changes nothing |
| `StoreRecords.MergeAnswered` | src/caqrs/entities/in_memory.py:72-113 | the kept issuer keeps its id, names and codes and has the identifiers of both, its own first and each once; the other is gone, and nobody else changes |
| `StoreRecords.MergedLookups` | src/caqrs/entities/in_memory.py:83-96 | the identifiers of both issuers find the merged record, all others what they found |
| `StoreRecords.MergeRelabels` | src/caqrs/entities/in_memory.py:98-112 | filings and relations stay in their places with every field but the dropped issuer's name as it was |
| `StoreRecords.TableMergeAnswered` | src/caqrs/entities/duckdb.py:249-290 | the tables answer a merge with the kept row under the keys of both, the kept issuer's first, each part by kind and value |
| `StoreAppends.SubsidiaryAppended` | src/caqrs/entities/in_memory.py:193-211 | appending a subsidiary relation adds the record of its from-end, last, to the answer for its to-end at every instant from its start on and before its end; every other answer, and that to any other kind, is as before |
| `StoreAppends.SubsidiaryRowAppended` | src/caqrs/entities/duckdb.py:420-467 | the same of the tables, as bags of joined records |
| `StoreAppends.RelationAdded` | src/caqrs/entities/in_memory.py:193-226 | a new relation comes last in the answers for either of its ends that ask for its kind, or none, and for an instant of its period, or none; in no other |
| `StoreAppends.RelationRowAdded` | src/caqrs/entities/duckdb.py:420-490 | the same of the tables, as bags |
| `StoreAppends.FilingAdded` | src/caqrs/entities/in_memory.py:167-191 | a new filing comes last of its instant in the answers whose issuer, period and type it has, in no other; answers list earlier instants first |
| `StoreAppends.FilingRowAdded` | src/caqrs/entities/duckdb.py:372-418 | the same of the tables, ties in any order |
| `StoreAppends.PointsAdded` | src/caqrs/entities/in_memory.py:115-165 | the last appended point for an instant in the period and a source is what that cell shows from then on; cells without one are as before |
| `StoreAppends.PointsLeaveOthers` | src/caqrs/entities/in_memory.py:115-165 | cells of other issuers and kinds are as before |
| `StoreRecords.AppendAnswered` | src/caqrs/entities/in_memory.py:156-196 | an append is refused exactly for an unknown issuer, the first it names, and then changes nothing; otherwise it changes its own collection only |
| `StoreAppends.TableCell` | src/caqrs/entities/duckdb.py:292-314 | a cell of the tables shows a row of its issuer, kind, instant and source exactly when there is one in the period |
| `Entities.IdentifierUnionOrder` | src/caqrs/entities/in_memory.py:244-251 | the keys of both lists and no other, each once, by where it first occurs in the one list followed by the other |
| `Entities.FirstConflictIsFirst` | src/caqrs/entities/in_memory.py:49-57 | the error names the first identifier in order that another issuer owns, with its owner and the refused issuer |
| `DuckDbStore.DuckDbEntityStore.UpsertIssuer` | src/caqrs/entities/duckdb.py:209-247 | the table statements, rolled back when a key repeats, do one step of the table model: checked for conflicts before, constraint violation after |
| `DuckDbStore.DuckDbEntityStore.ReplaceIdentifierRows` | src/caqrs/entities/duckdb.py:238-246 | inserting the rows one by one succeeds exactly when no identifier repeats, and then the rows are the record's |
| `DuckDbStore.DuckDbEntityStore.MergeIssuers` | src/caqrs/entities/duckdb.py:249-290 | the five UPDATEs and the DELETE do the table model's merge and answer the union record |
| `DuckDbStore.DuckDbEntityStore.UpdatedRows` | src/caqrs/entities/duckdb.py:269-284 | an UPDATE visiting the rows in any order gives the bag image |
| `DuckDbStore.DuckDbEntityStore.AppendMarketPoints` | src/caqrs/entities/duckdb.py:340-370 | rows are added for a known issuer, duplicates included |
| `DuckDbStore.DuckDbEntityStore.AppendFiling` | src/caqrs/entities/duckdb.py:372-393 | a repeated document id is refused by the primary key after the issuer check |
| `DuckDbStore.DuckDbEntityStore.AppendRelation` | src/caqrs/entities/duckdb.py:420-442 | both ends are checked in order before the row is added |
| `TableModel.LookupAnswered` | src/caqrs/entities/duckdb.py:194-207 | a key finds the row of its owner with exactly the keys bound to that owner, each once, by kind and value, and nothing when unbound |
| `DuckDbStore.DuckDbEntityStore.FilingsFor` | src/caqrs/entities/duckdb.py:395-418 | some ordering of the matching rows by submission; an empty type list matches nothing |
| `DuckDbStore.DuckDbEntityStore.RelationsFor` | src/caqrs/entities/duckdb.py:469-490 | the bag of matching rows, in some order |
| `DuckDbStore.DuckDbEntityStore.SubsidiariesOf` | src/caqrs/entities/duckdb.py:444-467 | the bag of joined records, in some order; which ones, `StoreAppends.SubsidiaryRowAppended` tells from the fields of the relations |
| `DuckDbStore.DuckDbEntityStore.GetMarketSeries` | src/caqrs/entities/duckdb.py:292-338 | the series of some pivot that the rows, in whatever order they tie, can produce |
| `StoreSimulation.SimulateStep` | src/caqrs/entities/duckdb.py:209-442 | a clean operation on both stores keeps the representation relation and is answered alike, errors included |
| `StoreSimulation.AgreeIffClean` | src/caqrs/entities/duckdb.py:209-393 | the stores answer one operation alike exactly when it is clean (no accepted record repeats an identifier, no document id is filed twice); otherwise the memory accepts what the tables refuse |
| `StoreSimulation.SimulateRun` | src/caqrs/entities/duckdb.py:209-442 | over every run of clean operations from empty, all answers agree and the tables represent the memory throughout |
| `StoreQueries.LookupsAgree` | src/caqrs/entities/duckdb.py:185-207 | lookups by id and by key find something in one store exactly when in the other, and the same record up to identifier order |
| `StoreQueries.FilingsAgree` | src/caqrs/entities/duckdb.py:395-418 | every row order the tables may return is the memory's answer up to reordering within equal submission instants |
| `StoreQueries.RelationsAgree` | src/caqrs/entities/duckdb.py:469-490 | the same relations, each as often |
| `StoreQueries.SubsidiariesAgree` | src/caqrs/entities/duckdb.py:444-467 | the same subsidiaries, each as often, up to row and identifier order |
| `StoreSeries.TieIsNotDetermined` | src/caqrs/entities/duckdb.py:305-314 | with such a tie either row may end up in the cell |
| `StoreSeries.MemoryPivotIsATablePivot` | src/caqrs/entities/duckdb.py:305-314 | whatever the memory puts into its cells is something the tables may put there, so they may always give its series |
| `StoreSeries.SeriesAgreeIffTiesHidden` | src/caqrs/entities/duckdb.py:292-338 | for one priority, the tables are sure to return the series of the memory exactly when every two different rows that share timestamp and source lie outside the chosen cell and are valued like every row of it |
| `StoreSeries.SeriesAgreeIffNoTies` | src/caqrs/entities/duckdb.py:292-338 | for all priorities together, they are sure to exactly when no two different rows of the series share timestamp and source |
| `StoreQueries.RepeatedIdentifierDiverges` | src/caqrs/entities/duckdb.py:238-246 | a record repeating an identifier is accepted in memory and refused by the tables |
| `StoreQueries.MergeRenamesLookups` | src/caqrs/entities/in_memory.py:83-96 | after a merge every key finds the issuer it found before, or the kept one in place of the dropped one |
| `StoreQueries.MergeUnitesFilings` | src/caqrs/entities/in_memory.py:99-102 | the kept issuer's filings are the bag union of both, renamed |
| `StoreQueries.MergeLeavesOtherFilings` | src/caqrs/entities/in_memory.py:99-102 | every other issuer answers with the same filings |
| `StoreQueries.MergeUnitesRelations` | src/caqrs/entities/in_memory.py:103-111 | the kept issuer's relations are those that touched either, in order, with the dropped end renamed |
| `StoreQueries.MergeRenamesOtherRelations` | src/caqrs/entities/in_memory.py:103-111 | every other issuer keeps its relations with a dropped other end renamed |
| `StoreQueries.MergeUnitesMarketPoints` | src/caqrs/entities/in_memory.py:232-237 | the kept issuer has the bag union of both issuers' points; everyone else the same lists |
| `StoreQueries.MergeUnitesSubsidiaries` | src/caqrs/entities/in_memory.py:198-211 | the kept issuer has the subsidiaries of either, in recorded order, with the merged record for a merged source |
| `StoreQueries.MergeRenamesOtherSubsidiaries` | src/caqrs/entities/in_memory.py:198-211 | everyone else keeps the same subsidiaries, with the merged record in place of either merged one |
| `StoreQueries.MergeUnitesCells` | src/caqrs/entities/in_memory.py:115-133 | each observation of the kept issuer after a merge is the one either issuer had there, or one of the two |
| `StoreQueries.MergeLeavesOtherSeries` | src/caqrs/entities/in_memory.py:115-154 | every other issuer answers every series query as before, and the dropped one with nothing |
| `Reconciliation.TryUpsert` | src/caqrs/entities/reconciliation.py:300-363 | the attempt changes the store and is tagged as: conflict on a renamed owner, no-op when equivalent, planned when dry, conflict raised by the upsert, or upserted |
| `Reconciliation.ReconcileRows` | src/caqrs/entities/reconciliation.py:95-116 | the row loop is the fold of single attempts over store and ledger |
| `Reconciliation.ReconcilePages` | src/caqrs/entities/reconciliation.py:145-191 | pagination processes exactly the rows up to an empty page, the reported total, or a short page without a total |
| `ReconciliationRuns.RunAccounting` | src/caqrs/entities/reconciliation.py:366-389 | in every run upserted + skipped is the number of rows, conflicts are among the skipped, provenance has one entry per committed upsert, and a dry run or a run without upserts leaves the store as it was |
| `ReconciliationRows.RowComes` | src/caqrs/entities/reconciliation.py:300-420 | what one row comes to, from the records it meets: a conflict with an owner of another name, a skip if the owner says the same already, a count in a dry run, a conflict over the first identifier of the record that is another's, or the upsert of the record; with the counts, notes and provenance of each |
| `ReconciliationRows.DryRunCountsNewRows` | src/caqrs/entities/reconciliation.py:342-389 | a dry run over rows about nobody known counts every one as upserted and commits none |
| `ReconciliationRows.DryRunForetells` | src/caqrs/entities/reconciliation.py:342-389 | over independent rows a dry run gives the counts of the run itself |
| `ReconciliationRows.PagesRead` | src/caqrs/entities/reconciliation.py:145-191 | whatever totals the pages report, those read are the first ones up to an empty page or one after which no more is asked for |
| `ReconciliationRuns.IndependentRowsAllUpserted` | src/caqrs/entities/reconciliation.py:300-389 | rows sharing no identifier with each other or the store are all upserted, each as its own record, provenance in order |
| `ReconciliationRuns.SecondRunIsNoOp` | src/caqrs/entities/reconciliation.py:342-349 | a second run over the same rows, whatever ids it would mint, upserts nothing, skips every row and leaves the store unchanged |
| `ReconciliationReruns.CompatibleRowsSettle` | src/caqrs/entities/reconciliation.py:334-349 | seeding is idempotent whenever any two rows of one name have the same keys or none in common: a second run, dry or not, whatever ids it would mint, upserts nothing, skips every row and leaves the store as it was |
| `ReconciliationReruns.ClashingRowsNeverSettle` | src/caqrs/entities/reconciliation.py:334-363 | two rows of one name with a common key and different key sets are both upserted and logged by every one of any number of runs, and from the second on no run changes the store |
| `ReconciliationReruns.TwoRowsSettleIff` | src/caqrs/entities/reconciliation.py:334-363 | for two rows this is exact: the second run upserts nothing if and only if they do not clash |
| `ReconciliationReruns.NamesakesMintAgain` | src/caqrs/entities/reconciliation.py:307-363 | three rows of one name with keys x, x and y, y: the re-run mints a second issuer of that name, so the store itself changes |
| `ReconciliationFamilies.RunRefinesFold` | src/caqrs/entities/reconciliation.py:300-389 | a run over any list does to the names and key sets of the store what a fold over sets does, and counts exactly the rows that change them |
| `ReconciliationFamilies.RerunUpsertsNothingIff` | src/caqrs/entities/reconciliation.py:334-363 | for any list and any store: a second run upserts nothing, and then changes nothing, if and only if every row is barred by the family of names and key sets that the fold gives |
| `ReconciliationFamilies.NewListSettlesIff` | src/caqrs/entities/reconciliation.py:334-363 | for rows new to the store that condition depends on the list alone |
| `ReconciliationFamilies.OverlapMaySettle` | src/caqrs/entities/reconciliation.py:334-363 | three rows of one name with keys x, y, and both: the third clashes with the others, and still the second run upserts nothing |
| `ReconciliationReruns.SeedingOrderIsIrrelevant` | src/caqrs/entities/reconciliation.py:300-389 | independent rows leave the same store in whatever order they are seeded |
| `ReconciliationReruns.ClashDependsOnOrder` | src/caqrs/entities/reconciliation.py:334-363 | clashing rows leave the identifiers of whichever comes last |
| `ReconciliationRuns.AccurateTotalsReadEverything` | src/caqrs/entities/reconciliation.py:180-191 | with an accurate total pagination reads every row once |
| `ReconciliationRuns.NoTotalsReadEverythingIff` | src/caqrs/entities/reconciliation.py:180-191 | without totals it reads everything exactly when no page but the last is short |
| `ReconciliationTables.RowsAgree` | src/caqrs/entities/reconciliation.py:300-363 | one row over both stores gives the same outcome, except that the persistent one refuses a record that repeats an identifier where the memory takes it in |
| `ReconciliationTables.SeedingAgrees` | src/caqrs/entities/reconciliation.py:300-389 | seeding either store gives the same ledger and the same contents, exactly unless some row is upserted with such a record; that error escapes the loop |
| `ReconciliationTables.DistinctRowsNeverEscape` | src/caqrs/entities/reconciliation.py:223-263 | rows that name each identifier once, as the loops build them, never escape |
| `ReconciliationRegions.RunStaysInside` | src/caqrs/entities/reconciliation.py:300-389 | a run over rows whose keys and minted ids lie in a closed part of the store leaves everything else as it was, and that part closed |
| `ReconciliationRegions.RunActsAlike` | src/caqrs/entities/reconciliation.py:300-389 | what it does there, and its ledger, depend only on what is there |
| `ReconciliationRegions.RunsApartCommute` | src/caqrs/entities/reconciliation.py:300-389 | two runs in parts that share no key and no issuer leave the same store and the same two ledgers in either order |
| `ReconciliationRegions.DisjointListsCommute` | src/caqrs/entities/reconciliation.py:300-389 | lists of new rows without a common key commute, however the rows within each overlap, clash or repeat |
| `ReconciliationRegions.SharedIssuerDependsOnOrder` | src/caqrs/entities/reconciliation.py:300-363 | lists without a common key do not commute when both have a key of one issuer already there: the first row keeps that issuer, the other is minted a new one |
| `Decisions.Validate` | src/caqrs/schemas/decision.py:34-76 | the validators accept exactly the well-formed decisions: fields in range, targets exactly on adopt, weights within the envelope and adding to at most one, no ticker twice |
| `Decisions.DistinctIffSetSize` | src/caqrs/schemas/decision.py:71-76 | comparing the size of the ticker set with the list detects repeated tickers exactly |
| `Decisions.AcceptedIff` | src/caqrs/schemas/decision.py:34-76 | a decision is accepted exactly when its numbers are in range, it has targets exactly if it adopts, every weight is positive and within the envelope, they add to at most one, and no ticker repeats |
| `Decisions.RefusalNamesABrokenRule` | src/caqrs/schemas/decision.py:34-76 | a refusal names a rule the decision breaks; of several overweight targets, the first |
| `PolicyGateway.CollectViolations` | src/caqrs/policy/gateway.py:103-166 | the loop collects the listed violations in order |
| `PolicyGateway.ViolationsExact` | src/caqrs/policy/gateway.py:110-164 | a violation is collected exactly when its constraint is broken |
| `PolicyGateway.ApplyPolicyGateway` | src/caqrs/policy/gateway.py:169-202 | an adopt passes whole exactly when no constraint is broken and is otherwise deferred with all its violations and no targets; other actions pass untouched |
| `PolicyGateway.LooserLimitsAdmitMore` | src/caqrs/policy/gateway.py:103-202 | raising the account cap, lowering the day's loss, or loosening either list never adds a violation, and what was adopted stays adopted |
| `PolicyGateway.AtTheLimits` | src/caqrs/policy/gateway.py:110-141 | a decision exactly at the account cap is within it; a loss of exactly the limit exhausts it |
| `PolicyGateway.EachViolationOnce` | src/caqrs/policy/gateway.py:103-166 | a decision with distinct tickers is told each violation once |
| `Portfolio.SellKeeps` | src/caqrs/execution/paper_broker.py:222-230 | a sell leaves equity at its price, cost books and other holdings as they were |
| `Portfolio.BuyKeeps` | src/caqrs/execution/paper_broker.py:232-245 | a buy at weighted average cost leaves equity at its price, cost books and other holdings as they were |
| `PaperBroker.PaperBroker.constructor` | src/caqrs/execution/paper_broker.py:67-73 | the broker starts with its capital in cash, no holdings and balanced books |
| `PaperBroker.PaperBroker.SellHolding` | src/caqrs/execution/paper_broker.py:222-230 | the three fields after a sell, the holding removed when it is sold out |
| `PaperBroker.PaperBroker.BuyHolding` | src/caqrs/execution/paper_broker.py:232-245 | the two fields after a buy |
| `PaperBroker.PaperBroker.TotalEquity` | src/caqrs/execution/paper_broker.py:113-117 | the sum over holdings in any order is cash plus every holding marked to market |
| `PaperBroker.PaperBroker.TargetQty` | src/caqrs/execution/paper_broker.py:119-125 | what every involved ticker should end with: zero for a dropped one, its share of equity at a positive price, zero at price zero |
| `PaperBroker.PaperBroker.ComputeDeltas` | src/caqrs/execution/paper_broker.py:194-220 | the delta loop and its two sorts give the ascending sells and ascending buys that reach the targets |
| `PaperBroker.DeltasAreThePlan` | src/caqrs/execution/paper_broker.py:205-220 | one entry per ticker that must move, met in any dictionary order, sorts to one and the same plan |
| `PaperBroker.PaperBroker.Execute` | src/caqrs/execution/paper_broker.py:87-192 | report and new books are those of the rebalance on values, all or nothing when a price is missing, and the books still balance with positive holdings |
| `PaperExecution.RebalanceOutcome` | src/caqrs/execution/paper_broker.py:113-157 | an adopted action keeps equity at its prices, puts every target exactly on its quantity, closes everything else, and leaves the cash its targets do not use |
| `PaperExecution.TargetPortfolioWorth` | src/caqrs/execution/paper_broker.py:119-125 | the target portfolio is worth equity times the weights of the positively priced targets |
| `PaperOutcomes.HoldingsAreWeights` | src/caqrs/execution/paper_broker.py:113-157 | after a rebalance each targeted ticker with a positive price is worth equity times the weight of its last target, and every other ticker is closed |
| `PaperOutcomes.EquityAdds` | src/caqrs/execution/paper_broker.py:113-117 | equity without holdings is the cash, and one more holding adds its quantity at its price |
| `PaperOutcomes.FillsArePaid` | src/caqrs/execution/paper_broker.py:131-164 | every fill is an executed leg of positive quantity at the ticker's price with their product as notional, and cash falls by the buys and rises by the sells |
| `PaperOutcomes.RebalanceKeepsCost` | src/caqrs/execution/paper_broker.py:222-245 | sells keep the average cost and book their gain over it as realized; buys raise the cost basis by what they pay; an untraded holding is untouched |
| `PaperExecution.FillsMoveHoldings` | src/caqrs/execution/paper_broker.py:127-164 | ticker by ticker, the signed fills add up to the holding after less the holding before |
| `PaperOutcomes.RejectedForMissingPrices` | src/caqrs/execution/paper_broker.py:102-111 | with a price missing nothing moves: one empty leg for each ticker targeted or held, ascending, and the missing ones named |
| `PaperExecution.CashStaysNonNegativeIff` | src/caqrs/execution/paper_broker.py:127-157 | cash is non-negative at every intermediate fill exactly when the priced weights add to at most one or there is no equity |
| `Rebalancing.SellsOnlyRaiseCash` | src/caqrs/execution/paper_broker.py:131-144 | during the sells cash never falls, and what is sold next is still held |
| `Rebalancing.CashBetweenFills` | src/caqrs/execution/paper_broker.py:127-157 | because sells come first, a plan that ends without debt passes through none |
| `PaperExecution.EveryFillKeepsTheBooks` | src/caqrs/execution/paper_broker.py:127-157 | after every single fill of a rebalance equity and the imbalance of the books are what they were, and every holding is positive |
| `PaperExecution.SecondRunIsSilent` | src/caqrs/execution/paper_broker.py:113-129 | executing the same action again at the same prices emits no fills |
| `PaperExecution.OneFillPerTicker` | src/caqrs/execution/paper_broker.py:194-220 | at most one fill per ticker, sells before buys, each side ascending |
| `PaperExecution.AllocationWithinWeights` | src/caqrs/schemas/decision.py:63-68 | what the positively priced targets ask for is at most the validated weight total |
| `PaperExecution.TradeKeepsSolvent` | src/caqrs/execution/paper_broker.py:87-164 | one validated decision through gateway and broker keeps cash non-negative, holdings positive and books balanced after every single fill |
| `PaperExecution.SessionStaysSolvent` | src/caqrs/execution/paper_broker.py:67-245 | over every sequence of validated decisions at non-negative prices: cash never negative, every holding positive, cash + cost basis == capital + realized profit |
| `LiveJournal.LiveBrokerJournal.RegisterSubmission` | src/caqrs/execution/live_broker_journal.py:178-215 | a row is added unless its client order id is registered, which is the integrity error |
| `LiveJournal.LiveBrokerJournal.RecordFill` | src/caqrs/execution/live_broker_journal.py:217-261 | a fill is inserted unless its order already has that execution id; without an id it always is |
| `LiveJournal.LiveBrokerJournal.RecordCancel` | src/caqrs/execution/live_broker_journal.py:263-289 | a cancellation is inserted unless its order already has one |
| `LiveJournal.LiveBrokerJournal.Resolve` | src/caqrs/execution/live_broker_journal.py:293-326 | an attribution is found exactly when the id is registered, and it is the cycle and decision run of its one submission row |
| `TradeStream.Decode` | src/caqrs/execution/alpaca_stream.py:97-177 | every decoded update is well formed: non-empty ids, symbol and side; positive quantity and price on fills and none otherwise; an execution id only on fills and never empty |
| `TradeStream.DecodeEncode` | src/caqrs/execution/alpaca_stream.py:97-177 | decoding the documented message of any well-formed update gives that update back |
| `TradeStream.Handle` | src/caqrs/execution/alpaca_stream.py:224-300 | one message is dropped, or journaled and then announced exactly when the journal took it in as new; with which contents, `StreamContents.FillDelivered` tells |
| `StreamContents.FillDelivered` | src/caqrs/execution/alpaca_stream.py:224-300 | delivering a message that reports a fill of a registered order adds, the first time, one row and one event with the ids, quantity, price and partial flag it reports, under the cycle and decision run of the submission; after that, nothing |
| `StreamContents.EndDelivered` | src/caqrs/execution/alpaca_stream.py:224-300 | the same for a cancellation or rejection, with its reason |
| `StreamContents.DecodedIsReported` | src/caqrs/execution/alpaca_stream.py:97-177 | what a message is taken for, its own fields report |
| `StreamContents.OthersIgnored` | src/caqrs/execution/alpaca_stream.py:224-246 | a message that reports neither, or only on orders never registered, changes nothing |
| `StreamContents.OtherSteps` | src/caqrs/execution/live_broker_journal.py:178-215 | a submission is registered under a new id, in the last row, and not under a registered one; a delivery that crashes journals what it would have and announces nothing |
| `TradeStream.Consume` | src/caqrs/execution/alpaca_stream.py:224-300 | the loop leaves the journal and log that the fold of single deliveries leaves |
| `TradeStream.ConsumeInTwoRuns` | src/caqrs/execution/alpaca_stream.py:224-300 | restart safety: consuming a stream in two runs over one journal writes and emits what one run does |
| `StreamProtocol.ConsumeIsARun` | src/caqrs/execution/alpaca_stream.py:224-300 | the loop is the protocol run made of deliveries only |
| `StreamProtocol.AttributionIsStable` | src/caqrs/execution/live_broker_journal.py:178-215 | whatever is registered, delivered or lost later, a registered order keeps its cycle and decision run |
| `StreamProtocol.RowsAreTheRecordings` | src/caqrs/execution/live_broker_journal.py:217-289 | the fill rows and the cancellation rows are the recorded updates of each sort, in order; the fields of each, `StreamContents.FillDelivered` tells |
| `StreamProtocol.LogIsTheAnnouncedRecordings` | src/caqrs/execution/alpaca_stream.py:248-300 | the emitted events are the announced ones of those same recordings in order, so they are a subsequence of the journal rows, attributed as the journal attributes them to this day |
| `StreamProtocol.CrashesLoseOneEach` | src/caqrs/execution/alpaca_stream.py:254-300 | only a crash between journal write and event keeps a recording from being announced, one at most per crash |
| `StreamProtocol.HeldIffCarried` | src/caqrs/execution/live_broker_journal.py:217-289 | the journal holds a key exactly when some delivery of it found its order registered |
| `StreamProtocol.ExactlyOnce` | src/caqrs/execution/alpaca_stream.py:242-300 | per order and execution id (or cancellation), however often delivered: one recording, made by the first delivery to the registered order, and one event unless that very delivery crashed |
| `StreamContents.JournaledIsAnnounced` | src/caqrs/execution/alpaca_stream.py:248-300 | over every run without a crash the quantity journaled for an order is the quantity announced for it |
| `StreamProtocol.AbsorbedIff` | src/caqrs/execution/alpaca_stream.py:236-289 | a delivery changes nothing exactly when it is unmapped, unattributed, or its key was carried before |
| `StreamProtocol.RedeliveryIsInvisible` | src/caqrs/execution/alpaca_stream.py:248-289 | redelivery at any later point of any run, crashed or not, leaves every later journal and log as they would have been |
| `StreamProtocol.EarlyDeliveryIsDropped` | src/caqrs/execution/alpaca_stream.py:238-241 | a delivery before its submission is registered leaves no trace |
| `StreamProtocol.UnkeyedFillsRepeat` | src/caqrs/execution/live_broker_journal.py:231-241 | a fill without an execution id is recorded and announced by every delivery |
| `LiveBroker.LiveBrokerAlpaca.Execute` | src/caqrs/execution/live_broker_alpaca.py:319-393 | outcome and whole state are those of the value-level execute: kill switch, live flag, paper pre-flight, missing client, submission |
| `LiveBroker.LiveBrokerAlpaca.SubmitToAlpaca` | src/caqrs/execution/live_broker_alpaca.py:395-521 | the submission loop ends in the state and outcome of the leg-by-leg fold, which asks the venue for exactly the legs (`LiveRequests.LegsAreRequested`) |
| `LiveBroker.LiveBrokerAlpaca.SubmitOrder` | src/caqrs/execution/live_broker_alpaca.py:432-515 | one turn of that loop: rejection with rollback, escaping integrity error, or one more journaled, announced, anticipated fill |
| `LiveBroker.LiveBrokerAlpaca.RollBackAndReject` | src/caqrs/execution/live_broker_alpaca.py:450-463 | cancel-all only after an earlier acceptance, the kill switch when it fails, then the rejection event |
| `LiveBroker.LiveBrokerAlpaca.KillSwitch` | src/caqrs/execution/live_broker_alpaca.py:254-268 | the switch engages and is announced when a cycle is attached |
| `LiveBroker.LiveBrokerAlpaca.ReenableAfterHumanApproval` | src/caqrs/execution/live_broker_alpaca.py:270-274 | only the switch is released |
| `LiveBroker.LiveBrokerAlpaca.RecordRealizedLoss` | src/caqrs/execution/live_broker_alpaca.py:278-309 | a negative amount is refused; otherwise it accumulates and passing the cap engages the switch once |
| `LiveBroker.LiveBrokerAlpaca.ResetDay` | src/caqrs/execution/live_broker_alpaca.py:311-315 | the accumulator is zeroed and the switch untouched |
| `LiveBroker.LiveBrokerAlpaca.AttachCycleContext` | src/caqrs/execution/live_broker_alpaca.py:122-143 | nesting is refused without effect |
| `LiveBroker.LiveBrokerAlpaca.DetachCycleContext` | src/caqrs/execution/live_broker_alpaca.py:145-150 | id and log are cleared together |
| `LiveBroker.LiveBrokerAlpaca.EnableLiveOrdersAfterHumanApproval` | src/caqrs/execution/live_broker_alpaca.py:152-209 | live orders go on exactly when a non-empty value under the broker's own prefix equals the typed confirmation |
| `LiveSubmission.SubmittedCorrespondence` | src/caqrs/execution/live_broker_alpaca.py:432-515 | when every leg goes through: report fills, submitted events, journal rows and opened orders correspond one to one in leg order, and nothing else changes |
| `LiveRequests.LegsAreRequested` | src/caqrs/execution/live_broker_alpaca.py:432-449 | whatever the outcome, the venue was asked, in order, for exactly the legs up to the one that stopped the batch: each one's ticker, quantity and side, under the first 48 characters of its digest |
| `LiveRequests.BatchIsRecorded` | src/caqrs/execution/live_broker_alpaca.py:471-515 | a batch that goes through leaves one journal row, event and anticipated fill per leg, about the order opened for it |
| `LiveRequests.OrdersAnswerRequests` | src/caqrs/execution/live_broker_alpaca.py:443-449 | and those orders are the venue's answers to the requests in their places |
| `LiveRequests.SubmittedAsksForTheMove` | src/caqrs/execution/live_broker_alpaca.py:364-449 | ticker by ticker, a SUBMITTED execute asked the venue to buy less sell exactly what the paper holding moved by |
| `LiveOutcomes.RefusedBatch` | src/caqrs/execution/live_broker_alpaca.py:450-469 | a refusal is reported with ticker, side and the venue's reason; earlier legs stay recorded, their orders are cancelled, or stay open under a switch engaged and logged before the rejection |
| `LiveOutcomes.RepeatedIdRaises` | src/caqrs/execution/live_broker_alpaca.py:471-487 | an order under an id that is taken raises: it is open with those before it, and only those are recorded |
| `LiveOutcomes.WithheldIsReported` | src/caqrs/execution/live_broker_alpaca.py:342-385 | an execute under the switch, without the flag, not adopted or without all prices is skipped for that reason, in this order, in report and event, and changes nothing else |
| `LiveOutcomes.ExecuteRunsTheBatch` | src/caqrs/execution/live_broker_alpaca.py:364-521 | any other moves the paper book and submits its fills as one batch, if there is a client |
| `LiveSubmission.RejectedLeavesNothingOpen` | src/caqrs/execution/live_broker_alpaca.py:450-469 | where a batch is rejected: at the first leg nothing was opened; later either everything is cancelled or the kill switch is engaged with exactly the earlier legs open |
| `LiveSubmission.IntegrityErrorLeavesOrdersOpen` | src/caqrs/execution/live_broker_alpaca.py:477-487 | a repeated id escapes mid-batch: the orders accepted so far and this one stay open and the kill switch stays as it was |
| `LiveSubmission.OutcomeOfBatch` | src/caqrs/execution/live_broker_alpaca.py:432-521 | the first leg that is refused or whose id is taken decides the batch of echoed ids: none, it goes through; refused, REJECTED with its reason; accepted, the integrity error of that id, before any later leg is sent |
| `LiveRuns.OutcomeOfExecute` | src/caqrs/execution/live_broker_alpaca.py:342-521 | the same for a whole execute: SUBMITTED with every leg, REJECTED with the refusal, or the escaping error with the id |
| `LiveRuns.JournaledFirstLegRaises` | src/caqrs/execution/live_broker_alpaca.py:477-487 | when the id of the first leg is journaled the venue opens the order again, its error escapes, and neither journal nor kill switch changes |
| `LiveRuns.ResubmissionAfterRestartRaises` | src/caqrs/execution/live_broker_alpaca.py:477-487 | a process restarted after a SUBMITTED batch, with its journal and the book it started from, raises that error on the same action |
| `LiveRuns.ConcreteResubmissionRaises` | src/caqrs/execution/live_broker_alpaca.py:477-487 | a concrete run under any digest: a fresh broker, a venue that accepts an id twice, one target; submitted once, then raising |
| `LiveRuns.NoSubmitWhileKilled` | src/caqrs/execution/live_broker_alpaca.py:342-352 | from a kill to the next re-enable, over any operations, nothing reaches the venue, the journal or the paper book |
| `LiveRuns.NoSubmitUnlessApproved` | src/caqrs/execution/live_broker_alpaca.py:353-363 | without an approval no run reaches the venue, the journal or the paper book |
| `LiveRuns.LossIsDayLoss` | src/caqrs/execution/live_broker_alpaca.py:303-315 | the accumulator is the sum of accepted losses since the last day boundary |
| `LiveOutcomes.LossIsCapped` | src/caqrs/execution/live_broker_alpaca.py:278-309 | a loss adds up; beyond the cap, not at it, it engages and announces a switch that is not engaged |
| `LiveOutcomes.KillIsLogged` | src/caqrs/execution/live_broker_alpaca.py:254-268 | the manual kill engages the switch and is logged under the attached cycle |
| `LiveOutcomes.EnabledIff` | src/caqrs/execution/live_broker_alpaca.py:152-209 | live orders are on afterwards exactly if they were, or a variable whose name begins with the prefix holds just what was typed, and not nothing |
| `LiveRuns.CapBreachHolds` | src/caqrs/execution/live_broker_alpaca.py:303-315 | once a day's losses pass the cap no later day boundary lets an order out, only a re-enable does |
| `LiveRuns.SubmittedReportCorresponds` | src/caqrs/execution/live_broker_alpaca.py:342-521 | a SUBMITTED report came past every gate and has that one-to-one correspondence |
| `LiveRuns.RejectedReportRollsBack` | src/caqrs/execution/live_broker_alpaca.py:450-469 | a REJECTED report leaves none of its orders open or the kill switch engaged, and engages it only if cancel-all failed |
| `LiveRuns.PreflightAlwaysMovesTheBook` | src/caqrs/execution/live_broker_alpaca.py:364-393 | past the kill switch and the flag the paper book is the executed one whatever comes next, a missing client included, and the venue and journal are untouched unless it submits |
| `LiveRuns.RejectionLeavesTheBookMoved` | src/caqrs/execution/live_broker_alpaca.py:364-393 | after a REJECTED report the paper book differs from what it was |
| `LiveRuns.RetryAfterRejectionSubmitsNothing` | src/caqrs/execution/live_broker_alpaca.py:364-393 | so retrying a rejected action at the same prices submits nothing and reports SUBMITTED with no fills |
| `LiveRuns.OpenOrdersAreJournaled` | src/caqrs/execution/live_broker_alpaca.py:443-487 | over every run each order open at the venue has its id in the attached journal, even after an escaped error |
| `LiveRuns.OpenOrderUpdatesAreAnnounced` | src/caqrs/execution/alpaca_stream.py:238-276 | so the first report of any execution or cancellation of an open order is announced |
| `CycleEvents.OrchestratorStateMachine.Transition` | src/caqrs/orchestrator/state_machine.py:80-94 | a listed move changes the state and is logged; any other is refused without effect |
| `CycleEvents.BudgetGuard.Check` | src/caqrs/orchestrator/budget.py:112-156 | tokens are judged before time, and only the first breach is logged |
| `CycleEvents.BudgetGuard.Consume` | src/caqrs/orchestrator/budget.py:104-110 | consumption adds up and is then checked |
| `CycleRunner.CycleRunner.CallAgent` | src/caqrs/orchestrator/cycle_runner.py:483-541 | invocation, answer, totals and budget check of one agent, with the halt they lead to |
| `CycleRunner.CycleRunner.Complete` | src/caqrs/orchestrator/cycle_runner.py:552-576 | back to IDLE, the completion event and a result that agrees with it |
| `CycleRunner.CycleRunner.Finalize` | src/caqrs/orchestrator/cycle_runner.py:578-597 | to ERROR, the abort event and a result that agrees with it |
| `CycleRunner.CycleRunner.SettleDecision` | src/caqrs/orchestrator/cycle_runner.py:411-428 | the gateway when configured, then the broker |
| `CycleRunner.CycleRunner.RunBroker` | src/caqrs/orchestrator/cycle_runner.py:430-479 | the broker step of the recursion, which `CycleOutcomes.CycleComesTo` tells from the broker, the prices and the action |
| `CycleRunner.CycleRunner.Run` | src/caqrs/orchestrator/cycle_runner.py:266-479 | the unrolled runner, its machine, guard and log produce exactly the events and the result of the recursion over agents |
| `CycleTraces.StartedFirstTerminalLast` | src/caqrs/orchestrator/cycle_runner.py:287-597 | in a legal trace the start event is first and only there, one terminal event last and only there |
| `CycleTraces.AnsweredAtOnce` | src/caqrs/orchestrator/cycle_runner.py:491-525 | every invocation is answered by the very next event, and every answer follows its invocation |
| `CycleTraces.TransitionsChain` | src/caqrs/orchestrator/state_machine.py:32-52 | the transition events chain from IDLE through listed moves to the final state |
| `CycleTraces.TotalsAreSums` | src/caqrs/orchestrator/cycle_runner.py:527-528 | the totals are the sums over the success events |
| `CycleTraces.OneBreachAtMost` | src/caqrs/orchestrator/budget.py:133-138 | at most one budget event |
| `CycleTraces.AbortNamesTheStateLeft` | src/caqrs/orchestrator/cycle_runner.py:578-588 | the abort event directly follows the transition to ERROR and names the state it left, to which the transitions had led |
| `CycleTraces.EveryCycleIsWellFormed` | src/caqrs/orchestrator/cycle_runner.py:266-597 | whatever agents, executors and clocks answer, the events are one legal closed trace whose last event carries the terminal state, artifact count and totals of the result, or its reason for aborting and the state the transitions had reached |
| `CycleTraces.BudgetEventIffBudgetAbort` | src/caqrs/orchestrator/cycle_runner.py:530-539 | the budget event is logged exactly when the budget ended the cycle, and the result's totals are the sums over its own events |
| `CycleTraces.EveryResultIsSound` | src/caqrs/orchestrator/cycle_runner.py:310-479 | artifacts are a prefix of the pipeline, completed cycles are within the token cap, and the terminal state says which verdict, or the decision, ended the cycle |
| `CycleOutcomes.SomeAgentEnds` | src/caqrs/orchestrator/cycle_runner.py:287-428 | exactly one agent ends the cycle: the first that fails, breaks the budget, or passes a verdict or backtest that stops it, or else the decider |
| `CycleOutcomes.CycleComesTo` | src/caqrs/orchestrator/cycle_runner.py:266-479 | everything a cycle comes to, from the replies up to that agent: answers stored as given, totals, halt or terminal state; the gateway's projection of the stored decision exactly when one is configured; the broker's answer to it at the provider's prices exactly when broker and prices are there too, followed by its one event (paper) or its own (live); an abort with the provider's error |
| `CycleOutcomes.CycleLogsExactly` | src/caqrs/orchestrator/cycle_runner.py:266-597 | trading apart, the log is exactly the opening with one event per resolved identifier, each agent's call and answer and budget breach, the moves between them, and the closing |
| `CycleOutcomes.MovesAllowed` | src/caqrs/orchestrator/state_machine.py:32-52 | the listed moves are those one state on, to ERROR from anywhere, and back to IDLE from all but the first two states |
| `BacktestEngine.PortfolioReturns` | src/caqrs/backtest/engine.py:259-275 | the nested loops give each day the dot product of returns and held weights |
| `BacktestEngine.CostSeries` | src/caqrs/backtest/engine.py:278-302 | each day's cost is the rate times what that day's rebalancing trades, from a flat book |
| `BacktestEngine.Turnover` | src/caqrs/backtest/engine.py:338-349 | turnover times days is all that was traded; zero without days |
| `BacktestEngine.NTrades` | src/caqrs/backtest/engine.py:352-362 | the number of weight changes beyond the threshold |
| `BacktestEngine.MaxDrawdownPct` | src/caqrs/backtest/engine.py:323-335 | the one-pass loop finds the largest fall from the running peak |
| `BacktestEngine.Pnl` | src/caqrs/backtest/engine.py:365-369 | profit is notional times compounded growth less one |
| `BacktestProperties.DrawdownIsMaxOverPairs` | src/caqrs/backtest/engine.py:323-335 | while equity stays positive the reported drawdown is the maximum of (E_i - E_j) / E_i over all i <= j |
| `BacktestProperties.DrawdownFitsBoundIff` | src/caqrs/backtest/engine.py:323-335 | it is never negative, at most 100 exactly when equity is never negative, and below 100 exactly when equity stays positive |
| `BacktestProperties.PositiveIffNoRuin` | src/caqrs/backtest/engine.py:323-335 | equity stays positive exactly when no net return is -100 % or worse |
| `BacktestProperties.DrawdownBelow100Iff` | src/caqrs/backtest/engine.py:150-155 | a fold has drawdown below 100 exactly when on each of its days the cost charged is less than one plus what the held weights earn |
| `BacktestProperties.DrawdownFits100Iff` | src/caqrs/backtest/engine.py:323-335 | the drawdown is at most 100 exactly when the first day that loses everything or more, if any, loses exactly everything |
| `BacktestProperties.CostsAreTurnover` | src/caqrs/backtest/engine.py:278-302 | the cost series adds up to rate x turnover x days |
| `FoldMeanings.NetReturnMeans` | src/caqrs/backtest/engine.py:130-155 | a net return is what each column's weight gains on the change of its close, summed, less the basis points charged on the sum of what every weight moved the day before |
| `FoldMeanings.FoldReturnsMean` | src/caqrs/backtest/engine.py:130-155 | the same of a fold of a ranking strategy, over the closes of its days and the weights their histories give |
| `FoldMeanings.FoldGrids` | src/caqrs/backtest/engine.py:130-148 | those closes and weights, cell by cell |
| `FoldMeanings.TurnoverIsMean` | src/caqrs/backtest/engine.py:338-349 | turnover is the sum of all absolute weight changes over the number of days |
| `FoldMeanings.TradesCounted` | src/caqrs/backtest/engine.py:352-362 | the trades are the cells, over all days and columns, whose weight changes by more than 1e-12 |
| `BacktestProperties.LastDayIsNeverCharged` | src/caqrs/backtest/engine.py:150-155 | over a fold every day's trading is charged except the last day's |
| `BacktestProperties.TradesMoveTurnover` | src/caqrs/backtest/engine.py:352-362 | every counted trade moves more than the threshold, so what was traded bounds the count |
| `BacktestProperties.DearerNeverEarnsMore` | src/caqrs/backtest/engine.py:365-369 | profit never rises with the cost rate while daily growth factors stay non-negative |
| `BacktestFolds.RunFold` | src/caqrs/backtest/engine.py:107-172 | one fold: an error exactly without prices, an error exactly when the first day that loses everything or more loses more (its drawdown exceeds the 100 % of the record), and otherwise metrics that measure the fold, from net returns that pair each day's return with the day before's cost |
| `BacktestFolds.CheckedIff` | src/caqrs/schemas/backtest_report.py:18-26 | of the bounds of the metrics record only that on the drawdown can be broken, and it is exactly when equity goes negative |
| `BacktestFolds.ReportedFoldsNeverEarnMore` | src/caqrs/backtest/engine.py:365-369 | of two reported folds over one window the one at higher costs never shows the higher profit, with no proviso on the days |
| `BacktestFolds.CheaperIsReportedToo` | src/caqrs/backtest/engine.py:107-172 | a fold whose drawdown stays below 100 % at some cost is reported at every lower one, again below 100 % |
| `BacktestFolds.RunWalkForward` | src/caqrs/backtest/engine.py:71-102 | the backtest reports one fold per window with the sums over them, or ends with the error of the first window that has no report, or of having none |
| `BacktestFolds.ReportedTotalsNeverEarnMore` | src/caqrs/backtest/engine.py:179-192 | the total profit of a reported backtest never rises with the costs of its plan, and its trades stay the same |
| `BacktestFolds.PlungingReportableIff` | src/caqrs/schemas/backtest_report.py:23 | a concrete long-only fold is reported, among all rates the plan schema accepts, exactly up to 250 basis points and at 1000 |
| `BacktestFolds.AcceptedPlansRefused` | src/caqrs/schemas/research_plan.py:59-60 | so accepted plans can have folds no report can hold (2000 basis points), and a dearer plan (1000) may be reported where a cheaper one (900) is refused |
| `BacktestProperties.HeldTickerTelescopes` | src/caqrs/backtest/engine.py:259-275 | one ticker held in full at no cost turns its first close into its last |
| `FoldMeanings.HeldTickerEarns` | src/caqrs/backtest/engine.py:365-369 | and earns on the notional what its close gained |
| `FoldMeanings.FallInPercent` | src/caqrs/backtest/engine.py:323-335 | a fall in percent is a hundred times what was lost of the peak |
| `RankSignals.RankSignals` | src/caqrs/backtest/providers.py:176-264 | the parameter errors exactly, and otherwise one weight row per date from the ranking of that day |
| `RankSignals.WinsIffFewRivals` | src/caqrs/backtest/providers.py:232-246 | a ticker wins exactly when fewer than k are preferred to it: better score, or equal and earlier in the universe |
| `RankSignals.KTickersWin` | src/caqrs/backtest/providers.py:245-246 | exactly k tickers win |
| `RankSignals.WinnersBeatLosers` | src/caqrs/backtest/providers.py:245-246 | every winner is preferred to every loser |
| `RankSignals.MissingWinsIff` | src/caqrs/backtest/providers.py:221-246 | some ticker with missing data is selected exactly when fewer than k have data |
| `RankSignals.BottomIsTopOfNegated` | src/caqrs/backtest/providers.py:245-246 | selecting the k lowest is selecting the k highest of the negated scores |
| `RankSignals.EligibleDayIsFullyInvested` | src/caqrs/backtest/providers.py:220-254 | an eligible day's weights add to one |
| `RankGrowth.SelectedOutgrow` | src/caqrs/backtest/providers.py:225-254 | of two tickers with closes at both ends of the lookback, one selected by Top and one not, the selected grew at least as much (closes cross-multiplied), and on a tie comes first in the universe; under Bottom the reverse |
| `RankGrowth.UnquotedSelectedIff` | src/caqrs/backtest/providers.py:221-246 | some ticker without such closes is selected exactly when fewer than k have them |
| `RankGrowth.WeightsAreShares` | src/caqrs/backtest/providers.py:247-254 | every weight is 1 / k or zero |
| `RankGrowth.EarlyDaysAreFlat` | src/caqrs/backtest/providers.py:224-228 | no day before the lookback is over has a weight |
| `RankGrowth.SelectedCompoundBest` | src/caqrs/backtest/providers.py:225-254 | on a complete grid, a selected and an unselected ticker compare alike by their daily changes compounded over the lookback |
| `NoLookahead.WeightsLookBack` | src/caqrs/backtest/providers.py:225-254 | a day's weights depend only on closes through that day |
| `NoLookahead.HeldWeightsLookBack` | src/caqrs/backtest/engine.py:248-256 | what is held over a day depends only on closes before it |
| `NoLookahead.NothingThroughTLooksAhead` | src/caqrs/backtest/engine.py:130-155 | histories that agree through day t give every fold containing t the same net returns and equity through t |
| `ImportReach.BfsReachable` | src/caqrs/lint/credential_isolation.py:377-399 | the queue loop ends with exactly the modules reachable inside the graph, each with a real import chain of minimum length |
| `ImportReach.Expand` | src/caqrs/lint/credential_isolation.py:391-398 | going through one module's imports keeps the layered search invariant and leaves that module expanded |
| `ImportReach.ClosedIsShortest` | src/caqrs/lint/credential_isolation.py:387-399 | when everything found is expanded, no chain is shorter than the stored one |
| `ImportReach.ShortestHasNoRepeats` | src/caqrs/lint/credential_isolation.py:383-384 | a shortest chain visits no module twice |
| `ImportReach.ReachIsLeastClosed` | src/caqrs/lint/credential_isolation.py:377-399 | what is reached is the least set of modules with the root that is closed under the imports the graph has |
| `ImportReach.PathsFollowImports` | src/caqrs/lint/credential_isolation.py:391-398 | each step of a stored path goes to a module of the graph that the one before imports |
| `CredentialAudit.FirstMatchIsFirst` | src/caqrs/lint/credential_isolation.py:146-157 | the matched prefix is the earliest in the list that the name starts with |
| `CredentialAudit.AuditRead` | src/caqrs/lint/credential_isolation.py:141-157 | one read gives at most one violation, for its first matching prefix |
| `CredentialAudit.AuditBoundary` | src/caqrs/lint/credential_isolation.py:138-157 | one violation for each forbidden static read of each module the boundary reaches |
| `CredentialAudit.AuditCredentialIsolation` | src/caqrs/lint/credential_isolation.py:109-159 | over all boundaries: one violation per forbidden read and boundary, each with a shortest import chain, sorted by boundary, variable and site; none exactly when no reachable static read matches |
| `CredentialAudit.ReportedIsFounded` | src/caqrs/lint/credential_isolation.py:138-157 | every violation is of a boundary in the graph, names the first of its prefixes that the variable begins with, and a module that reads it statically at the end of a shortest import chain |
| `CredentialAudit.ForbiddenIsReported` | src/caqrs/lint/credential_isolation.py:138-157 | every static read, by a module reached from a boundary, of a variable that begins with one of its prefixes is reported |
| `CredentialAudit.ReportIsOrdered` | src/caqrs/lint/credential_isolation.py:158-159 | by boundary, then variable, then module, each as text |
| `LoopDetector.ToolCallLoopDetector.Record` | src/caqrs/orchestrator/loop_detector.py:106-111 | the window stays the last 30 of all calls since the reset, parameters cut at 200 characters |
| `LoopDetector.ToolCallLoopDetector.RecordNoAction` | src/caqrs/orchestrator/loop_detector.py:113-116 | the no-action counter and its cap |
| `LoopDetector.ToolCallLoopDetector.DetectAbsoluteLimit` | src/caqrs/orchestrator/loop_detector.py:126-129 | the verdict is that of the unbounded history |
| `LoopDetector.ToolCallLoopDetector.DetectIdentical` | src/caqrs/orchestrator/loop_detector.py:131-152 | the verdict is that of the unbounded history, its count capped at 30, and latches the hard abort |
| `LoopDetector.ToolCallLoopDetector.DetectSimilarFailing` | src/caqrs/orchestrator/loop_detector.py:154-176 | the verdict is that of the unbounded history, its count capped at 30, and latches the hard abort |
| `LoopDetector.ToolCallLoopDetector.DetectSameTool` | src/caqrs/orchestrator/loop_detector.py:178-201 | the verdict is that of the unbounded history, its count capped at 30 |
| `LoopDetector.ToolCallLoopDetector.Reset` | src/caqrs/orchestrator/loop_detector.py:226-232 | everything starts over |
| `LoopDetector.SameToolInWindow` | src/caqrs/orchestrator/loop_detector.py:178-201 | failures that left the window belong to a run long enough to be reported without them |
| `LoopDetector.IdenticalIff` | src/caqrs/orchestrator/loop_detector.py:131-152 | fires exactly when the last three calls share tool and parameters |
| `LoopDetector.SimilarFailingIff` | src/caqrs/orchestrator/loop_detector.py:154-176 | fires exactly when the last four calls failed on one tool |
| `LoopDetector.SameToolIff` | src/caqrs/orchestrator/loop_detector.py:235-241 | fires exactly at three calls in a row, or for a tolerant tool at five in a row or three failures in the run: the lowered threshold decides for tolerant tools only |
| `LoopDetector.AbsoluteLimitLatches` | src/caqrs/orchestrator/loop_detector.py:126-129 | once over the absolute limit on the whole history, over it until the reset |
| `LoopDetector.IdenticalCounts` | src/caqrs/orchestrator/loop_detector.py:131-152 | calls with the tool and parameters of the last one are reported from the third in a row on, with their number up to 30 |
| `LoopDetector.SimilarFailingCounts` | src/caqrs/orchestrator/loop_detector.py:154-176 | failed calls of the last tool are reported from the fourth in a row on, with their number up to 30 |
| `LoopDetector.SameToolCounts` | src/caqrs/orchestrator/loop_detector.py:178-241 | calls of the last tool are reported from the third in a row on; of one of the eight tolerated tools from the fifth on, or with three failures among them |
| `LoopDetector.AbsoluteLimitIs` | src/caqrs/orchestrator/loop_detector.py:126-129 | the limit is 25 calls in all or 12 failed ones |

## Left out

- PaperBroker.PaperBroker.Execute: requires non-negative prices and, when everything is priced, non-negative equity; below that the position schema rejects the negative target quantity. A validated session never gets there (`PaperExecution.SessionStaysSolvent`).
- LiveBroker.LiveBrokerAlpaca.Execute: the same two conditions, for its paper pre-flight.
- BacktestFolds.RunFold: takes complete grids with positive closes; missing closes, whose returns become zero, and non-positive ones are not modelled.
- InMemoryStore.InMemoryEntityStore.MergeIssuers: leaves open in which order the two issuers' point lists are joined, since that follows dictionary insertion order.
- InMemoryStore.InMemoryEntityStore.GetMarketSeries: leaves open the order of the discarded points in a conflict record, which follows dictionary insertion order.
- NoLookahead.NothingThroughTLooksAhead: on a complete grid of positive closes, one map of closes per date; reading price frames and null handling are not modelled.
- RankSignals.RankSignals: takes one map of closes per distinct date in order, not the flat price frame.
- TradeStream.Consume: the journal path only, not explicitly passed resolvers; NaN and infinite decimals are not modelled.
- DuckDB itself: eager constraint checks inside a statement, DECIMAL truncation, locking, time zones.
- Message and reason texts of violations, halts and detections beyond those shown in reports; run ids and payload hashes.
- How a source row becomes identifiers, a name and a payload hash; minted ids are inputs, and freshness is assumed where named.
- Sharpe ratios, medians over folds, and the walk-forward window arithmetic; a backtest's windows come as data.
- Text-repetition detection and prompt warnings of the loop detector.
- Source parsing and module walking of the lint: it starts from a given graph with its environment reads.
- Exceptions escaping an agent or a broker inside a cycle: the runner lets them pass with no terminal event.
- The cycle archive, event listeners other than the runner's own, queues, heartbeats, rate limiters and provider registries: small or disk-bound.
- The no-overlap validator of the gateway configuration, and FastAPI, prompts and data-source clients.
