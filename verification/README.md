# ZONT analyzer: verified models of its storage tools and analytics

A Dafny 4.11 model of the parts of the ZONT boiler analyzer whose correctness is hard to see by
reading one function: the crash-safe, replayable storage procedures under `tools/`, the gas-model
arithmetic under `analytics/`, and the interval and step-function sweeps under `analytics/`.
`dafny verify dfyconfig.toml` checks everything.

Three conventions run through the files.

- *Storage procedures.* A table is a map from primary key to row, a transaction is one atomic
  change of the fields of a class, and object storage is a map (or, where versions matter, a list
  of versions per key). The process may die at any point: it survives a given number of effects,
  and the contracts hold for every such number. What holds "at every crash point and across reruns"
  is a state invariant that every such method keeps; that the work gets done is stated too, as a
  number of effects, known before the run, after which a process that is still alive has finished.
- *Arithmetic.* Exact reals, with every numerical tolerance of the source set to zero. The product is
  named (`Times`) so that proofs about sums can hide it.
- *Sweeps.* Integer time. A sweep with moving cursors or running totals is proved equal to a plain
  definition: the latest observation, the measure of a set of unit cells, a sum over single seconds.

## The files

| file | what it models |
|---|---|
| `Elimination.dfy`, `ColumnSets.dfy`, `MatrixRank.dfy`, `LeastSquares.dfy`, `NonNegativeFit.dfy` | Gaussian elimination, both rank tests, and the exact active-set non-negative least squares of the savings baseline |
| `RidgeFit.dfy`, `GasFit.dfy` | the box-constrained ridge regression, grouping, cross-validation and the fitted gas model |
| `BurnerExposure.dfy`, `PurposeSplit.dfy` | burner minutes by modulation bin and purpose, and the split of an estimated volume |
| `SnapshotStore.dfy`, `SnapshotUpload.dfy`, `UploadPacing.dfy`, `SnapshotCompare.dfy` | the resumable snapshot upload, its pacer, and the independent comparison |
| `Compaction.dfy`, `SettingsTimeline.dfy`, `ConfigCleanup.dfy` | run-length compaction of configuration snapshots, what a reader sees, and the byte-fenced cleanup |
| `PublicationKeys.dfy`, `PublicationMigration.dfy`, `VersionCleanup.dfy` | the move of published objects to period keys, its rollback, and the deletion of old versions |
| `TokenBudget.dfy`, `SourceImport.dfy` | monthly token budgets kept by manifest difference, and the import of a source table |
| `IntervalMeasure.dfy`, `EvidenceCoverage.dfy` | measure of interval unions, exclusion of windows, coverage and ratios |
| `TargetTimeline.dfy`, `TemperatureMetrics.dfy`, `TemperatureEvents.dfy` | setpoint lookup and transitions, band totals, temperature events |
| `Options.dfy`, `Sorting.dfy`, `KeyOrder.dfy`, `Statistics.dfy`, `IntegerArithmetic.dfy`, `RealArithmetic.dfy`, `LinearAlgebra.dfy` | shared vocabulary |

## What turned out to be false as first stated

The code is modelled as it is; where a plausible property fails, the exact condition is proved.

- `integrate_exposure` is additive over a split of its period if and only if the last sample does
  not have a known flame state that is fresh at the split and stale at the end
  (`BurnerExposure.ExposureAdditive`); `BurnerExposure.StaleExample` is a period for which it is not.
  A sample at or after the end makes it additive.
- One complete import leaves the mapped source if and only if no target is lost
  (`SourceImport.ConvergesIff`): a target that passes from one source row to another is lost when
  the row that moves away is scanned after the one that arrives, when it has left the source, or, in
  a table that is imported in pages, when both are on one page and the arriving row is found in
  place. All of this is judged by the store before the run; `SourceImport.ConvergesIffNonePasses`
  gives the condition in closed form for rows with targets of their own, and
  `SourceImport.LossExample` is a store that loses a target. A second run always converges.
- A migration that dies between the pointer commit and the record of that commit leaves a
  publication that works but can no longer be rolled back: rollback is possible exactly when
  `migration-committed.json` holds the current publication, and a rerun takes the branch for a
  publication that is already migrated, which never writes that file
  (`PublicationMigration.World.Migrate`, with `PublicationMigration.StrandedExample`).

## Model

| member | source | states |
|---|---|---|
| Elimination.PivotKeepsNullSpace | src/zont_analyzer/analytics/gas_savings.py:158-173 | a pivot step neither gains nor loses null vectors of the matrix |
| Elimination.LinearSolve | src/zont_analyzer/analytics/gas_savings.py:177-194 | a solution it returns satisfies every equation, and it returns none exactly on singular matrices |
| MatrixRank.ScaledRank | src/zont_analyzer/analytics/gas_savings.py:146-174 | the rank is the size of a largest independent set of columns, and the width exactly when all columns are independent |
| MatrixRank.Rank | src/zont_analyzer/analytics/gas.py:348-373 | the same for the in-place variant, which leaves the columns before the pivot unreduced |
| MatrixRank.PivotsIndependent | src/zont_analyzer/analytics/gas.py:348-373 | the columns in which the elimination found a pivot are independent |
| ColumnSets.WideIsDependent | src/zont_analyzer/analytics/gas.py:348-373 | more columns than there are rows are always dependent, which is why no larger set than the pivots is independent |
| MatrixRank.IndependenceSurvivesMoreRows | src/zont_analyzer/analytics/gas.py:471-487 | full column rank on some rows is full column rank on any rows that include them |
| LeastSquares.OptimalErrorGrowth | src/zont_analyzer/analytics/gas_savings.py:197-225 | from a solution of the normal equations the squared error grows with the square of the step in every direction |
| LeastSquares.GramSolvesNormalEquations | src/zont_analyzer/analytics/gas_savings.py:206-215 | solving the Gram system is solving the normal equations |
| LeastSquares.GramIndependent | src/zont_analyzer/analytics/gas_savings.py:206-215 | the Gram matrix of independent columns is never singular |
| NonNegativeFit.CombinationsComplete | src/zont_analyzer/analytics/gas_savings.py:203-206 | every active set of a size is enumerated |
| NonNegativeFit.DescendOnce | src/zont_analyzer/analytics/gas_savings.py:197-225 | from any feasible vector, either its active-set solution is feasible and at least as good, or a feasible vector of smaller support is |
| NonNegativeFit.NothingFeasibleIsBetter | src/zont_analyzer/analytics/gas_savings.py:197-225 | once every active set has been tried no feasible vector beats the best error |
| NonNegativeFit.FitNonNegative | src/zont_analyzer/analytics/gas_savings.py:197-225 | refuses exactly dependent columns; otherwise its non-negative coefficients have the least squared error of all non-negative vectors |
| RidgeFit.Clamp | src/zont_analyzer/analytics/gas.py:412-417 | the nearest point of the passport box |
| RidgeFit.CoordinateStep | src/zont_analyzer/analytics/gas.py:420-439 | a clamped coordinate minimum stays in the box and never raises the ridge objective |
| RidgeFit.SettledIsMinimal | src/zont_analyzer/analytics/gas.py:431-438 | rates that no coordinate update changes are a global minimum of the ridge objective over the box |
| RidgeFit.SweepImproves | src/zont_analyzer/analytics/gas.py:431-438 | a sweep lowers the objective, or it changes nothing and the minimum over the box was already reached |
| RidgeFit.BoundedRidge | src/zont_analyzer/analytics/gas.py:420-439 | the rates lie in the box, and their objective is strictly lower than that of the clamped prior unless nothing in the box is lower than that prior; no other last rate is better given the others, and none instead of the first clamped prior was |
| GasFit.GroupsWellGrouped | src/zont_analyzer/analytics/gas.py:376-381 | the groups share no bin and together hold every bin |
| GasFit.FitCandidate | src/zont_analyzer/analytics/gas.py:442-463 | a candidate exists exactly when the grouped columns are independent or there is one group; its mean is the clamped overall rate, and its group rates are the regression's: strictly better in the ridge objective than the one mean rate unless that is the minimum over the box, with no better last rate |
| GasFit.ResidualIsError | src/zont_analyzer/analytics/gas.py:442-469 | the regression's residual of a row is the model's prediction error of it, wherever the target is not cut off at zero |
| GasFit.LeaveOneOutError | src/zont_analyzer/analytics/gas.py:471-487 | an error exists exactly when there are enough rows and every fold can be fitted, and it is the mean error of predicting each row by a fit of the others |
| GasFit.AcceptedFormStaysFittable | src/zont_analyzer/analytics/gas.py:471-487 | a form whose folds can be fitted can be fitted on any rows that include a fold |
| GasFit.SelectGroups | src/zont_analyzer/analytics/gas.py:589-598 | the chosen number of groups wins the comparison of the leave-one-out errors: no larger form beats it, and it beats the winner among the smaller ones |
| GasFit.OneWinner | src/zont_analyzer/analytics/gas.py:589-598 | that comparison has only one winner |
| GasFit.FinalFit | src/zont_analyzer/analytics/gas.py:612-617 | the assertion that the final fit exists never fails |
| GasFit.Uncertainty | src/zont_analyzer/analytics/gas.py:618-643 | the relative uncertainty is the greatest of 0.08, the boundary share, the coverage gap, the sampling term and the validation error, which is replaced by 0.30 without validation |
| GasFit.FitIntervals | src/zont_analyzer/analytics/gas.py:530-690 | passport low <= lower <= rate <= upper <= passport high in every bin, a mean exactly when there are usable intervals or two passport bounds, and a model that is the fit of the winning form on the usable rows, its group rates those of the regression: each range follows from the greatest doubt about them, with the rank of their features and the exact identifiability test |
| BurnerExposure.IntegrateExposure | src/zont_analyzer/analytics/gas.py:235-298 | every figure is the number of seconds at which a trusted sample with the flags that figure stands for is in force: known flame for observed, lit for flame, lit with only the heating flag, with only the hot-water flag, or with neither for the purposes, each by the bin whose edges enclose the modulation; the fourteen accumulators are those of the recursive definition |
| BurnerExposure.IntegratedCounts | src/zont_analyzer/analytics/gas.py:177-298 | the same of the recursive definition, for increasing edges |
| BurnerExposure.OnePurpose | src/zont_analyzer/analytics/gas.py:266-274 | where every lit sample is exclusively heating, all flame minutes are heating minutes and no other purpose has any; so for hot water |
| BurnerExposure.IntegratedConserves | src/zont_analyzer/analytics/gas.py:235-298 | bins plus unknown modulation are the flame minutes, the purposes add up per bin and in total, and flame <= observed <= period |
| BurnerExposure.ExposureAdditive | src/zont_analyzer/analytics/gas.py:186-298 | exactly when a period's exposure is the sum over a split |
| BurnerExposure.AdditiveWithLaterSample | src/zont_analyzer/analytics/gas.py:186-298 | a sample at or after the end makes every split additive |
| BurnerExposure.StaleExample | src/zont_analyzer/analytics/gas.py:186-298 | a concrete period whose exposure is not the sum of its parts |
| BurnerExposure.PlusConserves | src/zont_analyzer/analytics/gas.py:58-77 | a sum of conserved exposures is conserved |
| PurposeSplit.SplitConserves | src/zont_analyzer/analytics/gas.py:751-975 | the purpose components sum to the observed volume, and with the unallocated gap to the modelled total |
| PurposeSplit.BoundsEnclose | src/zont_analyzer/analytics/gas.py:751-975 | every component and the estimate lie within their own bounds |
| PurposeSplit.PeriodSplitConserves | src/zont_analyzer/analytics/gas.py:978-988 | conservation for the exposure of any period |
| PurposeSplit.ConservedSplit | src/zont_analyzer/analytics/gas.py:751-975 | for any model the fitter returns and any exposure whose parts add up, a sum of periods included, the split conserves the volume and every component lies within its bounds |
| PurposeSplit.FittedSplit | src/zont_analyzer/analytics/gas.py:751-975 | the same for the exposure of any period |
| PurposeSplit.EstimateExtrapolates | src/zont_analyzer/analytics/gas.py:751-895 | there is an estimate exactly for a well enough observed period and a model that fits it; volume is to observed volume as the period is to the observed time, and the gap is the difference |
| PurposeSplit.SplitOfPeriod | src/zont_analyzer/application/gas.py:622-644 | the same for the whole way from meter intervals and burner samples to the split, with the fitted model and the counted seconds behind it: each component prices the flame time of its own purpose, and the estimate extrapolates |
| SnapshotStore.MapOfEntry | tools/transfer_ydb_snapshot.py:157-173 | every row of a strictly ordered file is found under its key |
| SnapshotUpload.FileRows | tools/transfer_ydb_snapshot.py:157-173 | comparing neighbours accepts exactly the files in strict key order without reserved markers |
| SnapshotUpload.ArtifactPreflight | tools/upload_ydb_snapshot.py:39-70 | accepts exactly the artifacts with matching counts, ordered files, schema rows and a complete import |
| SnapshotUpload.LoadProgress | tools/upload_ydb_snapshot.py:89-132 | starts exactly on a freshly initialised namespace, resumes exactly on consistent markers, and returns the marked rows |
| SnapshotUpload.Target.BulkUpsert | tools/upload_ydb_snapshot.py:160-166 | whatever a failed attempt leaves, rows are whole and old rows stay |
| SnapshotUpload.Target.CommitBatch | tools/upload_ydb_snapshot.py:143-159 | rows and marker change together or not at all |
| SnapshotUpload.Target.WriteBatch | tools/upload_ydb_snapshot.py:143-169 | every outcome keeps the invariant, loses no row and moves no marker back |
| SnapshotUpload.UploadTable | tools/upload_ydb_snapshot.py:197-226 | the batches sent are bounded pieces of the file, in order and without a gap |
| SnapshotUpload.RowsKeepResumable | tools/upload_ydb_snapshot.py:160-169 | any subset of artifact rows written keeps the namespace resumable |
| SnapshotUpload.MarkerKeepsResumable | tools/upload_ydb_snapshot.py:80-86 | a marker may move to any number of rows that are present |
| SnapshotUpload.StartMakesResumable | tools/upload_ydb_snapshot.py:89-105 | the first marker on a fresh namespace begins a resumable upload |
| SnapshotUpload.CompleteKeepsResumable | tools/upload_ydb_snapshot.py:227-233 | completion is written only over uploaded tables and keeps the invariant |
| SnapshotUpload.ResumableIsLoadable | tools/upload_ydb_snapshot.py:106-132 | every state the uploader can leave is accepted by the next start |
| SnapshotUpload.RowsStay | tools/upload_ydb_snapshot.py:188-236 | a data row that is present keeps its value for the rest of the upload |
| SnapshotUpload.UploadSnapshot | tools/upload_ydb_snapshot.py:188-236 | refused exactly on bad limits, a bad artifact, a foreign or occupied namespace; otherwise every end is resumable, and a process that survives as many writes as the artifact can need ends with a complete upload |
| SnapshotUpload.UploadRepeatedly | tools/upload_ydb_snapshot.py:188-236 | any number of runs with any limits and any deaths: none is refused, nothing is lost, a run that survives long enough finishes, and after a finished one the comparison finds nothing |
| UploadPacing.RateBound | tools/upload_ydb_snapshot.py:172-185 | the units charged over any stretch of batches fit into the time it takes |
| UploadPacing.Pacer.Wait | tools/upload_ydb_snapshot.py:178-185 | the pause keeps every stretch within the rate |
| SnapshotCompare.CompareTable | tools/transfer_ydb_snapshot.py:269-297 | the merge counts exactly the missing, extra and changed keys and sets the foreign markers aside |
| SnapshotCompare.CleanTally | tools/transfer_ydb_snapshot.py:269-297 | counts of zero mean equal tables outside the markers |
| SnapshotCompare.ExpectedMarkerRows | tools/transfer_ydb_snapshot.py:240-251 | the one dictionary with the markers of a finished upload |
| SnapshotCompare.VerifySnapshot | tools/transfer_ydb_snapshot.py:254-305 | ok exactly when the tables are equal as maps, the markers match and the journal is empty as required |
| SnapshotCompare.VerifiedIffFinished | tools/transfer_ydb_snapshot.py:254-305 | the comparison with completion required finds nothing exactly on a finished upload |
| Compaction.Compact | tools/compact_configuration_export.py:19-53 | refuses exactly invalid rows and otherwise returns the first row of every run, with the payload bytes of the input and of the result |
| Compaction.CompactIgnoresOrder | tools/compact_configuration_export.py:20-20 | the result does not depend on the order of the input |
| Compaction.NoConsecutiveRepeats | tools/compact_configuration_export.py:36-40 | no two consecutive retained rows of a device carry the same settings |
| Compaction.CompactIdempotent | tools/compact_configuration_export.py:19-53 | compacting a compacted export returns it when the projection is idempotent |
| SettingsTimeline.CompactPreservesSettings | tools/compact_configuration_export.py:41-44 | the compacted timeline shows the same settings at every device and time |
| SettingsTimeline.SettingsUnchanged | tools/cleanup_configuration_snapshots.py:144-173 | a table in any intermediate state, with later arrivals, shows what all observations show |
| ConfigCleanup.PlanCleanup | tools/cleanup_configuration_snapshots.py:38-68 | plans exactly the valid exports, over their sorted rows |
| ConfigCleanup.EventsPartition | tools/cleanup_configuration_snapshots.py:52-68 | the events partition the sorted rows in order |
| ConfigCleanup.EventsMatchRetained | tools/cleanup_configuration_snapshots.py:52-68 | the targets of the events are the compacted timeline |
| ConfigCleanup.EventsAreRuns | tools/cleanup_configuration_snapshots.py:52-68 | each event's target carries the payload of all its sources |
| ConfigCleanup.Chunks | tools/cleanup_configuration_snapshots.py:80-91 | consecutive batches within both limits, nothing lost |
| ConfigCleanup.ConfigTable.ApplyBatch | tools/cleanup_configuration_snapshots.py:94-141 | one transaction: a conflict changes nothing, else exactly the planned keys go, the target is stored, and both are counted |
| ConfigCleanup.BatchKeepsWorld | tools/cleanup_configuration_snapshots.py:94-141 | a committed batch keeps every run complete or replaced, from any crash or replay state |
| ConfigCleanup.BatchSparesOthers | tools/cleanup_configuration_snapshots.py:108-124 | nothing outside the manifest, and nothing that differs from its bytes, is deleted or overwritten |
| ConfigCleanup.AppendKeepsWorld | tools/cleanup_configuration_snapshots.py:147-152 | observations appended by other writers keep it too |
| ConfigCleanup.BatchFinishes | tools/cleanup_configuration_snapshots.py:94-141 | a committed batch leaves its rows done |
| ConfigCleanup.BatchKeepsDone | tools/cleanup_configuration_snapshots.py:94-141 | later batches leave finished rows finished |
| ConfigCleanup.FinishedBatchChangesNothing | tools/cleanup_configuration_snapshots.py:94-141 | on finished rows a batch conflicts or changes nothing |
| ConfigCleanup.ApplyCleanup | tools/cleanup_configuration_snapshots.py:144-173 | whatever the outcome, every reader's settings are unchanged and foreign rows stay; a complete run finishes every planned row; a rerun of a finished plan adds the arrivals and changes nothing else; a run that survives ends complete exactly when no planned key held other bytes, and otherwise in a conflict, provided that the plan names one row for a key and other writers keep off those keys; no run has more batches than planned rows |
| ConfigCleanup.RerunChangesNothing | tools/cleanup_configuration_snapshots.py:147-152 | no single batch of a finished plan changes the table |
| PublicationKeys.StableIsNotLegacy | tools/publication_storage_admin.py:22-60 | the two storage layouts share no key |
| PublicationMigration.DesiredKeys | tools/migrate_publication_storage.py:96-99 | the objects to create have distinct new keys, never a legacy key and never the browser index |
| PublicationMigration.World.Create | src/zont_analyzer/cloud/object_storage.py:139-151 | a conditional put never changes an existing object |
| PublicationMigration.World.CreateCopies | tools/migrate_publication_storage.py:119-134 | no object is overwritten, only copies are added, and remnants of an earlier run never conflict |
| PublicationMigration.World.MoveItems | tools/migrate_publication_storage.py:135-139 | every published record points at its copy with the ETags found there |
| PublicationMigration.MovedView | tools/migrate_publication_storage.py:135-147 | after the switch every report and the latest page resolve to the same bytes |
| PublicationMigration.SwitchKeepsRecords | tools/migrate_publication_storage.py:82-142 | the new manifest and the switched records differ from the old ones only in keys, ETags, layout and generation |
| PublicationMigration.MovedIsAlreadyOk | tools/migrate_publication_storage.py:45-54 | the switched publication is recognised as migrated by the next start |
| PublicationMigration.JournalWritten | tools/migrate_publication_storage.py:82-95 | the generation is journalled before the first put, so every rerun wants the same bytes |
| PublicationMigration.World.UpdateSiteIndex | src/zont_analyzer/cloud/publication.py:35-80 | only the browser index changes, to the projection of the committed publication |
| PublicationMigration.World.Migrate | tools/migrate_publication_storage.py:37-155 | refused exactly on unacceptable states; a start that survives its effects, at most seven more than two for each record, does what it is for; wherever it stops every report still resolves, nothing is overwritten, the next start is accepted, and rollback is possible exactly if the commit was recorded |
| PublicationMigration.StrandedExample | tools/migrate_publication_storage.py:45-54 | a concrete migrated publication that the next start accepts and that can no longer be rolled back, because the process died before the commit was recorded |
| PublicationMigration.World.MigrateRepeatedly | tools/migrate_publication_storage.py:37-155 | any number of starts, each of which may die anywhere: a start is refused only while nothing has been changed, every report keeps resolving, and a last start that survives long enough leaves the publication switched and its index up to date |
| PublicationMigration.InventoryIntact | tools/migrate_publication_storage.py:105-112 | the inventory stays good for a rollback while no original object is overwritten |
| PublicationMigration.World.Rollback | tools/migrate_publication_storage.py:158-206 | restores exactly the recorded publication, or leaves everything as it is when it refuses; three effects finish it where the index of that publication can be written |
| PublicationMigration.RollbackRestoresView | tools/migrate_publication_storage.py:158-206 | after a rollback every report resolves as it did before the migration |
| PublicationMigration.World.MigrateAndRollBack | tools/migrate_publication_storage.py:37-206 | any number of starts of migrate and of rollback in any order: readers always see what they saw at first, a rollback is refused exactly when no switch was confirmed, a finished one restores the original records, and a last start that survives long enough finishes unless it is refused |
| VersionCleanup.Candidates | tools/cleanup_publication_storage.py:209-251 | refuses exactly inconsistent listings; otherwise the plan is the sorted selection |
| VersionCleanup.ListingAgrees | tools/cleanup_publication_storage.py:213-232 | the listings of a bucket are consistent; only a missing reachable object stops the plan |
| VersionCleanup.PlanIsHarmless | tools/cleanup_publication_storage.py:233-250 | for reachable or stable keys no newest version and no reusable null version is planned |
| VersionCleanup.CurrentObjectUnchanged | tools/cleanup_publication_storage.py:233-251 | at every prefix and with any paused writer, reachable and stable keys show what they would show without the cleanup |
| VersionCleanup.MarkersGoLast | tools/cleanup_publication_storage.py:243-251 | a delete marker of an unreferenced key goes only after all its objects |
| VersionCleanup.HiddenStaysHidden | tools/cleanup_publication_storage.py:243-251 | a key hidden by a delete marker never becomes visible unless somebody writes it |
| VersionCleanup.ReplanningSelectsNothing | tools/cleanup_publication_storage.py:266-295 | after the whole plan a new plan is accepted and empty |
| VersionCleanup.CleanupLeaves | tools/cleanup_publication_storage.py:233-251 | what the whole plan leaves: everything of foreign keys; of any other key its newest version, unless the key is a legacy one that nothing refers to, and the null versions of the stable layout; nothing else |
| VersionCleanup.ApplyCleanup | tools/cleanup_publication_storage.py:312-391 | stale plans change nothing; otherwise the deletions are a prefix of the plan and current objects are unchanged, and the run is complete exactly if the process survives as many deletions as are planned |
| TokenBudget.Changes | tools/import_sqlite.py:505-510 | the dictionary of changes holds, per month, the difference of the two shares |
| TokenBudget.Adjust | tools/import_sqlite.py:502-524 | fails exactly when a month would go below zero; otherwise each month moves by the difference |
| TokenBudget.TotalWithout | tools/import_sqlite.py:690-723 | the sum over all records does not depend on their order |
| TokenBudget.NoUnderflow | tools/import_sqlite.py:698-723 | from a balanced state the underflow errors are unreachable |
| TokenBudget.PutBalances | tools/import_sqlite.py:803-825 | replacing a record keeps the balance |
| TokenBudget.RemoveBalances | tools/import_sqlite.py:845-853 | removing a record keeps the balance |
| TokenBudget.TokenStore.Put | tools/import_sqlite.py:915-953 | budget and record change together, an undated call changes nothing, and the balance is kept |
| TokenBudget.TokenStore.Remove | tools/import_sqlite.py:1006-1016 | the record goes with its share |
| TokenBudget.ImportRecords | tools/import_sqlite.py:796-857 | through crashes, reruns and other writers each month is the others' part plus one share per current record; a complete pass ends on the source, and a process that survives a transaction for each record and each manifest completes it unless a used call is undated |
| TokenBudget.TotalOfBackup | tools/import_sqlite.py:698-723 | the sum over the manifests of an imported backup is the plain sum over its records |
| TokenBudget.ImportRepeatedly | tools/import_sqlite.py:796-857 | after any number of imports of any backups, cut short anywhere, once the last is complete every month is the others' part plus exactly what its records say (tokens of the calls and charges of the entries of that month, and what its pending entries reserve), so nothing is charged twice; a last import that survives long enough is complete |
| SourceImport.ImportStore.PutRow | tools/import_sqlite.py:915-953 | the row and its record, and nothing for a row in place |
| SourceImport.ImportStore.PutPage | tools/import_sqlite.py:448-497 | the page as one change: old targets go, then changed rows are written |
| SourceImport.ImportStore.RemoveRecord | tools/import_sqlite.py:1006-1016 | the record goes, and its target unless it is preserved |
| SourceImport.TargetAfterImport | tools/import_sqlite.py:891-1017 | a target of the source holds the value of its last row exactly if it is not lost |
| SourceImport.NoStrays | tools/import_sqlite.py:973-1017 | nothing is left that the source does not map to |
| SourceImport.ConvergesIff | tools/import_sqlite.py:860-1039 | one run leaves the mapped source exactly when no target is lost, judged by the store before the run |
| SourceImport.FoundIsInPlace | tools/import_sqlite.py:448-497 | which rows the scan will find in place can be read off the store before the run |
| SourceImport.ConvergesIffNonePasses | tools/import_sqlite.py:860-1039 | for rows with targets of their own the condition in closed form: no owner has left, none is scanned after the row that takes its target, and none shares the page of a row in place whose target nothing took before |
| SourceImport.LostRowByRow | tools/import_sqlite.py:915-953 | in a table imported row by row the scan loses a target exactly when a later row used to own it |
| SourceImport.OneRunConverges | tools/import_sqlite.py:860-1039 | one run does if no target passes from one row to another |
| SourceImport.PassedTargetIsLost | tools/import_sqlite.py:927-937 | a target that passes to a row scanned earlier is lost by the first run |
| SourceImport.LossExample | tools/import_sqlite.py:927-937 | a concrete store in which this happens |
| SourceImport.SecondRunConverges | tools/import_sqlite.py:860-1039 | a second run always does, ending on the newest row of shared targets |
| SourceImport.ConvergedStays | tools/import_sqlite.py:860-1039 | a run on a converged store ends where it began and finds every row in place |
| SourceImport.ImportTable | tools/import_sqlite.py:891-1017 | complete exactly if the process survives a transaction for each page and each departed record; cut short anywhere, every target still has a record; complete, the result is the specified one and a converged table counts no change |
| IntervalMeasure.LengthIsMeasure | src/zont_analyzer/analytics/evidence.py:695-713 | spans apart measure the sum of their lengths |
| Statistics.MedianIsMiddle | src/zont_analyzer/analytics/evidence.py:742-744 | of the sorted values the lower half, the middle included, lies at or below the median and the upper half at or above it |
| Statistics.GapsAre | src/zont_analyzer/analytics/evidence.py:742-742 | the gaps are the differences of neighbours, in order |
| EvidenceCoverage.UnionSeconds | src/zont_analyzer/analytics/evidence.py:695-713 | the measure of the union clipped to the period |
| EvidenceCoverage.StateIntervals | src/zont_analyzer/analytics/evidence.py:737-750 | disjoint pieces of the period, one for each confirmed state and no other |
| EvidenceCoverage.GapIsUniform | src/zont_analyzer/analytics/evidence.py:720-734 | between neighbouring boundaries an exclusion covers everything or nothing |
| EvidenceCoverage.SplitStateIntervals | src/zont_analyzer/analytics/evidence.py:720-734 | the pieces are disjoint, keep their states and cover exactly the intervals outside every exclusion |
| EvidenceCoverage.SecondsAreInstants | src/zont_analyzer/analytics/evidence.py:720-750 | the summed length of the pieces with a wanted state is the number of instants at which such a state is in force |
| EvidenceCoverage.FlameCycles | src/zont_analyzer/analytics/evidence.py:852-874 | starts are counted exactly where heating lights up after a seen piece without flame, and the cycles are exactly the stretches from a start to a seen end without a hole |
| EvidenceCoverage.StartsAreInstants | src/zont_analyzer/analytics/evidence.py:852-874 | the starts counted piece by piece are the instants at which requested heating burns right after a dark instant, however the timeline is cut into pieces |
| EvidenceCoverage.CyclesAreInstants | src/zont_analyzer/analytics/evidence.py:852-874 | so the cycles are the stretches of burning instants from such a start to the next dark one, each of them once and in order |
| EvidenceCoverage.ObservedAndEligible | src/zont_analyzer/analytics/evidence.py:844-877 | observed and eligible time are the measures they claim to be, and observed <= eligible |
| EvidenceCoverage.OperationalMetrics | src/zont_analyzer/analytics/evidence.py:801-955 | every figure counts instants of the period by the confirmed state in force, outside the exclusions: coverage, observed and eligible time, request and flame, and the starts; the cycles are exactly the burning stretches from a start to the next dark instant; insufficient exactly without any such instant or below the demanded coverage; every coverage lies in 0..100 and every ratio in 0..1 |
| TargetTimeline.ValueAt | src/zont_analyzer/analytics/dhw.py:153-159 | the scan returns the value of the latest observation |
| TargetTimeline.TargetTransitions | src/zont_analyzer/analytics/metrics.py:29-42 | the collapsed list of changes |
| TargetTimeline.TransitionsKeepValues | src/zont_analyzer/analytics/metrics.py:29-42 | collapsed transitions say the same about every instant as the plain lookup |
| TargetTimeline.CursorIsLookup | src/zont_analyzer/analytics/metrics.py:99-103 | a cursor moved as far as an instant allows shows the target in force |
| TemperatureMetrics.Segments | src/zont_analyzer/analytics/metrics.py:14-26 | every bridged gap between neighbouring readings, and nothing else |
| TemperatureMetrics.TargetTotals | src/zont_analyzer/analytics/metrics.py:95-116 | the cursor sweep gives the totals of a lookup for every single second |
| TemperatureMetrics.IntegralConserved | src/zont_analyzer/analytics/metrics.py:104-116 | in band, above and below make up the targeted time; absolute error is the degree hours of both sides times 3600 |
| TemperatureMetrics.IntegralCounts | src/zont_analyzer/analytics/metrics.py:73-118 | the totals count those seconds, by the side of the band on which the reading lies of the target looked up for each |
| TemperatureMetrics.BandShares | src/zont_analyzer/analytics/metrics.py:117-126 | the shares are percentages that add up to 100: of the seconds in segments outside the ignored windows at which a target is in force, those with the reading within the band, above it and below it |
| TemperatureEvents.DetectEvents | src/zont_analyzer/analytics/events.py:34-118 | some division of the sorted readings into runs accounts for every event's start, end, side, peak and severity, and every reading out of band belongs to a run |
| TemperatureEvents.EventsDetermined | src/zont_analyzer/analytics/events.py:34-118 | no other list of events is complete and exact for the same readings: starts, ends, sides and peaks are all forced |
| TemperatureEvents.EventsAreDisjoint | src/zont_analyzer/analytics/events.py:34-118 | events follow one another without overlap |
| TemperatureEvents.EventMeansOutOfBand | src/zont_analyzer/analytics/events.py:76-115 | from start to end every reading is more than the band above the target in force, or below it, as the event says, not ignored and bridged; no transition falls inside |
| TemperatureEvents.PeakIsReached | src/zont_analyzer/analytics/events.py:107-115 | the peak is the error of one of the event's own readings |

## Left out

- Floating point: rounding and every tolerance (`1e-12` pivots, the comparison slack of the fits) are replaced by exact reals, so a rank or a tie that depends on a tolerance is not modelled.
- JSON, hashing and file modes: documents and bytes are values with injective encodings, a digest names one artifact, and a payload's byte count is its text length.
- GasFit.Uncertainty: the sampling term `0.25 / sqrt(n)` is a parameter, so that what is stated holds for any such term; the hold-out of a fifth of the rows is rounded up exactly.
- SnapshotUpload.ArtifactPreflight: file sizes, checksums and the manifest format are not modelled; a digest names one artifact.
- GasFit.FitIntervals: the reason texts, the support columns and the calibration date of the model are not modelled.
- SnapshotUpload.UploadSnapshot: does not model the pauses between batches; the pacer is proved apart in UploadPacing.
- PublicationMigration.World.Migrate: other publishers are kept out by the lease, so no foreign object appears during a run; a lost lease or a failed save ends it like a death does.
- BurnerExposure.IntegrateExposure: the error for edges that do not increase is not modelled; the counts are stated for increasing ones.
- VersionCleanup.ApplyCleanup: the saved byte backups of deleted objects are not compared.
- TokenBudget.ImportRecords: the rows written to `llm_calls` and the response cache are a parameter that says whether they match.
- SourceImport.ImportTable: the field mapping of each table, surrogate keys of the audit tables and the sequences raised after a table are not modelled; neither is the telemetry page import, whose target keys cannot move.
- EvidenceCoverage.OperationalMetrics: modulation and flow-temperature statistics, percentiles, the merging of exclusion windows and the selection of hourly windows are not modelled.
- TemperatureMetrics.BandShares: mean and range of the readings and the mean errors on either side are not modelled.
- Burner events and burner metrics, DHW episodes and narrative events, the heating formula, settings decoding and the quality score: thresholds and text that only add easier members.
- YDB, gRPC, SQLite, HTTP, XML listing, the job lease and the command lines.
- `tools/cleanup_chart_cache.py` and `deploy/import_analysis.py`: the same fence as the configuration cleanup with simpler invariants.
