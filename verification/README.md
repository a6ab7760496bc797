# Recovery guarantees of the CDC platform, verified

This project models the four protocols of the platform that carry its recovery guarantees and proves what they promise.

* **MERGE with a recovery ledger** (`src/merge`). `MergeSpec` gives the meaning of each durable Delta commit and of the
  decisions a run takes before its first write. A run is a fixed plan of commits; a process that dies has made a prefix of
  it. `MergeInvariant`, `MergeWave`, `MergeRun`, `MergeDecide`, `MergeTheorems` and `MergeHistory` prove crash-safe
  refinement, crash transparency and replay over every series of runs, crashes and retries; `MergeAdmission` says exactly
  when a run is accepted, `MergeMonotone` when a row's sequence number can go down, and `MergeRetries` proves the
  refinement again for retries that bring any other list. `MergeColumns` says what every commit writes, column by column,
  and `MergeSummary` what a run counts. `MergePolicies` relates the two delete policies, `Oracle`, `OracleOutcomes` and
  `Reconciliation` relate the target to the source mutation engine, `MergePipeline` and `ReconciliationReport` hold the
  code in the source's form, and `MergeCounterexamples` shows what happens without each hypothesis.
* **Watermark extraction** (`src/watermark`). `Watermark` is the protocol as a state machine of workers, audits, landing
  files and a changing source; `WatermarkSafety` and `WatermarkCompleteness` hold for every interleaving,
  `WatermarkDelivery` says when a delivered row stays delivered, `WatermarkOutcomes` how a run and its record end,
  `WatermarkRecovery` is about sequential operation, and `WatermarkPipeline` is the code.
* **Normalization** (`src/normalization`). `Normalization` judges every delivery, `NormalizationWindows` proves that the
  window columns and staged filters make the same judgement, `NormalizationOrder` and `NormalizationRun` prove that
  nothing depends on input order and nothing is lost, `NormalizationContract` that the result is what the MERGE needs,
  `NormalizationAnswer` and `NormalizationRunAnswer` give the whole answer in terms of records and lines,
  `NormalizationManifest` says what a processing id tells about its files, and `NormalizationPipeline` is the code.
* **Change-feed consumer** (`src/cdf`). `Cdf` proves exactly-once archiving around the crash window; `CdfPipeline` is the
  code.

`Ordering` and `Cdc` hold sorting, filtering and the event datatypes. `dafny verify dfyconfig.toml` checks everything.

## What the theorems assume

* A processing id always names the same list of events (`MergeInvariant.Catalogue`). `NormalizationManifest` derives this
  from the content-addressed id (`src/normalization/fingerprint.py:91-114`): for digests without collisions, files with
  distinct logical ids, and batch hints that follow from the logical id. The last two can fail: two paths may share a
  logical id, and the reader takes the first `batch_id=` directory anywhere in a path (`src/normalization/reader.py:14`)
  where the logical id keeps the directory just above the file (`src/normalization/fingerprint.py:80-88`). `run` itself
  only checks that PENDING ids are among the input. `MergeRetries` needs no such hypothesis for the refinement and for
  no resurrection, only lists that are well-formed one by one and event ids that mean one event within a processing id;
  crash transparency, replay and rows never moving backwards do need it, and `MergeCounterexamples.RetryLowersIff` says
  exactly when another list lowers a row.
* Batches have unique event ids and unique (entity, sequence), and entity keys and primary keys coincide
  (`MergeInvariant.WellFormed`). `NormalizationContract.NormalizedIsWellFormed` derives this from normalization when
  business keys are exactly the primary key and their canonical text is injective.
* Where an image carries the primary key, it carries the business key's value (`MergeSpec.KeyedImage`). The MERGE joins on
  the image's value (`src/merge/event_adapter.py:84-90`), the model on the business key's; `MergeSpec.JoinKeyIff` says
  that they agree exactly then. `src/normalization/validator.py:171-216` guarantees it for normalized events, nothing else
  does.
* The snapshot rows lie at or below the sequence numbers of all events at their key (`MergeMonotone.SnapshotBelow`), which
  the bootstrap gives, where rows are said never to move backwards.
* Oracle equality further assumes events that satisfy `src/cdc/validator.py` (`Reconciliation.AllValid`); which payloads
  it needs is proved in both directions.
* That a set is turned away only because another one is PENDING assumes that ids and (entity, sequence) pairs identify
  events across sets (`MergeAdmission.Identified`).
* Merge runs do not overlap; watermark workers may interleave freely.
* Watermark completeness assumes that a source change brings in only rows above every HIGH still in play, and that batch
  ids identify windows. Change-feed exactly-once assumes distinct change rows with distinct change ids. File order
  independence assumes distinct logical file ids and an injective content digest.

## What the proofs found

* **An emptied window pins its table.** A failed attempt's window is retried unchanged until it commits
  (`src/watermark/control_store.py:203-242`). If source updates have meanwhile moved every row out of the window, each
  retry ends as NO_DATA, the failed attempt stays eligible, and the table never advances again, although newer rows exist.
* **Rows without `updated_at` are never extracted**, whatever the watermark.
* **A stale worker can lose a delivered row.** Eligibility of a recoverable window is judged against a second read of the
  state (`src/watermark/control_store.py:213`), not the read that LOW came from, and a landing replaces the file of its
  batch id (`src/watermark/landing.py:67`). A worker that adopts a window which another run then commits later overwrites
  the SUCCESS file with what is left in the source: rows of earlier windows may appear in it, and a row that has been
  updated in the meantime is gone from it. `WatermarkDelivery.StaleOverwriteLosesRow` is such a run; `StepLosesIff` and
  `StaleLandingKeepsIff` give the exact conditions. A worker whose version is still the stored one overwrites nothing
  (`CurrentLandingKeeps`), and with one worker at a time nothing delivered is ever lost (`SequentialKeepsDelivered`).
* **Extra business key columns** make sequence numbers finer than the MERGE join key, so a lower sequence can win.
* **Lower-case operations** pass validation, are ignored by the MERGE, and are still marked APPLIED.
* **Files with one logical id shadow each other.** The manifest keeps only the last one's digest
  (`src/normalization/fingerprint.py:109`), so the processing id does not depend on what the others hold, although their
  events are read, and it depends on the order of the files. The function's own documentation denies both (lines 98-99).
  `NormalizationManifest.LastFileCounts` and `ShadowedEventIsLost` show it; with distinct logical ids the documentation
  is right (`IdIffFiles`).
* **A clean report is less than equality.** The reconciliation compares the columns the engine's row has
  (`src/merge/reconciliation.py:91-96`), so business key columns that only the MERGE writes go unnoticed:
  `Reconciliation.OracleEquality` gives the condition for either.
* `src/watermark/pipeline.py:50-52` presents a retry as recovering the window; the code recovers it only while it holds a
  row.

## Model

| member | source | states |
|---|---|---|
| MergeHistory.CrashSafeRefinement | src/merge/pipeline.py:115-283 | After any series of runs, each dying after any number of Delta commits (also between upserts and deletes) or completing, and any retries: if nothing is PENDING, the HARD target holds at every key exactly the effect of the highest-sequence APPLIED event, or the snapshot row if there is none. |
| MergeHistory.ReachableInv | src/merge/pipeline.py:115-283 | The inductive form of the refinement, also mid-crash: every row is explained by the latest APPLIED event, the snapshot, or an event still PENDING at its key. |
| MergeHistory.ReachableLedgerInv | src/merge/event_ledger.py:117-181 | In every reachable state PENDING records share one processing id and one (table, sequence) wave and lie strictly above their entity's APPLIED maximum; applied sequences of an entity are distinct; every record is the unaltered image of an event of its own processing set; nothing earlier in a PENDING set is left undone. |
| MergeHistory.LedgerOnlyAdvances | src/merge/event_ledger.py:117-181 | Over any history records are never lost and change only from PENDING to APPLIED, all other columns fixed. |
| MergeHistory.NoResurrection | src/merge/event_ledger.py:83-90 | Once a DELETE is APPLIED, in every reachable state of a HARD target a row at its key carries a strictly higher sequence number. |
| MergeHistory.RowsMatchLedger | src/merge/event_adapter.py:108-121 | In every reachable state each row of a HARD target is a snapshot row or agrees with the ledger record of the event it names, in sequence, fingerprint, commit timestamp, operation and processing id. |
| MergeColumns.UpsertColumns | src/merge/event_adapter.py:79-121 | An upsert commit writes for each event a row whose schema columns come from the payload, failing that from the before image if there is no payload, failing that from the business key, with every metadata column; every other row stands. |
| MergeColumns.SoftDeleteColumns | src/merge/merge_engine.py:136-157 | A SOFT delete commit changes no key; each deleted row keeps its image, is marked deleted at the event's commit timestamp and takes the event's metadata; every other row stands. |
| MergeColumns.HardDeleteColumns | src/merge/merge_engine.py:126-135 | A HARD delete commit removes exactly the keys of its events. |
| MergeColumns.DeletedRowsRemember | src/merge/merge_engine.py:136-157 | In every reachable state, mid-crash or not, a deleted row holds the image of the last row that was shown at its key, and has been hidden since; no hypothesis on the events. |
| MergeMonotone.RowsNeverMoveBackwards | src/merge/pipeline.py:115-283 | Rows never move backwards: if a key holds a row at two points of one history, mid-crash or not and with any deletes in between, the later row's sequence is not below the earlier one's. |
| MergeMonotone.RunLowersRowIff | src/merge/pipeline.py:198-283 | For any store, list and delete policy, with no hypothesis on the events: some crash point of an accepted run shows a row at a lower sequence exactly when the run acts on an event at that key, below the row, that writes rows. |
| MergeTheorems.CrashLeavesUnfinished | src/merge/pipeline.py:119-196 | After a crash at any commit, resubmitting the same processing set raises nothing and acts on exactly the events that are not yet APPLIED. |
| MergeTheorems.CrashTransparency | src/merge/pipeline.py:119-283 | After a crash at any commit, resubmitting reaches the very ledger and target of the uninterrupted run. |
| MergeTheorems.EachWaveIsProgress | src/merge/pipeline.py:250-283 | A run that gets through its first wave leaves a strictly smaller set of events to act on: retries terminate. |
| MergeTheorems.CompleteSettles | src/merge/pipeline.py:250-305 | A run that survives all its commits leaves nothing PENDING, and every event of its set is recorded or superseded by a later applied one. |
| MergeHistory.ReplayIsNoOp | src/merge/pipeline.py:198-221 | Once a set has completed, resubmitting it after any later history makes no commit at all. |
| MergeHistory.PendingBlocksOthers | src/merge/pipeline.py:119-128 | While records of one set are PENDING, any other processing id is rejected and changes nothing. |
| MergeAdmission.AcceptedIff | src/merge/pipeline.py:115-242 | A set is accepted exactly when its id is not empty, no other set is PENDING, no recorded event has another content, no unrecorded event repeats its entity's applied maximum, and every event still to be done addresses a known table. |
| MergeAdmission.DecideIs | src/merge/pipeline.py:115-242 | The verdict on any list against any ledger: the first failing check, in the source's order, decides the error, conflicts in list order; unknown tables and ambiguous waves are told apart; otherwise the list is accepted. |
| MergeAdmission.TurnedAwayIff | src/merge/pipeline.py:115-242 | In every reachable state, mid-crash or not, a set whose events are identified by id and by (entity, sequence) across all sets is turned away exactly when another set is PENDING. |
| MergeAdmission.NoDeadlock | src/merge/pipeline.py:115-242 | In every reachable state the owner of a PENDING record is itself accepted, so the block can always be cleared. |
| MergeRetries.RetriesKeepInv | src/merge/pipeline.py:115-283 | Submissions of any lists under any ids, each dying anywhere: every row is still explained by the latest APPLIED event, the snapshot or a PENDING event, PENDING records have one owner and lie above what has been applied. |
| MergeRetries.RetriesRefine | src/merge/pipeline.py:115-283 | So the refinement holds whenever nothing is PENDING, although lists may grow, shrink or be others between retries: each key shows the highest-sequence APPLIED event or the snapshot row. |
| MergeRetries.RetriesNoResurrection | src/merge/pipeline.py:115-283 | And so does no resurrection, in every state reached by any such submissions. |
| MergeDecide.ClassifyMeans | src/merge/pipeline.py:156-194 | Fresh, stale, recovery and replay read off the ledger, each in both directions. |
| MergeDecide.ClassifyAllOf | src/merge/pipeline.py:156-196 | Each list of the triage holds exactly the events of its class, once each. |
| MergeDecide.WavesFacts | src/merge/pipeline.py:223-230 | The waves split the actionable events by (table, sequence), in ascending order, without loss. |
| MergeDecide.WavesInOrder | src/merge/pipeline.py:223-230 | Waves run by table in alphabetical order and by ascending sequence number, each with its events in list order. |
| MergePolicies.PoliciesBisimilar | src/merge/merge_engine.py:74-157 | Over any history the SOFT target without deleted rows equals the HARD target row for row, metadata included, and the ledgers are equal. |
| MergePolicies.SoftRefinement | src/merge/merge_engine.py:136-157 | The crash-safe refinement, for the visible rows of a SOFT target. |
| MergePolicies.SoftNoResurrection | src/merge/merge_engine.py:136-157 | No resurrection, for the visible rows of a SOFT target. |
| MergePolicies.SoftRowsMatchLedger | src/merge/merge_engine.py:136-157 | The visible rows of a SOFT target agree with the ledger record of the event they name. |
| MergePolicies.SoftRowsNeverMoveBackwards | src/merge/merge_engine.py:136-157 | The visible rows of a SOFT target never move backwards. |
| Reconciliation.OracleEquality | src/merge/reconciliation.py:13-119 | Once every set that was started has completed, the target images are the tables `SourceMutationEngine` reaches from the same snapshot by folding the same events in any order, exactly when the last upsert of every key carries what the two write differently; and the reconciliation report is clean exactly when those upserts fit the schema and, on an UPDATE, carry `updated_at`. |
| Reconciliation.SoftOracleEquality | src/merge/reconciliation.py:13-119 | Both equivalences for the visible rows of a SOFT target. |
| Reconciliation.ImagesAgreeIff | src/source/mutation_engine.py:87-96 | For a valid upsert the image the MERGE writes, restricted to the table's schema, equals the engine's exactly when the payload fits the schema, carries the schema's columns of the business key and, on an UPDATE, `updated_at` (or the business key carries `updated_at` with the event's own timestamp). |
| Reconciliation.ImagesMatchIff | src/merge/reconciliation.py:88-103 | For a valid upsert the report finds no column of the engine's image missing or different exactly when the payload fits the schema and, on an UPDATE, carries `updated_at` (or the business key does, with the event's own timestamp). |
| ReconciliationReport.RecordsByKey | src/merge/reconciliation.py:33-36 | The engine's records by the primary key they carry: refused exactly when one carries none, and the engine's own table when every record carries the key it is stored under. |
| ReconciliationReport.CompareRows | src/merge/reconciliation.py:69-119 | Missing, unexpected and differing rows of the report, and the flag that there are none. |
| ReconciliationReport.Reconcile | src/merge/reconciliation.py:13-118 | The whole report: refused for records without their key; otherwise the missing and the unexpected rows and, of each other row, exactly the columns that are missing or differ; clean exactly when target and engine have the same rows and the target's rows hold every entry of the engine's. |
| MergeSpec.JoinKeyIff | src/merge/event_adapter.py:84-90 | The primary key value of the converted row, on which the MERGE joins, is the business key's exactly when the image, where it carries the primary key, carries the same value. |
| MergePipeline.EventApplyLedger.GetPendingRecords | src/merge/event_ledger.py:78-81 | Returns exactly the PENDING records, each once. |
| MergePipeline.EventApplyLedger.GetAppliedMaxSequences | src/merge/event_ledger.py:83-90 | The map of per-entity maxima over APPLIED records: a largest element, attained, and absent exactly when nothing is applied. |
| MergePipeline.EventApplyLedger.RecordPendingEvents | src/merge/event_ledger.py:117-166 | Insert-only: the ids are exactly the old and the given ones, every known id keeps its record, each new id gets a PENDING record with each column of an event of that id; without a processing id nothing changes. |
| MergePipeline.EventApplyLedger.MarkEventsApplied | src/merge/event_ledger.py:168-181 | PENDING afterwards are exactly the records that were PENDING and were not named; no record is added or lost, and only the status differs. |
| MergePipeline.BootstrapIsSnapshot | src/merge/target_store.py:90-120 | A completed bootstrap holds at every key the snapshot's image on the table's schema or nothing, with each metadata column of a snapshot row, at sequence 0, nothing deleted. |
| MergePipeline.DeltaTargetStore.InitializeTargets | src/merge/target_store.py:55-134 | Refuses to touch anything if any of the four tables exists, unless told to overwrite; otherwise creates or replaces the known tables one by one, all of them if it survives, each at its sequence 0 baseline, and leaves every other table alone, also when the process dies in between. |
| MergePipeline.HasAmbiguity | src/merge/merge_engine.py:56-64 | The seen-keys loop reports ambiguity exactly when two events of the wave target one primary key, an absent key reading as `None`. |
| MergePipeline.DeltaMergeEngine.MergeWave | src/merge/merge_engine.py:28-163 | One wave, cut after any commit: upserts, then deletes, each only if present, with every column of every row: an upsert writes the event's row, a HARD delete removes it, a SOFT delete keeps its business columns and rewrites its metadata, all other rows stand; the counts are the wave's positions by operation; a wave whose table does not exist or that is ambiguous changes nothing. |
| MergePipeline.DeltaMergePipeline.CheckPending | src/merge/pipeline.py:115-146 | The three ownership and integrity checks on PENDING records, in the source's order. |
| MergePipeline.DeltaMergePipeline.ClassifyEvents | src/merge/pipeline.py:148-196 | The classification loop computes the triage, or the first conflict. |
| MergePipeline.DeltaMergePipeline.GroupWaves | src/merge/pipeline.py:223-230 | The dictionary of waves with its insertion order. |
| MergePipeline.DeltaMergePipeline.CheckAmbiguity | src/merge/pipeline.py:232-242 | The ambiguity check over all waves before the first write. |
| MergePipeline.DeltaMergePipeline.ExecuteWave | src/merge/pipeline.py:254-283 | PENDING, target, APPLIED, cut after any commit; a missing target table is found out after PENDING. |
| MergePipeline.WaveCut | src/merge/pipeline.py:254-283 | What a wave, cut anywhere, leaves in both stores is what that many Delta commits of the specification leave. |
| MergePipeline.DeltaMergePipeline.Execute | src/merge/pipeline.py:250-283 | All waves in order, cut after any commit or at the first wave whose target table does not exist. |
| MergePipeline.DeltaMergePipeline.Run | src/merge/pipeline.py:87-305 | A whole run ends exactly where the specification says for any crash point and any set of existing target tables; if no table it needs is missing, that is the attempt of the theorems and the run never fails half-way; every rejection leaves ledger and target unchanged; the summary accounts for every event once, and counts the actionable positions of INSERT, UPDATE and DELETE, which add up to the applied events when all are recognised. |
| MergePipeline.NoTableMissing | src/merge/merge_engine.py:49-54 | When every target table a run needs exists, it is never stopped before its last commit. |
| MergePipeline.FirstMissingStops | src/merge/merge_engine.py:49-54 | Otherwise the first wave whose table is missing stops the run after all waves before it and its own PENDING commit. |
| MergeSummary.TotalsTallied | src/merge/pipeline.py:244-302 | The totals over all waves are the numbers of positions of the actionable events with INSERT, UPDATE and DELETE, and add up to all of them when every operation is recognised. |
| MergePipeline.DecidedWaves | src/merge/pipeline.py:232-242 | The check before the first write implies the check inside the merge engine, so the latter never fires mid-run. |
| MergeCounterexamples.LowerSequenceWinsUnlessSameEntity | src/normalization/validator.py:60-71 | With business keys wider than the primary key: of two events of one row applied high sequence first, the row keeps the higher one exactly when both have one entity key or both delete. |
| MergeCounterexamples.ExtraKeyColumnOverwrites | src/normalization/validator.py:60-71 | A concrete pair of events, valid for the mutation engine and for normalization, for which the lower sequence wins. |
| MergeCounterexamples.LowerCaseIsIgnored | src/merge/merge_engine.py:70-71 | An operation that validation accepts takes effect exactly when it is spelled in upper case; otherwise the ledger says APPLIED and the target is untouched. |
| MergeCounterexamples.LongerRetryMovesBackwards | src/merge/pipeline.py:130-146 | A retry with a longer list passes every check and moves a row to a lower sequence: the same-list hypothesis is needed. |
| MergeCounterexamples.RetryLowersIff | src/merge/pipeline.py:130-146 | A retry of the same processing id with any other list lowers the row that a PENDING event already shows exactly when the retry is accepted and its list holds an upsert at that key below it. |
| MergeCounterexamples.AddedEventLowersIff | src/merge/pipeline.py:130-146 | With one added event of any kind: the row held by the PENDING event moves backwards exactly when the added event is an upsert at the same key with a lower sequence number. |
| Oracle.OracleArgMax | src/source/mutation_engine.py:78-105 | After any event sequence each key holds the effect of its highest-sequence valid event, or its snapshot image. |
| Oracle.OracleConverges | src/source/mutation_engine.py:59-160 | The final tables depend only on the set of valid events, not on order, repetition or invalid events. |
| Oracle.SplitAndSortConverge | src/source/mutation_engine.py:107-130 | Splitting events into any number of batches, and sorting any of them, is invisible in the tables. |
| Oracle.SourceMutationEngine.ApplyEvent | src/source/mutation_engine.py:59-105 | One event: the row, the sequence number and the seen ids it leaves, operation by operation; what leaves the state alone; and the unenforced variant whose sequence never moves backwards. |
| Oracle.SourceMutationEngine.ApplyBatch | src/source/mutation_engine.py:107-160 | The state is the fold of the events in the chosen order, every event is counted under its own outcome, and the error texts of the invalid ones are collected. |
| Oracle.TallyTotal | src/source/mutation_engine.py:132-158 | The four counters add up to the number of events, the invalid count is that of the invalid events, the errors are theirs in order, and nothing changes if nothing is applied. |
| OracleOutcomes.TallyIs | src/source/mutation_engine.py:107-158 | Each counter is a number of positions: invalid events, ids seen before, sequence numbers already reached, and the rest applied. |
| OracleOutcomes.SortedBatch | src/source/mutation_engine.py:121-130 | A sorted batch is a permutation by table, rendered business key and sequence number. |
| Watermark.CursorOrder | src/watermark/models.py:52-67 | Cursors are totally preordered, a missing part being the minimum; equality is exactly two-sided order. |
| Watermark.CursorAbove | src/watermark/models.py:52-67 | One cursor is above another exactly when it has a timestamp and the other has none, or a later timestamp in dictionary order, or the same one and a later key. |
| Watermark.ExtractionIsExact | src/watermark/source_adapter.py:58-85 | For unique non-null keys extraction returns exactly the rows with LOW < cursor <= HIGH, once each, in strictly increasing cursor order. |
| Watermark.CaptureMatchesExtraction | src/watermark/source_adapter.py:36-85 | A freshly captured HIGH above LOW is the cursor of the last row extracted, so the window is not empty. |
| WatermarkSafety.CasSafety | src/watermark/control_store.py:268-355 | In every state of every interleaving: a worker whose expected version is the stored one holds the stored watermark as LOW; there is exactly one SUCCESS audit per version step; SUCCESS windows form a gap-free, overlap-free chain from the initial cursor to the stored watermark. |
| WatermarkSafety.OnlyCommitsMoveTheWatermark | src/watermark/control_store.py:285-318 | Only a successful compare-and-swap moves version and watermark, by one and strictly upwards, from the worker's LOW to its HIGH. |
| WatermarkSafety.LoserCannotCommit | src/watermark/control_store.py:307-318 | Once one run has committed a version no other run ever commits it. |
| WatermarkCompleteness.Completeness | src/watermark/pipeline.py:76-224 | In every reachable state, with crashes, retries, interleavings and source changes above every captured HIGH, a current row at or below the watermark lies unchanged in a landed file of a SUCCESS run exactly when it has a timestamp. |
| WatermarkCompleteness.LandFile | src/watermark/landing.py:42-72 | Writing a landing file keeps every file complete for the rows still in the source, even when a stale worker overwrites another worker's batch. |
| WatermarkDelivery.StepLosesIff | src/watermark/landing.py:42-72 | A step loses a delivered row exactly when it lands, on the batch id of the row's only SUCCESS file, rows that lack it. |
| WatermarkDelivery.OnlyStaleWorkersLose | src/watermark/control_store.py:203-242 | Whoever loses a delivered row is stale: its version has been committed by another run, on whose batch id it lands. |
| WatermarkDelivery.CurrentLandingKeeps | src/watermark/landing.py:42-72 | In every interleaving, the landing of a worker whose version is the stored one keeps every delivered row. |
| WatermarkDelivery.StaleLandingKeepsIff | src/watermark/landing.py:42-72 | A stale landing on the batch id of a SUCCESS run keeps all delivered rows exactly when its rows contain every row of the replaced file that no other SUCCESS file holds. |
| WatermarkDelivery.SequentialKeepsDelivered | src/watermark/pipeline.py:37-224 | With one worker at a time, what has been delivered stays delivered forever. |
| WatermarkDelivery.StaleOverwriteLosesRow | src/watermark/control_store.py:203-242 | A concrete interleaving from the empty store, with fresh source changes only, after which the SUCCESS file has lost a delivered row. |
| WatermarkRecovery.FailureFreezes | src/watermark/control_store.py:203-242 | An attempt with HIGH > LOW that fails or is abandoned freezes its window. |
| WatermarkRecovery.FrozenUntilCommit | src/watermark/control_store.py:203-242 | Through any sequential continuation the window stays frozen until the next commit, and that commit has the same LOW, HIGH and batch id. |
| WatermarkRecovery.RetryCommitsIffRowRemains | src/watermark/pipeline.py:141-214 | A retry without errors commits the frozen window if and only if the source still holds a row in it; otherwise it ends as NO_DATA with the window still frozen. |
| WatermarkRecovery.EmptiedWindowIsFixedPoint | src/watermark/pipeline.py:148-164 | A frozen window that has been emptied is a fixed point: the watermark never moves again and no further row is ever delivered, whatever rows arrive above it. |
| WatermarkRecovery.FixedPointIsReachable | src/watermark/pipeline.py:113-164 | The fixed point is reached from the empty store by one crash and one update. |
| WatermarkPipeline.InMemorySourceAdapter.CaptureSourceHighWatermark | src/watermark/source_adapter.py:36-56 | The loop returns the maximum cursor. |
| WatermarkPipeline.InMemorySourceAdapter.ExtractBoundedWindow | src/watermark/source_adapter.py:58-85 | The loop and sort return the bounded window. |
| WatermarkPipeline.SQLiteWatermarkControlStore.GetRecoverableWindow | src/watermark/control_store.py:203-242 | The attempt returned is the latest one that failed or was abandoned with a captured HIGH, and only if its version, LOW and HIGH > LOW still fit; otherwise none is. |
| WatermarkPipeline.SQLiteWatermarkControlStore.MarkSuperseded | src/watermark/control_store.py:244-266 | A RUNNING record becomes FAILED with its window and row count as they were; nothing else changes. |
| WatermarkRecovery.SupersededStaysRecoverable | src/watermark/control_store.py:203-266 | Superseding an abandoned run takes nothing from recovery: the same attempt, with the same window, is found recoverable before and after. |
| WatermarkOutcomes.ErrorFails | src/watermark/pipeline.py:216-224 | An error at any point before the end marks the run's record FAILED with no rows, its window as it was, and changes nothing else. |
| WatermarkOutcomes.RefusalFails | src/watermark/pipeline.py:179-224 | A run whose landing file is missing or has another number of rows, or that loses the compare-and-swap, changes nothing and ends as FAILED, whatever others do in between. |
| WatermarkOutcomes.CommitSucceeds | src/watermark/control_store.py:268-355 | A commit that wins ends its run as SUCCESS with the number of rows it landed, raises the version by one and moves the watermark to its HIGH. |
| WatermarkOutcomes.RecordsTell | src/watermark/pipeline.py:66-224 | Every record of every reachable state: RUNNING only while its worker is under way; NO_DATA only if its window could hold no row or held none when it was read; SUCCESS only with the number of rows, at least one, that its window held when read and its file when verified; no rows otherwise. |
| WatermarkOutcomes.RunEnds | src/watermark/pipeline.py:66-224 | A run left to itself is over within ten steps, with its record closed. |
| WatermarkOutcomes.FreshRunDelivers | src/watermark/pipeline.py:76-214 | With nothing to recover, a run left to itself lands every source row above the watermark, in its own file, and moves the watermark to the highest cursor; it ends as NO_DATA exactly when there is no such row. |
| WatermarkOutcomes.RecoverableIff | src/watermark/control_store.py:203-242 | Which attempt is recoverable, read off the records in both directions. |
| WatermarkPipeline.SQLiteWatermarkControlStore.CommitSuccessfulRun | src/watermark/control_store.py:268-355 | Version check, watermark and audit change together or not at all, including the rollback when the audit row is missing. |
| WatermarkPipeline.WatermarkPipeline.ResolveWindow | src/watermark/pipeline.py:86-111 | Step 3: adopt the recoverable window and supersede its running owner, or capture a fresh HIGH. |
| WatermarkPipeline.WatermarkPipeline.ExtractWindow | src/watermark/pipeline.py:113-164 | Steps 4 to 6 with both NO_DATA exits. |
| WatermarkPipeline.WatermarkPipeline.LandAndCommit | src/watermark/pipeline.py:170-214 | Steps 8 to 11: land, verify, commit. |
| WatermarkPipeline.WatermarkPipeline.RunTableExtraction | src/watermark/pipeline.py:37-224 | A run that dies or raises after any number of steps leaves exactly the state of the protocol's state machine; an error before the end leaves its record FAILED with no rows and its window as it was, and a run that raises or is left to itself never leaves its record RUNNING. |
| Normalization.Conservation | src/normalization/processor.py:208-314 | Records in equal accepted plus dropped plus quarantined, and the quarantine count splits into the two conflict counts. |
| NormalizationWindows.StagesPartition | src/normalization/processor.py:159-266 | With multiplicity, every delivery leaves through exactly one of the four filters over the window columns; no hypothesis, ties included. |
| NormalizationWindows.FingerprintColumn | src/normalization/processor.py:159-164 | `distinct_fingerprints`, the size of a window's set of fingerprints, exceeds 1 exactly when the id has been delivered with two fingerprints. |
| NormalizationWindows.RowNumberColumn | src/normalization/processor.py:149-173 | `event_id_rn`, the position in the sorted window, is 1 exactly for the first delivery of the id. |
| NormalizationWindows.CollisionColumn | src/normalization/processor.py:221-232 | `seq_collision_count` over the retained rows exceeds 1 exactly when another retained event claims the entity and sequence. |
| NormalizationWindows.OneCopySurvives | src/normalization/processor.py:148-219 | Of a consistently delivered event id exactly one row is retained, whatever ties the delivery order has. |
| NormalizationWindows.StagesAreVerdicts | src/normalization/processor.py:159-266 | The staged filters over the window columns are the verdicts: conflicting id, redundant copy, sequence conflict, accepted. |
| NormalizationWindows.CleanIff | src/normalization/processor.py:159-266 | An event leaves through the last filter exactly when its id has one fingerprint, it is that id's first delivery, and no other such event shares its entity and sequence. |
| NormalizationWindows.StagedConservation | src/normalization/processor.py:208-314 | Records in equal accepted plus dropped plus quarantined, also when ingestion order numbers repeat. |
| NormalizationAnswer.ProcessAnswers | src/normalization/processor.py:73-314 | In terms of the records alone: accepted are exactly the first deliveries, by batch, ingestion batch, file and order, of ids with one content that no other such event rivals at its entity and sequence number, with every column, late flag included, in order of table, key, sequence and id; quarantined are exactly the conflicting deliveries and the rivals, with every column; and each count is that of its records. |
| NormalizationRun.RunConserves | src/normalization/pipeline.py:55-159 | Raw records seen, one per non-blank line, are accepted, dropped or quarantined, malformed and invalid ones included. |
| NormalizationOrder.ReadingOrder | src/normalization/reader.py:40-79 | Ingestion order numbers are strictly increasing, and within one file follow its lines. |
| NormalizationOrder.ReadUniqueOrders | src/normalization/reader.py:40-79 | Whatever the file ids, no two records share an ingestion order number. |
| NormalizationOrder.RecordOrderIrrelevant | src/normalization/processor.py:148-219 | Permuting the records changes no accepted list, no count, and not the multiset of quarantined rows. |
| NormalizationOrder.NumberingIrrelevant | src/normalization/processor.py:150-155 | Renumbering the records by their lines changes nothing in the outcome. |
| NormalizationOrder.FileOrderIrrelevant | src/normalization/pipeline.py:55-86 | Reading files with distinct logical ids in another order gives the same outcome although every record is renumbered. |
| NormalizationRun.RunIgnoresFileOrder | src/normalization/pipeline.py:84-159 | The whole run, sorted quarantine list, tables seen, sequence ranges and all other metrics included, is unchanged by the order of the files; tied quarantine rows keep their line order because the sort is stable. |
| NormalizationRun.SequenceRanges | src/normalization/pipeline.py:126-133 | The sequence ranges of the metrics: each table of the accepted list has its attained minimum and maximum, no other table has any. |
| NormalizationRunAnswer.RecordsAre | src/normalization/reader.py:30-92 | The records read are exactly the lines that parse, each with its batch, file, line and number over all files. |
| NormalizationRunAnswer.MalformedAre | src/normalization/reader.py:30-92 | The lines quarantined by the reader are exactly those that are neither blank nor JSON, with every column. |
| NormalizationRunAnswer.RunIsAnswered | src/normalization/pipeline.py:42-159 | A whole run in terms of its files: which records are valid, the accepted list, the quarantine with its codes and its order, and every metric. |
| NormalizationContract.AcceptedIsUnique | src/normalization/processor.py:265-274 | Accepted events have distinct ids and at most one event per entity and sequence. |
| NormalizationContract.EntitiesAreContiguous | src/normalization/processor.py:268-274 | Each entity's accepted events are contiguous and strictly ascending in sequence. |
| NormalizationContract.NormalizedNeverAmbiguous | src/merge/pipeline.py:232-242 | On a normalized batch, whatever the ledger holds, no run ends in the ambiguity or unknown-table error. |
| NormalizationContract.NormalizedIsWellFormed | src/normalization/processor.py:265-304 | Normalized batches meet the hypotheses of every theorem about the MERGE. |
| NormalizationContract.NormalizationFeedsMerge | src/normalization/pipeline.py:55-86 | Composition: processing sets accepted by whole normalization runs over any files, under rules that admit exact business keys only, meet the hypotheses of the MERGE theorems. |
| NormalizationContract.EnrichedIsNamed | src/normalization/fingerprint.py:50-52 | Every accepted event addresses a known table and carries the entity name of its own table and canonical key. |
| NormalizationManifest.ComputeProcessingId | src/normalization/fingerprint.py:91-114 | The loop over the files and the sorted lines, one per logical id in ascending order with the digest of the last file that has it, give the processing id. |
| NormalizationManifest.IdIffManifest | src/normalization/fingerprint.py:91-114 | Without collisions, two lists of files have one processing id exactly when their manifests are equal. |
| NormalizationManifest.IdIffFiles | src/normalization/fingerprint.py:91-114 | For files with distinct logical ids, one processing id means the same files, in whatever order, and the other way round. |
| NormalizationManifest.SameIdSameRun | src/normalization/fingerprint.py:91-114 | Then one processing id names one result: accepted list, metrics and quarantine. |
| NormalizationManifest.RunsFormCatalogue | src/normalization/fingerprint.py:91-114 | Any normalization runs form the catalogue of the MERGE theorems: every id names the one list its runs accepted, and the lists are well-formed. |
| NormalizationManifest.LastFileCounts | src/normalization/fingerprint.py:104-109 | Of two files with one logical id only the last one counts in the id, and their order changes the id exactly when they differ. |
| NormalizationManifest.ShadowedEventIsLost | src/normalization/fingerprint.py:104-109 | So one id can name two accepted lists: a file with any acceptable event, shadowed by an empty one. |
| Cdc.EntityDeterminesTableAndKey | src/normalization/fingerprint.py:50-52 | Table and canonical key can be read back from an entity name. |
| NormalizationPipeline.ReadRawCdcFiles | src/normalization/reader.py:30-92 | The counter and the two lists over all files. |
| NormalizationPipeline.LateBoundaries | src/normalization/processor.py:73-95 | One running maximum gives, for each batch, the maximum timestamp over all smaller batches. |
| NormalizationPipeline.BelowMaximumIsLate | src/normalization/processor.py:105-112 | A record is below that maximum exactly when some strictly smaller batch holds a strictly later timestamp. |
| NormalizationPipeline.SparkCDCNormalizationProcessor.EnrichRecords | src/normalization/processor.py:97-142 | The enrichment loop, with the quantified definition of late arrival. |
| NormalizationPipeline.SparkCDCNormalizationProcessor.Process | src/normalization/processor.py:61-314 | The window columns and staged filters, in the source's order, give the staged result for any input; when ingestion order numbers are distinct, as the reader makes them, the whole answer in terms of the records (`NormalizationAnswer.ProcessAnswers`). |
| NormalizationPipeline.Validate | src/normalization/pipeline.py:57-76 | The validation split, in order, with the rule each rejected record breaks. |
| NormalizationPipeline.SequencesByTable | src/normalization/pipeline.py:126-133 | The loop that computes both sequence ranges. |
| NormalizationPipeline.CDCNormalizationPipeline.RunPipeline | src/normalization/pipeline.py:42-159 | The run computes the specified result, and with it the whole answer in terms of the files (`NormalizationRunAnswer.RunIsAnswered`). |
| Cdf.ExactlyOnce | src/cdf/pipeline.py:93-160 | In every reachable state, mid-crash or not, the archive holds each change row of versions [cdf_start, last_processed] exactly once, no row twice, and nothing from before cdf_start. |
| Cdf.ReachableInv | src/cdf/pipeline.py:93-160 | The archive is always exactly the feed from the registration up to some version at or past the checkpoint. |
| Cdf.ManyWindowsAreOne | src/cdf/pipeline.py:93-160 | A bounded consumption leaves the archive of one single window with the same bound, the latest version that exists and that the target allows, however many windows, crashes and retries came before, exactly when nothing past the bound was archived, and the same checkpoint exactly when the checkpoint was not past it. |
| Cdf.CrashThenRetry | src/cdf/pipeline.py:136-149 | A crash between archive write and checkpoint, then a retry, equals an uninterrupted consumption. |
| Cdf.WriteExtends | src/cdf/archive.py:64-107 | Writing a window that overlaps the archive appends exactly the part beyond it. |
| Cdf.ConsumptionIsBounded | src/cdf/pipeline.py:93-160 | A consumption reads up to the smaller of the target version and the source's version: the checkpoint ends there, unless nothing lies up to there or the process dies first, every new archive entry lies between, and no row in between is missing; no hypothesis on the feed. |
| Cdf.CheckpointMonotone | src/cdf/state_store.py:161-206 | No step moves a checkpoint backwards or changes a registration's start. |
| CdfPipeline.CDFStateStore.RegisterSource | src/cdf/state_store.py:51-112 | A new source starts one version before its enabling version; an existing one is returned or refused; negative versions are refused. |
| CdfPipeline.CDFStateStore.ListSources | src/cdf/state_store.py:138-159 | Every registered table once, in alphabetical order. |
| CdfPipeline.CDFStateStore.AdvanceCheckpoint | src/cdf/state_store.py:161-206 | Forward or not at all, with both errors. |
| CdfPipeline.CDFArchiveStore.WriteChanges | src/cdf/archive.py:64-107 | First write as is, later writes append exactly the rows whose change ids are new; returns the growth; no other archive changes. |
| CdfPipeline.CDFDownstreamPipeline.RegisterTable | src/cdf/pipeline.py:36-69 | Turns the change feed on if it was off, a commit of its own, then registers the table at its current version, one version before it as the checkpoint; an existing registration is returned or refused; every other table is left alone. |
| CdfPipeline.CDFDownstreamPipeline.ConsumeTable | src/cdf/pipeline.py:71-160 | One bounded consumption moves the checkpoint to the smaller of target and current version, or leaves it if there is nothing up to there or the process dies first, archives exactly the versions in between, reports its window, row count and growth, and leaves every other table alone. |
| CdfPipeline.CDFDownstreamPipeline.ConsumeAll | src/cdf/pipeline.py:162-171 | Every registered table is consumed once, in alphabetical order, with its own report; all other tables are left alone. |

## Left out

- WatermarkPipeline.WatermarkPipeline.LandAndCommit: reads its own file back with nobody else about, so the branch for a
  missing file or a wrong row count is only in the state machine (`Watermark.Advanced`), where other workers can cause it.
- NormalizationPipeline.SparkCDCNormalizationProcessor.Process: agrees with the verdicts only for distinct ingestion order
  numbers, which the reader guarantees (`NormalizationOrder.ReadUniqueOrders`); with equal ones Spark would pick an
  arbitrary first row, the model the one that came first.
- Quarantine reasons other than the line number of a malformed line, run ids, timestamps of runs, and audit columns that
  only repeat other columns (landing path, error message, completion time).
- `started_at` in the watermark audits: attempts are numbered in start order.
- Other tables of the watermark control store: every statement selects one table.
- Nested transactions of the control store: each operation is one outermost transaction, rolled back as a whole.
- The lazily inserted watermark row: an absent row reads as version 1 with the initial cursor.
- Type coercion into the Delta schemas and the null checks of key columns: a row is its image on the schema's columns,
  absent columns being nulls. The reconciliation report's rendering of values as text and its row counts.
- Row counts returned by the bootstrap, snapshot lists that name one primary key twice, and dropping metadata columns on
  read.
- Rows of a ledger with equal event ids, which `run` cannot produce from normalized input: the ledger is a map by id.
- White space stripping of the processing id and the rendering of sorted business key items are parameters.
- Parsing of paths, JSON, hashes and clocks, and the rules of the two validators beyond the fields used here.
- `commit_watermark_checkpoint`, `replay_range`, `read_target_version` and the failure hooks: unused by the pipelines, or
  a special case of the crash points.
- Generators, serialization, Lakeflow declarations, SQL and CI.
