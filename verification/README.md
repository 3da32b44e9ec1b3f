# A verified model of the CSV collector's data path

The collector finds dated CSV files, parses them in batches, writes the rows to an idempotent sink and keeps a ledger of what is
done. This project models that path and the small compilers and ledgers around it, and proves what they promise for every input,
every run and every interleaving.

| module | file | models |
|---|---|---|
| `Model` | `Model.dfy` | business dates, collection keys, file identities |
| `State`, `Snapshots` | `State.dfy`, `Snapshot.dfy` | the collection state, its saved form, the state that saves itself |
| `Storage` | `MemoryStore.dfy` | the idempotent row store |
| `Planning` | `Planner.dfy` | which dates a trigger attempts |
| `Protocol` | `Protocol.dfy` | the collection protocol as a state machine: failed saves and crashes anywhere |
| `Collector` | `Executor.dfy` | the executor, method by method, shown to take runs of that machine |
| `FileKeys`, `FileKeyLimits`, `TableWriter` | `FileKey.dfy`, `FileKeyLimits.dfy`, `TableWriter.dfy` | the integer file key under concurrent transactions, what it can be relied on for, and the write that uses it |
| `HeaderNames`, `MergedColumns`, `AutoColumns`, `RestartColumns` | `HeaderNames.dfy`, `MergedColumns.dfy`, `AutoColumns.dfy`, `RestartColumns.dfy` | columns grown from headers: derived, merged, filled, and grown anew after a restart |
| `MultiRow` | `MultiRow.dfy` | cutting into batches and statements, bind numbers |
| `Templates`, `Matching` | `Template.dfy`, `Matcher.dfy` | the path-template compiler and the backtracking matcher |
| `DateTemplates` | `DateTemplate.dfy` | date tokens in file names and paths |
| `Parallelism` | `Parallelism.dfy` | the gate, the in-flight ledger, handlers and workers |
| `DbPool` | `DbPool.dfy` | shared connection pools and the sinks that hold them |
| `Toml` | `Toml.dfy` | the TOML value printer, and a reader for what it prints |
| `Redaction` | `Redact.dfy` | redacted copies and their restoration, on objects in memory |
| `Text`, `Wrappers` | `Text.dfy`, `Wrappers.dfy` | decimal printing, counting, options and results |

## How to read the model

- **State machines.** `Protocol`, `FileKeys`, `Parallelism` and `DbPool` are machines of small steps. A run is a sequence of
  enabled steps; theorems are about every run. The classes beside them (`Collector.Services`, `TableWriter.Database`,
  `DbPool.Pools`) hold the same state in fields, and each of their methods is proved to take steps of the machine; between two
  steps of a transaction or a sink, the others may take any number of theirs (`Interfere`).
- **The outside world.** What the source lists, which files open and where their reading breaks, which hosts and databases answer
  and which schema changes go through are parameters (`Outside`, `Link`, and flags), so a theorem holds whatever they are, and a
  failure can be traced to its cause. Cancelled contexts and refused writes, saves, locks and commits may occur at any time: they
  are nondeterministic choices that are counted (`refusals`) or recorded (`refused`). A refusal excuses only the file and the date
  that met it (`OwnTrouble`, `EachDateCollects`). What must not fail at all is stated for a calm world (`calm`, which no method can
  change), where none of them occurs. Clock readings are arbitrary, but a pass reads no time before it was
  planned, and the theorems on deferred dates and on recovery ask that a later pass reads no earlier time. A context is a flag
  that may become set at any time and stays set.
- **Text.** In `Templates`, `Matching` and `DateTemplates` a character stands for a byte, as Go indexes strings there; in `Toml`
  it stands for a rune.
- **Assumptions of the protocol.** The content of a file is a function of its identity text (`Read` refuses a file that changed,
  app/source/source.go:426-445). Rows are numbered from 1. The row store keeps what it accepted across a crash, as a database
  does, and identifies a row by file and number, as the in-memory one does; the table sinks identify it by source and date as
  well, so that there a file listed under two dates is stored once for each. One pass runs at a time on one state, as one worker
  serves one state file (components/sourceunit/component.go:293-322); the files of one date may be collected concurrently.
- **Assumptions elsewhere.** A handler withdrawn before its worker drains (`Parallelism.ExitLeavesNothing` only), lower-casing
  that leaves digits alone (`MergedColumns`). `TableWriter` writes with at most one open transaction per file; `FileKeys` and
  `FileKeyLimits` treat every configuration. Oracle binds its `:n` by position; a row that meets an uncommitted row of the same
  key waits for it. A chunk repeats no row number, since the parser numbers the rows of a file: where the insert is a MERGE a
  repeated number would fail the statement, while `Write` keeps the first.

## What the code does not guarantee

Where a promise fails, the project keeps the code as it is, shows a run or an input on which it fails, and proves when it holds.

- A lease, the finality of a success and the mark of a done file survive a crash only if they reached the disk, by their own save
  or any later one, since every save writes the whole ledger: `UnsavedGrantIsGivenAgain`, `UnsavedSuccessIsRepeated`.
  `LeaseKeptIff`, `FinalIff`, `DoneFileIsNotRestarted` and `CanRestartIff` give the exact conditions.
- The statement that puts a key on a registry row without one numbers its placeholders from four and is given four arguments
  (app/storage/table.go:814-816). Where placeholders name their argument (PostgreSQL, SQL Server) it never runs, so such a file is
  never written (`NumberedBackfillFails`); `ResolvableIff` says exactly which files can get a key.
- A statement for SQL Server has up to 500 rows (app/storage/multirow.go:31-36), and SQL Server takes 2100 parameters, of which
  the driver's call needs two itself. A full batch is therefore refused, on every retry, for every table of five columns or more
  (`DefaultBatchIsRefused`); `SqlServerFits` and `StatementsFitIff` say exactly which batches are accepted, `OthersFit` that the
  other dialects accept all whose rows fit.
- Two transactions on one file lose rows from the join where the new key is not read back (`RaceLosesRows`), and where a row
  without a key is backfilled twice; there the second key replaces the first (`BackfillRaceChangesKey`). `RefinesIff` and
  `KeysStayIff` say in exactly which configurations the join stands for the table it replaces, and keys never change.
- A job whose handler outlives the worker stays queued for ever, and a wait for it never ends: `LateHandlerStrandsAJob`,
  `StrandedForever`; `CanStrandIff` says exactly when that can happen.
- Occurrences of a column are counted on the cleaned name and looked up on the raw one, so a padded header field can lose its
  cell: `PaddedNameLosesCell`; the exact condition is `StoredIffCountsAgree`.
- Derived columns alone may collide: `DerivedAloneCollides`, exactly when `DerivedDistinctIff` says; merging separates them,
  `MergeKeeps`.
- The list of automatic columns is not kept across a restart while the table keeps its columns, so that fields of two spellings,
  kept apart by one process, share a column when two processes read them (`RestartMixesColumns`; where the catalogue tells the
  spellings apart the column is not added and the insert fails). `StableIff` says exactly which headers are safe.
- Nothing keeps an automatic column from being named like a key column, and then the insert names it twice (`KeyNameCollides`,
  exactly when `InsertNamesDistinctIff` says).
- The TOML printer leaves DEL as it is, and then what it prints is not TOML: `ValueIsRead` says exactly when it can be read back.
- A path whose first date token does not start a segment, or whose static root is only separators, is not rejoined as it was:
  `JoinedIffSegmentStart` gives the exact condition.
- `TableStorage.EnsureConnected` stays connected when the schema cannot be ensured, while `SQLStore` lets go; ownership holds for
  both.

## Model

| member | source | states |
|---|---|---|
| `Protocol.ExactlyOnce` | app/collector/executor.go:344-474 | after any run with any failures and crashes, a file marked done has each of its records in exactly one row and no other row |
| `Protocol.MarkedIsStored` | app/collector/executor.go:344-474 | in every sound world a marked file has exactly its records stored |
| `Protocol.NeverTwice` | app/storage/memory.go:68-114 | at any time the rows of a file are records of it, none twice |
| `Protocol.StepKeepsInv` | app/collector/executor.go:190-335 | every step keeps: ledgers sound, done files stored in full, rows conforming, the active record running |
| `Protocol.RunKeepsInv` | app/collector/executor.go:93-186 | that invariant holds after every run |
| `Protocol.RowsStay` | app/storage/memory.go:68-114 | no step of a run removes or changes a stored row |
| `Protocol.LedgerAlwaysSound` | app/state/state.go:85-245 | failures only under running or failed records, files and failures only under recorded keys, no leftover status, in every state reached |
| `Protocol.NothingToMigrate` | app/state/state.go:545-568 | a restart reads exactly what was saved: sound ledgers need no migration |
| `Protocol.LeaseApart` | app/state/state.go:85-107 | two grants with no end or drop between are a lease apart, if any save came before the first crash or the ledger on disk refused the record already |
| `Protocol.LeaseKeptIff` | app/state/state.go:570-593 | exactly when: over any run the lease is kept if and only if that is so |
| `Protocol.GuardsIff` | app/state/state.go:85-107 | a ledger refuses a record for a lease exactly when it is running since then or later, or succeeded in batch mode |
| `Protocol.ForgottenGrant` | app/state/state.go:545-593 | after a crash before any save a grant is given again exactly when the ledger on disk before it allows that |
| `Protocol.UnsavedIsForgotten` | app/state/state.go:545-583 | a crash before any save brings back the ledger on disk, whatever was done in memory |
| `Protocol.UnsavedGrantIsGivenAgain` | app/state/state.go:585-593 | a run in which an unsaved grant is given again at once |
| `Protocol.SucceededIsFinal` | app/state/state.go:85-107 | in batch mode nothing is granted after a success until a drop, if any save came before the first crash or the record on disk was a success already |
| `Protocol.FinalIff` | app/state/state.go:570-602 | exactly when: over any run the success is final if and only if that is so |
| `Protocol.UnsavedSuccessIsRepeated` | app/state/state.go:595-602 | a run in which an unsaved success is collected again |
| `Protocol.DoneFileIsNotRestarted` | app/state/state.go:184-196 | until a drop a done file stays marked exactly when the mark was on disk or any save came before the first crash, and while it is marked it is not started again |
| `Protocol.CanRestartIff` | app/state/state.go:184-221 | exactly when: without a drop some continuation starts a done file again if and only if neither its mark nor, in batch mode, a success of the record is on disk |
| `State.MemoryState.Begin` | app/state/state.go:85-107 | granted exactly when the record is new, failed, past its lease, or succeeded in append mode; then running from now |
| `State.BegunReads` | app/state/state.go:85-107 | a granted record is work, and can be granted again, exactly once its lease is over; its files and failures are kept |
| `State.MemoryState.End` | app/state/state.go:109-134 | closes a begun record, success clears its failures; refused when cancelled or not begun |
| `State.EndedReads` | app/state/state.go:109-134 | an ended record bears status, note and end; it is work again exactly when it failed or waits; done files stay done and only a success forgets failures |
| `State.MemoryState.Drop` | app/state/state.go:171-182 | forgets record, files and failures of a key |
| `State.DroppedReads` | app/state/state.go:171-182 | a dropped record reads as one never begun |
| `State.MemoryState.FileCompleted` | app/state/state.go:184-196 | true exactly for a recorded key with that identity among its done files |
| `State.MemoryState.MarkFileCompleted` | app/state/state.go:198-221 | files the record and retires the failures on its path |
| `State.DoneIffSameFile` | app/state/state.go:184-221 | exactly when: marking a discovered file done makes another one done if and only if it has the same path and sum, or without sums the same size and modification time |
| `State.ChangedIsNotDone` | app/state/state.go:184-221 | a file without a sum whose size or time changed is done only if it was before |
| `State.OnlyThatVersionIsDone` | app/state/state.go:184-221 | marking a file makes it done and leaves files of other identities and keys as they were |
| `State.CompletingRetires` | app/state/state.go:198-221 | completing a file forgets the failures on its path and no others |
| `State.MemoryState.MarkFileFailed` | app/state/state.go:226-245 | files or updates the failure, one more attempt |
| `State.FailuresAreCounted` | app/state/state.go:226-245 | after any number of failures of a file all are counted and the last is on record; other files' failures stay |
| `State.MemoryState.LastCompleted` | app/state/state.go:340-359 | the latest succeeded date up to a bound, or none if there is none |
| `State.MemoryState.StatusOf` | app/state/state.go:361-369 | the recorded status |
| `State.MemoryState.ListIncomplete` | app/state/state.go:371-403 | exactly the unfinished dates up to a bound whose lease is over, oldest first, each once |
| `State.InsertKeepsOrder` | app/state/state.go:395-402 | inserting by date keeps strict date order and adds just the key |
| `State.RetireFailures` | app/state/state.go:209-218 | drops exactly the failures on the path |
| `State.MemoryState.MigratePreInstance` | app/state/state.go:146-166 | migrates the whole ledger whatever order it is visited in; counts are zero exactly when nothing changed |
| `State.MigrationSettles` | app/state/state.go:136-166 | migration is idempotent and leaves no skipped or pending record and no failure on a succeeded one |
| `State.MigrationKeepsWork` | app/state/state.go:136-166 | loading loses and adds no work: the same dates are incomplete, succeeded, and to be had |
| `State.MigrationKeepsRecords` | app/state/state.go:136-166 | a pending record stays as failed with all else, a skipped one goes with its files and failures, others stay |
| `Snapshots.TakeSnapshot` | app/state/state.go:447-503 | lists every entry and nothing else, in some order |
| `Snapshots.Restore` | app/state/state.go:505-535 | rebuilds the state entry by entry from a snapshot |
| `Snapshots.RestoreSnapshot` | app/state/state.go:447-535 | restoring any listing of a ledger gives it back, up to empty inner maps |
| `Snapshots.CompactReadsTheSame` | app/state/state.go:505-535 | those empty maps are not observable |
| `Snapshots.RestoredAgrees` | app/state/state.go:505-535 | whatever a state file holds, loading files every record under its own key and identity |
| `Snapshots.FileState.Open` | app/state/state.go:545-568 | loads and settles the file; rewrites it only if that changed something; refused exactly when it cannot be read or a needed rewrite cannot be made |
| `Snapshots.FileState.Save` | app/state/state.go:570-583 | replaces the saved ledger or leaves it as it was |
| `Snapshots.FileState.Begin` | app/state/state.go:585-593 | grants in memory first; a failed save is reported and leaves the file behind |
| `Snapshots.FileState.End` | app/state/state.go:595-602 | the ended ledger is on disk exactly when no error is returned |
| `Snapshots.FileState.Drop` | app/state/state.go:604-612 | the same for a drop |
| `Snapshots.FileState.SetAppendMode` | app/state/state.go:614-619 | changes the mode, saves best effort |
| `Snapshots.FileState.MarkFileCompleted` | app/state/state.go:621-628 | the same for a done file |
| `Snapshots.FileState.MarkFileFailed` | app/state/state.go:630-637 | the same for a failure |
| `Storage.MemoryStore.Write` | app/storage/memory.go:68-114 | all or nothing, and nothing exactly when cancelled, refused by the hook or past the failure limit; numbers already present are kept; every record counted as stored or skipped |
| `Storage.StoredOnce` | app/storage/memory.go:92-102 | storing only appends, keeps numbers distinct, leaves every offered number present and adds nothing else |
| `Storage.FirstIsStored` | app/storage/memory.go:92-102 | the first record offered under a free number is the one stored under it |
| `Storage.WriteIsIdempotent` | app/storage/memory.go:68-114 | writing the same records of a file again changes nothing |
| `Storage.MemoryStore.RowsForFile` | app/storage/memory.go:116-120 | the rows of one file |
| `Planning.Plan` | app/recovery/planner.go:25-77 | without repeats, exactly the recorded incomplete dates up to the target and the dates owed: after the last success, up to the target, and fewer than CatchupDays before it; fails exactly when the context is cancelled by the second reading of the state |
| `Planning.GapStart` | app/recovery/planner.go:54-70 | the first day of the window, and whether there is one |
| `Planning.WindowSize` | app/recovery/planner.go:54-76 | at most CatchupDays synthesized dates, none without a success when catch-up is off, all after the last success |
| `Planning.WindowIsOwed` | app/recovery/planner.go:54-76 | exactly when: a date is in the synthesized window if and only if it lies after the last success, not after the target, and fewer than CatchupDays before it; without catch-up a first success is needed |
| `Planning.PlanIsOwed` | app/recovery/planner.go:25-77 | so a plan lists exactly what is incomplete or owed |
| `Planning.DeferredIsPlannedAgain` | app/collector/executor.go:103-178 | a planned date left untouched while earlier planned ones were attempted is planned again |
| `Collector.ReachedIsRun` | app/collector/executor.go:93-186 | being in every closed set of worlds is the same as being reached by a run |
| `Collector.Flush` | app/collector/executor.go:407-419 | the buffered records go out as the next numbered batch, or nothing changes; in a calm world they go out |
| `Collector.StreamRows` | app/collector/executor.go:403-450 | the batches written are those of a prefix of the rows, full but for the last; success means the whole of a well-formed file; in a calm world all that can be read is written, and success is exactly a readable well-formed file |
| `Collector.MarkDone` | app/collector/executor.go:464-473 | marks a fully stored file; an unsaved mark counts as failed, which a calm world excludes |
| `Collector.DeliveredCarries` | app/collector/executor.go:403-419 | the batches written for the first n records carry n records |
| `Collector.DeliveredAre` | app/collector/executor.go:403-438 | batches are numbered from one, bear the header, and are of the batch size but for the last |
| `Collector.CollectFile` | app/collector/executor.go:344-474 | writes exactly the batches of the first reported rows, whose sizes sum to the count; succeeds only on a healthy or already done file, and leaves it marked; a healthy file that was not done fails only for a refusal of its own; a failure is recorded unless cancelled |
| `Collector.CollectFiles` | app/collector/executor.go:261-279 | every file in turn, only a cancelled context stops; whatever befell the files before it, a healthy file fails only for a refusal of its own; the batches and records are those of the files taken |
| `Collector.OwnTrouble` | app/collector/executor.go:261-279 | a healthy file that failed met a refusal between its own start and its own end |
| `Collector.CountedIffWritten` | app/collector/executor.go:261-279 | exactly when: the records counted are those the batches carry if and only if no failed file wrote anything |
| `Collector.CollectGranted` | app/collector/executor.go:249-335 | success stands for every listed file; the record ends as the result says unless the context is cancelled or a save refused; a healthy file fails only for a refusal of its own; what was written are the batches of the files |
| `Collector.CollectListed` | app/collector/executor.go:239-335 | collects under a granted record only; a refused grant changes nothing, and comes only while the record runs within its lease or is done |
| `Collector.CollectOne` | app/collector/executor.go:190-335 | the ledger after each answer of the source: dropped, untouched, failed, or collected; a listed date is held back only while its record runs within its lease or is done; nothing changes under other keys |
| `Collector.SortPass` | app/collector/executor.go:109-138 | the planned dates from since on plus the target, in date order |
| `Collector.TakeDates` | app/collector/executor.go:149-186 | dates in order; stops only on a cancelled context or before a date whose host is unreachable, never before the first; only the last date taken may find the context cancelled; results and joined errors are those of the dates taken |
| `Collector.ReportedIffFailed` | app/collector/executor.go:149-186 | a date is joined into the error exactly when its collection failed |
| `Collector.PlanPass` | app/collector/executor.go:93-138 | the sorted pass, empty exactly for a target before since; fails exactly on a cancelled context |
| `Collector.PassIsOwed` | app/collector/executor.go:93-138 | the dates of a pass are the target and, from since on, the incomplete dates and the owed ones |
| `Collector.Handle` | app/collector/executor.go:93-186 | attempts a prefix of the sorted pass, each date with the outcome its listing demands and batches of the configured size, or 1000, touching only those keys; at every date without a refusal of its own all that was due is marked and stored exactly; the error is the cancellation or joins the failures; in a calm world with reachable hosts it takes the whole plan, and every healthy file listed for a planned date that can be had, or for an unfinished record whose lease is over, ends up marked with exactly its records stored; nothing fails that is well |
| `Collector.DueIsCollected` | app/collector/executor.go:149-335 | a healthy file listed for a date whose record is new, failed or has run for a lease is marked at the end of the pass, with exactly its records stored, if its date met no refusal itself, whatever befell the others |
| `Collector.EachDateCollects` | app/collector/executor.go:149-335 | so in every pass each date without trouble of its own collects all that was due |
| `Collector.LeftOverIsPlanned` | app/recovery/planner.go:25-43 | an unfinished record of the source up to the target whose lease is over is in the plan |
| `Collector.LeftOversAreCollected` | app/collector/executor.go:93-186 | so a pass that collects what is due collects all that was left unfinished |
| `Collector.NothingFails` | app/collector/executor.go:149-186 | without trouble a pass over healthy listings returns no error |
| `Collector.OnlyItsDate` | app/collector/executor.go:149-178 | until a date is taken, and after it was, nothing changes in the ledger under its key |
| `Collector.DeferredDatesReturn` | app/collector/executor.go:143-178 | dates left unattempted are in every later pass for the same target, however the attempted ones ended |
| `Collector.Restart` | app/state/state.go:545-568 | a new process continues the run from the saved ledger over the same rows, and starts if it can read the file |
| `Collector.Recover` | app/state/state.go:545-568 | a process may die at any point; the next one, a lease later and untroubled, leaves every healthy listed file of what the saved ledger shows as unfinished marked, with exactly its records stored |
| `FileKeys.StepKeepsKeys` | app/storage/table.go:797-958 | every statement keeps counter, locks and keys sound, however many transactions write one file |
| `FileKeys.StepKeepsRows` | app/storage/table.go:797-1120 | where it is safe, every statement keeps data and registry in step with the four-column table |
| `FileKeys.KeysAreSafe` | app/storage/table.go:797-958 | in every configuration and every state reached the counter is at least every key and keys are pairwise distinct |
| `FileKeys.UniqueIndexNeverFires` | app/storage/table.go:792-796 | registering an issued key never meets the unique index, whatever is open beside it |
| `FileKeys.LegacyStays` | app/storage/table.go:1092-1119 | no step of a run removes or changes a stored row |
| `FileKeys.JoinRefinesLegacy` | app/storage/table.go:1144-1186 | where it is safe, after any interleaving the join gives exactly the rows of the four-column table, and every data row joins one file |
| `FileKeys.JoinIsLegacy` | app/storage/table.go:1180-1186 | the same for one sound database |
| `FileKeys.CommitKeepsRows` | app/storage/table.go:1092-1119 | a commit adds the same rows to both tables |
| `FileKeys.InsertNeverWaits` | app/storage/table.go:1092-1110 | with one transaction per file no insert waits for a row of another |
| `FileKeys.SeededCounterIsThere` | app/storage/table.go:882-895 | a counter row that was seeded is there when the statement is repeated, so the second advance always issues |
| `FileKeys.BackfillBinds` | app/storage/table.go:814-816 | the backfill, numbered from four with four arguments, binds exactly where placeholders go by position |
| `FileKeyLimits.RefinesIff` | app/storage/table.go:797-850 | exactly when: the join is the four-column table in all runs if and only if a file is written by one transaction at a time, or keys are read back and backfills cannot bind |
| `FileKeyLimits.KeyNeverChanges` | app/storage/table.go:797-850 | a committed key of a file never changes, with one transaction per file or numbered binds |
| `FileKeyLimits.KeysStayIff` | app/storage/table.go:797-850 | exactly when: and in no other configuration |
| `FileKeyLimits.ResolvableIff` | app/storage/table.go:797-850 | exactly when: the key of a file can be resolved if and only if the dialect binds by position or its registry row is absent or keyed |
| `FileKeyLimits.NumberedBackfillFails` | app/storage/table.go:807-819 | a keyless registry row whose file is never written where binds are numbered |
| `FileKeyLimits.StuckForever` | app/storage/table.go:807-819 | such a file gets no key and no row on any run |
| `FileKeyLimits.RaceLosesRows` | app/storage/table.go:836-844 | two open transactions on one new file lose rows where the key is not read back |
| `FileKeyLimits.BackfillRaceChangesKey` | app/storage/table.go:807-819 | two open transactions on one keyless registry row change its key and lose rows where binds go by position |
| `FileKeyLimits.ByDialect` | app/storage/table.go:814-850 | the same conditions dialect by dialect |
| `TableWriter.FileKeyBaseline` | app/storage/table.go:949-958 | the largest key in use, 0 without keys |
| `TableWriter.SeedFileKeyCounter` | app/storage/table.go:901-913 | the counter row is there afterwards, or a lock was not granted, which a calm database excludes |
| `TableWriter.AdvanceCounter` | app/storage/table.go:857-883 | the next key with the counter held at it, or the counter row is missing; nothing else in a calm database |
| `TableWriter.NextFileKey` | app/storage/table.go:854-895 | a fresh key, seeding the counter at most once; always in a calm database |
| `TableWriter.ResolveFileKey` | app/storage/table.go:797-850 | the file's own key if it has one, else a new one; in a calm database there is none exactly for a keyless registry row under numbered binds |
| `TableWriter.NewRowsOf` | app/storage/multirow.go:49-87 | row by row, the first row of a number not yet present is inserted |
| `TableWriter.Write` | app/storage/table.go:984-1120 | on success the join shows the file's old rows and the first row of each new number, on failure the old rows only; the tables are reached by a run; in a calm database it succeeds exactly when not cancelled, mappable, not a keyless row under numbered binds, and within the binds its dialect takes |
| `TableWriter.OthersKeepMine` | app/storage/table.go:850-895 | what other transactions do leaves a transaction, the registry row and the rows of its file as they are |
| `TableWriter.OthersLetGo` | app/storage/table.go:850-895 | the other transactions can always come to hold no lock |
| `HeaderNames.DeriveColumns` | app/storage/table.go:228-263 | one column per non-blank field, named by its occurrence |
| `HeaderNames.CleanIff` | app/storage/table.go:233-246 | the name of a field is what is left without control characters and then without the space around it |
| `HeaderNames.DropControlJoins` | app/storage/table.go:237-242 | control characters are dropped wherever they stand, and nothing else |
| `HeaderNames.DerivedByRule` | app/storage/table.go:244-263 | the first of a name bears it, a repeated one the first suffix beyond its count that no column on its left has |
| `HeaderNames.DerivedAloneCollides` | app/storage/table.go:249-259 | a header whose derived columns share a name |
| `HeaderNames.DerivedDistinctIff` | app/storage/table.go:225-263 | exactly when: derived names are distinct if and only if no field that is the first of its name finds it already given |
| `HeaderNames.FreeSuffix` | app/storage/table.go:252-256 | the smallest free suffix; the search ends because each failure uses up a taken name |
| `MergedColumns.MergeDerivedCols` | app/storage/table.go:292-321 | computes the merge and reports whether it grew |
| `MergedColumns.MergeKeeps` | app/storage/table.go:292-321 | old columns stay a prefix, every derived key is covered once, names stay distinct ignoring case |
| `MergedColumns.AddedByRule` | app/storage/table.go:292-321 | every added column was derived, and keeps its name where that is free, else takes the first free suffix from two beyond its count |
| `MergedColumns.MergeIdempotent` | app/storage/table.go:292-321 | merging the same header again changes nothing |
| `MergedColumns.KeyTextInjective` | app/storage/table.go:294-303 | the text a column is indexed by tells (name, occurrence) pairs apart |
| `AutoColumns.GroupByHeader` | app/storage/table.go:727-750 | the values of each header name in order, ragged rows padded |
| `AutoColumns.MapRow` | app/storage/table.go:727-784 | fails exactly when a column is refused, on the first such one: required and without value, or typed and not parsing; else each cell behind the key columns is NULL for no value and otherwise the value of its metadata name or of its occurrence in the header, as it converts |
| `AutoColumns.CellMeans` | app/storage/table.go:759-784 | the cell of a column told by what the record has for it: the metadata entry, or the field where the name occurs for that time |
| `AutoColumns.OneColumnPerPosition` | app/storage/table.go:228-321 | each non-blank position has exactly one column, distinct positions distinct ones |
| `AutoColumns.StoredIffCountsAgree` | app/storage/table.go:244-263 | a position's value is stored exactly when raw and cleaned occurrence agree |
| `AutoColumns.PaddedNameLosesCell` | app/storage/table.go:244-263 | a padded header field whose value is not stored |
| `AutoColumns.NoCellLost` | app/storage/table.go:228-321 | after any sequence of headers, each header of it maps one to one and stores every cell |
| `AutoColumns.RowIsHeld` | app/storage/table.go:727-784 | a clean header's values all stand in their columns of the row |
| `AutoColumns.AutoTable.EvolveAutoColumns` | app/storage/table.go:268-288 | grows the columns by the header; fails exactly when there is something to add and the schema change fails, and then leaves them |
| `AutoColumns.AutoTable.StoreRecord` | app/storage/table.go:984-1090 | every named position of a clean header is in its own column of the written row; only a failed schema change can refuse a record |
| `RestartColumns.StableIff` | app/storage/table.go:268-321 | exactly when: over any restarts and orders of some headers a field keeps its column of the table for itself if and only if any two of the headers, read alone, agree |
| `RestartColumns.RestartMixesColumns` | app/storage/table.go:268-321 | two spellings of a name, read by two processes, share one column of the table |
| `RestartColumns.InsertNamesDistinctIff` | app/storage/table.go:1032-1041 | exactly when: an insert names each column once if and only if no automatic column is named like one of the sink's own |
| `RestartColumns.KeyNameCollides` | app/storage/table.go:1032-1041 | a header field named like a key column collides with it |
| `MultiRow.CutConserves` | app/collector/executor.go:401-450 | cutting keeps all elements in order, every piece but the last full |
| `MultiRow.CutExtends` | app/collector/executor.go:430-438 | one more piece behind full ones is one more piece of the cut |
| `MultiRow.ChunkRowsFor` | app/storage/multirow.go:20-45 | computes the chunk size step by step |
| `MultiRow.ChunkRowsIsLargest` | app/storage/multirow.go:20-45 | it is the largest number of rows within the dialect's cap whose binds stay within its target, or one |
| `MultiRow.ChunkTable` | app/storage/multirow.go:20-45 | in numbers: 1000, 200 or 500 rows for narrow tables and up to which width, 655, 300 and 600 at a hundred columns, one for the widest |
| `MultiRow.OthersFit` | app/storage/multirow.go:20-45 | except for SQL Server a batch is accepted exactly when one of its rows is |
| `MultiRow.SqlServerFits` | app/storage/multirow.go:31-36 | for SQL Server a batch that fills a statement is accepted exactly with at most four columns |
| `MultiRow.DefaultBatchIsRefused` | app/storage/multirow.go:31-36 | a full batch of the default size is refused by SQL Server exactly from five columns on |
| `MultiRow.ValueRows` | app/storage/multirow.go:89-95 | row i is numbered from i*cols+1 |
| `MultiRow.BindNumber` | app/storage/multirow.go:47-95 | bind i*cols+j+1 carries column j of row i |
| `MultiRow.BuildStatement` | app/storage/multirow.go:49-87 | a statement binds exactly the rows of its chunk |
| `MultiRow.BuildStatements` | app/storage/table.go:1092-1115 | the statements cover the rows once and in order, and are all within the limit of the database exactly when the batch fits |
| `MultiRow.StatementsFitIff` | app/storage/table.go:1092-1115 | no statement exceeds the limit exactly when the largest chunk does not |
| `Templates.CompileSegment` | app/metadata/template.go:98-146 | accepts exactly the printings of canonical token lists, and gives the list back |
| `Templates.CompilePattern` | app/metadata/template.go:72-96 | the same for patterns, with fields distinct across segments |
| `Templates.PrintInjective` | app/metadata/template.go:98-146 | canonical token lists print differently |
| `Templates.CompiledIsUnique` | app/metadata/template.go:72-96 | one pattern has one compilation |
| `Matching.MatchAt` | app/metadata/template.go:152-190 | true exactly when the segment can be cut; binds by the longest-first cut; the map is untouched on false |
| `Matching.CutsAreDecompositions` | app/metadata/template.go:152-190 | a cut is a decomposition into literals, non-empty fields and wildcards |
| `Matching.GreedyUnique` | app/metadata/template.go:166-187 | there is one longest-first cut |
| `Matching.BoundOnlyFields` | app/metadata/template.go:152-190 | only fields of the remaining tokens change |
| `Matching.BoundToPiece` | app/metadata/template.go:174-187 | each field is bound to its own non-empty piece |
| `Matching.OneFieldUnique` | app/metadata/template.go:152-190 | with one field and no wildcard there is one cut |
| `Matching.MatchRule` | app/metadata/extractor.go:117-134 | matches segment by segment and returns what a longest-first cut gives the own key; inverts rendering for wildcard-free rules whose own key is alone in its segment |
| `Matching.InvertsIff` | app/metadata/extractor.go:117-134 | exactly when: whatever shares a segment, a rendered value comes back if and only if the longest-first cut gives the own key that piece |
| `Model.CompareIsDayOrder` | app/model/model.go:44-72 | the comparison of dates is the order of the day line |
| `Model.AddDaysNumber` | app/model/model.go:74-76 | adding days moves along the day line |
| `Model.CalendarRepeats` | app/model/model.go:44-76 | the calendar repeats after 400 years of 146097 days |
| `Model.KnownDates` | app/model/model.go:44-76 | known dates and the ends of February of four kinds of year |
| `Model.DiscoveredApartIff` | app/model/model.go:112-120 | exactly when: two discovered files have one identity if and only if they are of one source and path and have the same sum, or without sums the same size and time |
| `Model.SameVersionIff` | app/model/model.go:112-120 | of one path, files are told apart exactly by their hashes, or by size and time |
| `Model.SameIdentityIff` | app/model/model.go:112-120 | exactly when: for any hashes and paths, identities agree if and only if path and version do or a bar in a path shadows the other file |
| `DateTemplates.RenderDated` | app/source/source.go:260-289 | the result shows the date in decimal digits wherever the pattern names year, month or day, longest names first, and keeps the rest |
| `DateTemplates.RenderedShows` | app/source/source.go:260-289 | a reader of digits finds year, month and day where each is named |
| `DateTemplates.TokenIsNumber` | app/source/source.go:260-289 | each token is rendered as the number it names, year in full or two digits, month and day in two |
| `DateTemplates.HasTokenIffSubstitutes` | app/sourcecomp/fleet.go:94-113 | a token is found exactly when rendering substitutes one |
| `DateTemplates.PatternFromMatch` | app/sourcecomp/fleet.go:115-137 | the glob of a signature without glob characters accepts exactly the names that fit it: any text without a slash for a token or star, each other character for itself |
| `DateTemplates.GlobAcceptsWhatFits` | app/sourcecomp/fleet.go:115-137 | the same at every position, with one star per run of tokens |
| `DateTemplates.RenderedNameMatchesGlob` | app/sourcecomp/fleet.go:115-137 | every rendering of a machine signature is accepted by its glob, for literals without glob characters |
| `DateTemplates.SplitDatePath` | app/sourcecomp/fleet.go:139-151 | splits before the segment of the first token, and only if there is one |
| `DateTemplates.JoinedIffSegmentStart` | app/source/source.go:291-300 | root and rendered layout join to the rendered path exactly under this condition |
| `DateTemplates.FullTemplateInjective` | app/source/source.go:260-289 | templates with year, month and day tell four-digit-year dates apart |
| `Parallelism.Ledger.Configure` | internal/parallelism/parallelism.go:29-37 | the first positive size wins |
| `Parallelism.Ledger.Acquire` | internal/parallelism/parallelism.go:40-54 | a slot below capacity, false only when cancelled, otherwise waits |
| `Parallelism.Ledger.Release` | internal/parallelism/parallelism.go:57-62 | gives a slot back |
| `Parallelism.Ledger.Begin` | internal/parallelism/parallelism.go:65-69 | one more pending |
| `Parallelism.Ledger.Finish` | internal/parallelism/parallelism.go:78-92 | keeps the last 1024 errors, one less pending, never below zero |
| `Parallelism.FinishedIs` | internal/parallelism/parallelism.go:78-92 | one less pending, never below zero; the new error is last, and only the oldest of 1024 gives way |
| `Parallelism.Ledger.Wait` | internal/parallelism/parallelism.go:95-107 | ends cleanly only with nothing pending |
| `Parallelism.Ledger.DrainErrors` | internal/parallelism/parallelism.go:110-116 | hands over and clears the errors |
| `Parallelism.StepKeepsInv` | components/sourceunit/component.go:263-322 | every step of handlers and workers keeps ledger, gate and the places of all jobs in agreement |
| `Parallelism.LedgerIsRight` | internal/parallelism/parallelism.go:29-116 | pending counts the unfinished jobs, tokens are running collections within capacity, errors are the last since the drain, all of them up to 1024 |
| `Parallelism.WaitMeansDone` | internal/parallelism/parallelism.go:95-107 | a clean wait finds every begun job finished |
| `Parallelism.CapacityIsFixed` | internal/parallelism/parallelism.go:29-50 | the capacity never changes once set |
| `Parallelism.FinishedOnce` | components/sourceunit/component.go:263-322 | every job is finished at most once, exactly once when settled |
| `Parallelism.ExitLeavesNothing` | components/sourceunit/component.go:311-322 | a worker that drained after its handler was withdrawn leaves no job of its unit unfinished |
| `Parallelism.LateHandlerStrandsAJob` | components/sourceunit/component.go:276-285 | without that order a job can be queued behind the exited worker |
| `Parallelism.StrandedForever` | components/sourceunit/component.go:311-322 | and then the ledger stays open for ever |
| `Parallelism.CanStrandIff` | components/sourceunit/component.go:263-322 | exactly when: behind an exited worker a job can be stranded if and only if its handler is subscribed or at work, or one is queued |
| `DbPool.Pools.AcquireDB` | app/storage/dbpool.go:46-70 | opens a database or counts one more holder, failing exactly when a needed one cannot be opened; in-memory databases are never shared |
| `DbPool.Pools.ReleaseDB` | app/storage/dbpool.go:72-85 | gives one reference back, the last one closes |
| `DbPool.StepKeepsInv` | app/storage/dbpool.go:46-85 | every step of every sink keeps ownership |
| `DbPool.OwnershipIsExact` | app/storage/dbpool.go:20-85 | references are the holders, one database per driver and dsn, open exactly while held |
| `DbPool.SharingIff` | app/storage/dbpool.go:20-85 | exactly when: two sinks hold one database if and only if they name one driver and dsn that is not the in-memory one |
| `DbPool.Connect` | app/storage/sql.go:94-105 | attaches after a ping, gives the reference back if it fails |
| `DbPool.SqlStore.ConnectStore` | app/storage/sql.go:94-112 | connected with schema or detached |
| `DbPool.SqlStore.OpenSQL` | app/storage/sql.go:62-80 | a connected store or nothing held |
| `DbPool.SqlStore.Reset` | app/storage/sql.go:115-121 | lets go of the connection |
| `DbPool.SqlStore.Write` | app/storage/sql.go:123-183 | writes on an open database only; lazy stores reconnect, eager ones stay closed; what makes it succeed and what makes it fail |
| `DbPool.SqlStore.Close` | app/storage/sql.go:229-237 | releases at most once |
| `DbPool.TableStorage.EnsureConnected` | app/storage/table.go:348-366 | connects if needed; stays attached when the schema fails |
| `DbPool.TableStorage.OpenTable` | app/storage/table.go:324-345 | a connected sink or nothing held |
| `DbPool.TableStorage.Close` | app/storage/table.go:1292-1300 | releases at most once |
| `Toml.TomlValue` | app/fleetstore/toml.go:149-182 | prints a value tree |
| `Toml.TomlKey` | app/fleetstore/toml.go:137-147 | bare where it may, quoted otherwise |
| `Toml.TomlString` | app/fleetstore/toml.go:184-200 | literal where it can, quoted otherwise |
| `Toml.PlainForms` | app/fleetstore/toml.go:137-200 | keys are bare and strings literal exactly where TOML and the printer let them be |
| `Toml.PrintedIsOneLine` | app/fleetstore/toml.go:137-227 | no value prints a line break or a control character but DEL |
| `Toml.QuoteBasic` | app/fleetstore/toml.go:202-227 | a basic string with escapes |
| `Toml.BasicIsRead` | app/fleetstore/toml.go:202-227 | a quoted string is read back exactly when it holds no DEL |
| `Toml.StringIsRead` | app/fleetstore/toml.go:186-227 | so is a printed string, literal or quoted |
| `Toml.KeyIsRead` | app/fleetstore/toml.go:137-147 | so is a printed key |
| `Toml.IntIsRead` | app/fleetstore/toml.go:149-160 | integers are read back |
| `Toml.ValueIsRead` | app/fleetstore/toml.go:137-227 | a printed tree inside any text is read back as that tree, or not at all if it holds a DEL |
| `Toml.PrintThenRead` | app/fleetstore/toml.go:137-227 | the same for the whole text |
| `Redaction.RedactMap` | app/host/redact.go:31-48 | a copy of fresh containers with secrets replaced; nothing that existed is modified |
| `Redaction.RedactSlice` | app/host/redact.go:50-63 | the same for arrays |
| `Redaction.RedactedHidesSecrets` | app/host/redact.go:31-63 | two trees have one copy exactly when they differ in values of sensitive keys only, at any depth |
| `Redaction.SensitiveIff` | app/host/redact.go:16-16 | a key is secret exactly when one of the seven words stands in it, in any case |
| `Redaction.SensitiveSurvives` | app/host/redact.go:16-16 | text around a secret key does not hide it |
| `Redaction.RestoreRedacted` | app/host/redact.go:67-90 | restores in place by key, modifying only the incoming tree |
| `Redaction.RestoreRedactedSlice` | app/host/redact.go:92-120 | restores in place by position, as far as the stored array goes |
| `Redaction.RestoreUndoesRedact` | app/host/redact.go:31-120 | restoring an untouched copy gives the original, for every tree |
| `Redaction.RestoredAt` | app/host/redact.go:67-120 | path by path: a sentinel becomes what is stored there, every other leaf stays as edited, no container changes its keys or length |
| `Redaction.RoundTrip` | app/host/redact.go:31-120 | in memory: the copy becomes the stored configuration again, which never changed |

## Left out

- SQL text, DDL, quoting and drivers: tables and transactions are modelled directly; a failed statement rolls the transaction back.
- File-system walking, stable-window checks, reachability probes, backup copies: their outcomes are parameters.
- CSV grammar, character decoding, JSON, regular expressions and cron: the parser is a function from a file's identity to its rows.
- Metadata values, static overlays, loggers and observers: they do not influence control flow, except that extraction may fail.
- State maps are keyed by the pair of source and date instead of the text that joins the two (app/state/state.go:33-35).
- The order in which a snapshot lists entries: the round trip is proved for every order, so the sorting is not modelled.
- `FileState.Drop` saves outside of its lock (app/state/state.go:604-612); with one pass at a time nothing comes between, and the model
  saves at once.
- Collector.CollectFiles: takes the files one by one; for `FilesPerSource > 1` the interleavings of the file jobs are steps of
  `Protocol`, to which every theorem about runs applies.
- Collector.Handle: the date policy and the group filter are not modelled, the target date is a parameter.
- DateTemplates.RenderDated: for a year before 0 it is `Rendered`, but not said how its digits read; no business date has one.
- Restarting with the in-memory state and store, which forget everything: only the file state is restarted.
- TableWriter.Write: a batch's rows are inserted by one step; its chunks are `MultiRow.BuildStatements`. Whether all records can be
  mapped is a parameter; how they are is `AutoColumns.MapRow`.
- A counter row deleted by hand while a seeder holds an older baseline: no statement of the program deletes it.
- JoinedIffSegmentStart: is about the joined text; `filepath.Join` also cleans the root of doubled separators, `.` and `..`.
- DeferredDatesReturn: is about a ledger of the same process; a crash before a save may bring back an older one.
- AutoColumns.MapRow: typed conversions are a parameter; automatic columns are always text.
- Declared columns beside automatic ones only raise a warning (app/storage/table.go:1043-1067).
- Several goroutines inside one lazy sink at its first use, and parallel writers during column evolution: each sink is sequential.
- Toml.Print: floats, nil and other Go values are not in the value tree; tables are given in the order of their sorted keys.
- Toml.Read: multi-line strings, dotted keys, floats, dates, other integer bases and comments are not read; none of them is printed.
- Whole-document export: tables nested two levels below an array entry are dropped there (app/fleetstore/toml.go:93).
- Restoring fleet secrets row by row: positional restoration comes first (app/host/fleet_redact.go:52-54), so reordered rows do not
  keep their values.
- Redaction.RestoreRedacted: where Go makes an empty map to restore from, the model has no map, which reads the same.
- Text that is not valid UTF-8, integer overflow of counters, and Go's distinction of nil and empty maps.
- The console's live read model, configuration watching, patch application and plugins: glue over libraries not part of this model.
