# A verified model of the indexer, the daemon and the chunkers

The service keeps a semantic index of source trees: files are cut into chunks, the
chunks are embedded and stored as vectors, and a per-user daemon lends the indexes of
many projects to its clients. This project models the parts of it whose correctness
depends on more than one function, and proves what they promise. `dafny verify
dfyconfig.toml` checks it.

| modules | what they model |
|---|---|
| `IndexProtocol`, `IndexStores`, `Indexing` | an index directory: manifest rows, vectors and the cleanup journal, which cannot commit together |
| `Desync`, `Staging`, `StagingTheorems`, `Starting` | the check before a run, the staged rebuild, and histories of incremental and forced runs, and a Start on whatever they left |
| `RegistryModel`, `RegistryProtocol`, `RegistryTheorems`, `RegistryHandles`, `RegistryGaps`, `RegistryDrain`, `Registry` | the daemon's open workspaces: borrowing, eviction, reload and close, interleaved |
| `Shutdown` | searches, background indexing, service shutdown and lock recovery, interleaved |
| `ProseText`, `RecursiveSplit` | splitting prose under a token budget |
| `ByteLines`, `LineWindow`, `Streaming`, `ChunkFiles` | line windows, in memory and streamed, and batches |
| `MarkdownModel`, `MarkdownLines`, `MarkdownRoles`, `Markdown`, `MarkdownBlocks`, `MarkdownTables`, `MarkdownParser`, `MarkdownFiles` | the Markdown line machine, whole and streamed |
| `GlobSearch`, `SemVer`, `SemVerPrecedence`, `LogRotation` | window doubling, version precedence, log rotation |
| `ProjectRegistry`, `ProjectManagement`, `ProjectCommands` | project registrations and the commands that undo themselves |

How the two concurrent parts are set up: one step is one critical section, a run is any
interleaving of the steps of any number of goroutines, and the classes `Registry.WorkspaceRegistry`
and `Shutdown.Service` hold the fields the mutexes protect, with one method per critical
section whose contract is the effect the steps interleave. The index directory is treated
likewise: every write of an incremental run to one of its three stores is an event, a crash
is the end of the list of events, and every method of the run is shown to make only events
the protocol allows, so a statement about all legal event lists is one about all crash points
of all sequences of incremental runs. Where the code ignores a failure or only logs it, the
methods hand the failure out, so that contracts can say what depends on it. The stores and the
disk of the projects count the operations that failed, so contracts can also say that nothing
else fails: without a fault, a run or a command gets where it should. In a force run
everything that may fail comes as one value, so a statement about every such value is one
about every run, and about every run cut short, where nothing works from some operation on.
`Starting` puts the two together: a history is any sequence of incremental runs and force runs,
each cut short anywhere.

Assumptions: hashes are injective, so a document id determines path, ordinal and chunk;
the paths of one run are distinct; a delete reported as partial names only ids that are
gone; a file is read once for its hash and once for its chunks; token counts are an arbitrary function and grow with text only where stated; reloads
are serialised by their own mutex; ids in a validated configuration are unique.

## What does not hold

Each of these has a concrete input, history or state that shows it, and the exact condition
under which the code does what one would expect.

- **A replay that leaves ids behind can cost live vectors later.** The run goes on after
  a failed replay; if a file then returns to old content, its row commits an id that is
  still journaled, and the next replay deletes that vector. Safe for every future if and
  only if the journal is empty when the replay ends (`IndexProtocol.SafeIffReplaySettled`).
- **A replay that clears the journal turns it off.** Clearing removes the file and
  appending does not create it, so stale ids of the same run are recorded if and only if
  the file was still there (`IndexProtocol.RecordsIffJournalKept`). Deleting them is still
  attempted.
- **A file that changes between hashing and chunking** gets a row with the hash of the one
  and the ids of the other. A later run over the hashed bytes keeps it, which is wrong if and
  only if the chunks differ (`Indexing.RaceSticksIff`).
- **Orphans of a first run are not noticed by the next.** The check before a run trusts an empty
  manifest, so vectors stored before a crash and before the first row stay after the next run,
  if and only if they do not belong to the files it finds (`Starting.Start`). The Start after
  that is forced if and only if there are rows by then (`Starting.OrphanStaysUnseen`).
- **A force run that fails early may not keep what serves.** Given that a needed rollback
  rename works, it does for sure if and only if no old copy lies beside a missing serving
  collection (unless no build can finish), and no vanished file has a left-over staging row
  with an id that serves: what such a row names is purged from the serving collection
  (`StagingTheorems.AllKeptIff`; `StagingTheorems.EarlyRunKeepsIff` is the condition for
  each single run).
- **A force run is not atomic after its publishing rename.** The new collection serves with
  the new manifest if and only if the replaced copy could be removed and both manifest renames
  worked (`StagingTheorems.LateRunServes`, `StagingTheorems.OldRowServes`). So a row can be
  without its vectors after a force run that failed; the next Start over a readable store is
  then forced (`Starting.Start`).
- **Eviction reserves no id**, so a workspace can be opened again while its evicted handle is
  being closed: if and only if at least two workspaces fit and more are configured than fit
  (`RegistryGaps.EvictedReopensEarlyIff`). Nothing else lets that happen
  (`RegistryGaps.OnlyEvictedReopenEarly`).
- **Close can outlive the runtime**: handles that Close takes out itself are in no count, so a
  late discard can shut the native runtime down first, if and only if two workspaces can be
  open at once (`RegistryGaps.RuntimeDownTooEarlyIff`). All other handles are closed by then.
- **The runtime may never go down.** A cold open that fails does not check the drain, nor does a
  reload that gives its ids back; if that is the last thing to end after Close has given up
  waiting, the runtime stays up. A drained registry has shut it down if and only if that never
  happened (`RegistryDrain.DrainedIsDownIff`); without reloads it can happen if and only if a
  workspace can be opened at all (`RegistryDrain.StrandedIff`).
- **The two line limits differ.** The stream counts the terminator and skips the byte order
  mark; the in-memory check does neither. `ChunkFiles.LimitsAgreeIff` says for which files they
  agree.
- **A heading or a fence right after a table** makes the rows come out as prose and the heading
  as a table. Tables come out as they are if and only if that never happens
  (`MarkdownTables.TablesSurviveIff`).
- **A table row right after a code block** is recorded under an old start line if and only if
  only code, fences and headings lie between it and an earlier row
  (`Markdown.SegmentsTileTheInput`, `Markdown.AsciiOrphanRows`).
- **Prerelease numbers beyond 64 bits** are compared as text, which makes the order cyclic;
  `SemVer.OverflowIsRightIff` says exactly when the comparison is right.
- **Adding a registered root again** with an id that differs in case, and **forking a
  registered root** whose project.yaml does not name its collection, leave a registry that
  the strict loader rejects (`ProjectCommands.ReaddKeepsLoadableIff`, `ProjectCommands.ForkKeepsLoadableIff`).
- **A fork that cannot remove the previous registration** is refused without being rolled back:
  the root stays registered twice, which the strict loader rejects
  (`ProjectCommands.CommandProjectNewCollection`, `ProjectCommands.KeptPreviousBreaks`).

## Model

| member | source | states |
|---|---|---|
| `IndexProtocol.IdsOf` | internal/indexer/chunk/chunk.go:134-150 | The ids of a file are one per chunk and name the path, the ordinal counted from one, and the chunk. |
| `IndexProtocol.StepKeepsInv` | internal/indexer/coordinator.go:657-716 | Every single write the run may make (upsert, rollback, row, journal record, delete, replay) keeps: rows record only ids of their path; while every replay so far has settled, no journaled id belongs to a committed row and every id of a committed row is stored, except for rows being removed. |
| `IndexProtocol.EveryCrashPointKeepsInv` | internal/indexer/coordinator.go:294-596 | That invariant holds at every crash point of every sequence of incremental runs. |
| `IndexProtocol.SettledReplaysStayClean` | internal/indexer/coordinator_helpers.go:30-43 | If every replay ends with an empty journal, then at every crash point the history counts as clean. |
| `IndexProtocol.RowsAreWritten` | internal/indexer/coordinator.go:687-701 | Over incremental runs from a new index directory, every row at every crash point is one the indexer writes: hashed, and with the ids of a file's chunks numbered from one. For histories with force runs see `Starting.PastIsSound`. |
| `IndexProtocol.NoLiveVectorIsLost` | internal/indexer/coordinator.go:555-567 | Safety over whole histories of incremental runs: from a new index, or from what a force run left that ended in a rebuild, over any such runs whose replays settle, at every crash point committed rows have their vectors and the journal holds no live id. |
| `IndexProtocol.StaysLive` | internal/indexer/coordinator.go:555-567 | From any point at which the rows have their vectors, no later crash point of incremental runs with settled replays has a row without them. |
| `IndexProtocol.ReplayRemovesNothingLive` | internal/indexer/coordinator_helpers.go:30-43 | Under the invariant, replaying a clean journal removes no id of any committed row. |
| `IndexProtocol.RevivalLosesLiveVector` | internal/indexer/coordinator_helpers.go:34-41 | If a replay ends with an id left in the journal, there is a legal continuation, in which the file goes back to content with that chunk and its row commits, that deletes a vector the committed row needs. |
| `IndexProtocol.SafeIffReplaySettled` | internal/indexer/coordinator_helpers.go:30-43 | Exact condition: ending a replay is safe for every possible future if and only if the journal is then empty. |
| `IndexProtocol.ClearedJournalTakesNoRecord` | internal/store/manifest/cleanup.go:42-100 | After a replay has removed the journal file, no stale id can be journaled for the rest of that run. |
| `IndexProtocol.RecordsIffJournalKept` | internal/indexer/coordinator.go:702-710 | Exact condition: stale ids can be recorded in a run if and only if the journal was there when its replay ended. |
| `IndexStores.Index.Create` | internal/store/manifest/store.go:23-50 | A new index directory is empty and starts a fresh history. |
| `IndexStores.Index.Reopen` | internal/store/manifest/cleanup.go:21-39 | A later process finds the stores exactly as the history left them. |
| `IndexStores.Index.ManifestGet` | internal/store/manifest/store.go:148-162 | A read that succeeds gives the row of the path, or none. |
| `IndexStores.Index.ManifestUpsert` | internal/store/manifest/store.go:165-181 | Success sets exactly that row; failure changes nothing; the write is recorded in the history. |
| `IndexStores.Index.ManifestDelete` | internal/store/manifest/store.go:184-187 | Success drops exactly that row; failure changes nothing. |
| `IndexStores.Index.UpsertChunks` | internal/store/zvec/collection.go:169-231 | Success stores exactly the batch; a failure may leave any part of it; reported ids are a prefix of the batch. |
| `IndexStores.Index.DeleteByIDs` | internal/store/zvec/collection.go:239-288 | Success or a failed flush deletes exactly the ids; a partial failure reports only ids that are gone; nothing else is ever deleted. |
| `IndexStores.Index.JournalOpen` | internal/store/manifest/cleanup.go:21-39 | Creates the journal only when it is absent. |
| `IndexStores.Index.JournalAppend` | internal/store/manifest/cleanup.go:42-61 | Appends after what is pending; fails when the file has been removed; appending nothing succeeds. |
| `IndexStores.Index.JournalPending` | internal/store/manifest/cleanup.go:64-90 | Reads back what was appended, nothing when the file is absent. |
| `IndexStores.Index.JournalClear` | internal/store/manifest/cleanup.go:93-100 | Removes the journal file. |
| `Indexing.StaleDocIDs` | internal/indexer/coordinator.go:773-788 | The old ids that are not among the new ones, in order. |
| `Indexing.RollbackNewDocIDs` | internal/indexer/coordinator.go:765-770 | The new ids that the committed row of the path does not use. |
| `Indexing.DeleteStaleVectors` | internal/indexer/coordinator_helpers.go:77-102 | Up to three attempts, each for what is left: success means exactly the stale ids are gone; it gives up only after three deletes that failed; no other vector, row or journal record changes. |
| `Indexing.ReconcileCleanupJournal` | internal/indexer/coordinator_helpers.go:30-43 | Deletes only journaled ids; the journal is removed only after all of them are gone from a linked store; rows do not change; if no operation fails nothing is pending afterwards. |
| `Indexing.UpsertBatches` | internal/indexer/coordinator.go:633-656 | A file that is gone when it is opened for chunking stores nothing; otherwise a prefix of the ids is stored, and exactly the reported ones when every failure was fully reported. |
| `Indexing.UpsertBatch` | internal/indexer/coordinator.go:634-655 | One batch: success stores exactly its ids. |
| `Indexing.Rollback` | internal/indexer/coordinator.go:657-664 | Takes back only ids the committed row does not use, and all of them unless the delete failed. |
| `Indexing.RemovePath` | internal/indexer/coordinator.go:666-676 | Vectors first, then the row: success removes exactly both, a failure keeps the row. |
| `Indexing.CommitRow` | internal/indexer/coordinator.go:678-716 | Success publishes the row and removes exactly the ids it replaces; a failed row write takes back exactly the new ids; once the row is out the replaced ids are journaled unless the journal could not be written; nothing fails and no step is left out unless an operation failed. |
| `Indexing.DeleteReplaced` | internal/indexer/coordinator.go:702-717 | Journals the replaced ids before deleting them; deletes nothing else. |
| `Indexing.TakenBackIsExplained` | internal/indexer/coordinator.go:657-664 | Deleting the new ids that the old row does not use restores a store that was exact for the path. |
| `Indexing.PublishedIsExplained` | internal/indexer/coordinator.go:678-716 | After a published row, everything stored for the path beyond the row is journaled, or nothing is left over. |
| `Indexing.IndexFile` | internal/indexer/coordinator.go:598-719 | Success keeps an unchanged file alone and otherwise writes the row of a rebuild, and carries over exactly what was stored without a row; an unreadable file is left alone; any other failure leaves the row with its vectors, or the row of a rebuild with all of its vectors, or is a deletion that stopped half way, and is due to an operation that failed; no other path changes; all its writes are ones the protocol allows. |
| `Indexing.UpdateFile` | internal/indexer/coordinator.go:633-718 | The update of a changed file, including one that vanishes or changes between hashing and chunking: its row records the hash of the one and the ids of the other. |
| `Indexing.RaceSticksIff` | internal/indexer/coordinator.go:610-624 | Exact condition: a file that changed between hashing and chunking leaves a row that a later run over the hashed bytes keeps, although a rebuild would write another one, if and only if the chunks differ. |
| `Indexing.ReindexedIsExpected` | internal/indexer/coordinator.go:618-624 | For a file chunked as it was hashed, the row kept by the unchanged test is the one a rebuild writes. |
| `Indexing.IndexOrPurge` | internal/indexer/coordinator.go:517-553 | How a turn ends and what it leaves: an unreadable file is counted and left alone, a vanished one purged or counted with its row kept; if no operation failed, only what cannot be read counts. |
| `Indexing.IndexFiles` | internal/indexer/coordinator.go:499-553 | Each file that was reached is left as its turn says, all others as before; the number of failed files is the number of turns that failed; a path is taken for gone exactly if it was purged; the loop stops only for a file that says so or an operation that failed. |
| `Indexing.Turn` | internal/indexer/coordinator.go:499-553 | One turn keeps that account. |
| `Indexing.LeavesStays` | internal/indexer/coordinator.go:499-568 | What a turn leaves of its file is not undone by what happens to other paths. |
| `Indexing.PurgeRemovedFile` | internal/indexer/coordinator.go:721-738 | Success removes exactly the row and its vectors; other paths never change. |
| `Indexing.PruneUndiscovered` | internal/indexer/coordinator.go:555-568 | Nothing of a discovered path changes; success leaves exactly the rows of discovered paths, and of the others what no row recorded. |
| `Indexing.PruneLeaves` | internal/indexer/coordinator.go:555-568 | So pruning takes nothing from a file that was found and not purged. |
| `Indexing.GoodTurnsRebuild` | internal/indexer/coordinator.go:499-568 | Without a failed file, with files that do not change and rows that have their vectors: the rows of a rebuild, and what no row recorded carried over. |
| `Indexing.BeginRun` | internal/indexer/coordinator.go:328-332 | A run begins with a replay; one that settles has deleted exactly what was pending. |
| `Indexing.Run` | internal/indexer/coordinator.go:294-596 | A non-force run. Whatever fails, every write is one the protocol allows, each file that was reached is left as its turn says, the number of failed files is that of the turns that failed, and a file that could not be read or whose update was taken back keeps its row, and its vectors unless the journal named them. From consistent rows that have their vectors and a dead journal, one without failures leaves the rows of a rebuild, their vectors, and besides them exactly what was stored in no row and not replayed; from an exact store, exactly the rebuild. If no operation fails, it stops exactly for a file that says so, counts exactly what cannot be read, and its replay settles. |
| `Indexing.SparedFilesStand` | internal/indexer/coordinator.go:505-545 | A file that could not be read, or whose update was taken back, keeps its row, and its vectors unless the journal named them. |
| `Indexing.CarriedIsExactIff` | internal/indexer/coordinator.go:499-568 | Exact condition: carrying over what no row recorded ends with an exact store if and only if all of it is in a row afterwards. |
| `Indexing.Runs` | internal/indexer/coordinator.go:294-596 | Run after run: if no run failed and none had a failed file, and every replay settled, the stores are exactly a rebuild of the last files, and ready for the next run; and so it is if no operation fails and all files can be read. |
| `Indexing.RebuildIsUnique` | internal/indexer/coordinator.go:499-568 | Two indexes that both are a rebuild of the same files and exact are equal, rows and vectors. |
| `Indexing.IncrementalMatchesRebuild` | internal/indexer/coordinator.go:499-568 | Refinement: the same files indexed incrementally and into a new directory; each run that ends without error or failed file leaves a rebuild, and if both do, as they do if no operation fails and all files can be read, the rows and the vectors are the same. |
| `Desync.AllDocIDs` | internal/store/manifest/store.go:215-235 | Exactly the ids recorded by the rows, each once. |
| `Desync.DocIDsPresent` | internal/store/zvec/collection.go:131-166 | True exactly when every id asked for is stored, whatever the batch boundaries. |
| `Desync.FoundAllIffPresent` | internal/store/zvec/collection.go:131-166 | A batch fetch returns fewer documents than asked for exactly when one is missing. |
| `Desync.Stats` | internal/store/manifest/store.go:107-116 | The sum of the chunk counts of all rows. |
| `Desync.TotalIsUnionSize` | internal/store/manifest/store.go:238-253 | For rows that record each id once and their own count, the chunk total is the size of the union of their ids. |
| `Desync.ManifestZvecDesync` | internal/indexer/coordinator.go:823-886 | Exactly when a rebuild is asked for: there are chunks, and the rows record fewer ids than they count, the store cannot be opened for a lock or is missing, or it is not the union of the row ids; exactly when the check fails: the counts agree and opening fails otherwise. |
| `Desync.DesyncIffNotExact` | internal/indexer/coordinator.go:823-886 | For the manifests the indexer writes the check is exact: silent if and only if the store is the union of the rows. |
| `Desync.ManifestsCount` | internal/indexer/coordinator.go:687-701 | The manifests the indexer writes meet what the check relies on, at every crash point of incremental runs from a new directory. |
| `Desync.ChunksMeanRows` | internal/indexer/coordinator.go:836-842 | A manifest without chunks has no rows. |
| `Desync.ExactIsUnion` | internal/indexer/coordinator.go:866-885 | Exactness path by path is equality with the union of all row ids. |
| `Staging.StagedIndex.PromoteStagingCollection` | internal/store/zvec/staging.go:72-94 | The renames, each of which may fail, as a function of the paths and of what fails; success means published with no old copy left. |
| `Staging.StagedIndex.PromoteStagingManifest` | internal/store/zvec/staging.go:104-124 | The same for the manifest, where having nothing to remove at the end is an error. |
| `Staging.StagedIndex.PromoteStaging` | internal/indexer/coordinator.go:396-437 | Collection before manifest, and what is tidied up after a failure. |
| `Staging.StagedIndex.ForceFile` | internal/indexer/coordinator.go:598-719 | Rebuilds one path in the staging stores only. |
| `Staging.StagedIndex.ForcePurge` | internal/indexer/coordinator.go:721-738 | Deletes the ids of the staging row from the serving collection, then drops that row. |
| `Staging.StagedIndex.ForceBuild` | internal/indexer/coordinator.go:499-553 | The file loop over the staging stores. |
| `Staging.StagedIndex.ForceRun` | internal/indexer/coordinator.go:352-594 | The run after the journal replay does to the directory exactly what the outcome function says for everything it may meet; the statements below are about that function. |
| `Staging.UnpublishedKeepsIff` | internal/store/zvec/staging.go:80-92 | A swap that does not publish leaves what was present if and only if it was not moved out or was moved back and, with nothing present, no old copy was taken for it. |
| `Staging.BuiltOverIsRebuildIff` | internal/indexer/coordinator.go:370-379 | The result is a rebuild if and only if no row of another file was left over. |
| `StagingTheorems.BuildStopsIff` | internal/indexer/coordinator.go:499-553 | A build is stopped if and only if some turn is stopped, or its file stops the job, or its row is lost, or storing it fails fatally; otherwise it counts exactly the files that are unreadable, skippably broken or not purged. |
| `StagingTheorems.BuildLeaves` | internal/indexer/coordinator.go:499-553 | A build that is not stopped leaves each file that was left out with its left-over row and what was stored before it failed, every other file as in a rebuild, and other rows alone. |
| `StagingTheorems.BuildIsBuiltOver` | internal/indexer/coordinator.go:499-553 | A build without failures leaves the rows of a rebuild for its files over whatever rows were left over, and exactly the vectors of its files. |
| `StagingTheorems.RunGetsTo` | internal/indexer/coordinator.go:352-594 | How far a run gets, exactly, from its files and what it meets: a file that is left out does not keep the others from being published. |
| `StagingTheorems.WorkingRunSucceeds` | internal/indexer/coordinator.go:587-594 | A run whose only mishaps are files it leaves out publishes both and succeeds. |
| `StagingTheorems.EarlyRunKeepsIff` | internal/indexer/coordinator.go:352-437 | For each run that fails at or before the publishing rename: the serving collection and manifest are as they were if and only if its purges missed them and its renames were undone. |
| `StagingTheorems.AllKeptIff` | internal/store/zvec/staging.go:72-93 | Given that a needed rollback rename works: all such runs from a start keep what serves if and only if no old copy lies beside a missing serving collection (or no build can finish) and no vanished file has a left-over staging row with an id that serves. |
| `StagingTheorems.AllKeptWithDiscardIff` | internal/indexer/coordinator.go:370-370 | If the left-over staging manifest can be discarded too, if and only if no old copy lies beside a missing serving collection, or no build can finish. |
| `StagingTheorems.AllKeptWithoutRollbackIff` | internal/store/zvec/staging.go:86-91 | Without relying on the rollback rename, if and only if there is nothing to move out or back, or no build can finish. |
| `StagingTheorems.LateRunServes` | internal/indexer/coordinator.go:426-436 | After the publishing rename the new collection serves; the new manifest serves with it if and only if the replaced copy could be removed and both manifest renames worked; otherwise exactly when the old one still does. |
| `StagingTheorems.PublishedTogetherIff` | internal/indexer/coordinator.go:426-436 | The two are published together in all runs from a start if and only if no run from it can publish. |
| `StagingTheorems.SuccessIsRebuildIff` | internal/indexer/coordinator.go:352-594 | A run that succeeds without a failed file serves exactly the rebuild if and only if no staging row of another file was left over or it could be discarded. |
| `StagingTheorems.PurgeTakesServingVectors` | internal/indexer/coordinator.go:721-738 | A concrete run stopped early after which a served row has lost its vectors. |
| `StagingTheorems.OldCopyServes` | internal/store/zvec/staging.go:79-91 | A concrete run after which an old copy serves. |
| `StagingTheorems.NothingServes` | internal/store/zvec/staging.go:86-91 | A concrete run after which nothing serves. |
| `StagingTheorems.OldRowServes` | internal/indexer/coordinator.go:426-434 | A concrete run after which the new collection serves with an old row whose vectors it does not have. |
| `Starting.Start` | internal/indexer/coordinator.go:179-192 | A Start after any history of incremental and forced runs. Which kind of run it is, or that it is refused, is decided exactly by the request, by whether there are rows, and by how the store answers and whether it holds their vectors. A run that is not forced leaves no row without its vectors at any crash point; with no failed file and settled replays it leaves the rows of a rebuild, their vectors and exactly what was stored without a row, which is a rebuild if and only if there were rows or the latter belongs to the files found. A forced one leaves a rebuild if and only if no other row was left over in staging, and then an origin from which incremental runs lose nothing. If nothing fails that concerns more than one file, it succeeds, and a forced one counts exactly the files left out. What it leaves is again such a history. |
| `Starting.Starts` | internal/indexer/coordinator.go:179-192 | Any sequence of Starts, forced or not and however each ends: each that succeeds does what is said of one, whatever those before it left. |
| `Starting.PastIsSound` | internal/indexer/coordinator.go:352-437 | At every crash point of every history of incremental and forced runs from a new directory: the rows that serve, and those in the manifests beside them, are ones the indexer writes, and with settled replays no journaled id belongs to a committed row. |
| `Starting.ForceKeepsFit` | internal/indexer/coordinator.go:352-437 | Whatever a forced run meets, each manifest it leaves has rows that the indexer writes. |
| `Starting.CutShort` | internal/indexer/coordinator.go:294-596 | Every crash point of a history is a history. |
| `Starting.ForceServes` | internal/indexer/coordinator.go:352-594 | A forced run in a history that succeeds with no failed file serves a rebuild if and only if no other row was left over in staging; then the store is exact and incremental runs may start from it. |
| `Starting.StartForced` | internal/indexer/coordinator.go:294-437 | The forced branch: the journal replay, the staged build and what the next run opens. |
| `Starting.StartIncremental` | internal/indexer/coordinator.go:294-596 | The incremental branch, over no rows or exactly their vectors. |
| `Starting.Decide` | internal/indexer/coordinator.go:185-192 | A run is forced exactly when asked for, or when there are rows and the store is locked, missing or out of step; it is refused exactly when there are rows and opening the store fails otherwise. |
| `Starting.WrittenRowsAreCounted` | internal/indexer/coordinator.go:836-885 | Of rows the indexer writes the check sees exactly whether there are any, and whether the store holds exactly their vectors. |
| `Starting.OrphanStaysUnseen` | internal/indexer/coordinator.go:836-842 | A first run that crashed before its first row: the next Start does not see its orphan and, if it succeeds, keeps it in no row unless a file found now has it; the Start after that is forced if and only if there are rows by then. |
| `RegistryProtocol.StepKeepsInv` | internal/daemon/registry.go:121-505 | Every critical section of borrow, release, eviction, reload and close keeps: exact reference counts, disjoint open and reserved ids, reservations matching the goroutines that made them, no open handle closed, exact discard count, final shutdown. |
| `RegistryProtocol.ReleaseFindsItsHandle` | internal/daemon/registry.go:322-345 | A release callback not yet called always finds its own handle, open and with a positive count. |
| `RegistryProtocol.OneClaimant` | internal/daemon/registry.go:211-227 | No two goroutines reserve the same id. |
| `RegistryTheorems.Reachable` | internal/daemon/registry.go:121-505 | The invariant holds in every reachable state of every interleaving. |
| `RegistryTheorems.BorrowedHandleIsAlive` | internal/daemon/registry.go:314-345 | A lent handle stays the open one, its count equals the unreleased borrows, nobody is closing it and it has not been closed. |
| `RegistryTheorems.RuntimeDownIsFinal` | internal/daemon/registry.go:410-427 | The native runtime goes down at most once, with no borrow and no cold open outstanding, and nothing is granted afterwards. |
| `RegistryTheorems.DownStaysDown` | internal/daemon/registry.go:472-505 | Once down, the runtime stays down in every later state. |
| `RegistryTheorems.ReloadKeepsTheIdClosed` | internal/daemon/reload.go:172-208 | While a reload still holds a handle of a changed collection, that id is neither open nor being opened, and no new open of it can start. |
| `RegistryTheorems.OpenNeverExceedsLimit` | internal/daemon/registry.go:126-227 | Open workspaces plus cold opens in progress never exceed the limit while reloads do not lower it. |
| `RegistryHandles.StepKeepsPlaced` | internal/daemon/registry.go:121-505 | Every critical section keeps each handle in one place: open, in the hands of one goroutine, or closed. |
| `RegistryHandles.HandlesArePlaced` | internal/daemon/registry.go:121-505 | Conservation: in every reachable state each handle ever made is open, held once by one goroutine, or closed. |
| `RegistryHandles.ClosedAtMostOnce` | internal/daemon/registry.go:376-405 | A handle that is closed was held until then and is never held again, so none is closed twice. |
| `RegistryGaps.OnlyEvictedReopenEarly` | internal/daemon/registry.go:152-167 | In every reachable state, while an id is being opened a handle of it that is not closed yet is the victim of an eviction. |
| `RegistryGaps.EvictedReopensEarlyIff` | internal/daemon/registry.go:152-167 | Exact condition, without reloads: an evicted workspace can be opened again while its handle is still being closed if and only if at least two fit and more are configured than fit. |
| `RegistryGaps.UnclosedWhenDownIff` | internal/daemon/registry.go:472-504 | With the runtime down, a goroutine holds a handle that is not closed if and only if it is Close with handles it took out itself. |
| `RegistryGaps.RestIsClosedWhenDown` | internal/daemon/registry.go:472-504 | With the runtime down, every other handle ever made has been closed. |
| `RegistryGaps.RuntimeDownTooEarlyIff` | internal/daemon/registry.go:477-504 | Exact condition, without reloads: the runtime can go down before Close has closed what it took out if and only if two workspaces can be open at once. |
| `RegistryDrain.StrandsIff` | internal/daemon/registry.go:410-427 | Exact condition for every step: everything has drained with the runtime up and nobody left to take it down if and only if the last thing that ended was a cold open that failed or a reload that gave its ids back. |
| `RegistryDrain.StrandedStays` | internal/daemon/registry.go:179-196 | The runtime then stays up for good. |
| `RegistryDrain.DrainedIsDownIff` | internal/daemon/registry.go:407-427 | Once a closing registry has drained and every goroutine has ended, the runtime is down if and only if that never happened. |
| `RegistryDrain.StrandedIff` | internal/daemon/registry.go:486-504 | Exact condition, without reloads: it can happen if and only if a workspace can be opened at all, because Close may give up waiting for a cold open. |
| `Registry.WorkspaceRegistry.constructor` | internal/daemon/registry.go:71-86 | A new registry is empty and open for business. |
| `Registry.WorkspaceRegistry.EvictOldestIdleLocked` | internal/daemon/registry.go:347-368 | Takes out the least recently used idle workspace, or nothing exactly when none is idle. |
| `Registry.WorkspaceRegistry.BorrowEnter` | internal/daemon/registry.go:121-160 | Every outcome with its exact condition and effect on the fields: closing, unknown id, lent exactly when open, wait exactly when being opened, full exactly when at the limit with nothing idle, and otherwise a cold open, whose victim goes only at the limit; and each is a step of the protocol. |
| `Registry.WorkspaceRegistry.ReserveOpenSlot` | internal/daemon/registry.go:211-228 | At the limit an idle workspace makes room, if there is one; the id is reserved unless there is none. |
| `Registry.WorkspaceRegistry.FinishColdOpen` | internal/daemon/registry.go:179-209 | Grants the new handle unless init failed or closing began meanwhile, and then hands it over for closing. |
| `Registry.WorkspaceRegistry.Release` | internal/daemon/registry.go:322-345 | Lowers the count of its own handle only; the last release while closing takes the handle out. |
| `Registry.WorkspaceRegistry.BeginDiscard` | internal/daemon/registry.go:370-374 | One more discard in progress. |
| `Registry.WorkspaceRegistry.EndDiscard` | internal/daemon/registry.go:376-405 | One discard fewer. |
| `Registry.WorkspaceRegistry.TryShutdownRuntimeAfterDrain` | internal/daemon/registry.go:410-427 | Shuts down exactly when closing and nothing is open, opening or being discarded. |
| `Registry.WorkspaceRegistry.CollectionIdle` | internal/daemon/reload.go:70-90 | Busy exactly when a reload touching the collection would be refused. |
| `Registry.WorkspaceRegistry.ChangedIds` | internal/daemon/reload.go:145-151 | Exactly the ids whose spec is gone or differs in more than its description. |
| `Registry.WorkspaceRegistry.BusyIds` | internal/daemon/reload.go:153-170 | Exactly the changed ids that are being opened, borrowed or indexing. |
| `Registry.WorkspaceRegistry.ReloadApply` | internal/daemon/reload.go:138-191 | All or nothing: refused with no change when closing or a changed id is busy, otherwise the new snapshot with every changed id detached and reserved. |
| `Registry.WorkspaceRegistry.DetachChanged` | internal/daemon/reload.go:179-191 | Takes out exactly the open handles of the changed ids, each once, and reserves every changed id. |
| `Registry.WorkspaceRegistry.ReloadRelease` | internal/daemon/reload.go:200-208 | Ends only the reservations that are still its own. |
| `Registry.WorkspaceRegistry.CloseBegin` | internal/daemon/registry.go:430-437 | Only the first Close goes on. |
| `Registry.WorkspaceRegistry.CloseDetach` | internal/daemon/registry.go:472-487 | Takes out exactly the idle handles; skips the runtime exactly when something is still open, opening or being discarded. |
| `Shutdown.StepKeepsInv` | internal/service/phase1.go:722-837 | Every critical section of searches, Start, the indexing goroutine, Shutdown and lock recovery keeps: each lock held by exactly one goroutine, at a place that holds it, the running flag up exactly while one run is active, the search count exact, and what each place has established. |
| `Shutdown.Reachable` | internal/indexer/coordinator.go:194-289 | The invariant holds after every interleaving of any number of goroutines. |
| `Shutdown.AtMostOneRun` | internal/indexer/coordinator.go:194-289 | At most one run executes, and the running flag is then up. |
| `Shutdown.NoRunAfterClose` | internal/indexer/coordinator.go:115-128 | From the moment Close has set its flag, no run executes or begins, in any later state. |
| `Shutdown.StoreClosesAlone` | internal/service/phase1.go:762-775 | Shutdown closes the store only when no search and no run executes and no search can begin. |
| `Shutdown.EmbedderClosesAlone` | internal/service/phase1.go:776-780 | Shutdown closes the embedder only when no search and no run executes and neither can start again. |
| `Shutdown.ClosedStateIsQuiet` | internal/service/phase1.go:722-788 | After a shutdown that reported success nothing is in flight. |
| `Shutdown.DoneIffFinished` | internal/service/phase1.go:781-787 | A shutdown is recorded by a Finish that has seen indexing idle and searches idle and holds the close lock, and by nothing else. |
| `Shutdown.DoneIsFinal` | internal/service/phase1.go:722-731 | Once a shutdown has been recorded, no goroutine that had not begun one by then enters a shutdown, closes the store or closes the embedder, in any later state. |
| `Shutdown.FinishIsFinal` | internal/service/phase1.go:722-787 | So after the Finish of a goroutine with all three. |
| `Shutdown.LoneShutdownFinishes` | internal/service/phase1.go:722-789 | Undisturbed, a shutdown of an idle service marks the indexer closed, closes store and embedder, is recorded and gives the lock back. |
| `Shutdown.LoneRunBegins` | internal/indexer/coordinator.go:194-249 | Undisturbed, a run begins executing with both locks and the flag. |
| `Shutdown.LoneRunEnds` | internal/indexer/coordinator.go:252-285 | And it ends with everything as it was. |
| `Shutdown.LoneRecoveryEnds` | internal/indexer/coordinator.go:100-108 | A lone recovery takes the close lock and gives it back. |
| `Shutdown.CloseLockExcludesRuns` | internal/indexer/coordinator.go:100-128 | A goroutine that holds the close lock without being a run excludes every run. |
| `Shutdown.Service.BeginSearch` | internal/service/phase1.go:794-802 | Refused exactly after shutdown has stopped searches; otherwise counted. |
| `Shutdown.Service.SearchDone` | internal/service/phase1.go:890-920 | The search leaves the count. |
| `Shutdown.Service.CheckStart` | internal/indexer/coordinator.go:194-204 | Refuses when closed or running. |
| `Shutdown.Service.TryIndexLock` | internal/indexer/coordinator.go:206-208 | Acquired exactly when no goroutine here and no other process holds it. |
| `Shutdown.Service.TakeCloseLock` | internal/indexer/coordinator.go:210-210 | The free lock is taken by this goroutine. |
| `Shutdown.Service.DecideStart` | internal/indexer/coordinator.go:212-230 | Re-checked under the lock: refused exactly when closed or running, otherwise the running flag goes up. |
| `Shutdown.Service.AbortStart` | internal/indexer/coordinator.go:232-242 | A failed first progress write lowers the flag again. |
| `Shutdown.Service.UnlockIndex` | internal/indexer/coordinator.go:252-255 | The index lock is free again, after a run or an aborted start. |
| `Shutdown.Service.UnlockClose` | internal/indexer/coordinator.go:105-108 | The close lock is free again, whoever held it. |
| `Shutdown.Service.FinishRun` | internal/indexer/coordinator.go:252-285 | The flag goes down only after both locks were released. |
| `Shutdown.Service.EnterShutdown` | internal/service/phase1.go:722-731 | Repeated calls return at once exactly after a completed shutdown. |
| `Shutdown.Service.StopAcceptingSearches` | internal/service/phase1.go:807-811 | No search can begin any more. |
| `Shutdown.Service.MarkClosed` | internal/indexer/coordinator.go:115-128 | Close sets its flag under the close lock and releases the lock. |
| `Shutdown.Service.TryLockForClose` | internal/service/phase1.go:762-770 | The store is closed exactly when searches drained and the lock is free. |
| `Shutdown.Service.FinishShutdown` | internal/service/phase1.go:781-787 | Success is recorded exactly when indexing and searches drained and the store was closed; otherwise the record stays as it was. |
| `ProseText.TrimSpaceBounds` | internal/indexer/chunk/prose/recursive.go:109-117 | The text is the leading spaces, the trimmed text and the trailing spaces; the trimmed text is empty exactly for blank text. |
| `ProseText.CoversConserves` | internal/indexer/chunk/prose/recursive.go:45-77 | Pieces that tile a stretch with whitespace between hold exactly its non-space characters, in order. |
| `ProseText.JoinKeepsApart` | internal/indexer/chunk/prose/recursive.go:311-331 | Texts joined with whitespace between them keep apart what whitespace kept apart in their source. |
| `RecursiveSplit.PieceFromRawSpan` | internal/indexer/chunk/prose/recursive.go:148-156 | The piece is the trimmed slice at its true offsets, or empty exactly for a blank span. |
| `RecursiveSplit.SplitParagraphs` | internal/indexer/chunk/prose/recursive.go:119-146 | Exact slices that tile the text, cut at every blank line and nowhere else; one empty piece for blank text. |
| `RecursiveSplit.SplitLines` | internal/indexer/chunk/prose/recursive.go:158-174 | The same, cut at every line feed and nowhere else. |
| `RecursiveSplit.SplitSentences` | internal/indexer/chunk/prose/recursive.go:176-210 | The same, cut exactly where a sentence end, optional whitespace and a capital or digit meet. |
| `RecursiveSplit.SplitClauses` | internal/indexer/chunk/prose/recursive.go:225-252 | The same, cut exactly at a semicolon or colon followed by whitespace. |
| `RecursiveSplit.SplitWords` | internal/indexer/chunk/prose/recursive.go:254-278 | The same, cut exactly at whitespace. |
| `RecursiveSplit.SplitByLevel` | internal/indexer/chunk/prose/recursive.go:92-107 | The parts of the text at one level. |
| `RecursiveSplit.SplitByChars` | internal/indexer/chunk/prose/recursive.go:280-307 | Adjoining slices that tile the text, each within budget or one character, each as long as the budget allows. |
| `RecursiveSplit.MergeGreedyPieces` | internal/indexer/chunk/prose/recursive.go:311-332 | The loop computes greedy merging as defined by recursion on the list. |
| `RecursiveSplit.MergedCovers` | internal/indexer/chunk/prose/recursive.go:311-332 | Merging keeps the tiling of the source. |
| `RecursiveSplit.MergedFits` | internal/indexer/chunk/prose/recursive.go:311-332 | Merging never makes a piece that does not fit. |
| `RecursiveSplit.MergedIsForced` | internal/indexer/chunk/prose/recursive.go:311-332 | Merging stops only where the next part would break the budget. |
| `RecursiveSplit.MergedNeeded` | internal/indexer/chunk/prose/recursive.go:311-332 | Merging only removes cuts. |
| `RecursiveSplit.Split` | internal/indexer/chunk/prose/recursive.go:45-77 | For any level: the pieces tile the text, fit, are cut only where needed and are packed; none exactly for blank text. |
| `RecursiveSplit.SplitParts` | internal/indexer/chunk/prose/recursive.go:61-76 | The loop over the parts keeps all of that across part boundaries. |
| `RecursiveSplit.RecursiveSplit` | internal/indexer/chunk/prose/recursive.go:31-43 | Terminates; spans are ordered and disjoint; each piece has the non-space characters of its span, and what whitespace kept apart there is kept apart in the piece; the non-space characters are conserved in order; every piece is within budget or one character; each cut lies at a delimiter inside a stretch over the budget that has no coarser delimiter; no piece has room for what its successor starts with; a text within the budget stays whole. |
| `ByteLines.JoinSlice` | internal/indexer/chunk/line_window.go:141-149 | Lines s to e joined are the joined text between their byte offsets. |
| `ByteLines.RawLinesAreSplitLines` | internal/indexer/chunk/stream.go:99-155 | Reading raw bytes line by line (LF, CR, CRLF, trailing empty line) gives the lines of the normalised text. |
| `LineWindow.NormalizeIsIdempotent` | internal/indexer/chunk/line_window.go:109-122 | Normalised sizes are those configured or the defaults 40 and 8, an overlap that is too large becomes a quarter of the window, 0 <= overlap < window, and normalising twice changes nothing. |
| `LineWindow.SearchAccepts` | internal/indexer/chunk/line_window.go:160-173 | The binary search ends at its lower bound or at an accepted end. |
| `LineWindow.SearchFindsLargest` | internal/indexer/chunk/line_window.go:160-173 | For a downward closed test the binary search finds the largest accepted end. |
| `LineWindow.WindowEndFits` | internal/indexer/chunk/line_window.go:151-173 | A window is one line, blank or within the token limit, and never longer than configured. |
| `LineWindow.WindowEndLongest` | internal/indexer/chunk/line_window.go:151-173 | When counts grow with text the window is the longest that is blank or fits. |
| `LineWindow.LineOffsets` | internal/indexer/chunk/line_window.go:141-149 | Each offset is the base plus the length of the lines before with their terminators. |
| `LineWindow.BinarySearch` | internal/indexer/chunk/line_window.go:160-173 | The loop is the search by recursion. |
| `LineWindow.SlideWindowEmit` | internal/indexer/chunk/line_window.go:125-200 | Terminates and emits exactly the chunks of the window plan, for normalised sizes. |
| `LineWindow.WindowsAreGood` | internal/indexer/chunk/line_window.go:125-200 | Every emitted chunk is the window its line numbers name, its snippet is the joined text between its byte offsets, it is not blank and within the token limits or one line. |
| `LineWindow.StretchStaysTogether` | internal/indexer/chunk/line_window.go:190-197 | The overlap keeps neighbours together: any stretch of at most overlap + 1 lines that is not blank (and, under a token limit, fits) lies whole in one emitted chunk. |
| `LineWindow.NoLineIsLost` | internal/indexer/chunk/line_window.go:125-200 | Without a minimum-token filter every line that is not blank is in some emitted chunk. |
| `LineWindow.LostLinesAreSmall` | internal/indexer/chunk/line_window.go:176-189 | With a minimum-token filter a line that is not blank is lost only if the window that begins with it has too few tokens, or the last window, if that contains it, has. |
| `LineWindow.ChunksOverlap` | internal/indexer/chunk/line_window.go:190-197 | Without a filter and without blank lines each chunk begins exactly the overlap before the end of the one before it, or one line on; the first begins with the first line and the last ends with the last. |
| `Streaming.NumberedIsDistinct` | internal/indexer/chunk/chunk.go:153-155 | The chunks of a file never share an ordinal, so their ids are distinct. |
| `Streaming.BatchCollector.constructor` | internal/indexer/chunk/batches.go:24-34 | Starts empty; the size defaults when it is not positive. |
| `Streaming.BatchCollector.Add` | internal/indexer/chunk/batches.go:36-49 | Appends one chunk, numbered next; full batches are handed over at once. |
| `Streaming.BatchCollector.Flush` | internal/indexer/chunk/batches.go:51-59 | What was handed over is every chunk added, in order and numbered from one; all batches are full except perhaps the last. |
| `Streaming.BatchCollector.TotalChunks` | internal/indexer/chunk/batches.go:61-63 | The number of chunks added. |
| `Streaming.LineReader.constructor` | internal/indexer/chunk/stream.go:88-97 | Reads from behind a byte order mark. |
| `Streaming.LineReader.ReadLine` | internal/indexer/chunk/stream.go:99-147 | Gives the next line of the rest, end of file exactly when none is left, and an error exactly when line plus terminator exceed the limit. |
| `Streaming.LineReader.EndLine` | internal/indexer/chunk/stream.go:121-143 | A CRLF pair is one terminator; a final terminator leaves an empty last line. |
| `Streaming.LineReader.MarkTrailingEmpty` | internal/indexer/chunk/stream.go:149-155 | Notes an empty last line exactly at the end of the input. |
| `Streaming.Move` | internal/indexer/chunk/stream.go:73-78 | Moving the buffer on keeps it a slice of the lines at its true byte offset. |
| `Streaming.StreamChunkBatched` | internal/indexer/chunk/stream.go:10-86 | Refuses exactly the inputs with a line over the limit; otherwise the collector holds the window plan of all lines. |
| `ChunkFiles.CheckMaxLineBytes` | internal/indexer/chunk/chunk.go:24-40 | True exactly when some line of the file exceeds the limit. |
| `ChunkFiles.LongFromFindsLines` | internal/indexer/chunk/chunk.go:24-40 | The running byte count finds exactly the files with a line over the limit. |
| `ChunkFiles.StreamAcceptsIff` | internal/indexer/chunk/stream.go:117-120 | For every file: the stream accepts it if and only if no line behind the byte order mark is too long and no terminated one has exactly the limit. |
| `ChunkFiles.MemoryAcceptsIff` | internal/indexer/chunk/chunk.go:24-40 | For every file: the in-memory path accepts it if and only if no line behind the mark is too long and mark and first line together are within the limit. |
| `ChunkFiles.LimitsAgreeIff` | internal/indexer/chunk/stream.go:117-120 | For every file: the two agree if and only if some line is too long anyway, or no terminated line has just the limit exactly when the mark fits. |
| `ChunkFiles.LimitsDiffer` | internal/indexer/chunk/chunk.go:28-37 | Concrete files on which the two limits disagree, one in each direction. |
| `ChunkFiles.ShortLinesPassBoth` | internal/indexer/chunk/chunk.go:24-40 | Files whose lines are all shorter than the limit pass both. |
| `ChunkFiles.LinesAfterBOM` | internal/indexer/chunk/chunk.go:113-118 | The mark belongs to the first line for the in-memory limit only. |
| `ChunkFiles.FileChunks` | internal/indexer/chunk/line_window.go:44-54 | The in-memory path emits the window plan of the normalised lines. |
| `ChunkFiles.SameWindows` | internal/indexer/chunk/stream.go:10-86 | Both paths have the same window plan, the empty file included. |
| `ChunkFiles.ProcessInMemory` | internal/indexer/chunk/batches.go:67-121 | The in-memory batches concatenate to the numbered chunks; every batch is full but the last. |
| `ChunkFiles.ProcessStreaming` | internal/indexer/chunk/batches.go:67-121 | Streaming refines in-memory chunking: for every accepted file the batches concatenate to the in-memory chunks with the same ordinals; every batch is full but the last. |
| `ChunkFiles.SameBatches` | internal/indexer/chunk/batches.go:36-59 | Equal chunks and equal batch size mean equal batches. |
| `ChunkFiles.BothPaths` | internal/indexer/chunk/batches.go:67-121 | A file that both paths accept is stored in the same batches by either. |
| `MarkdownModel.FenceCloses` | internal/indexer/chunk/prose/markdown.go:240-273 | A closing fence has the marker of the fence it closes and is at least as long. |
| `MarkdownModel.RowNotBlank` | internal/indexer/chunk/prose/markdown.go:275-281 | A table row is never blank. |
| `Markdown.FeedKeeps` | internal/indexer/chunk/prose/markdown.go:63-134 | Every line keeps the tiling of the input by segments, and keeps start lines right exactly unless it is a stale table row. |
| `Markdown.FlushAllKeeps` | internal/indexer/chunk/prose/markdown.go:136-151 | The final flush completes the tiling. |
| `Markdown.SegmentsTileTheInput` | internal/indexer/chunk/prose/markdown.go:51-61 | Segments are slices of the input in order with only blank lines between; all start lines are right if and only if no row of the document comes right after a code block with only code, fences and headings between it and an earlier row. |
| `Markdown.StaleIffOrphan` | internal/indexer/chunk/prose/markdown.go:93-121 | The rows for which the parser has kept an old start line are exactly those. |
| `MarkdownRoles.ModeIsParser` | internal/indexer/chunk/prose/markdown.go:63-134 | The part each line plays can be read off the lines: front matter, code and pending rows are what the parser has in its state. |
| `MarkdownRoles.RowsPendingIff` | internal/indexer/chunk/prose/markdown.go:93-125 | Rows are pending if and only if there is an earlier row with only code, fences and headings after it. |
| `Markdown.ParseConserves` | internal/indexer/chunk/prose/markdown.go:51-208 | The non-blank lines of all segments, in order, are exactly the non-blank input lines. |
| `MarkdownTables.CountAs` | internal/indexer/chunk/prose/markdown.go:63-134 | What each line does to the rows and headings read and to those that have come out, by the part it plays. |
| `MarkdownTables.TablesSurviveIff` | internal/indexer/chunk/prose/markdown.go:93-125 | Exact condition: the tables that come out are exactly the rows of the document if and only if no row is followed directly by a heading or a fence; and then the headings in prose are exactly those of the document. |
| `MarkdownTables.HeadingBecomesTable` | internal/indexer/chunk/prose/markdown.go:102-125 | In a document of a row, a heading and text, the table that comes out is the heading. |
| `MarkdownTables.AsciiHeadingBecomesTable` | internal/indexer/chunk/prose/markdown.go:102-125 | A concrete three-line document of that kind. |
| `Markdown.OrphanRowHappens` | internal/indexer/chunk/prose/markdown.go:93-121 | A code block after a table makes the next row one with a wrong start line, with a heading between them or not. |
| `Markdown.AsciiOrphanRows` | internal/indexer/chunk/prose/markdown.go:93-121 | Two concrete documents with a wrong start line. |
| `MarkdownBlocks.AfterReads` | internal/indexer/chunk/prose/markdown.go:51-61 | In any document the lines from n on are read from the state reached there. |
| `MarkdownBlocks.CodeBlockStaysWhole` | internal/indexer/chunk/prose/markdown.go:81-101 | A fenced block is one segment whatever its lines look like, wherever it stands. |
| `MarkdownBlocks.FrontMatterStaysWhole` | internal/indexer/chunk/prose/markdown.go:66-80 | Front matter is one segment that starts at line one. |
| `MarkdownBlocks.TableStaysWhole` | internal/indexer/chunk/prose/markdown.go:111-125 | A table followed by text is one segment. |
| `MarkdownBlocks.LastTableStaysWhole` | internal/indexer/chunk/prose/markdown.go:143-146 | A table that ends the document is one segment. |
| `MarkdownBlocks.SectionStaysWhole` | internal/indexer/chunk/prose/markdown.go:102-110 | The text under a heading up to the next is one segment titled by the heading and placed under its path. |
| `MarkdownBlocks.ScopeIsPath` | internal/indexer/chunk/prose/markdown.go:229-238 | The scope path keeps the enclosing titles and ends in the new one. |
| `MarkdownBlocks.ScopesJoin` | internal/indexer/chunk/prose/markdown.go:153-158 | The scope text has every title in order with " > " between one and the next, and nothing else. |
| `MarkdownBlocks.SectionIsPlaced` | internal/indexer/chunk/prose/markdown.go:153-158 | So the scope of a section names exactly the titles it is under. |
| `MarkdownBlocks.OpenCodeBlockStaysWhole` | internal/indexer/chunk/prose/markdown.go:136-140 | A fenced block that is never closed is one segment. |
| `MarkdownBlocks.OpenFrontMatterStaysWhole` | internal/indexer/chunk/prose/markdown.go:141-142 | Front matter that is never closed is one segment. |
| `MarkdownBlocks.LastSectionStaysWhole` | internal/indexer/chunk/prose/markdown.go:147-151 | The text under the last heading is one segment titled by it. |
| `MarkdownBlocks.TextStaysWhole` | internal/indexer/chunk/prose/markdown.go:126-134 | Text under no heading is a paragraph of its own. |
| `MarkdownLines.HeadingIff` | internal/indexer/chunk/prose/markdown.go:210-227 | A line is a heading of this level and title if and only if it is one to six hashes, a space and the title, with more space around them or none. |
| `MarkdownLines.FenceIff` | internal/indexer/chunk/prose/markdown.go:240-258 | A line opens a fence if and only if it begins with three or more of a fence character, with space before them or none. |
| `MarkdownLines.CloseIff` | internal/indexer/chunk/prose/markdown.go:260-273 | A line closes a fence if and only if it is at least as many of its marker, with space around them or none. |
| `MarkdownLines.RowIff` | internal/indexer/chunk/prose/markdown.go:275-281 | A line is a table row if and only if its text begins or ends with a bar. |
| `MarkdownBlocks.AsciiMeetsThem` | internal/indexer/chunk/prose/markdown.go:210-281 | Headings, fences and rows recognised in ASCII text meet the conditions of the statements above. |
| `MarkdownParser.MdState.constructor` | internal/indexer/chunk/prose/markdown.go:46-48 | The empty parser. |
| `MarkdownParser.MdState.FeedLine` | internal/indexer/chunk/prose/markdown.go:63-134 | The object does to its fields what the line function says, and emits the same segments. |
| `MarkdownParser.MdState.Emit` | internal/indexer/chunk/prose/markdown.go:179-208 | Emits or drops what is held, with its title and scope. |
| `MarkdownParser.MdState.Flush` | internal/indexer/chunk/prose/markdown.go:160-177 | Emits held prose under its own or a pending heading. |
| `MarkdownParser.MdState.Finish` | internal/indexer/chunk/prose/markdown.go:136-151 | The final flush. |
| `MarkdownParser.ChunkMarkdown` | internal/indexer/chunk/prose/markdown.go:284-293 | Emits all segments of the parse in order until the callback fails. |
| `MarkdownParser.StreamMarkdown` | internal/indexer/chunk/prose/stream.go:20-37 | Streaming refines whole-document chunking: line by line, for any emitter state machine and any failure point, the chunks, the state and the failure are those of the whole parse. |
| `MarkdownParser.ParseExtends` | internal/indexer/chunk/prose/stream.go:61-69 | The segments of a document begin with those of its first lines. |
| `MarkdownParser.StillFailed` | internal/indexer/chunk/prose/stream.go:61-69 | What has failed on the first lines stays as it is on the whole document. |
| `MarkdownParser.EmptyDocument` | internal/indexer/chunk/prose/stream.go:71-84 | A file without lines and one with an empty line both yield nothing. |
| `MarkdownFiles.SameDocument` | internal/indexer/chunk/prose/stream.go:86-145 | The lines read from the bytes of a file are the document its normalised content splits into, the empty file included. |
| `MarkdownFiles.AsciiEmptyIsNothing` | internal/indexer/chunk/prose/markdown.go:51-61 | In ASCII text an empty line is nothing, as the statement above needs for the empty file. |
| `MarkdownFiles.StreamMarkdownFile` | internal/indexer/chunk/prose/stream.go:13-39 | From bytes to chunks: unless a line is too long, streaming a file gives the chunks of the whole document, in order, with the same failure at the same place. |
| `MarkdownFiles.ChunkMarkdownFile` | internal/indexer/chunk/prose/markdown.go:284-293 | The same file chunked as a whole. |
| `GlobSearch.WindowDoubles` | internal/store/zvec/glob_topk.go:24-36 | Below the document count the next window is exactly the double, capped, and larger; 64-bit overflow never shows. |
| `GlobSearch.MatchesPrefix` | internal/store/zvec/collection.go:530-543 | Matches within a window are a prefix of all matches. |
| `GlobSearch.EnoughInWindow` | internal/store/zvec/collection.go:545-551 | Enough hits in a window are the hits of the whole ranking. |
| `GlobSearch.MatchesInOrder` | internal/store/zvec/collection.go:530-543 | Every document that exists and matches is found at the place that counts those before it. |
| `GlobSearch.MatchesCount` | internal/store/zvec/collection.go:530-543 | And nothing else is found. |
| `GlobSearch.FirstOfIs` | internal/store/zvec/collection.go:530-543 | The hits are the first topK of them, or all. |
| `GlobSearch.FilterHits` | internal/store/zvec/collection.go:530-543 | The first topK matching documents of the results. |
| `GlobSearch.SearchWithGlobExpansion` | internal/store/zvec/collection.go:508-554 | Terminates; windows double up to the collection; each but the last lacked hits; the result is exactly the first topK of the fully filtered ranking; fails exactly when the collection is missing, cannot be counted, or a query made fails. |
| `SemVer.IdentifierOrder` | internal/update/github.go:335-367 | On numbers that fit 64 bits the identifier comparison is antisymmetric and transitive, ties included. |
| `SemVer.ComparePrerelease` | internal/update/github.go:306-333 | The loop is the lexicographic comparison with a release above its prereleases. |
| `SemVer.CompareNumbers` | internal/update/github.go:264-279 | The loop is the comparison of core numbers. |
| `SemVer.MissingIsZero` | internal/update/github.go:264-279 | A core number that is missing counts as zero. |
| `SemVer.VersionGreater` | internal/update/github.go:254-281 | The comparison of normalised texts by core, then prerelease; equal texts are never greater. |
| `SemVer.Asymmetric` | internal/update/github.go:254-281 | In range, no two versions are each greater than the other. |
| `SemVer.Transitive` | internal/update/github.go:254-281 | In range, greater is transitive. |
| `SemVer.NotGreaterTransitive` | internal/update/github.go:254-281 | In range, not greater is transitive: with the two above, a strict weak order. |
| `SemVer.SameLengthOrder` | internal/update/github.go:335-367 | Digit texts of equal length compare as their numbers. |
| `SemVer.DigitsDecide` | internal/update/github.go:335-367 | Numbers compare by how many digits they have behind leading zeros, and by those digits at equal length. |
| `SemVer.OverflowIsRightIff` | internal/update/github.go:339-344 | Exact condition, leading zeros included: with a number that does not fit, the comparison is right if and only if byte order agrees with the digits behind leading zeros. |
| `SemVer.OverflowCycle` | internal/update/github.go:335-367 | Three identifiers compared in a circle: 2 < 10 < 10^20 < 2. |
| `SemVerPrecedence.RenderReads` | internal/update/github.go:283-304 | Round trip: splitting a rendered version gives back its numbers and prerelease identifiers, build metadata dropped. |
| `SemVerPrecedence.RenderIsNormal` | internal/update/github.go:248-252 | Normalising a rendered version changes nothing. |
| `SemVerPrecedence.TextOrder` | internal/update/github.go:254-367 | The comparison of texts is the precedence of the versions, as a three-way result. |
| `SemVerPrecedence.GreaterIsPrecedence` | internal/update/github.go:254-281 | On well-formed versions whose numbers fit 64 bits, greater is exactly section 11 precedence of Semantic Versioning 2.0.0. |
| `SemVerPrecedence.LeadingVIgnored` | internal/update/github.go:248-252 | A leading v changes nothing. |
| `SemVerPrecedence.OverflowCycleOfVersions` | internal/update/github.go:254-367 | Three versions of any one release in a circle. |
| `LogRotation.RotatingWriter.constructor` | internal/logging/rotate.go:21-40 | From no log files: an empty active file, defaults for sizes that are not positive. |
| `LogRotation.RotatingWriter.Open` | internal/logging/rotate.go:42-56 | Appends to an existing file with its size, or creates an empty one. |
| `LogRotation.RotatingWriter.Write` | internal/logging/rotate.go:58-80 | Rotates exactly when the record does not fit; the record is then last in the active file; kept: gapless backups within the count, backups oldest to newest plus active are a suffix of all records, every file within the limit or one record. |
| `LogRotation.RotatingWriter.Close` | internal/logging/rotate.go:82-91 | Closing keeps all of that. |
| `LogRotation.RotatingWriter.Rotate` | internal/logging/rotate.go:93-128 | Every backup moves up by one, the active content becomes the first, the active file is empty. |
| `LogRotation.RotatingWriter.ShiftBackups` | internal/logging/rotate.go:103-114 | Each backup moves up by exactly one; the oldest is dropped. |
| `LogRotation.ShiftedRecords` | internal/logging/rotate.go:103-128 | Shifting keeps the order of all retained records. |
| `LogRotation.ShiftKeeps` | internal/logging/rotate.go:93-128 | Rotation keeps the suffix, the numbering and the size limits. |
| `LogRotation.BackupsAreNumbered` | internal/logging/rotate.go:93-128 | The backups are numbered one to some k within the count. |
| `ProjectRegistry.FreshKeepsLoadable` | internal/daemon/project_manager.go:109-148 | A new id on a new root keeps ids and roots unique. |
| `ProjectRegistry.Disk.WriteRegistration` | internal/daemon/project_manager.go:189-199 | Success sets exactly that registration; failure changes nothing. |
| `ProjectRegistry.Disk.RemoveRegistration` | internal/daemon/project_manager.go:385-399 | Success drops exactly that registration; failure changes nothing. |
| `ProjectRegistry.Disk.FindByRoot` | internal/daemon/project_manager.go:203-211 | Finds a registration of the root exactly when there is one. |
| `ProjectRegistry.Disk.FindById` | internal/daemon/project_manager.go:215-222 | Finds a registration with the folded id exactly when there is one. |
| `ProjectRegistry.Disk.UniqueCollectionID` | internal/daemon/project_manager.go:260-271 | The first of eight generated ids that no registration has; none exactly if all are taken. |
| `ProjectManagement.PersistNewProject` | internal/daemon/project_manager.go:509-537 | Success writes exactly both files; failure leaves the registry alone and, if putting project.yaml back works, everything; it fails exactly if a file operation did. |
| `ProjectManagement.AddProject` | internal/daemon/project_manager.go:427-504 | Success: project.yaml and a registration of the root name the same collection; with a project.yaml the registration takes its id letter for letter; an unregistered root gets an id nobody has; failure leaves the registry alone. Every refusal has its exact condition, and anything else fails only because a file operation did. |
| `ProjectManagement.AddWithoutFile` | internal/daemon/project_manager.go:444-472 | Without project.yaml it is written, for the registration of the root or for a new one; refused exactly if no id is free. |
| `ProjectManagement.AddWithFile` | internal/daemon/project_manager.go:474-503 | The id of project.yaml is registered; refused exactly if the root is registered under another, or the id for another root. |
| `ProjectManagement.NewProjectCollection` | internal/daemon/project_manager.go:542-593 | Success: a new id in both files, settings kept, daemon address dropped, and exactly the registration that project.yaml named dropped if it is this root's. Every refusal has its exact condition, and anything else fails only because a file operation did. |
| `ProjectManagement.RemoveProject` | internal/daemon/project_manager.go:597-636 | Success removes exactly the root's registration and project.yaml; an unregistered root is left alone; it fails exactly if the registry does not load or a file operation fails. |
| `ProjectCommands.CaptureSnapshot` | cmd/mcp-semantic-search-zvec-go/project_commands.go:160-174 | The root's registration and project.yaml, or an error exactly when the registry does not load. |
| `ProjectCommands.Restore` | cmd/mcp-semantic-search-zvec-go/project_commands.go:182-225 | Success reinstates the saved registration in place of the root's present one and the saved project.yaml; other roots' files never change; it succeeds exactly if the registry loads and no file operation fails. |
| `ProjectCommands.AddUndone` | cmd/mcp-semantic-search-zvec-go/project_commands.go:182-225 | Restoring undoes an add exactly. |
| `ProjectCommands.RemoveUndone` | cmd/mcp-semantic-search-zvec-go/project_commands.go:182-225 | Restoring undoes a removal exactly. |
| `ProjectCommands.ForkUndone` | cmd/mcp-semantic-search-zvec-go/project_commands.go:182-225 | Restoring undoes a change of collection exactly. |
| `ProjectCommands.CommandProjectAdd` | cmd/mcp-semantic-search-zvec-go/project_commands.go:103-131 | Adding an unregistered root keeps the registry loadable; adding a registered one keeps it so if and only if project.yaml is missing or spells the id alike; a refused reload leaves everything as it was, or says that putting it back failed; otherwise root and project.yaml agree. Its answer is decided exactly by the refusals, the reload, and file operations that failed. |
| `ProjectCommands.CommandProjectRemove` | cmd/mcp-semantic-search-zvec-go/project_commands.go:229-264 | Keeps the registry loadable; exactly the registrations of other roots remain; a refused reload leaves everything as it was, or says that putting it back failed. |
| `ProjectCommands.CommandProjectNewCollection` | cmd/mcp-semantic-search-zvec-go/project_commands.go:304-331 | A new id with the old settings; the registry stays loadable if and only if the root's project.yaml named its collection; if the previous registration cannot be removed it is not loadable any more; a refused reload is rolled back only in the first case, and then exactly. |
| `ProjectCommands.KeptPreviousBreaks` | internal/daemon/project_manager.go:582-590 | A fork that cannot remove the previous registration leaves the root registered twice. |
| `ProjectCommands.ForkKeepsLoadableIff` | internal/daemon/project_manager.go:578-592 | Exact condition: a fork leaves a loadable registry if and only if the root was unregistered or its project.yaml names the registered collection. |
| `ProjectCommands.ReaddKeepsLoadableIff` | internal/daemon/project_manager.go:475-503 | Exact condition: adding a registered root again keeps the registry loadable if and only if the two ids are spelt alike. |
| `ProjectCommands.OtherCaseBreaks` | internal/daemon/project_manager.go:475-503 | A concrete registry that adding a root again makes unloadable. |
| `ProjectCommands.ForkWithoutFileBreaks` | internal/daemon/project_manager.go:578-592 | A concrete registry that a new collection makes unloadable. |

## Left out

- IndexStores.Index.UpsertChunks: durability after a failed flush is not modelled; a flush failure is a failure after which any part of the batch may be stored.
- IndexStores.Index.JournalAppend: torn records and lines beyond the scanner's limit are not modelled; an append happens whole or not at all.
- IndexStores.Index.DeleteByIDs: empty ids, which the code skips, do not occur.
- Indexing.Run: compaction, progress records, statistics and the fallback that wipes in place when the binary has no vector store are not modelled.
- Indexing.UpsertBatches: the embedder, cancellation and oversized files are one nondeterministic stop between batches; a file that changes while it is being chunked is one whose chunks are those of some content.
- Desync.ManifestZvecDesync: manifest read errors before the chunk count are not modelled, and a missing manifest file is a manifest without rows.
- Starting.Start: the binary contains the native vector store; a missing collection counts as an empty one, except in a forced run, which meets either; what recovery of stalled progress writes before the check is not modelled.
- Staging.StagedIndex.ForcePurge: with no serving collection the delete of the source opens one and so creates it, empty; the model leaves it missing.
- Staging.StagedIndex.ForceRun: an identity change, which removes the index before the run, and the promotion hook used by other builds are not modelled.
- RegistryProtocol.StepKeepsInv: goroutines that wait for a cold open only retry, so they are the borrow step again; panics in workspace init are failed inits; the drain timeout of Close may fire at any moment.
- Shutdown.StepKeepsInv: wait timeouts may fire at any moment; the coordinator is always present; the outcome of closing a stale collection during lock recovery is not modelled.
- RecursiveSplit.RecursiveSplit: texts are ASCII, because the word and clause splitters test single bytes for Unicode space; two guards for empty parts that cannot be reached are left out.
- RecursiveSplit.SplitByChars: for ASCII a byte is a character, so invalid UTF-8 is not modelled.
- LineWindow.SlideWindowEmit: blankness of text is an arbitrary predicate, Unicode trimming is not modelled.
- LineWindow.StretchStaysTogether: under a token limit a stretch that alone exceeds the limit is not claimed to stay together.
- Streaming.StreamChunkBatched: read errors and errors of the batch callback are not modelled.
- Markdown.SegmentsTileTheInput: a segment's end line is not claimed, and lines are recognised in ASCII text.
- MarkdownParser.StreamMarkdown: the emitter (budget, overlap, line ranges) is an arbitrary state machine that may fail, so the statement covers it but says nothing about its chunks.
- MarkdownFiles.StreamMarkdownFile: its line reader repeats the one of `Streaming`, which is used for both; decoding a line is an arbitrary function.
- GlobSearch.SearchWithGlobExpansion: whether a path matches a glob is an arbitrary predicate.
- SemVer.VersionGreater: versions are ASCII; trimming of other Unicode spaces is not modelled.
- LogRotation.RotatingWriter.Write: failing file operations, the truncation fallback of a failed rename and partial writes are not modelled.
- ProjectRegistry.Disk.WriteRegistration: a write is atomic or fails; case-insensitive file systems, the management lock file and YAML syntax are not modelled.
- ProjectManagement.RemoveProject: a file that is already gone counts as removed.
- The order of lists read from maps or tables, where no result depends on it.
- Tree-sitter chunking: its trees come from a library that is not part of this model.
- Chunk fields other than lines, byte offsets, snippet and ordinal.
- The command that moves a project to a new root, which would repeat the snapshot argument.
- HTTP, MCP, the embedding clients, the file watcher, daemon launch, reranking and search statistics.
