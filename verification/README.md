# Verified model of postgres-sync-go

postgres-sync-go keeps *shapes*: queries over PostgreSQL tables whose results clients follow by
reading a change log. This project models the parts that have to be right for a client to end up
with the right rows, and proves it for every run and every input.

- **One shape** (`Strings`, `Offsets`, `Keys`, `Diff`, `ShapeLog`): rows, the diff of two row maps,
  messages, offsets, the change log and how it is read.
- **Its log** (`LogOrder`, `EpochOrder`, `EpochReads`, `CommitHeaders`, `DiffContents`, `RefreshContents`,
  `Client`, `Replay`, `WireClient`, `Targeted`, `Sse`): what each message says, when the log is ordered, what
  it replays to for a client that sees only wire keys, that it is delivered exactly once within an epoch,
  what happens across epochs, and that a refresh by keys does what a full one would.
- **All shapes** (`Canonical`, `Catalog`, `CatalogRuns`, `Wakeups`, `Generations`, `Manager`): the handle
  table, its two indexes, waiters and stored copies as a value with invariants over runs; `Manager` is the
  class whose loops and fields are tied to it.
- **Replication** (`Database`, `Replication`, `StaleSnapshot`, `ChangeBatch`, `RefreshClass`, `FanOut`,
  `CommitKeys`): the server as a sequence of versions, the stream as a state machine, the keys of a transaction, and
  which shapes a commit refreshes.
- **Storage** (`DiskStore`, `StoredRuns`): the chunked disk log against the plain map, and under every run
  of the catalogue.
- **Text** (`Sanitizer`, `DependencyScan`, `QueryGrammar`, `ScanExact`, `Tokenizer`, `Identifiers`): the
  SQL sanitizer, the dependency scanner against a query grammar, and identifier parsing.

Rows are maps from column to text or NULL, and a missing column reads as NULL. The canonical
definition stands for its digest; SHA-256, MD5 and JSON are taken to be injective. Query results, store
outcomes, clocks, timeouts and what a wait returns are inputs. An LSN covers the commits whose record
starts before it: those are the ones that a server resuming there skips.

## Where the code needs more than it checks

Each of these is a condition that the code relies on without checking it. The members named give the exact
condition, a failing input, or both.

- Deleting an old tombstone drops the digest entry of its replacement (`Catalog.DeleteKeepsIndexIff`).
- A shape refreshed twice by one commit, as for two partitions of its root, gets a log that is out of
  order (`LogOrder.SameCommitTwiceBreaksOrder`, `EpochOrder.EpochOrderedIff`).
- Reconnecting without a checkpoint on record keeps shapes that may miss commits
  (`Replication.ResumeWithoutCheckpointIff`, `Replication.MissingCheckpointLosesCommit`).
- A snapshot registered after commits that it does not show stays wrong where they changed it, until a
  later commit touches the same rows (`StaleSnapshot.StaleSnapshotIff`,
  `StaleSnapshot.LateSnapshotStaysWrong`).
- A refresh by keys prints the keys of the changed leaf, the snapshot those of the shape's relation. A client
  of a shape on a partition root keeps a second copy of a row that it was sent under one and that is updated
  under the other, and does not notice its deletion (`WireClient.WireReplayIff`,
  `WireClient.PartitionChangeGoesWrong`).
- A shape that logs only changes sends none of the rows it starts with (`Replay.BaselinePlusLog`).
- An upsert starts a new epoch under the same handle and reads compare offsets alone, so a client of the
  old epoch may be sent the new log without its baseline (`EpochReads.ReadAcrossEpochs`,
  `EpochReads.CarriedOverIff`, `EpochReads.OldCommitAccepted`, `Sse.TwoEpochStream`).
- A row with an empty key signature is never refreshed by keys (`Targeted.TargetedRefinesFull`), and a
  relation without a primary key records no change at all (`ChangeBatch.ChangeBatch.Add`).
- Composite batch keys can overwrite each other and a NULL key is taken for the text `<nil>`
  (`ChangeBatch.KeysApartIff`, `ChangeBatch.NullReadsAsNil`), signatures with the
  separator in a value are ambiguous (`Keys.SignatureAmbiguity`), and the keys `a=1` and `b=1` share a
  tag (`Replay.MoveOutExactIff`).
- The scanner loses the tables of a FROM list after a join condition with a subquery and the first table of a
  parenthesised join, and dots in quoted schema names let one table hide another
  (`ScanExact.EveryTableFoundIff`, `ScanExact.ListAfterOnIsLost`, `ScanExact.NestedJoinLosesItsFirst`,
  `ScanExact.DottedNamesCollide`). It misreads three-part names, FROM inside an expression and unquoted names
  that are not ASCII (`ScanExact.ThreePartNameMisfiled`, `ScanExact.FromInExpressionLosesTheList`,
  `RefreshClass.AccentedNameCut`), a name that WITH introduces hides the table of that name also outside its
  query (`Tokenizer.CteHidesTable`), and the TABLE command holds none of the keywords that make a shape a
  dependent one (`RefreshClass.TableCommandUnseen`). A keyword right after a digit is read as a keyword by the
  scanner and not by the keyword test (`RefreshClass.SubqueryIsDependent`, `RefreshClass.GluedSelectUnseen`).
- Chunk paths sort in append order only up to one million chunks (`DiskStore.SortedPaths`); a save
  that replaces the only chunk can be torn into a mixture (`DiskStore.InterruptedSaveIff`).
- A relation invalidation that fails half-way has stored tombstones for shapes that are still live in
  memory; a restart loses exactly those shapes (`CatalogRuns.HalfFailedInvalidation`,
  `CatalogRuns.HalfFailedRun`).
- Identifier parsing takes bytes for code points and changes every name that is not ASCII
  (`Identifiers.ReadUndoesPrintIff`).

## Model

| member | source | states |
|---|---|---|
| `Replication.SafeConfirmation` | internal/pg/replication.go:242-404 | In every state of every run of stream, apply, save, confirm, fail and reconnect steps, every LSN ever put in a standby status, the saved checkpoint, the start LSN and the server's flushed position are covered: each commit that starts before them is reflected in every live shape. A commit being applied is not confirmed. |
| `Replication.Convergence` | internal/pg/replication.go:521-574 | Over every run, although each targeted query may see any database version at or after its commit, once all commits are applied every live shape holds exactly its query on the final database, also when updates change primary keys. |
| `Replication.RunKeepsInv` | internal/pg/replication.go:120-326 | The system invariant (positions, checkpoint, phase, and what each shape reflects) is kept by every run of enabled, sound steps. |
| `Replication.StepKeepsInv` | internal/pg/replication.go:242-404 | Each of the sixteen kinds of step keeps the invariant, also when some shapes are exempt from being right. |
| `Replication.ResumeWithoutCheckpointIff` | internal/pg/replication.go:120-193 | Reconnecting without a checkpoint on record keeps the live shapes. It keeps the invariant if and only if the commits before the position it resumes from are all applied; then the start LSN and the flushed position are covered. |
| `Replication.MissingCheckpointLosesCommit` | internal/pg/replication.go:120-193 | A run from a new installation (connect, register, fail, a commit) after which reconnecting ends caught up with a shape that misses the commit. |
| `Replication.ConnectKeepsIff` | internal/pg/replication.go:120-193 | Reconnecting keeps every shape with its rows, unless there is a checkpoint whose slot or identity does not fit, and then none. With a usable checkpoint the stream starts there and skips exactly the commits before it or before the flushed position; with a new slot it starts at its consistent point. |
| `Replication.StepLeaves` | internal/pg/replication.go:120-404 | Each of the sixteen kinds of step removes a shape exactly when it is its tombstone or such a reconnect, and changes rows only of the shape that it queries. |
| `Replication.ShapesStay` | internal/pg/replication.go:120-404 | Over every run, a shape leaves only by its tombstone or by a reconnect with an unusable checkpoint, and its rows stay what they are until it is queried again. |
| `Replication.CommitProgress` | internal/pg/replication.go:521-593 | Saving the checkpoint of a commit records the position that skips exactly the commits before it; confirming sends that position, moves past the commit and keeps all shapes. |
| `Replication.StatusSent` | internal/pg/replication.go:326-404 | What each step tells the server: the position reached while streaming, what was confirmed while applying, and nothing in any other step; the checkpoint changes only in its two saves. |
| `StaleSnapshot.StaleSnapshotIff` | internal/protocol/service.go:166-200 | A snapshot of any version, registered in any phase: in every caught-up state of every run that keeps the shape, a row, or a whole dependent shape, is right if and only if it was queried again or the snapshot shows its current value. What stays wrong was last changed after the snapshot and by a commit already begun at the registration. |
| `StaleSnapshot.SnapshotAlwaysRightIff` | internal/protocol/service.go:166-200 | Registered in any phase, a snapshot is right in every caught-up state of every run if and only if it shows the part as it was after the last commit begun by then, or no run gets there without querying the part again. |
| `StaleSnapshot.OwedIsRefreshed` | internal/pg/replication.go:242-404 | A commit that changes a row or dependent shape and is still to be streamed is never passed over: whatever fails and reconnects, the part is queried again before the runtime is caught up. |
| `StaleSnapshot.LateSnapshotStaysWrong` | internal/protocol/service.go:166-200 | A run from a new installation after which registering the snapshot taken before a commit leaves the shape caught up without the inserted row. |
| `Database.UnrecordedKeyUnchanged` | internal/pg/replication.go:451-519 | A key that a transaction does not record, as an old or a new key, keeps its row in the table and in the partition root. |
| `Database.TargetedRefreshReflects` | internal/pg/replication.go:521-574 | Re-querying the touched keys at any versions from the commit on, key by key, makes the shape reflect the commit. |
| `Database.AllAppliedMeansEqual` | internal/pg/replication.go:521-574 | A shape that reflects all commits equals its query on the last version. |
| `Database.SnapshotReflects` | internal/pg/runtime.go:197-258 | A whole snapshot of any version reflects every commit up to that version. |
| `FanOut.ApplyChangeBatch` | internal/pg/replication.go:521-593 | Applying a commit is a sound run of catalogue operations, each called for by the changes of some relation: a refresh stores what a query for it returned, under the commit's LSN and transaction id. A live shape is lost only if a changed relation triggers it and it cannot be refreshed or its query finds no table, or the query of a targeted shape of its table finds none; whether or not the application succeeds. It succeeds when every query is answered and every save works. If it succeeds, every live shape that depends on a changed relation with keys was refreshed by those keys, or as a whole and once. Up to the checkpoint. |
| `FanOut.RefreshCandidates` | internal/pg/replication.go:549-574 | After the loop, each live targeted shape of the relation or its root has had exactly the changed keys refreshed from its query's answer; a missing relation has been invalidated. |
| `FanOut.RefreshOne` | internal/pg/replication.go:549-574 | One candidate: refreshed with exactly the changed keys from its query's answer, and that succeeds when the answer is saved. Shapes are lost only when its query finds no table, and only those of its table. |
| `FanOut.LostWasCondemned` | internal/pg/replication.go:521-643 | Over every run of operations that the changes of a commit call for, a shape that was live and is not was condemned: triggered and not refreshable, or on a table that a query did not find. |
| `FanOut.RefreshDependents` | internal/pg/replication.go:595-643 | After the loop, each live shape triggered by the relation can be refreshed as a whole and was, for the commit, by this relation or an earlier one: those that cannot be are gone. Each operation added is called for by the relation, and the loop succeeds when every query is answered and every save works. |
| `FanOut.RefreshDependent` | internal/pg/replication.go:605-640 | One triggered shape: deleted when it cannot be refreshed or its query finds no table, refreshed with the answer and the commit's metadata otherwise, and a failed query or save stops the commit with nothing done. All other shapes survive, and so does this one when it can be refreshed and its query is answered. |
| `FanOut.CandidateShapes` | internal/pg/replication.go:661-681 | The candidates are copies of live shapes, each handle once, and include every live shape of the relation and of its partition root. |
| `FanOut.StepShrinks` | internal/pg/replication.go:521-643 | Refreshing steps never bring a shape to life or change a definition. A refresh removes none, a delete only its shape, and a relation invalidation only shapes of that relation. |
| `CommitKeys.TouchedAreListed` | internal/pg/replication.go:451-593 | The keys that a transaction touches in a table or partition root are exactly the keys that the batch lists for the relations concerned, when keys have their columns, no NULLs, and composite ones no bars. |
| `CommitKeys.EveryTouchedKeyRefreshed` | internal/pg/replication.go:521-574 | After a successful application, every live targeted shape has had each key that the transaction touched in its table refreshed, also when it wrote several partitions of it. |
| `CommitKeys.EveryDependentRefreshed` | internal/pg/replication.go:595-643 | After a successful application, every live dependent shape that reads a table which the transaction touched has been refreshed as a whole. |
| `RefreshClass.ClassesPartition` | internal/pg/relation_cache.go:312-323 | A definition is refreshed by keys if and only if it is not a dependent one: the two classes partition all definitions. |
| `RefreshClass.SubqueryIsDependent` | internal/pg/relation_cache.go:312-323 | Every clause of the grammar with a SELECT in it makes its definition a dependent one, unless a digit stands right before the word. |
| `RefreshClass.KeywordTokenIsDependent` | internal/pg/relation_cache.go:312-323 | A definition with one of the seven words among the tokens of its clause is a dependent one, unless a digit stands right before the word. |
| `RefreshClass.GluedSelectUnseen` | internal/sqlinspect/inspect.go:8-13 | `1select` is read as a SELECT by the tokenizer and not recognised by the keyword test: the definition counts as refreshed by keys. |
| `RefreshClass.RefreshedIff` | internal/pg/relation_cache.go:325-372 | A dependent definition without subset is refreshed rather than dropped if and only if it depends, without wildcard, on its own table and one other, and its clause has exactly one SELECT token and none of NOT, EXISTS, WITH, JOIN, LATERAL, UNION, INTERSECT, EXCEPT. |
| `RefreshClass.OwnRelationTriggers` | internal/pg/relation_cache.go:380-395 | A dependent definition is triggered by its own relation, as the changed relation or as its root. |
| `RefreshClass.ExactlyOneRelated` | internal/pg/relation_cache.go:325-347 | A definition that supports a dependent refresh has exactly one related relation, and exactly its own relation and that one trigger it. |
| `RefreshClass.NamedTablesTriggerIff` | internal/pg/relation_cache.go:397-452 | Every table that the where clause of a definition names triggers it if and only if there is none, or the definition is a dependent one and the scan finds nothing, or loses no named table and no two of them, the definition's own relation included, share a key. For every clause text whose tokens, after sanitizing, are in the grammar, WITH included. |
| `RefreshClass.TableCommandUnseen` | internal/sqlinspect/inspect.go:8-13 | `x in (table allowed)` holds no keyword: the definition counts as refreshed by keys, and no change triggers it as a dependent. |
| `RefreshClass.AccentedNameCut` | internal/pg/dependency_scan.go:48-85 | The unquoted UTF-8 name `café` is read as `caf`. |
| `RefreshClass.DependenciesAre` | internal/pg/relation_cache.go:397-452 | The dependencies of such a definition are the tables found in its clause and its own relation, with the wildcard exactly when none is found; a definition refreshed by keys has none. |
| `RefreshClass.LiteralsDoNotChangeClass` | internal/pg/relation_cache.go:397-452 | The content of a literal never changes a definition's refresh class, dependencies or support for a dependent refresh. |
| `RefreshClass.FindDependencies` | internal/pg/relation_cache.go:397-452 | The loops over clauses and scanned relations compute the dependency set: one filed relation per key, the wildcard, and the definition's own relation last. |
| `RefreshClass.SupportsTargetedRefresh` | internal/pg/relation_cache.go:312-323 | True exactly for definitions without subset whose clauses hold no dependency keyword. |
| `RefreshClass.RequiresInvalidation` | internal/pg/relation_cache.go:380-395 | True exactly when the definition is dependent and has the wildcard, the relation or its root among its dependencies. |
| `RefreshClass.ClauseRequiresInvalidation` | internal/pg/relation_cache.go:349-372 | The token loop answers whether a clause with a keyword has a dropping keyword or not exactly one SELECT. |
| `RefreshClass.SupportsDependentRefresh` | internal/pg/relation_cache.go:325-347 | True exactly when the dependent definition has no wildcard, one related relation and only plain subqueries. |
| `ChangeBatch.EveryRecordedKeyListed` | internal/pg/change_batch.go:45-93 | Every key that a transaction records is among the listed changes of its relation, stamped with the commit, when the relation's keys have the same columns and no NULLs, and composite keys no bars. |
| `ChangeBatch.RecordedKept` | internal/pg/change_batch.go:45-59 | The batch holds, for each recorded key, the last change recorded for it. |
| `ChangeBatch.KeysApartIff` | internal/pg/change_batch.go:95-111 | The batch key keeps all distinct keys of a relation apart if and only if the primary key has one column; for any two or more names there are keys that overwrite each other. |
| `ChangeBatch.PlainKeysApart` | internal/pg/change_batch.go:95-111 | Two keys with the same columns and without NULLs and bars have the same batch key only if they are equal. |
| `ChangeBatch.NullReadsAsNil` | internal/pg/change_batch.go:95-111 | A NULL in a key is recorded as the text `<nil>`: a one-column key that is NULL is taken for that text and for no other. |
| `ChangeBatch.UpdateRecordsBothKeys` | internal/pg/replication.go:467-499 | An update records its new key and, when the old tuple is logged, its old key. |
| `ChangeBatch.EntriesSay` | internal/pg/replication.go:451-519 | What is recorded of a row change has its relation, operation and rows before and after, and the key columns of the new row of an insert, the old row of a delete, and either of an update. |
| `ChangeBatch.BuildBatchKey` | internal/pg/change_batch.go:95-111 | The loop computes the joined `name=value` text; the empty row has the empty key. |
| `ChangeBatch.ChangeBatch.Reset` | internal/pg/change_batch.go:38-43 | The batch becomes empty under the new transaction id. |
| `ChangeBatch.ChangeBatch.Add` | internal/pg/change_batch.go:45-59 | A new relation is listed once, a change without key adds no record, and a change replaces an earlier one with the same key. |
| `ChangeBatch.ChangeBatch.RelationIds` | internal/pg/change_batch.go:61-71 | The touched relations, each once, ascending. |
| `ChangeBatch.ChangeBatch.ChangesForRelation` | internal/pg/change_batch.go:73-93 | The records of a relation in key order, stamped with the commit. |
| `ChangeBatch.Record` | internal/pg/replication.go:451-519 | Recording an insert, update or delete adds exactly its entries; a relation without cached metadata is ignored. |
| `CatalogRuns.RunOk` | internal/shapes/manager.go:161-706 | Over every run of the public operations, with any failed saves, timeouts and restarts, in which no tombstone with a live replacement is deleted and no live handle is reused, the indexes are exact, every registered waiter has nothing to deliver and an open channel, and the store holds each shape or its tombstone. |
| `CatalogRuns.NoLostWakeup` | internal/shapes/manager.go:440-463 | Whatever happens after a waiter registers, short of its own timeout and a restart, either its channel is closed or its shape is live with nothing to deliver at its offset. |
| `Wakeups.WokenExactly` | internal/shapes/manager.go:440-463 | Over every run, short of its own timeout and a restart, a waiter's channel is closed at the end if and only if some step gave its shape a new epoch, appended to it, ended it or made its log longer: no wake-up is lost and none is spurious. |
| `Wakeups.WokenIff` | internal/shapes/manager.go:500-608 | Each step wakes a waiter if and only if it does one of these to its shape; a refresh without messages wakes nobody. |
| `Wakeups.RegistersIff` | internal/shapes/manager.go:440-463 | A wait registers if and only if its shape is live and has nothing to deliver at its offset, and disturbs no other waiter. |
| `Generations.RunDates` | internal/shapes/manager.go:667-698 | Over every run, restarts and undecodable shapes included, no two shapes are of one generation and none is above the counter. |
| `Generations.UpsertDates` | internal/shapes/manager.go:161-215 | A new shape is of a later generation than every shape in the table; a new epoch of a live one keeps all generations. |
| `CatalogRuns.StepOk` | internal/shapes/manager.go:161-706 | Each public operation, apart from those two cases, keeps all invariants of the catalogue. |
| `CatalogRuns.InvalidateIsKillAll` | internal/shapes/manager.go:306-349 | Saving all tombstones first and dropping the whole bucket afterwards leaves what deleting the shapes one by one would leave. |
| `Catalog.CrashRecovery` | internal/shapes/manager.go:667-698 | A manager rebuilt from the store at any point, with any shapes failing to decode, satisfies all invariants. A shape is live in it if and only if it was live, its copy decodes and its copy is not a tombstone; it has the same rows, offset and log. |
| `CatalogRuns.HalfFailedInvalidation` | internal/shapes/manager.go:306-349 | When a save fails in a relation invalidation, all its shapes stay live, and the next restart loses exactly those whose tombstones were saved before. |
| `CatalogRuns.HalfFailedRun` | internal/shapes/manager.go:306-349 | A run from the empty catalogue that ends with a live shape which the next restart loses. |
| `Catalog.DeleteKeepsIndexIff` | internal/shapes/manager.go:283-304 | Deleting keeps the indexes exact if and only if the handle is live or no live shape has its definition: deleting an old tombstone orphans its replacement. |
| `Catalog.CreateKeepsIndexIff` | internal/shapes/manager.go:191-214 | Creating a shape keeps the indexes exact if and only if its handle is not that of a live shape. |
| `Catalog.RelationIndexIsScan` | internal/shapes/manager.go:384-424 | The relation index answers what filtering all live shapes by relation key would. |
| `Catalog.OneLiveShapePerDefinition` | internal/shapes/manager.go:161-215 | Two live shapes whose definitions differ only in column order are the same shape, and the digest index finds it. |
| `Canonical.SameShapeIff` | internal/shapes/manager.go:130-155 | Two definitions have the same canonical form if and only if they are equal up to the order of their columns. |
| `Canonical.SortListIs` | internal/shapes/manager.go:1216-1224 | Canonical columns are in order and a permutation of the given ones. |
| `Manager.Manager.UpsertSnapshotAtOffset` | internal/shapes/manager.go:161-215 | The new catalogue and the returned shape are those of the upsert step, for an existing and for a new definition; after a failed save nothing has changed, including the generation. |
| `Manager.Manager.Delete` | internal/shapes/manager.go:283-304 | Missing handle, failed save and success: the new catalogue is the old one or that of the delete step. |
| `Manager.Manager.InvalidateByRelation` | internal/shapes/manager.go:306-349 | All live shapes of the bucket become tombstones and the bucket goes, or, when a save fails, only the earlier tombstones are stored; returns the handles in order. |
| `Manager.Manager.InvalidateAll` | internal/shapes/manager.go:351-382 | The live shapes are deleted in handle order up to the first failing save; returns those handles. |
| `Manager.Manager.ActiveByRelation` | internal/shapes/manager.go:384-406 | The live shapes of the bucket in handle order. |
| `Manager.Manager.ActiveStates` | internal/shapes/manager.go:408-424 | All live shapes in handle order. |
| `Manager.Manager.Register` | internal/shapes/manager.go:440-463 | The locked half of a wait: the read result, and a new channel registered exactly when there is nothing to deliver. |
| `Manager.Manager.RemoveWaiter` | internal/shapes/manager.go:639-653 | A timed-out channel leaves its list, other channels keep theirs, and a channel already woken changes nothing. |
| `Manager.Manager.Notify` | internal/shapes/manager.go:655-665 | Closes and unregisters exactly the channels waiting on the handle; no channel is closed twice. |
| `Manager.Manager.Append` | internal/shapes/manager.go:465-498 | Missing, deleted, failed save and success, tied to the append step. |
| `Manager.Manager.RefreshWithMetadata` | internal/shapes/manager.go:504-542 | Missing, deleted, failed save and success, tied to the full refresh; waiters wake exactly when there are messages. |
| `Manager.Manager.RefreshKeysWithMetadata` | internal/shapes/manager.go:548-608 | Missing, deleted, nothing targeted, failed save and success, tied to the refresh by keys. |
| `Manager.Manager.Load` | internal/shapes/manager.go:667-698 | The loop over stored shapes builds the rebuilt catalogue: tombstones for shapes that do not decode, indexes for the others, the largest generation. For when every tombstone is saved. |
| `Manager.NewManager` | internal/shapes/manager.go:667-698 | If every tombstone is saved, the rebuilt manager; if a save fails, no manager, and a store in which exactly the earlier undecodable shapes, in handle order, are tombstones. |
| `Manager.DecorateMessages` | internal/shapes/manager.go:930-965 | The loop computes the decorated refresh: tags, move-ins, move-outs, and one snapshot end exactly when a related change moved a row in. |
| `Manager.BuildSnapshot` | internal/shapes/manager.go:814-855 | The loop computes the tagged snapshot messages, none for a shape that logs only changes. |
| `Manager.TargetedKeySet` | internal/shapes/manager.go:1143-1158 | The two loops collect exactly the nonempty signatures of the key rows and of the queried rows. |
| `Replay.BaselinePlusLog` | internal/shapes/manager.go:504-608 | For every upsert and every interleaving of full refreshes and refreshes by keys after it, the snapshot that the shape sends followed by its log rebuilds exactly the shape's rows when messages are matched by their internal key, in both replica modes, if the rows it starts with are sent. At the start it does so if and only if they are sent: a shape that logs only changes sends none. A missing column is NULL, booleans are equal up to spelling; dependent shapes speak in tags. The inner step of `WireClient.WireReplayIff`. |
| `WireClient.WireReplayIff` | internal/shapes/manager.go:504-608 | For a client that has only the keys in the messages: its entries and the shape's rows match one to one with equal values in every state of the run, if and only if the rows that the shape starts with are sent and every update and delete prints the relation under which its row was last inserted, by snapshot or log. The key columns are the same throughout, and in composite keys no value holds the separator. |
| `WireClient.OwnKeysAreRight` | internal/shapes/manager.go:504-608 | In particular it is right in every state if every refresh with messages prints the definition's own relation. |
| `WireClient.OneRelationIsRight` | internal/shapes/manager.go:548-608 | A shape that starts without rows and whose log prints one relation throughout, be it a partition's, is right for its clients in every state. |
| `WireClient.InconsistentIsWrong` | internal/shapes/manager.go:548-608 | After the first refresh with an update or delete that prints another relation, the client has more entries than the shape has rows: a second copy of an updated row, or a deleted one. |
| `WireClient.PartitionChangeGoesWrong` | internal/pg/replication.go:567-571 | A concrete epoch: a shape on a partition root whose snapshot has a row, and an update or a deletion of it through a leaf. |
| `WireClient.SnapKeyedIf` | internal/shapes/keys.go:15-35 | Signatures determine the printed keys of a snapshot's rows with at most one key column, and with several when no key value holds the separator. |
| `Replay.MoveOutExactIff` | internal/shapes/manager.go:977-1007 | A move-out withdraws only the row it names if and only if no other row has the same tag value. |
| `Replay.PlainKeysAreTagSafe` | internal/shapes/manager.go:992-1007 | Nonempty keys without `=` have distinct tags. |
| `Replay.ValueKeysCollide` | internal/shapes/manager.go:997-1007 | The keys `a=1` and `b=1` share a tag. |
| `Client.DiffMovesClient` | internal/shapes/manager.go:865-928 | Applying a diff, plain, reprinted or tagged, by internal keys turns the previous rows into the current rows. |
| `EpochOrder.EpochOrderedIff` | internal/shapes/manager.go:1226-1249 | Over every run of refreshes and appends of an epoch, the log is strictly ascending and ends at the current offset in every state if and only if each refresh starts below its commit's LSN or on a sound base, and each appended message has an offset above the current one or a sound base. |
| `EpochOrder.AppendOrder` | internal/shapes/manager.go:465-498 | Appending any messages, numbered or not, keeps the log ordered if and only if each one lands above the offset before it. |
| `EpochOrder.EpochContinues` | internal/shapes/manager.go:465-608 | Any two states of a sound epoch are an earlier and a later state of one growing log. |
| `EpochOrder.UpsertStartsOrdered` | internal/shapes/manager.go:171-179 | An upsert starts an epoch with an ordered, empty log. |
| `LogOrder.RefreshKeepsOrderIff` | internal/shapes/manager.go:1226-1249 | One refresh keeps the log ordered if and only if its step is sound. |
| `LogOrder.SameCommitTwiceBreaksOrder` | internal/shapes/manager.go:1226-1249 | Two refreshes of a shape by one commit, as for two partitions, break the order whenever both have messages. |
| `LogOrder.AppendLandsOnTriangle` | internal/shapes/manager.go:465-498 | Appending n unnumbered messages from `0_k` keeps the log ordered and lands on `0_(k + n(n+1)/2)`. |
| `LogOrder.AppendTops` | internal/shapes/manager.go:465-498 | Whatever offsets appended messages come with, the shape's offset ends at the greatest of its old one and theirs. |
| `LogOrder.AppendLogs` | internal/shapes/manager.go:465-498 | An append logs its messages in order after the others, unchanged but for a missing offset. |
| `LogOrder.AppendedRowsAt` | internal/shapes/manager.go:465-498 | After an append the last message about a key decides its row; a key that no message is about keeps its row. |
| `CommitHeaders.EpochHeaders` | internal/shapes/manager.go:1226-1249 | Over every run of refreshes of an epoch, the log is made of one stretch per refresh. In each the headers have the LSN and position that the message's own offset parses to and the transaction of the refresh, exactly the last message is marked as last, and its offset is where the shape then is; refreshes without a commit and of dependent shapes have no headers. |
| `CommitHeaders.StepHeaders` | internal/shapes/manager.go:1226-1249 | One refresh adds such a stretch to the log. |
| `CommitHeaders.EveryHeaderFits` | internal/shapes/manager.go:1226-1249 | Every header in the log of an epoch agrees with its own message's offset and belongs to the refresh whose stretch it is in. |
| `LogOrder.AfterIsSuffix` | internal/shapes/manager.go:630-636 | What a read at an offset returns is a suffix of the log: nothing before it is newer and nothing in it is older. |
| `LogOrder.ExactlyOnce` | internal/shapes/manager.go:610-637 | What was read at an offset followed by what is read later from the returned position is what one later read at that offset returns. |
| `EpochReads.ReadAcrossEpochs` | internal/shapes/manager.go:610-637 | In every state of an epoch started at any offset, an offset is out of range if and only if it does not parse or is above the current one. Any other offset, from whichever epoch, reads the messages of the current epoch above it and nothing else: all of them if and only if the first is above it, so in particular at or below the epoch's start. |
| `EpochReads.CarriedOverIff` | internal/shapes/manager.go:610-637 | A client with any entries, by wire key, that reads at any offset is sent the current log from some place on. It ends with the same rows as a fresh client if and only if it agreed with what a fresh client holds at that place on every key and column that those messages do not set; then it is right if a fresh client is. |
| `EpochReads.StaleRowStays` | internal/shapes/manager.go:610-637 | A row that a carried-over client has, under a wire key of any relation, and the new epoch never has stays with that client through every read from any offset, and with no boolean key column the client is never right. |
| `EpochReads.OldCommitAccepted` | internal/shapes/manager.go:610-637 | After an upsert to the initial offset, a client at any commit of the old epoch is refused, and from the next commit on it reads the whole new log without an error, as at LSN 100 with a commit at 200. |
| `Targeted.TargetedRefinesFull` | internal/shapes/manager.go:548-608 | When a full snapshot agrees with the rows outside the touched keys, refreshing by keys leaves the same rows as a full refresh if and only if no row with an empty signature changed; then log, offset and messages agree too. |
| `Targeted.ProjectedColumns` | internal/pg/runtime.go:518-543 | The projection holds exactly the named columns and every primary-key column, each once. |
| `Targeted.ProjectionKeepsSignature` | internal/pg/runtime.go:518-543 | A projected row has the same key signature as the whole row. |
| `Diff.RestrictedDiffIsFullDiff` | internal/shapes/manager.go:865-928 | Diffing only the part under some keys gives the whole message list when nothing else changed. |
| `Diff.BuildDiff` | internal/shapes/manager.go:865-928 | The loop over the sorted union of keys computes the diff: insert, delete, update, or nothing. |
| `DiffContents.DiffIsExact` | internal/shapes/manager.go:865-928 | A diff has exactly one message for each key at which the rows differ, in ascending order. An insert carries the row; in full mode an update carries the new row and what its changed columns were, and a delete the row; otherwise an update carries the key columns and the changed ones, and a delete the key columns. |
| `DiffContents.DiffUndoneIff` | internal/shapes/manager.go:865-928 | In full mode, undoing the messages of a diff, last first, on the new rows gives the old rows if and only if no row gained a non-NULL column; also when booleans are printed as in the stream. |
| `DiffContents.UpdateUndoneIff` | internal/shapes/manager.go:1009-1050 | One update can be undone from its old values if and only if the row gained no non-NULL column. |
| `RefreshContents.DependentRefreshTells` | internal/shapes/manager.go:930-1008 | A whole refresh of a dependent shape for a commit: one message per changed key in order, tagged by its key. For a commit of another relation a row that left is moved out by its tag, one that entered is marked as moved in, and the batch ends with the snapshot-end control message exactly when one entered. |
| `RefreshContents.KeysRefreshTells` | internal/shapes/manager.go:548-608 | A refresh by keys sends the diff of the targeted part, under the changed relation, with booleans printed as `t` and `f` exactly when it is for a commit. |
| `RefreshContents.PlainRefreshTells` | internal/shapes/manager.go:504-542 | Every other whole refresh sends the bare diff under the shape's own relation. |
| `RefreshContents.SnapshotTells` | internal/shapes/manager.go:814-855 | The snapshot of an epoch is one insert per queried row, in order, tagged if the shape is dependent, and empty for a log of changes only. |
| `RefreshContents.TaggedIff` | internal/shapes/manager.go:835-846 | Messages are tagged exactly when one of the seven words stands, outside literals and comments, in the where clause or in one of the four texts of the subset. |
| `ShapeLog.ApplyChangeOffsets` | internal/shapes/manager.go:1226-1249 | Numbers the messages in place, by commit or from the current offset, marks the last of a commit, and returns the last offset. |
| `ShapeLog.AppendMessages` | internal/shapes/manager.go:465-498 | The loop numbers, applies and appends each message. |
| `ShapeLog.ReadLocked` | internal/shapes/manager.go:610-637 | Deleted, out of range, up to date, or the messages after the offset in order. |
| `ShapeLog.BuildMaterialized` | internal/shapes/manager.go:857-863 | Rows by signature, a later row replacing an earlier one. |
| `Sse.ServeLive` | internal/protocol/service.go:471-512 | Whatever states the waits read, the stream sends the first response if it has rows and then one event per wait: a keep-alive on a timeout, the rows read at the offset reached so far, or the news that there are none. It ends exactly at the round that closes it, and announces that by a demand to refetch unless the client left. |
| `Sse.OneEpochStream` | internal/protocol/service.go:471-512 | Within one epoch, the row messages of a stream, concatenated, are exactly what one read of the last seen state at the requested offset returns, and only the client or the end of the shape ends it. |
| `Sse.EpochSwitch` | internal/protocol/service.go:471-512 | When an upsert happens between two rounds, the stream ends if and only if its offset does not parse or is above the new one; otherwise it goes on with the messages of the new epoch above its offset. |
| `Sse.TwoEpochStream` | internal/protocol/service.go:471-512 | Over two epochs it sends what one read of the last state of the first returns, then what one read of the last state of the second at the offset reached returns, and no baseline between them. |
| `DiskStore.DiskRefinesMemory` | internal/storage/disk.go:106-190 | Over every history of saves that are tombstones, extend the handle's log or are shorter, the disk store loads for every handle what the memory store holds, with the log in append order; only logs of tombstones are gone. |
| `StoredRuns.DiskHoldsTheRun` | internal/storage/disk.go:106-190 | Over every run of catalogue operations from a new installation that `CatalogRuns.RunOk` speaks of, with any failing saves and any restarts, the disk store ends with exactly the run's stored shapes, if handles have their own directories and stay under the chunk limit. |
| `StoredRuns.StepSaves` | internal/shapes/manager.go:161-698 | Every catalogue operation, also a restart, changes the store exactly by its saves, each handle once, and each save is a tombstone, extends the stored log or is shorter. |
| `DiskStore.SaveRefines` | internal/storage/disk.go:106-190 | One save changes no other handle and leaves the handle with its new fields and the merged log; the counts stay right. |
| `DiskStore.SaveKeptIff` | internal/storage/disk.go:106-190 | A save is kept as given if and only if it is a tombstone without log, shorter than the stored log, or an extension of it. |
| `DiskStore.LoadIsLog` | internal/storage/disk.go:410-443 | Loading returns the chunks in append order, and the change count is the sum of the chunk counts. |
| `DiskStore.SortedPaths` | internal/storage/disk.go:410-443 | Sorting the chunk paths as text gives append order if and only if there are at most one million chunks. |
| `DiskStore.PathOrderBreaks` | internal/storage/disk.go:388-408 | The millionth chunk path sorts before its predecessor. |
| `DiskStore.InterruptedSaveIff` | internal/storage/disk.go:106-190 | Every way of stopping a save between file operations leaves the old log or one that fails to load if and only if the save does not replace the only chunk of its handle by a new one. |
| `DiskStore.TornResetMixes` | internal/storage/disk.go:106-190 | Replacing the only chunk can be torn so that the old row loads the new log. |
| `DiskStore.TornManyChunks` | internal/storage/disk.go:106-190 | Replacing several chunks and stopping after the write leaves a log that fails to load. |
| `DiskStore.ManagerHandlesApart` | internal/storage/disk.go:542-560 | Two different handles of the form the manager makes never share a chunk directory. |
| `DiskStore.SanitizeCanCollide` | internal/storage/disk.go:542-560 | Other handles can: `a-b` and `a_b`. |
| `DiskStore.PathIsHandleIff` | internal/storage/disk.go:542-560 | A chunk directory is named by letters, digits and inner underscores, never empty, and by the handle itself if and only if the handle is already of that form. |
| `DiskStore.CompactKeeps` | internal/storage/disk.go:270-302 | Compaction changes no live result and leaves a consistent disk. |
| `DiskStore.Store.SaveShape` | internal/storage/disk.go:106-190 | The step-by-step save (read metadata, reset or append, write chunk, update rows) gives the saved disk. |
| `DiskStore.Store.LoadShapeChanges` | internal/storage/disk.go:410-443 | The loop over sorted paths returns the load result, failing on a missing file. |
| `DiskStore.Store.LoadChunkMetadata` | internal/storage/disk.go:350-386 | The loop returns the stored count, the next chunk number and the paths. |
| `DiskStore.Store.RemoveUnreferenced` | internal/storage/disk.go:472-496 | Exactly the files that no live path names are removed. |
| `DiskStore.Store.Compact` | internal/storage/disk.go:270-302 | Drops the chunks of tombstones and unreferenced files. |
| `DiskStore.MemoryStore.SaveShape` | internal/storage/store.go:96-102 | Replaces the stored shape of the handle and no other. |
| `DiskStore.MemoryStore.Compact` | internal/storage/store.go:148-162 | Drops the logs of tombstones and nothing else. |
| `ScanExact.ScanIsExact` | internal/pg/dependency_scan.go:162-260 | On the tokens of every query of the grammar (lists, aliases, qualified names, derived tables, joins with any condition, parenthesised joins, nested subqueries) the scan files exactly the found tables, in order, without wildcard. |
| `ScanExact.FoundIsNamedIff` | internal/pg/dependency_scan.go:162-260 | The found tables are the named tables if and only if no named table is the first of a parenthesised join or follows, after a comma, a join whose condition holds a subquery; otherwise they are fewer. |
| `ScanExact.EveryTableFoundIff` | internal/pg/dependency_scan.go:162-260 | The scan finds every named table under its own name if and only if none is lost and no two of them share a key. |
| `ScanExact.UndottedKeysApart` | internal/pg/relation_cache.go:462-464 | Tables whose schema names hold no dot never share a key. |
| `ScanExact.DottedNamesCollide` | internal/pg/relation_cache.go:462-464 | Scanning `x in (select y from "a.b".c, a."b.c")` finds one of the two tables. |
| `ScanExact.ListAfterOnIsLost` | internal/pg/dependency_scan.go:189-206 | Scanning `x in (select y from a join b on i in (select y from c), d)` does not find `d`, and no wildcard stands in for it. |
| `ScanExact.NestedJoinLosesItsFirst` | internal/pg/dependency_scan.go:226-240 | Scanning `x in (select y from (a join b on i))` finds `b` alone, without wildcard. |
| `ScanExact.ThreePartNameMisfiled` | internal/pg/dependency_scan.go:273-289 | Scanning `from db.public.a` files table `public` of schema `db`. |
| `ScanExact.FromInExpressionLosesTheList` | internal/pg/dependency_scan.go:189-214 | In a FROM list, scanning `extract(year from ts), d` files a table `ts` and does not find `d`, without wildcard. |
| `Tokenizer.ClauseTablesFoundIff` | internal/pg/dependency_scan.go:21-46 | From text to tables: for any clause text whose tokens are in the grammar, WITH included, the scan files exactly the found tables, and finds every named one if and only if none is lost and no two share a key. |
| `Tokenizer.TokenizePrinted` | internal/pg/dependency_scan.go:48-101 | Tokenizing undoes printing, for words, quoted identifiers with doubled quotes, and symbols. |
| `Tokenizer.TokenStands` | internal/pg/dependency_scan.go:48-122 | A keyword among the tokens of a text stands in the text between word boundaries, or right after a digit. |
| `Tokenizer.NameIsOneToken` | internal/pg/dependency_scan.go:48-122 | A name of ASCII letters, digits, underscores and dollar signs that does not start with a digit is one token. |
| `Tokenizer.OtherCharacters` | internal/pg/dependency_scan.go:48-122 | Parentheses, commas and dots are tokens of their own, and every other character outside names and quotes is passed over. |
| `Tokenizer.TokenizeClause` | internal/pg/dependency_scan.go:48-85 | The index loop computes the tokens of the clause. |
| `Tokenizer.ReadQuotedIdentifier` | internal/pg/dependency_scan.go:87-101 | Reads up to the closing quote, undoubling quotes, or fails at the end of the text. |
| `Tokenizer.ScanRelations` | internal/pg/dependency_scan.go:21-46 | The relations in key order and the wildcard of the scan. |
| `Tokenizer.NoWithNoNames` | internal/pg/dependency_scan.go:124-160 | Without the word WITH no name is taken for a common table expression. |
| `Tokenizer.WithNamesAre` | internal/pg/dependency_scan.go:124-160 | `WITH [RECURSIVE] a (..) AS (..), b AS (..)` introduces exactly the names of its list, and then whatever the rest introduces after its first token. |
| `Tokenizer.CteHidesTable` | internal/pg/dependency_scan.go:124-160 | Scanning `x in (with a as (select y from b) select y from a) or x in (select y from a)` finds `b` and not the table `a`, without wildcard. |
| `DependencyScan.ScanTokens` | internal/pg/dependency_scan.go:162-216 | The loop with its four flags computes the scan; it ends on arbitrary tokens. |
| `DependencyScan.ConsumeRelation` | internal/pg/dependency_scan.go:218-260 | Consumes at least one token on arbitrary input, each inner scan over strictly fewer, and finds what the specification finds. |
| `DependencyScan.FindBalancedClose` | internal/pg/dependency_scan.go:320-337 | The index of the parenthesis that closes the given one, or -1. |
| `RefreshClass.ScanFiled` | internal/pg/dependency_scan.go:162-260 | On arbitrary tokens, every scanned relation is filed under its own key. |
| `Sanitizer.SanitizeIdempotent` | internal/sqlinspect/inspect.go:15-76 | Sanitizing twice is sanitizing once. |
| `Sanitizer.OutputIsClean` | internal/sqlinspect/inspect.go:15-76 | The output holds no single quote, no `--` and no block comment opening. |
| `Sanitizer.LiteralContentInvisible` | internal/sqlinspect/inspect.go:15-76 | A literal between a neutral prefix and a suffix that does not start with a quote leaves the same output whatever it holds. |
| `Sanitizer.SanitizeClause` | internal/sqlinspect/inspect.go:15-76 | The loop over three flags and a moving index computes the sanitized text. |
| `Sanitizer.KeywordTestIgnoresSanitizing` | internal/sqlinspect/inspect.go:10-13 | Sanitizing first makes no difference to the keyword test. |
| `Sanitizer.RecognisedIff` | internal/sqlinspect/inspect.go:8-76 | A text is recognised if and only if one of select, join, exists, with, union, intersect and except, in any case, stands between word boundaries in what is left of it without literals and comments. |
| `Sanitizer.WordIsRecognised` | internal/sqlinspect/inspect.go:8-76 | Each of the seven words, in any case, after any prefix that leaves the scanner outside literals and comments and between word boundaries, is recognised whatever follows. |
| `Sanitizer.CleanIsFixed` | internal/sqlinspect/inspect.go:15-76 | A text without quotes and comments is left as it is. |
| `Keys.MessageKeyDecodes` | internal/shapes/keys.go:15-47 | For any relations and nonempty value lists, equal wire keys mean equal relation and values, although backslash is not escaped. |
| `Keys.PlainKeyText` | internal/shapes/keys.go:15-47 | Without double quotes in names and value, the key of a row with one key column is `"schema"."table"/"value"`. |
| `Keys.ReadingsCannotDrift` | internal/shapes/keys.go:15-47 | Two readings of a key text cannot get out of step by a quote: the descent behind unique decoding. |
| `Keys.SignatureAmbiguity` | internal/shapes/keys.go:29-35 | A key signature stands for more than one key if and only if the key has several columns and a component holds the separator. |
| `Keys.WireKeyMatchesSignature` | internal/shapes/keys.go:15-35 | Within one relation, two rows have the same wire key exactly when they have the same signature, if the key has one column or no key value holds the separator. |
| `Keys.BuildMessageKey` | internal/shapes/keys.go:15-27 | The loop computes the joined key text, empty without key columns. |
| `Offsets.CompareIsTotalPreorder` | internal/shapes/offset.go:59-100 | CompareOffsets is a total preorder on all strings, and zero means the same position. |
| `Offsets.ParseFormatSequence` | internal/shapes/offset.go:26-57 | Parsing undoes the sequence formatter on non-negative positions and rejects negative ones. |
| `Offsets.ParseFormatLsn` | internal/shapes/offset.go:26-57 | Parsing undoes the LSN formatter exactly when the LSN is positive; LSN zero reads as a sequence. |
| `Offsets.OffsetTexts` | internal/shapes/offset.go:26-57 | The forms of an offset as text: `0_7`, `12_3`, the empty text as `0_0`, `0_inf`, and `-1` as none of them. |
| `Offsets.NextGeneratedDenotes` | internal/shapes/offset.go:134-148 | The position a generated offset denotes, with 64-bit wrap-around. |
| `Offsets.GeneratedAboveBase` | internal/shapes/offset.go:134-148 | A generated offset is above its base if and only if the sum fits and the base is not a padded zero LSN. |
| `Offsets.GeneratedAscending` | internal/shapes/offset.go:134-148 | Generated offsets ascend with the step if and only if the larger sum fits. |
| `Offsets.PaddedZeroFallsBelow` | internal/shapes/offset.go:134-148 | From `00_5` the next offset falls below its base. |
| `Identifiers.ReadUndoesPrintIff` | internal/protocol/identifiers.go:11-25 | Reading undoes the printing of a quoted relation if and only if both names are nonempty ASCII without surrounding white space. |
| `Identifiers.AccentedNameChanges` | internal/protocol/identifiers.go:59-86 | The UTF-8 name `é` comes back as four bytes. |
| `Identifiers.BareNameFolds` | internal/protocol/identifiers.go:31-97 | An unquoted name is trimmed, folded to lower case and put in the schema public. |
| `Identifiers.NamesFold` | internal/protocol/identifiers.go:11-97 | For names of ASCII letters, digits, underscores and dollar signs, `Name` reads as public.name and `Schema.Name` as schema.name, capitals made small and nothing else changed. |
| `Identifiers.ParseSeparated` | internal/protocol/identifiers.go:31-97 | The byte loop with its two flags computes the parts or the first error. |

## Left out

- FanOut.ApplyChangeBatch: stops before the checkpoint is saved, which is a step of `Replication`; other requests between two calls of the manager are steps of `CatalogRuns`, not of this method.
- ChangeBatch.EveryRecordedKeyListed: takes keys without NULLs, and composite keys without bars; `ChangeBatch.KeysApartIff` says why composite keys need that.
- RefreshClass.NamedTablesTriggerIff: a name that some WITH of the clause introduces counts as no table anywhere in the clause, as the scanner has it; `Tokenizer.CteHidesTable` shows that this is wrong outside the query of the WITH. The grammar is that of `ScanExact.EveryTableFoundIff`, as for `RefreshClass.DependenciesAre` and `Tokenizer.ClauseTablesFoundIff`.
- ScanExact.EveryTableFoundIff: in the grammar, unquoted names and aliases are not the words that the scanner acts on, names have at most two parts, FROM stands only in a query, and a FROM list holds no table functions; `ScanExact.ThreePartNameMisfiled` and `ScanExact.FromInExpressionLosesTheList` show what happens to two of these.
- WireClient.WireReplayIff: takes the same key columns throughout an epoch, and no separator in the values of composite keys; `Keys.SignatureAmbiguity` says why. As for `Replay.BaselinePlusLog`, dependent shapes need distinct tags.
- EpochReads.CarriedOverIff: speaks of shapes without a dependency keyword, whose log has no move-outs; so does `EpochReads.StaleRowStays`.
- StoredRuns.DiskHoldsTheRun: a failing save stores nothing here; what an interrupted one leaves behind is `DiskStore.InterruptedSaveIff`.
- Replication.StepKeepsInv: the refreshes of one shape by one commit are one step, also when the commit wrote two partitions of its root and the code refreshes it in two calls; `CommitKeys.EveryTouchedKeyRefreshed` shows that the calls together refresh the keys of that step, and `LogOrder.SameCommitTwiceBreaksOrder` what two calls do to its log.
- CommitKeys.TouchedAreListed: takes relations in the cache that have a key; a change of any other is not recorded, as `ChangeBatch.Record` says.
- LookupOrCreateDefinition and the plain lookups of Manager: only easy members.
- The relation header of messages: every message of a shape names the shape's own relation there.
- LastAccess, Count and the other bookkeeping fields of a shape: no property depends on them.
- JSON encoding of stored shapes and messages, SHA-256 and MD5: taken to be injective.
- Truncate and schema-change invalidation in `internal/pg`: sequences of the modelled Delete and InvalidateByRelation.
- Decoding of the replication messages and the text of the SQL that is run: a row change starts as its tuples, a query as its answer.
- Mid-level partitions: as in the code, a shape on a partition that is neither the changed leaf nor its root is not a candidate.
- Reconnecting with the memory store, which keeps shapes over a new temporary slot: the resume claims are for the disk store.
- The must-refetch path, which upserts a snapshot without rows.
- HTTP routing, headers, ETags, admission, authorization, configuration and telemetry.
- PostgreSQL's full lexical rules (escape strings, dollar quotes, nested comments): the sanitizer and the scanner do not implement them.
