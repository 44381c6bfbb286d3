# TermKeep synchronization: a verified model

TermKeep keeps an encrypted vault on one server and in any number of client
caches. Clients edit offline; every edit is a *revision* of an item that names
its parents, so concurrent edits become several *heads* of one item instead of
overwriting each other. This project models that protocol and proves what it
guarantees over every run, together with two companions: the namespaced restore
of a portable backup and the login limiter.

The server appears twice. `VaultStore.DBStore` is a class whose fields are the
tables of one account (revisions, head rows, change log, cursor, mutation ledger,
projection) and whose methods change them step by step. `SyncProtocol` and
`Exchange` say the same on a history of accepted mutations and a set of retained
change cursors. Every method of the class is proved to make exactly the abstract
step, so what is proved about histories holds of the tables. The client appears
twice in the same way: the class `VaultCache.Cache` against the value `CacheData`
of `CacheModel`. `SyncSystem` puts one server and any number of caches together:
queueing, sending, losing a message, handling a request (any request ever sent, at
any time, any number of times) and applying an answer are steps, `Leads` is a number
of them, `Reachable` is what they lead to from an empty server and empty caches, and
`SyncInvariant.ReachableHasInv` is the induction behind the theorems of
`SyncTheorems`, `StuckPurge`, `Progress` and `Jam`.

| file | content |
|---|---|
| `Revisions.dfy` | revisions, graphs, heads, sorting of parents |
| `RevisionLog.dfy` | the history of accepted mutations; heads, tombstones, numbers |
| `SyncProtocol.dfy` | acceptance of a mutation and of a batch, pruning, the trash sweep |
| `Exchange.dfy` | one request: prune, sweep, batch, answer |
| `Acceptance.dfy` | what the server takes, read off the rows of the history |
| `Retention.dfy` | which changes survive an exchange, and what the sweep leaves alone |
| `VaultTables.dfy`, `VaultStore.dfy` | the tables as a function of the history, and the class that keeps them |
| `ItemService.dfy` | the checks a request meets before the store |
| `CacheModel.dfy`, `VaultCache.dfy` | the client cache as a value and as a class |
| `Replica.dfy` | how a cached graph relates to the server's history of an item |
| `SyncSystem.dfy`, `SyncInvariant.dfy`, `SyncTheorems.dfy` | runs, the invariant, what follows |
| `StuckPurge.dfy` | when a purge goes through, and what becomes of one that cannot |
| `RequestBody.dfy` | how large the body of a request is, and what the server lets in |
| `AnswersExist.dfy` | the choices the server leaves open can be made |
| `Progress.dfy` | a client whose queue is taken catches up |
| `Jam.dfy` | what becomes of a client whose queue is too large |
| `Witnesses.dfy` | short runs into the states these theorems are about |
| `PortableState.dfy` | when a restored backup is recognized |
| `ConflictActions.dfy` | conflict resolution and the trash actions of the terminal interface |
| `BackupRestore.dfy`, `LoginLimiter.dfy` | the two companions |

## Assumptions

- Generated identifiers are fresh: a queued revision id, a new item's id and the
  ids of the sweep's tombstones have never been used. Runs carry a registry of
  issued mutations only to say this.
- Hashes do not collide: the mutation ledger compares whole mutations, a derived
  item id is a free constructor of namespace, source key and position, and semantic
  duplicates are compared by their normalized content.
- The database starts empty, and a cache has at most one exchange in flight.
- Identifiers are numbers, 0 is the empty string, and their order stands for the
  order of canonical lower-case UUID texts; in the size of a request each takes 36
  characters.

## Where the code does not do what one would expect

- The repository's `README.md` (line 486) says that unrelated items in the same batch
  continue synchronizing. The code refuses the whole batch with its first refused
  mutation (`internal/server/db.go:592-602`). A purge of one side of a conflict is
  queued locally, is never accepted in any later state, and stops everything queued
  beside it or after it: `ConflictActions.OneSidedPurgeIsStuck` and, over whole runs,
  `StuckPurge.StuckForGood` and `StuckPurge.NothingBehindArrives`. Exactly when a purge
  is accepted is `StuckPurge.PurgeKnowsEverything`, exactly when a sent batch goes
  through `SyncTheorems.RequestAcceptance`.
- A full snapshot may lose trashed heads: a tombstone row drops the trashed rows of
  its item that came before it. `SyncTheorems.SnapshotOrderMatters` is the smallest
  case, `Witnesses.CaughtUpLacksHead` a run that gets there, and
  `SyncTheorems.SnapshotIsExact` says exactly which heads are lost for any row order,
  `SyncTheorems.OrderedSnapshotDrops` for the order the server uses. What a caught-up
  client lacks is nothing else: `SyncTheorems.Convergence`.
- The client always sends its whole queue in one request
  (`internal/client/sync.go:46-56`). The server lets in at most 100 mutations
  (`internal/server/item.go:161`) and a body of 128 KiB (`internal/server/auth.go:712`),
  although it allows 1 MiB for the envelope of a single item. An import of 101 items, a
  hundred offline edits of 1,000 bytes, or one item of 96 KiB is therefore refused every
  time (`Jam.WhatJams`, `Witnesses.LargeItemJams`). From then on nothing the client
  queues ever reaches the server and its cursor never moves: `Jam.JammedForGood`. Exactly
  which requests are handled is `SyncTheorems.RequestAcceptance`, and a client whose
  queue is one of them catches up: `Progress.ClientCatchesUp`.
- `PortableStateMatches` counts items and then looks at those of the backup only, and an
  item without revisions equals one that is not cached. A backup with such an item
  matches a cache that has another item in its place; with a revision in every item, and
  only then, a match means the same vault: `PortableState.MatchMeansSameVault`.
- `validateCacheData` does not look at the schema version of a queued revision, so a
  backup with a creation that has none can be restored into an empty cache. A request
  with that creation is refused (`internal/server/item.go:208-210`), so no exchange that
  carries the queue does harm; but an exchange of the still empty cache that is in
  flight during the restore may bring a full snapshot, and applying it writes a cache
  that fails `validateCacheData`: `SyncTheorems.RestoreDuringExchangeBreaksCache`.
  Exactly which answers leave a cache that passes is `CacheModel.ApplyReplyValidity`.

## Model

| member | source | states |
|---|---|---|
| SyncTheorems.Convergence | internal/client/cache.go:558-637 | in every reachable state a client with nothing queued at the server's cursor shows for each item exactly the server's heads, with their content, but those its last snapshot lost, which are all trashed |
| SyncTheorems.ClientsAgree | internal/client/cache.go:497-519 | two caught-up clients differ at most in trashed heads |
| SyncTheorems.CachedItemsAreShown | internal/client/cache.go:508-512 | in every reachable state a cached graph is acyclic and has a head, so the empty-heads skip never hides an item |
| SyncTheorems.DeliveryAdvances | internal/client/sync.go:85-99 | any answer to the outstanding request applies, removes exactly the sent prefix of the queue, never moves the cursor back, and a current answer reaches the server's cursor or a full page |
| Progress.ClientCatchesUp | internal/client/sync.go:27-100 | from every reachable state in which a client's queue would be taken (within the limits of a request, and nothing in it blocked by a tombstone after the sweep), its own sends, the handling of its requests and its deliveries reach a state in which all of it is recorded, its queue is empty, its cursor is the server's and it shows what Convergence says |
| Progress.OneExchange | internal/client/sync.go:46-98 | one exchange records and empties such a queue, advances the cursor by a full page or to the server's, and leaves the rows of a snapshot exactly when a change after the cursor is no longer stored |
| Progress.EditsAreSendable | internal/server/db.go:585-602 | a queue within the limits, without a purge and without a live edit of a lone tombstone, is such a queue, whatever the sweep has to do first |
| AnswersExist.ReplyExists | internal/server/db.go:604-699 | every cursor the server knows has an answer |
| SyncTheorems.NoLossExactlyOnce | internal/server/db.go:1090-1149 | under loss, delay and resending every mutation a client made is queued or recorded, and recorded under one cursor with its content unchanged |
| SyncTheorems.ReplayedRequestChangesNothing | internal/server/db.go:871-901 | handling an answered request again, at any later time, equals handling an empty batch |
| SyncTheorems.OfflineEditsAreAccepted | internal/client/cache.go:135-218 | a sent request within the limits that has no purge and no live edit of a lone tombstone is handled in any later state, and all of it is recorded |
| SyncTheorems.RequestAcceptance | internal/server/item.go:149-194 | a sent request is handled if and only if it has at most 100 mutations and 128 KiB, its numbers fit their columns, and no mutation of it is blocked by a tombstone when its turn comes after the sweep |
| Jam.HandledIsAdmissible | internal/server/item.go:156-166 | only requests within those limits are ever handled |
| Jam.JammedForGood | internal/client/sync.go:46-56 | once a client's queue is beyond the limits and it waits for no request within them, in every later state of the run its queue has only grown and its cursor has not moved, and nothing is recorded that only requests beyond the limits carried by then, in particular nothing the client queues afterwards |
| Jam.WhatJams | internal/client/cache.go:272-304 | more than 100 queued mutations, 100 of at least 1,000 bytes each, or one of at least 98,302 bytes are enough |
| RequestBody.LimitsOnlyTighten | internal/server/auth.go:711-717 | a queue beyond the limits stays beyond them however it grows |
| RequestBody.AdmittedEnvelope | internal/server/auth.go:711-717 | no envelope in a body that is let in has more than 98,301 bytes |
| RequestBody.HundredSmallEditsAreTooMuch | internal/server/auth.go:711-717 | the JSON of 100 envelopes of 1,000 bytes is beyond 128 KiB |
| RequestBody.CreationBodySize | internal/client/sync.go:50-53 | the body of a first request with one creation, byte for byte; it is let in exactly up to 98,067 bytes of envelope |
| RequestBody.TrashBodySize | internal/client/sync.go:50-53 | the same for a deletion over two parents and a purge |
| RequestBody.HundredShortEditsFit | internal/server/item.go:161 | a hundred mutations of 1,300 bytes of JSON each are let in |
| RequestBody.EmptyQueueFits | internal/client/sync.go:50-53 | a request with nothing queued is always within the limits |
| SyncTheorems.BatchAcceptance | internal/server/db.go:592-602 | at the store, for any server state and any registered batch in queue order whose numbers fit their columns, it is accepted whole if and only if nothing in it is blocked; a revision conflict is the only other outcome |
| SyncTheorems.AcceptedUnlessTombstone | internal/server/db.go:903-975 | a registered mutation with stored parents is refused exactly for a missed head of a purge or a live edit of a lone tombstone head |
| SyncTheorems.RefusedPurgeStaysRefused | internal/server/db.go:967-969 | a purge that misses a head is refused in every later state |
| SyncTheorems.RefusedPurgeBlocksQueue | internal/server/db.go:592-602 | and so is every batch that contains it |
| StuckPurge.StuckForGood | internal/server/db.go:967-969 | once a client has queued a purge that does not descend from some stored revision, in every later state of the run it is unrecorded and still queued, no request that carries it is accepted, and whatever the client queues afterwards is unrecorded and still queued too |
| StuckPurge.NothingBehindArrives | internal/client/sync.go:46-53 | nothing the client had not sent by then ever reaches the server, whether queued before the purge or after it |
| StuckPurge.MissedHeadIsMissing | internal/tui/tui.go:3159-3167 | a purge of stored revisions that leaves out a server head is such a purge |
| Witnesses.PurgeGetsStuck | internal/tui/tui.go:3159-3167 | a run of two clients into such a state: one edits and synchronizes, the other deletes the item for good before it has heard of the edit |
| Witnesses.LargeItemJams | internal/server/auth.go:711-717 | a run into a jammed state: one item of 96 KiB is created |
| SyncTheorems.SnapshotIsExact | internal/client/cache.go:596-633 | with nothing queued, a snapshot in any row order shows the server's heads less exactly the trashed heads listed before a tombstone of their item; none is lost of an item without both |
| SyncInvariant.DroppedIsLost | internal/client/cache.go:613-629 | what applying the rows drops are exactly the trashed heads listed before a tombstone of their item |
| SyncTheorems.SnapshotOrderMatters | internal/client/cache.go:613-629 | with one trashed head and one tombstone the two row orders give different heads |
| SyncTheorems.DeliveredSnapshotKeepsQueue | internal/client/cache.go:596-633 | in every reachable state a client that applies a full snapshot has everything it still has queued in its graph, exactly as queued |
| SyncTheorems.OrderedSnapshotDrops | internal/server/db.go:820 | in the order the server sends, a snapshot loses a trashed head if and only if a tombstone head of its item has a higher id |
| SyncTheorems.OrderedSnapshotShows | internal/client/cache.go:596-633 | a cache with nothing queued then shows every head but those |
| Witnesses.CaughtUpLacksHead | internal/server/db.go:805-853 | a run of three clients into a state in which the third is caught up and lacks a head the server has |
| SyncTheorems.RestoreDuringExchangeBreaksCache | internal/client/cache.go:751-764 | a backup, restored while an exchange of the empty cache is in flight, and a snapshot the server really sends, after which the cache fails validateCacheData; a request carrying that queue is malformed |
| SyncInvariant.ReachableHasInv | internal/client/sync.go:27-100 | every reachable state satisfies the system invariant: legal history, valid caches, parents before children in queues, tracked graphs, truthful answers |
| SyncInvariant.QueueKeepsInv | internal/client/cache.go:151-217 | queueing keeps it |
| SyncInvariant.SendKeepsInv | internal/client/sync.go:46-56 | sending the queue keeps it |
| SyncInvariant.HandleKeepsInv | internal/server/item.go:149-194 | handling any sent request, late or again, keeps it |
| SyncInvariant.DeliverySucceeds | internal/client/cache.go:584-636 | the cache never refuses an answer to its outstanding request; it removes exactly the sent part of the queue and the graphs track the server at the new cursor |
| SyncInvariant.DeliverKeepsInv | internal/client/cache.go:584-636 | applying it keeps the invariant |
| Replica.TracksAfterRevision | internal/client/cache.go:630-632 | an ordinary change keeps the relation between cached graph and history |
| Replica.TracksAfterTombstone | internal/client/cache.go:613-629 | so does a tombstone, although live heads and queued revisions are kept |
| Replica.RebuiltTracks | internal/client/cache.go:596-602 | a graph rebuilt from a snapshot tracks the server, completely unless a trashed head was dropped |
| RevisionLog.SnapshotPlusSuffix | internal/server/db.go:799-862 | for every cursor, the heads of (heads then, plus everything accepted after) are the heads of the whole history |
| RevisionLog.RevisionNumbers | internal/server/db.go:921-940 | every stored number is one more than the highest parent number, parents are stored, and every stored item has a head |
| RevisionLog.NumberBound | internal/server/item.go:205-230 | a revision number never exceeds its change cursor |
| RevisionLog.HeadsStep | internal/server/db.go:1013-1030 | dropping the parents and adding the new row gives the heads of the longer history, and no other item changes |
| RevisionLog.PurgeIsOnlyHead | internal/server/db.go:967-969 | an accepted purge is the only head right after it |
| RevisionLog.OneTombstoneHead | internal/server/db.go:941-975 | at most one head of an item is a tombstone, in every reachable state |
| RevisionLog.LiveEditKeepsTombstone | internal/server/db.go:970-974 | a live single-parent revision never displaces a tombstone head |
| RevisionLog.HeadsSurvivePurge | internal/server/db.go:1031-1052 | no head is older than its item's last purge |
| SyncProtocol.AcceptKeepsServer | internal/server/db.go:864-1150 | an accepted mutation keeps the server state well formed, only appends, and is recorded |
| SyncProtocol.AcceptAllKeepsServer | internal/server/db.go:592-602 | a whole accepted batch appends rows of that batch only and records all of it |
| SyncProtocol.ResendChangesNothing | internal/server/db.go:889-898 | resending recorded mutations changes nothing in any later state |
| SyncProtocol.TombstoneIsLegal | internal/server/db.go:762-795 | the sweep's purge of an expired item is never refused by a guard |
| SyncProtocol.SweepSucceeds | internal/server/db.go:701-797 | the whole sweep goes through, each expired item ends with its tombstone as only head and every other item is left as it was |
| Exchange.ProcessPhases | internal/server/db.go:578-602 | the state after the sweep and the state after the batch of one request |
| Exchange.NoExpiredTrashRemains | internal/server/db.go:585-589 | after every exchange no item's only head is trash at least 30 days old |
| Exchange.ResentBatchOnlySweeps | internal/server/db.go:578-602 | resending a recorded batch only prunes and sweeps, and only prunes when nothing has expired |
| Exchange.IncrementalReply | internal/server/db.go:617-694 | the answer is incremental if and only if no cursor after the input is missing; it is then the contiguous run of at most 500 changes, and a tombstone in it is the first change of its item there |
| Exchange.PagingDeliversEachChangeOnce | internal/server/db.go:645-694 | successive incremental answers, from whatever the server has become in between, together deliver exactly the contiguous run of changes after the first cursor, and a short page ends at the server's cursor |
| Retention.SurvivingChanges | internal/server/db.go:578-699 | after an exchange a change is stored if and only if it is new, or was stored and is at most 30 days old, and no purge of its item followed in that exchange; the answer is incremental if and only if all changes after the cursor are stored |
| Retention.OnlyOldTrashIsSwept | internal/server/db.go:701-797 | an exchange without a batch changes exactly the items whose only head has been deleted for 30 days: they end with a tombstone over that head as their only head, every other item keeps all it has |
| Exchange.SnapshotRowsAreValid | internal/server/db.go:805-853 | every snapshot row still has its content and is not older than its item's last purge |
| Exchange.CreationIsRefused | internal/server/db.go:880-920 | once an item has a history, a creation of it is acknowledged only as the resend of a recorded mutation |
| StuckPurge.PurgeKnowsEverything | internal/server/db.go:921-969 | a new purge is accepted if and only if its parents are stored, carry the base number and descend from every revision the server stores of the item |
| StuckPurge.CoveringIsInheriting | internal/server/db.go:946-969 | naming every head of a closed graph is descending from every revision in it |
| Acceptance.AcceptanceIsExact | internal/server/db.go:864-1149 | the outcome of every well-formed mutation, from the rows of the history alone: acknowledged or refused when its id is recorded, otherwise accepted and appended exactly when parents, base number, head and tombstone guards hold of the rows and its schema version fits the column, with the error of the first that does not |
| VaultTables.HeadTableIsDerived | internal/server/db.go:1013-1030 | a head row exists exactly for the stored revisions of the item that no stored revision names as parent |
| VaultTables.ProjectionIsTheHead | internal/server/db.go:1054-1088 | when an item has one head, its `vault_items` row has that head's schema version, number, flags and envelope; that of a lone tombstone is purged and empty |
| VaultTables.RevisionRowMeaning | internal/server/db.go:977-1044 | every `vault_revisions` row is the accepted revision, without its content exactly from a later purge of the item on, flagged as purged exactly then, with the time of a deletion |
| VaultTables.ProjectionWaits | internal/server/db.go:1054-1088 | while an item is in conflict its `vault_items` row stays that of the last revision that was its only head when accepted |
| VaultTables.PurgeIsPermanent | internal/server/db.go:1031-1052 | in every state after a purge no revision, change or projection row holds content accepted before it; the projection shows, column by column, the purge or a later revision |
| VaultTables.HeadRowIsComplete | internal/server/db.go:805-822 | a head's stored row is the accepted revision with its content |
| VaultTables.RevisionsStep | internal/server/db.go:977-1044 | insert and scrub give the revision rows of the longer history |
| VaultTables.ChangesStep | internal/server/db.go:1045-1124 | delete and insert give change rows of the longer history |
| VaultTables.ItemsStep | internal/server/db.go:1054-1088 | the projection rule gives the projection of the longer history |
| VaultStore.ParentRowsAreHistory | internal/server/db.go:926-940 | the parent count equals the number of distinct parents if and only if all are stored revisions of the item |
| VaultStore.HeadCounts | internal/server/db.go:946-974 | comparing the counts decides head coverage and the tombstone guard |
| VaultStore.IntervalCount | internal/server/db.go:617-630 | the retained count equals the cursor distance if and only if no cursor is missing |
| VaultStore.InsertKeepsTables | internal/server/db.go:977-1149 | recording an acceptable mutation takes tables of a history to tables of the longer history |
| VaultStore.DBStore.CheckGuards | internal/server/db.go:905-975 | the counting queries accept exactly the acceptable mutations |
| VaultStore.DBStore.Record | internal/server/db.go:977-1149 | the statements change exactly the rows of the table step, all others stay; what the rows then hold is RevisionRowMeaning and ProjectionIsTheHead |
| VaultStore.DBStore.ApplyVaultMutation | internal/server/db.go:864-1150 | makes the abstract acceptance step, or fails with its error and changes nothing |
| VaultStore.DBStore.PruneChanges | internal/server/db.go:578-584 | removes exactly the changes older than 30 days and leaves the others as they are |
| VaultStore.DBStore.SelectExpired | internal/server/db.go:707-760 | finds each lone expired trashed head once and nothing else, in the order of the items |
| VaultStore.DBStore.PurgeExpiredVaultItems | internal/server/db.go:701-797 | accepts the sweep's tombstones in turn |
| VaultStore.DBStore.AppendVaultSnapshot | internal/server/db.go:799-862 | lists each current head of every item once, complete, by item and revision id |
| VaultStore.DBStore.ReadReply | internal/server/db.go:604-699 | answers with the page after the cursor, or an ordered snapshot when a change is missing |
| Exchange.AnswersAreExchanges | internal/server/db.go:561-699 | the store succeeds exactly when the batch does and the cursor is not ahead, and a success is an exchange step of the runs |
| Exchange.BatchDecidesFailure | internal/server/db.go:585-615 | while cursors are left the sweep never fails: a request fails with the error of its first refused mutation, or for a cursor ahead of the server |
| VaultStore.DBStore.Sync | internal/server/db.go:561-699 | one transaction makes the abstract exchange or fails with the error of the first thing that fails, and an error leaves every table as it was |
| ItemService.NormalizeKeepsContent | internal/server/item.go:239-246 | the ledger takes two normalized submissions for the same mutation if and only if they differ in nothing but parent order and an omitted revision id |
| ItemService.NormalForm | internal/server/item.go:239-246 | unchanged are exactly the mutations with sorted parents and a revision id; normalizing twice is normalizing once |
| ItemService.NormalizeMeaning | internal/server/item.go:239-246 | two submissions normalize to the same mutation if and only if they differ in nothing but parent order and an omitted revision id |
| ItemService.ValidMutations | internal/server/item.go:205-230 | true exactly for batches of mutations with ids, a matching revision id, a schema version, a number within 2^63 - 1 that follows the base, content of at most 1 MiB or none for a purge, and distinct parents unless it is a creation |
| ItemService.HandleSync | internal/server/item.go:149-194 | a body over 128 KiB, a long or a malformed batch is refused without effect, any other request is one exchange of the normalized batch, with its error |
| Revisions.CheckParents | internal/client/cache.go:982-991 | true exactly when no parent is empty or repeated |
| Revisions.SortKeepsParents | internal/server/item.go:239-246 | sorting keeps the parents, their number and whether they repeat |
| Revisions.SortedUnique | internal/server/db.go:1177-1181 | two sorted lists of the same parents are equal |
| Revisions.HeadExists | internal/client/cache.go:928-950 | a non-empty graph whose parents have lower numbers has a head |
| Revisions.HeadsAfterAdding | internal/client/cache.go:928-950 | adding an unreferenced revision replaces its parents by itself among the heads |
| Revisions.RevisionHeads | internal/client/cache.go:928-950 | the marking loops return exactly the unreferenced revisions, sorted, each once |
| CacheModel.ApplyReplyValidity | internal/client/cache.go:584-636 | an applied answer leaves a cache that passes validateCacheData if and only if no queued revision it lays over a graph lacks a schema version |
| CacheModel.ApplyReplyKeepsValid | internal/client/cache.go:733-771 | with a queue filled by queueing the cache passes validateCacheData after any applied answer |
| CacheModel.QueueKeepsValid | internal/client/cache.go:135-218 | queueing leaves a cache that passes validateCacheData |
| CacheModel.PreparedFacts | internal/client/cache.go:162-195 | queued parents are sorted, distinct, cached and carry the base number |
| CacheModel.QueueOutcome | internal/client/cache.go:135-200 | queueing works exactly for a sound revision with an unused id: a creation of an item of which nothing is cached, or given parents that are distinct, cached and carry the base number, or without parents the one head that carries it |
| CacheModel.QueueEffect | internal/client/cache.go:196-217 | it queues the revision last, with those parents and unchanged otherwise, caches it, alone if it is a purge, and changes nothing else |
| CacheModel.AnswerOutcome | internal/client/cache.go:558-637 | exactly the answers with a cursor in range, no empty id and sound changes are applied, none of which contradicts what is cached when its turn comes; then the cursor is the answer's and the queue what was not acknowledged |
| CacheModel.CachedRevisionsNeverChange | internal/client/cache.go:603-632 | an incremental answer without a tombstone of an item takes no cached revision of it away and changes none; an answer that contradicts one is not applied |
| CacheModel.FullSnapshotKeepsQueue | internal/client/cache.go:596-633 | after a full snapshot every revision still queued is in the graph with its content |
| CacheModel.QueuedStaysCached | internal/client/cache.go:603-633 | the same for an item with a tombstone among the changes; any other answer loses no queued revision that was there |
| CacheModel.ImportIsIdempotent | internal/client/cache.go:272-304 | importing the same items again queues nothing |
| CacheModel.ImportIsQueueing | internal/client/cache.go:280-295 | importing an unknown item is queueing its creation |
| CacheModel.EveryItemHasOnePlace | internal/client/cache.go:455-495 | listed are exactly the items with a live head, in the trash those without one but with a head that is deleted and not purged; no item is both, and one that is neither has only tombstones |
| VaultCache.ValidateCacheData | internal/client/cache.go:733-771 | true exactly for caches with an account, revisions under their own ids with a schema version, a number, distinct parents and content unless purged, queued mutations with matching ids, numbers, parents and content, and no empty fingerprint |
| VaultCache.HeadsWithNumber | internal/client/cache.go:168-179 | a single result is the only head with the base number |
| VaultCache.CheckLocalParents | internal/client/cache.go:181-194 | true exactly for distinct cached parents whose highest number is the base |
| VaultCache.Prepare | internal/client/cache.go:162-195 | the revision with its final parents, or the local conflict |
| VaultCache.ApplyAll | internal/client/cache.go:603-633 | applies the changes in order and stops at the first contradiction |
| VaultCache.PreserveForTombstone | internal/client/cache.go:613-629 | keeps exactly the tombstone, the live heads and what is queued for the item |
| VaultCache.Cache.QueueMutation | internal/client/cache.go:135-218 | queues the prepared revision last and adds it to the graph, or changes nothing |
| VaultCache.Cache.QueueMutations | internal/client/cache.go:240-311 | imports all items or none, and returns exactly the mutations it queued |
| VaultCache.Cache.ApplySyncResult | internal/client/cache.go:558-637 | removes exactly the acknowledged mutations, rebuilds or extends the graph, moves the cursor; an error changes nothing; passes validateCacheData afterwards exactly under the condition of ApplyReplyValidity |
| VaultCache.Cache.RestorePortableState | internal/client/cache.go:398-441 | fills an empty cache of the same account with a valid backup, otherwise changes nothing |
| PortableState.MatchMeansSameVault | internal/client/cache.go:328-374 | a finished restore matches its backup, and every valid cache that is reported to match it has the same items, revisions and heads, if and only if each item of the backup has a revision; without the restore marker also the same cursor and queue |
| PortableState.RestoreIsExact | internal/client/cache.go:398-441 | a backup is restored exactly into a cache of its account with no item, queue or cursor, when what it holds is valid, and then all of it is there |
| PortableState.RestoreIsRemembered | internal/client/cache.go:398-441 | however long the client queues, imports and synchronizes after a restore, the backup is marked as restored, once |
| VaultCache.Cache.AllItemHeads | internal/client/cache.go:497-519 | one group for each item that has a head, by item id, with its heads sorted and each once |
| ConflictActions.ResolveConflict | internal/tui/tui.go:3206-3222 | names every version as parent, with a number one above the highest, and carries the chosen content and flags |
| ConflictActions.Resolve | internal/tui/tui.go:3206-3222 | for the shown heads this is a resolution that local queueing will take |
| ConflictActions.ResolutionClosesConflict | internal/tui/tui.go:745-780 | saving it is accepted locally and leaves exactly one head, with the chosen content and flags, over all the shown versions |
| ConflictActions.ResolutionIsAccepted | internal/server/db.go:921-975 | if the server has the same heads, it accepts it and has that same single head |
| ConflictActions.TrashActionsQueue | internal/tui/tui.go:3139-3167 | deleting, restoring and purging a shown head always queue, and replace that head or, for a purge, all heads |
| ConflictActions.SavedRevision | internal/tui/tui.go:745-780 | a saved record is queued last and cached as one revision with its number, flags, parents and content, without content for a purge |
| ConflictActions.TrashActionsContent | internal/tui/tui.go:3139-3167 | each action queues and caches the next revision over the shown one; a deletion and a restoration carry its content, a purge none |
| ConflictActions.RestoreUndoesDelete | internal/tui/tui.go:3139-3157 | restoring what is shown after a deletion leaves a live head with the original content in its place and all other heads as they were |
| ConflictActions.TrashActionsOnServer | internal/server/db.go:941-975 | on the server a deletion is accepted, a restoration unless its parent is a tombstone head, a purge if and only if its parent is the only head |
| ConflictActions.OneSidedPurgeIsStuck | internal/tui/tui.go:3159-3167 | a purge of one side of a conflict is queued, and every later batch with it is refused |
| ConflictActions.LateDeletionMeetsTombstone | internal/server/db.go:970-974 | a deletion of an older revision is accepted beside a tombstone head |
| BackupRestore.PrepareImport | internal/client/backup.go:600-701 | the three passes compute the specified preview, or fail exactly when an item, with a namespace also an existing one, is unreadable; what the preview holds is the rows below |
| BackupRestore.RestoreKeepsContent | internal/client/backup.go:619-700 | restored items are in backup order, keep everything but id, title and folder link, and are numbered by the semantic duplicates before them |
| BackupRestore.CountsAreOfTheItems | internal/client/backup.go:687-698 | the counts by type are those of the restored items |
| BackupRestore.EveryItemIsJudged | internal/client/backup.go:665-684 | every item is restored, left alone or reported: with a namespace restored exactly when the vault has no item of its derived id, and reported exactly when the vault's item of that id differs in anything but its title |
| BackupRestore.FolderLinksAreKept | internal/client/backup.go:881-915 | a restored item, under its own new id, is linked to the first folder of the backup with the id its source was linked to, under the new id of that folder, and to nothing exactly when the backup has none; folders are left alone |
| BackupRestore.FolderLinksAreClosed | internal/client/backup.go:881-915 | a restored item's link is empty or the new id of the first folder of that id in the backup, which is in the output, or in the destination as a folder unless that very folder is reported as changed |
| BackupRestore.RetryIsNoOp | internal/client/backup.go:619-700 | over a vault that holds the first result as well, in any order among the existing items, preparing the same backup again yields no items and no errors, despite renaming |
| BackupRestore.SamePreparation | internal/client/backup.go:703-711 | with a namespace the preparation does not depend on any fresh id |
| BackupRestore.DuplicateTitlesDiffer | internal/client/import.go:44-68 | restored semantic duplicates of one title get different titles |
| BackupRestore.DuplicatesAreNumbered | internal/client/import.go:44-68 | a restored item keeps its title when nothing before it is semantically the same; the next one gets the suffix alone, each further one its number in decimal digits |
| BackupRestore.DuplicateCounts | internal/client/import.go:32-42 | the counts are the numbers of semantic duplicates among the existing items |
| BackupRestore.NameDuplicate | internal/client/import.go:44-68 | renames by the count so far and counts the item |
| LoginLimiter.LoginLimiter.RecordFailure | internal/server/login_limiter.go:35-47 | applies the failure rule to this account and source only; what the rule counts is FailuresSincePause |
| LoginLimiter.LoginLimiter.RetryAfter | internal/server/login_limiter.go:49-73 | the remaining part of the delay after the last failure |
| LoginLimiter.LoginLimiter.Reset | internal/server/login_limiter.go:75-79 | forgets this account and source only |
| LoginLimiter.EveryStartCounts | internal/server/auth.go:435-455 | without a day's pause every accepted start counts and keeps its distance to the previous one |
| LoginLimiter.RateBound | internal/server/auth.go:435-455 | the n-th accepted start (n at least 8) comes at least 16 + 15 (n - 8) minutes after the fifth |
| LoginLimiter.FailuresSincePause | internal/server/login_limiter.go:35-47 | over every run the count of a key is the number of accepted starts since the last pause of 24 hours or more between two of them |
| LoginLimiter.WaitIsExact | internal/server/login_limiter.go:49-73 | the wait over every run: none before the fifth accepted start since such a pause, then what is left of 1, 5, 10 and from the eighth on 15 minutes after the last one |
| LoginLimiter.PauseForgives | internal/server/login_limiter.go:41-43 | after such a pause fewer than five further starts never delay |
| LoginLimiter.DelayIsTemporary | internal/server/login_limiter.go:49-73 | the delay never exceeds 15 minutes and is over once waited out |
| LoginLimiter.FifthFailureDelays | internal/server/login_limiter.go:54-60 | fewer than five accepted starts never delay, five within a day always do |

## Left out

- SQL, transactions, file locking, JSON, HTTP and authentication: of a request body only its size is modelled; an exchange and each cache operation are atomic steps; only the three parts of `SyncCache` are separate steps.
- Encryption: an envelope is an opaque byte sequence, and a decrypted record carries the sealed content it would produce.
- CheckParents: identifiers are numbers, so the syntax of UUIDs and spellings in upper case are not modelled.
- Sync: the text of a cursor is not modelled, and the fresh ids of the tombstones are supplied by the caller.
- QueueMutation: numbers are unbounded, so the wrap-around of a base revision of 2^64 - 1 is not modelled; the server's bound on revision numbers and on cursors is.
- ApplyReplyValidity: the limit of 64 MiB on the cache file (`internal/client/cache.go:23`, `internal/client/cache.go:695-697`) is not modelled; an answer that takes the file past it is written, and the reader then refuses the file.
- ApplyReplyKeepsValid: the limit on the cache file is not modelled here either.
- DeliverySucceeds: the same limit on the body of an answer (`internal/client/sync.go:87`) is not modelled.
- OneExchange: holds for answers and cache files of at most 64 MiB.
- ClientCatchesUp: likewise, for every exchange it takes.
- ApplySyncResult: e-mail address, password envelope and format version of the cache file are not modelled.
- RestorePortableState: not a step of runs; two clones of one cache that both synchronize would queue the same mutations twice.
- QueueMutations: not a step of runs; deterministic import ids shared by two clients are not fresh.
- DeliveryAdvances: answers over 64 MiB are not modelled; two exchanges of one cache at the same time are not modelled, since a late answer could then be applied after a newer one.
- RateBound: login starts handled concurrently are not modelled.
- PrepareImport: the normalization behind a semantic key is one field of the item.
- `PutItem` and `ListItems`: the older direct route goes around the revision graph and would break the projection invariant.
- Migration of caches written by earlier versions: it depends on identifiers computed by an SQL migration.
- Parsers and exporters of other password managers: they read and write JSON, ZIP and CSV through libraries and do not touch the revision graph.
- The rest of the terminal interface, the command line and the session agent: input, output and calls into the operations modelled here.
- Invites, sessions and the audit log: rows written and read one at a time, apart from the revision graph.
- Search, TOTP and the password generator: computed from decrypted items, without any effect on synchronization.
