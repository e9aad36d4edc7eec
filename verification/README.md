# DSvn: delta-tree store, replication, WebDAV commits and dump formats

DSvn keeps a Subversion-like repository: a mutable working table and a per-path
staging table in SQLite, and one commit, one delta and now and then one full tree in
files per revision. This project models that store and what is built on it, and proves
what the pieces promise each other.

* `Paths`, `ObjectModel`, `Replay` — path order, the subtree relation, SQL `LIKE`,
  stored objects, and replaying a change list: step by step and pointwise.
* `Staging`, `Store`, `Runs`, `Tickets` — the two tables, the files, and whole runs with
  any number of clients. A commit is two steps (collect under the connection, then write
  the files), so other clients' edits fall in between. `Runs` keeps the simple
  thing beside the fast one: the sequence of working tables, one per revision.
* `TreeCache`, `Repository`, `Readers` — the repository object with its methods, and many
  readers inside one reconstruction with every cache lock as its own step.
* `Replication`, `Mirrors`, `ReopenedMirrors`, `SyncSession`, `RemotePull`, `MirroredRuns`,
  `LiveSources` — extracting, applying, local sync, batched pull, what a mirror shows, the mirror
  check, and sources that go on committing meanwhile.
* `CommitProtocol`, `DavHandlers`, `Svndiff`, `DeletedRev` — transactions, the commit lock,
  the handlers as an object, the PUT decoder, the deleted-revision search.
* `DumpFormat`, `DumpPrinter`, `DumpWriter`, `DumpText`, `Utf8`, `DumpParser`, `DumpInMemory`,
  `DumpProperties`, `DumpReadBack`, `DumpLoad`, `DumpRoundTrip`, `DumpCycle` — both dump writers,
  all three dump readers, the loaders, and the way from one store through bytes to another.
* `ByteFields`, `Packfile`, `Frames`, `ContentHash` — the binary formats.

Results that say exactly when the code meets its promise:

* A run's files reproduce its history at every moment if and only if the two tables were in step
  whenever they were collected for a commit that was written (`Runs.RunReproducesIff`). They also
  stay in step in between if and only if every step passed a check that can be made before it
  (`Runs.RunGoodIff`). A removal fails it when an upsert is staged below the path or `LIKE` reaches
  an unrelated row; an insert when it would revive entries below a staged deletion; a rejecting
  hook when the working table is not the head's tree; reopening when the working table was emptied
  but not committed.
* `LIKE` is modelled as SQLite has it: `_` and `%` in directory names are wildcards and letter
  case is ignored for ASCII, so a removal can delete rows of another directory. The change lists of
  a sync are exact all the same. The destination's working table shows in a snapshot, every 1000th
  revision, in each delta's count of entries, and in the ids made from these. So the mirrored trees
  are exact if and only if at the snapshots the deltas replayed with `LIKE` removals give the
  source's tree (`Mirrors.SyncMirrorsIff`): always below 1000 revisions
  (`Mirrors.NoSnapshotNoCondition`), not always at 1000 (`MirroredRuns.SnapshotCanDiffer`). The
  counts are exact if and only if that holds at every applied revision (`Mirrors.SyncCountsIff`);
  they can differ in the first one (`MirroredRuns.CountCanDiffer`).
* A server dump and its load bring every tree back if and only if every upsert that the server
  prints as a change without content would have changed nothing, and the loaded snapshots are exact
  in the same sense (`DumpRoundTrip.DumpThenLoadIff`); emptying a file is lost
  (`DumpRoundTrip.EmptiedFileIsNotRestored`). dsvn-admin prints every upsert as an addition and
  loses nothing but executable bits.
* What is read back of a dump does not depend on the log messages but for the metadata itself
  (`DumpReadBack.DumpReads`, `DumpCycle.DumpThenLoad`). With a one-line date, author and message
  both come back if and only if both are one line (`DumpProperties.PropertiesReadIff`). Of longer
  ones the first line is kept as long as no later line starts with `K `
  (`DumpProperties.QuietMetaReads`); a later line `PROPS-END` of the author costs the message too
  (`DumpProperties.AuthorCanEndTheBlock`). A later line that asks for part of a character makes the
  reader panic (`DumpProperties.MessageCanStopTheReader`), with the revisions before it loaded.
  Whitespace around a path and executable bits do not come back (`DumpReadBack.ExactlyReadBackIff`).
* The PUT decoder returns the text that was sent exactly when the delta copies nothing
  (`Svndiff.DecodesTextIffNothingCopied`).
* Readers that share the cache can make one of them fail with a missing base if and only if there
  are more than 64 revisions (`Readers.BaseCanVanishIff`); a single reader never fails. On every
  schedule a reader is done after at most 2 * (rev mod 1000) + 6 steps of its own
  (`Readers.EveryReaderFinishes`).
* Each sync or pull first reopens its destination, which refills an empty working table. A repeated
  one leaves what one sync leaves if and only if that changed nothing or the first revision applied
  afterwards brings the tables together again (`ReopenedMirrors.ReopenedSyncIff`); it can matter
  (`MirroredRuns.ReopeningCanMatter`).
* The hash over a sent object list covers ids and data, but nothing checks that an id is the hash
  of its own data. So a replayed revision keeps every object under its own id if and only if the
  ids of the new ones match (`Replication.ApplyIsHonestIff`), which a list can fail
  (`Replication.WrongIdIsStored`). `Valid` of a repository does not ask for that; results that
  need it say `Honest`.

Where code and comments disagree the code is modelled: `total_synced_revisions` is documented
as a number of revisions but grows by one per completed sync; the pull ignores the
destination's `allow_empty`; the mirror check compares object ids only, not kinds and modes.

Abstractions. Hashes are ideal: an object id is its kind and content, so ids of blobs, trees,
deltas and commits never coincide. `Recorded` is the tree that the files hold for a revision.
Functions such as `Published`, `Inserted`, `StageAll`, `Parsed` or `Decoded` specify the methods
beside them, and the lemmas speak about them. The compressor, the charset, the date format, the
checksum and the clock are parameters; UTF-8 is shown to be a suitable charset. 64-bit counters
are unbounded unless a row says otherwise. Where the code would panic on a slice index
the model returns an error.

## Model

| member | source | states |
|---|---|---|
| Paths.AncestorSortsFirst | dsvn-core/src/sqlite_repository.rs:89 | in the order in which pending rows are collected a directory comes before everything below it |
| Paths.LikeCoversSubtree | dsvn-core/src/sqlite_repository.rs:70 | the LIKE pattern of a removal matches every real descendant |
| Paths.LikeOvermatches | dsvn-core/src/sqlite_repository.rs:70 | and can match rows of other directories: a wildcard in a name, another letter case |
| Replay.ReplayIsPointwise | dsvn-core/src/sqlite_repository.rs:289-295 | replaying a path-sorted list: each path takes its own change, else vanishes under a deleted ancestor, else keeps its base value |
| Replay.CollectedRoundTrip | dsvn-core/src/sqlite_repository.rs:86-107 | collecting the staging table gives a path-sorted list that determines the table |
| Replay.SortedListCollectedBack | dsvn-core/src/sqlite_repository.rs:86-107 | a sorted list staged into an empty table is collected unchanged |
| Replay.ReplayCollected | dsvn-core/src/sqlite_repository.rs:86-107 | replaying the collected table is the table's pointwise effect |
| Staging.InsertAgreesIff | dsvn-core/src/sqlite_repository.rs:60-66 | an insert keeps working and staging table in step if and only if it revives nothing below a staged deletion |
| Staging.RemoveAgreesIff | dsvn-core/src/sqlite_repository.rs:68-74 | a removal keeps them in step if and only if no upsert is staged below it and LIKE is exact |
| Staging.CollectReplaysIff | dsvn-core/src/sqlite_repository.rs:86-107 | the collected list replays to the working table if and only if the tables are in step |
| Store.GatheredFits | dsvn-core/src/sqlite_repository.rs:382-417 | what a commit collects fits on top of the files: next number, parent revision, sorted, backed by objects |
| Store.PublishedOk | dsvn-core/src/sqlite_repository.rs:419-438 | writing a fitting commit keeps the files linked, without gaps, a snapshot at every 1000th revision |
| Store.PublishedKeepsRevisions | dsvn-core/src/sqlite_repository.rs:419-438 | writing a commit changes no revision that was already there |
| Store.PublishedChained | dsvn-core/src/sqlite_repository.rs:419-438 | if the collected list replays to the table, every revision stays the replay of the one before, snapshots included |
| Store.CommittedSound | dsvn-core/src/sqlite_repository.rs:477-536 | a whole commit keeps the store sound and every old revision's tree |
| Runs.StepGoodIff | dsvn-core/src/sqlite_repository.rs:360-444 | from a state in step, a step leads to one in step if and only if it passes its check |
| Runs.RunGoodIff | dsvn-core/src/sqlite_repository.rs:360-536 | over every run with interleaved clients the files reproduce the history and the tables are in step at every moment if and only if every step passed its check |
| Runs.RunReproducesIff | dsvn-core/src/sqlite_repository.rs:378-444 | over every run the files reproduce the history at every moment if and only if the tables were in step at each collecting whose commit was written |
| Runs.DisciplineIsNotNeeded | dsvn-core/src/sqlite_repository.rs:60-74 | a run that breaks a check and still reproduces its history: the tables are in step again when they are collected |
| Runs.BreachIsNotReproduced | dsvn-core/src/sqlite_repository.rs:60-107 | a run whose files do not reproduce its history: a file staged, a directory above it removed, and both collected as they are |
| Runs.RunsRefineHistory | dsvn-core/src/sqlite_repository.rs:258-444 | after every run whose written commits were collected in step each revision reads back as the working table of its commit, and total_entries is that table's size |
| Runs.RunsOnlyAppend | dsvn-core/src/sqlite_repository.rs:378-444 | no step of any run, disciplined or not, changes a revision's tree, delta or commit once it is there |
| Runs.ReopenAgreesIff | dsvn-core/src/sqlite_repository.rs:309-320 | reopening keeps the tables in step if and only if it does not refill a table that was emptied on purpose |
| Tickets.RunsAccountForEveryEdit | dsvn-core/src/sqlite_repository.rs:63-107 | over every run each staged change is waiting, overwritten on its path, dropped by a hook, or in exactly one delta; and the deltas hold nothing else |
| Tickets.RevisionsAreLinked | dsvn-core/src/sqlite_repository.rs:378-444 | over every run revisions are 0..head without gaps, each commit's only parent and each delta's base the one before |
| TreeCache.LookupTouched | dsvn-core/src/sqlite_repository.rs:260 | a cache hit changes the order of the entries only |
| TreeCache.LookupPut | dsvn-core/src/sqlite_repository.rs:263 | a put is found afterwards; every other entry stays as it was or is evicted |
| TreeCache.PutKeeps | dsvn-core/src/sqlite_repository.rs:296 | caching a rebuilt tree keeps the cache correct and at most 64 entries long |
| TreeCache.CorrectAfterPublish | dsvn-core/src/sqlite_repository.rs:437-438 | new revisions do not invalidate cached trees |
| Repository.SelectOrdered | dsvn-core/src/sqlite_repository.rs:89 | the rows come out as the one ascending list of the table's paths |
| Repository.ChangesInOrder | dsvn-core/src/sqlite_repository.rs:90-102 | the loop over the ordered rows yields the table's change list |
| Repository.ApplyDelta | dsvn-core/src/sqlite_repository.rs:290-295 | applying one stored delta in place equals its replay |
| Repository.Repository.constructor | dsvn-core/src/sqlite_repository.rs:322-331 | a new repository holds revision 0, empty, and nothing staged |
| Repository.Repository.TreeInsert | dsvn-core/src/sqlite_repository.rs:60-66 | both tables after an insert, nothing else changed |
| Repository.Repository.TreeRemove | dsvn-core/src/sqlite_repository.rs:68-74 | both tables after a removal: matched working rows gone, one pending row |
| Repository.Repository.AddFile | dsvn-core/src/sqlite_repository.rs:360-365 | an existing object is kept; the entry's mode follows the flag; the store stays sound |
| Repository.Repository.Mkdir | dsvn-core/src/sqlite_repository.rs:367-372 | a directory entry under the trimmed path |
| Repository.Repository.DeleteFile | dsvn-core/src/sqlite_repository.rs:374-376 | the removal of the trimmed path |
| Repository.Repository.CollectPending | dsvn-core/src/sqlite_repository.rs:86-107 | the changes are the pending rows in path order, the total is the table's size, the rows are gone |
| Repository.Repository.WriteRevision | dsvn-core/src/sqlite_repository.rs:419-438 | the files after a commit; cache and store stay valid |
| Repository.Repository.Commit | dsvn-core/src/sqlite_repository.rs:378-444 | the whole new state after success; after a rejecting pre-commit hook the pending rows are gone and nothing else changed |
| Repository.Repository.CommitSync | dsvn-core/src/sqlite_repository.rs:477-536 | the same with the delta's id unless a snapshot is due |
| Repository.Repository.CollectChain | dsvn-core/src/sqlite_repository.rs:266-278 | the walk back ends at a usable base after at most rev mod 1000 deltas, whatever the cache holds |
| Repository.Repository.ApplyChain | dsvn-core/src/sqlite_repository.rs:289-297 | replaying the chain oldest first gives the recorded tree and keeps the cache correct |
| Repository.Repository.GetTreeAtRev | dsvn-core/src/sqlite_repository.rs:258-299 | the recorded tree for every revision up to the head whatever is cached, an error above it, nothing but the cache changed |
| Repository.Repository.GetFile | dsvn-core/src/sqlite_repository.rs:334-343 | the stored bytes, in an honest store those that were added, or an error for directories, missing paths and missing revisions |
| Repository.Repository.Populate | dsvn-core/src/sqlite_repository.rs:109-116 | the working table becomes the given tree |
| Repository.Repository.Reopen | dsvn-core/src/sqlite_repository.rs:309-321 | an empty working table is refilled from the head, pending rows survive, the cache starts empty |
| Readers.ReadersNeverWrong | dsvn-core/src/sqlite_repository.rs:258-299 | under every schedule of readers and commits each answer is the recorded tree, the cache holds at most 64 trees, each correct |
| Readers.ReadersLoadFew | dsvn-core/src/sqlite_repository.rs:266-278 | on every schedule, commits included, a reader holds at most rev mod 1000 deltas |
| Readers.EveryReaderFinishes | dsvn-core/src/sqlite_repository.rs:258-299 | on every schedule a question ends in an answer or an error after at most 2 * (rev mod 1000) + 6 steps of its reader |
| Readers.LoneReaderNeverFails | dsvn-core/src/sqlite_repository.rs:279-287 | with a single reader the missing-base error is unreachable |
| Readers.BaseCanVanish | dsvn-core/src/sqlite_repository.rs:279-287 | 64 replayed deltas of a second reader evict the base between the two look-ups of the first |
| Readers.BaseCanVanishIff | dsvn-core/src/sqlite_repository.rs:258-287 | from an idle repository with an empty cache some schedule of readers makes one of them fail with the missing-base error if and only if there are more than 64 revisions |
| Readers.FewRevisionsNeverFail | dsvn-core/src/sqlite_repository.rs:279-287 | with at most 64 revisions at the end no reader loses its base on any schedule, commits included |
| Replication.ExtractCarries | dsvnsync-cli/src/protocol.rs:17-82 | an extracted revision carries every blob its changes need, under matching ids |
| Replication.ApplyIsHonestIff | dsvnsync-cli/src/protocol.rs:95-119 | no id is checked against its own data: an applied revision leaves every object under its own id if and only if the ids of the new objects match |
| Replication.WrongIdIsStored | dsvnsync-cli/src/protocol.rs:95-119 | an object sent under another one's id, with the right list hash, is stored under it |
| Replication.StagedRows | dsvnsync-cli/src/protocol.rs:121-140 | staging a sent list yields exactly that list as pending rows, whatever the working table holds |
| Replication.WorkingTableFollowsIff | dsvnsync-cli/src/protocol.rs:121-140 | the destination's working table follows the replay of a change list, change by change, if and only if LIKE is exact at each of its deletions |
| Replication.SyncReplicates | dsvnsync-cli/src/protocol.rs:263-285 | for every source a sync copies each revision it does not skip, changes and metadata; working table, snapshots and entry counts are those of the deltas replayed with LIKE removals |
| Mirrors.SyncMirrorsIff | dsvnsync-cli/src/protocol.rs:263-285 | source tree r is destination tree f(r) for every r, f counting applied revisions, if and only if at each destination snapshot the replay with LIKE removals gives the source's tree |
| Mirrors.ReplicaShows | dsvnsync-cli/src/protocol.rs:263-285 | the destination tree in closed form, for every source and every revision |
| Mirrors.NoSnapshotNoCondition | dsvn-core/src/sqlite_repository.rs:22 | below 1000 destination revisions the mirror is exact without a condition |
| Mirrors.CleanNoCondition | dsvn-core/src/sqlite_repository.rs:70 | and at any length when LIKE is exact at every deletion |
| Mirrors.SyncCountsIff | dsvn-core/src/sqlite_repository.rs:104-105 | each applied revision records the size of the source tree if and only if at each the replay with LIKE removals gives that tree |
| Replication.AllowEmptyKeepsNumbers | dsvnsync-cli/src/protocol.rs:90-93 | with empty commits allowed f is the identity |
| Mirrors.MirrorVerifiesIff | dsvnsync-cli/src/transfer.rs:193-237 | with empty commits allowed numbers and change lists coincide, and the mirror check accepts every revision if and only if the snapshots are exact |
| ReopenedMirrors.ReopenedReplicaIff | dsvn-core/src/sqlite_repository.rs:309-320 | reopening a destination, as every sync and pull does first, changes nothing if and only if an empty working table means an empty head tree |
| ReopenedMirrors.ReopenedSyncIff | dsvnsync-cli/src/main.rs:173-183 | syncing or pulling to one head and, reopened, later to another leaves what one sync leaves if and only if reopening changed nothing or the first revision applied after it brings the tables together |
| Replication.SyncSplit | dsvnsync-cli/src/protocol.rs:237-304 | a sync can stop at any revision and go on from there |
| Replication.SyncTwiceIsSyncOnce | dsvnsync-cli/src/protocol.rs:237-304 | without reopening in between, syncing to one head and later to another leaves the same destination as one sync |
| SyncSession.ExtractRevisionData | dsvnsync-cli/src/protocol.rs:17-82 | the revision's data, or an error if there is no commit |
| SyncSession.StoreObjects | dsvnsync-cli/src/protocol.rs:103-119 | sent objects are stored under the sent ids unless the id is already there |
| SyncSession.StageChanges | dsvnsync-cli/src/protocol.rs:121-140 | the tables after staging; a missing object becomes an empty file |
| SyncSession.ApplyRevisionData | dsvnsync-cli/src/protocol.rs:85-159 | skips, refuses on a wrong hash without touching the store, or commits the replayed revision |
| SyncSession.SyncState.CompleteSync | dsvn-core/src/sync.rs:192-199 | the new state; the counter grows by one per sync |
| SyncSession.CopyRange | dsvnsync-cli/src/protocol.rs:263-285 | the loop replays exactly the revisions of its range in order |
| SyncSession.LocalSync.Sync | dsvnsync-cli/src/protocol.rs:228-315 | not initialised and wrong source are refused; nothing new is a no-op; otherwise all new revisions are replayed and the state says so |
| SyncSession.LocalSync.OpenAndSync | dsvnsync-cli/src/main.rs:173-183 | the command: both repositories are reopened, then the sync as above |
| RemotePull.HandleDelta | dsvn-webdav/src/sync_handlers.rs:195-231 | exactly the requested revisions, refused if empty, longer than 500 or beyond the head |
| RemotePull.HandleRevs | dsvn-webdav/src/sync_handlers.rs:89-131 | a summary with the change count for each existing revision of the range, an error if the range is reversed |
| RemotePull.PullChanges | dsvnsync-cli/src/remote.rs:302-324 | the tables after pulling a change list; a file whose object was not sent is left out |
| RemotePull.PullRevision | dsvnsync-cli/src/remote.rs:263-331 | one pulled revision, never skipped, or the hash error with the store untouched |
| RemotePull.PullBatch | dsvnsync-cli/src/remote.rs:267-344 | the revisions before the first one whose list was damaged are committed, then the error |
| RemotePull.PullAndCheckpoint | dsvnsync-cli/src/remote.rs:252-349 | one turn of the loop: the server lists the revisions and sends a batch of at most 100, all of it is committed, and the next turn follows on |
| RemotePull.PullRange | dsvnsync-cli/src/remote.rs:252-349 | the batches cover from..=head once each, in order |
| RemotePull.Pull | dsvnsync-cli/src/remote.rs:211-368 | the whole pull on a reopened destination: refusals, no-op, or every new revision pulled and the state complete |
| RemotePull.PullIsSync | dsvnsync-cli/src/remote.rs:302-331 | from an honest server a pull leaves what a local sync that allows empty commits leaves |
| SyncSession.CompareTrees | dsvnsync-cli/src/transfer.rs:201-226 | ok if and only if paths and object ids agree; the three lists hold exactly the differences |
| SyncSession.VerifySync | dsvnsync-cli/src/transfer.rs:193-237 | the same for a revision of two repositories, an error if either lacks it |
| MirroredRuns.RunsGrow | dsvn-core/src/sqlite_repository.rs:378-444 | whatever clients do, a source only grows, so repeated syncs compose |
| LiveSources.LivePullIsPull | dsvnsync-cli/src/remote.rs:252-349 | a pull from a server that goes on committing between the answers leaves what a pull of the server at its start leaves |
| LiveSources.LiveSyncIsSync | dsvnsync-cli/src/protocol.rs:263-285 | the same for a sync whose source goes on committing between the revisions |
| MirroredRuns.HistoryIsMirroredIff | dsvnsync-cli/src/protocol.rs:228-315 | what clients committed at the source in any run collected in step is what the synced destination shows, if and only if the destination's snapshots are exact |
| MirroredRuns.HistoryIsCountedIff | dsvn-core/src/sqlite_repository.rs:477-502 | the same for the entry counts: they are the source's if and only if the replay with LIKE removals is exact at every applied revision |
| MirroredRuns.SnapshotCanDiffer | dsvn-core/src/sqlite_repository.rs:70 | a disciplined source whose mirror differs at revision 1000: `doc` removed and `Doc/f` added in one commit |
| MirroredRuns.CountCanDiffer | dsvn-core/src/sqlite_repository.rs:70 | the same edits in the first revision: 1 entry counted at the source, none at the destination |
| MirroredRuns.ReopeningCanMatter | dsvnsync-cli/src/main.rs:173-183 | two syncs, the second of an empty revision, that leave something else than one |
| CommitProtocol.CommitsAreAtomic | dsvn-webdav/src/handlers.rs:1186-1221 | under every interleaving of create, PUT, MERGE and DELETE each revision holds exactly the files of one transaction as its MERGE took it |
| CommitProtocol.OutcomeStays | dsvn-webdav/src/handlers.rs:1186-1190 | a transaction that landed, was aborted or refused stays so: it commits at most once and never after it was deleted |
| CommitProtocol.OneRevisionPerTransaction | dsvn-webdav/src/handlers.rs:1186-1221 | different revisions come from different transactions |
| CommitProtocol.NormalisedFilesLand | dsvn-webdav/src/handlers.rs:1197-1202 | with paths that stay distinct each staged file has its upsert in the revision |
| CommitProtocol.RunsStayInStep | dsvn-webdav/src/handlers.rs:1195-1221 | MERGE-only histories without refusing hooks are always in step |
| CommitProtocol.StartInStep | dsvn-core/src/sqlite_repository.rs:322-331 | the server starts in step |
| CommitProtocol.RunsInStepIff | dsvn-webdav/src/handlers.rs:1195-1221 | with refusing hooks a history is in step at every moment if and only if at each refusal the working table was the head's tree |
| CommitProtocol.LandedTree | dsvn-webdav/src/handlers.rs:1195-1221 | a revision's tree is the previous one with the transaction's files laid over it |
| DavHandlers.DavServer.CreateTxn | dsvn-webdav/src/handlers.rs:412-429 | a new empty transaction under a name not in use |
| DavHandlers.DavServer.PutFile | dsvn-webdav/src/handlers.rs:1410-1418 | the decoded body is staged under the path, or the transaction is not found |
| DavHandlers.DavServer.DeleteTxn | dsvn-webdav/src/handlers.rs:1490-1525 | the transaction is aborted if it is there |
| DavHandlers.DavServer.Merge | dsvn-webdav/src/handlers.rs:1186-1221 | an uninterrupted MERGE is a run of the protocol: take, lock, stage every file in some order, commit or refuse |
| Svndiff.ReadVarint | dsvn-webdav/src/handlers.rs:281-292 | the value in 64 bits and the position after it, also at the end of the data |
| Svndiff.VarintRoundTripIff | dsvn-webdav/src/handlers.rs:281-292 | reading inverts the canonical base-128 encoding if and only if the value fits 64 bits |
| Svndiff.ExecuteInstructions | dsvn-webdav/src/handlers.rs:321-345 | one window's instruction loop |
| Svndiff.DecodeSvndiff | dsvn-webdav/src/handlers.rs:294-348 | the decoder, with a position that grows in every turn |
| Svndiff.WindowsDecode | dsvn-webdav/src/handlers.rs:300-346 | every multi-window stream decodes to the new data of its windows in order |
| Svndiff.DecodesTextIffNothingCopied | dsvn-webdav/src/handlers.rs:294-348 | the decoder returns the text a version 0 stream stands for if and only if no instruction copies |
| Svndiff.CopiesAreLost | dsvn-webdav/src/handlers.rs:332-334 | a copied byte is missing from the result |
| DeletedRev.SearchDeletedRev | dsvn-webdav/src/handlers.rs:1119-1148 | the first revision in the range that deletes the path or a directory above it, 0 if none |
| DeletedRev.SearchTellsHistory | dsvn-webdav/src/handlers.rs:1134-1148 | for a path that exists at the peg: present before the reported revision or through the end, and in the reported one if and only if that one upserts it |
| DeletedRev.GoneIsReported | dsvn-webdav/src/handlers.rs:1134-1148 | a path that is gone somewhere in the range is reported by then |
| DumpFormat.DumpRevision | dsvn-admin-cli/src/main.rs:213-284 | the records of a revision: what both writers read from the store |
| DumpFormat.DumpChange | dsvn-webdav/src/dump_handlers.rs:146-193 | the record of one change, with the action either program chooses |
| DumpFormat.OwnFileReadable | dsvn-webdav/src/dump_handlers.rs:155-172 | in a chained store every upserted file can be read at its revision, with the content its delta names |
| DumpWriter.WriteHead | dsvn-webdav/src/dump_handlers.rs:59-66 | a revision's header and properties as printed |
| DumpWriter.WriteNode | dsvn-webdav/src/dump_handlers.rs:146-193 | a node as printed by either program |
| DumpWriter.GenerateDump | dsvn-webdav/src/dump_handlers.rs:114-144 | the whole dump of a range, for every repository, leaving the store alone |
| Utf8.Utf8IsFaithful | dsvn-webdav/src/dump_handlers.rs:244 | UTF-8 round-trips every text, is concatenative, keeps newlines, final carriage returns and the letters of the format recognisable, and leaves text alone when it repairs bytes |
| Utf8.RepairedIsText | dsvn-webdav/src/dump_handlers.rs:244 | the lossy conversion makes text of any bytes |
| DumpText.HeaderReadsBack | dsvn-webdav/src/dump_handlers.rs:240 | a header line keeps its name and its value up to outer whitespace, even when the value is blank |
| DumpText.NumberReadsBack | dsvn-webdav/src/dump_handlers.rs:272-273 | a printed number is read back if and only if it fits 64 bits |
| DumpParser.ParseProps | dsvn-webdav/src/dump_handlers.rs:242-264 | the key/value pairs of any bytes, also of malformed blocks; none where the code panics because a length splits a character |
| DumpParser.ParseNodeHeaders | dsvn-webdav/src/dump_handlers.rs:324-372 | a node's headers and content, with either program's rule for length headers; dsvn-admin also keeps the copy source |
| DumpParser.ParseDump | dsvn-admin-cli/src/dump.rs:36-227 | the revisions handed on, in order, and whether the end was reached |
| DumpProperties.PropertiesReadIff | dsvn-webdav/src/dump_handlers.rs:242-264 | with a one-line date author and message both come back from a printed property block if and only if both are one line, and then the date does too |
| DumpProperties.QuietMetaReads | dsvn-webdav/src/dump_handlers.rs:242-264 | what is read of values of several lines, none of the later ones starting with K: first lines, and nothing after a line that ends the block |
| DumpProperties.AuthorCanEndTheBlock | dsvn-webdav/src/dump_handlers.rs:248 | an author with a line PROPS-END costs a message of one line |
| DumpProperties.MessageCanStopTheReader | dsvn-webdav/src/dump_handlers.rs:249-252 | a message on which the reader panics |
| DumpReadBack.NodeReads | dsvn-webdav/src/dump_handlers.rs:324-372 | a printed node comes back with exact content for arbitrary bytes, whichever program wrote and reads it |
| DumpReadBack.DumpReads | dsvn-webdav/src/dump_handlers.rs:279-322 | either program reads back what either printed, whatever the log messages are: the same revisions and nodes in order with their contents, each with the metadata read of it, up to the first block it panics on |
| DumpReadBack.CompleteIff | dsvn-webdav/src/dump_handlers.rs:279-322 | the whole dump is handed on if and only if the reader survives every property block |
| DumpReadBack.ExactlyReadBackIff | dsvn-webdav/src/dump_handlers.rs:279-322 | with one-line dates the printed bytes are read back as exactly the same revisions if and only if authors are named, authors and messages are one line, dates are read back, no path has outer whitespace and no file is executable |
| DumpInMemory.ParseDumpFile | dsvn-admin-cli/src/dump.rs:232-454 | the list reader's loop with its pending node and revision |
| DumpInMemory.ReadersAgreeIff | dsvn-admin-cli/src/dump.rs:36-454 | both dsvn-admin readers accept the same inputs and agree on one, copy sources included, if and only if no node precedes the first revision header |
| DumpLoad.LoadNode | dsvn-admin-cli/src/load.rs:62-97 | what a node stages, and whether it stages anything; dsvn-admin passes over an addition with a copy source |
| DumpLoad.LoadRevision | dsvn-admin-cli/src/load.rs:40-105 | revision 0 and revisions that stage nothing leave the store alone, the others are committed |
| DumpLoad.LoadRevisions | dsvn-webdav/src/dump_handlers.rs:380-407 | a parsed dump loaded revision by revision |
| DumpLoad.SurvivorsReplayIff | dsvn-webdav/src/dump_handlers.rs:150-152 | what survives of a revision replays to its tree without executable bits if and only if every lost upsert was redundant |
| DumpRoundTrip.LoadActsLikeApply | dsvn-admin-cli/src/load.rs:40-105 | loading one record changes tables and files as replicating the surviving changes does |
| DumpRoundTrip.DumpThenLoadIff | dsvn-webdav/src/dump_handlers.rs:374-411 | dump and load bring back every tree, executable bits aside, if and only if every loss is harmless and the loaded store's snapshots are exact |
| DumpRoundTrip.ShortDumpNoCondition | dsvn-core/src/sqlite_repository.rs:22 | below 1000 loaded revisions the second condition always holds |
| DumpRoundTrip.AdminDumpThenLoadIff | dsvn-admin-cli/src/load.rs:36-128 | with dsvn-admin destination tree g(r) is source tree r without executable bits, for every r, if and only if a sync that skips empty revisions would mirror the source |
| DumpRoundTrip.AdminCounts | dsvn-admin-cli/src/load.rs:43-49 | where g counts the non-empty revisions up to r |
| DumpRoundTrip.EmptiedFileIsNotRestored | dsvn-webdav/src/dump_handlers.rs:150-152 | a store whose second revision empties a file is not brought back by a server dump |
| DumpCycle.DumpThenLoad | dsvn-webdav/src/dump_handlers.rs:114-411 | from one store through bytes to another, whatever the log messages are: the store the round-trip results speak about, up to the first revision the reader panics on; and if there is none every tree is back exactly under the conditions of DumpThenLoadIff |
| Packfile.PackWriter.AddObject | dsvn-core/src/packfile.rs:49-51 | the data is kept under the id, an earlier one replaced |
| Packfile.PackWriter.Write | dsvn-core/src/packfile.rs:54-104 | header and records for some order of the map, and an index with every record's offset |
| Packfile.PackReader.GetObject | dsvn-core/src/packfile.rs:174-202 | the first entry with the id decides; none means none |
| Packfile.ScanEntries | dsvn-core/src/packfile.rs:121-165 | the index found by scanning, with the reader's errors |
| Packfile.OpenFindsIndex | dsvn-core/src/packfile.rs:109-171 | opening a written pack finds the writer's index, for every order |
| Packfile.ObjectReadsBack | dsvn-core/src/packfile.rs:174-202 | every record decompresses to the data that was added, all offsets in bounds |
| Packfile.WriteThenRead | dsvn-core/src/packfile.rs:49-202 | written, opened and asked: the added data for added ids, nothing for others |
| Frames.WriteFrames | dsvn-webdav/src/sync_handlers.rs:163-181 | one frame per requested id in order, a sentinel for missing objects |
| Frames.ParseFrames | dsvnsync-cli/src/remote.rs:128-153 | the parser, which ignores fewer than 36 trailing bytes |
| Frames.StreamReadsBackIff | dsvnsync-cli/src/remote.rs:128-153 | the stream is read back if and only if every object is shorter than the sentinel |
| Frames.PrefixParsesToPrefix | dsvnsync-cli/src/remote.rs:128-153 | any byte prefix gives the whole frames it holds, or an error exactly when it was cut inside a frame's data |
| Frames.FetchingIsLookingUp | dsvnsync-cli/src/remote.rs:95-155 | fetching ids over the wire answers like looking them up |
| ContentHash.ComputeContentHash | dsvn-core/src/replication.rs:113-123 | the hash of the fed byte string |
| ContentHash.VerifyContentHash | dsvn-core/src/replication.rs:126-129 | accepts exactly when the digest of the list is the expected one |
| ContentHash.FedIsInjective | dsvn-core/src/replication.rs:113-123 | the byte string determines the object list |
| ContentHash.AcceptsOnlyWhatWasSent | dsvn-core/src/replication.rs:126-129 | with a collision-free hash exactly the list that was sent is accepted |
| ByteFields.LittleEndianKeepsIff | dsvn-core/src/packfile.rs:66-69 | a fixed-width field keeps a number if and only if it fits |
| ByteFields.BigEndianKeepsIff | dsvnsync-cli/src/remote.rs:135-137 | the same, most significant byte first |

## Left out

- Crash recovery and interrupted syncs: a commit's file writes are one step, a sync that starts also completes, and nothing is claimed about resuming from a checkpoint.
- The batch transaction around imports (`begin_batch`, `end_batch`): it groups SQL writes and does not change what they do without a crash.
- Legacy trees, the sled and `root_tree.bin` migrations, `persistent.rs`, `persistent_v2.rs`, `hot_store.rs`, `storage.rs`: not reachable for stores this code builds, or unfinished.
- Tree and commit objects in the object directory: nothing but the legacy path reads them back; the model keeps blobs only.
- Hook processes: the pre-commit verdict is an argument, and the sync tools' commits are accepted. Nothing follows from a failing post-commit hook (dsvn-core/src/hooks.rs:133-145).
- Revision and node properties, PROPPATCH, sync statistics, replication logs, configuration files, HTTP, XML and JSON: text around the modelled state. The configured `allow_empty` is read once per sync.
- MKACTIVITY: a client may choose and reuse a transaction's name, so outcomes by name would not be final; the model has the server's own names, as pairs of numbers.
- Errors of `add_file` in the middle of a MERGE: object and table writes do not fail in the model.
- Several repositories behind one server: the model has one, with the global lock.
- Dump query parsing, MD5, progress output: parameters or not modelled.
- `auth.rs`, `authz.rs`: rule look-ups beside the modelled state.
- Svndiff.DecodeSvndiff: positions are unbounded; lengths of a malformed stream whose sum with a position reaches 2^64 are not modelled, because what happens then depends on the build profile.
- DumpParser.ParseNodeHeaders: lengths are unbounded when added up, so an overflow by a malformed header is not modelled.
- DumpInMemory.ParseDumpFile: node properties and checksums, which only this reader keeps, are not modelled, nor is a panic on a node's property block.
- DumpInMemory.ReadersAgreeIff: so it speaks about inputs whose node property blocks the list reader survives.
- DumpFormat.DumpChange: a file that cannot be read is left out for both programs; dsvn-admin would print three header lines for it. OwnFileReadable shows that it does not happen while every revision is the replay of the one before.
- Packfile.OpenFindsIndex: data, compressed data and the count must be below 2^32, as the header fields hold no more.
- DavHandlers.DavServer.Merge: here the handlers run one at a time; interleavings are the subject of CommitProtocol.
