# Verified model of the v2 synchronization protocol

The engine keeps many clients in step through a remote that can only store, list and
delete objects. Clients publish immutable commits in catalog segments, read them with one
cursor per author and scope, plan every resource by a three-way comparison, and one
maintaining client deletes history that everybody has acknowledged. This project models
that protocol in Dafny and proves what its parts promise each other.

| file | what it holds |
|---|---|
| `Types.dfy` | resource, commit, baseline, conflict and plan values |
| `Core.dfy` | the three-way decision table, against a textbook three-way merge |
| `CommitGraph.dfy` | heads, the two worklist searches, text documents, remote state |
| `Text.dfy` | UTF-16 encoding and the prefix/suffix diff |
| `Binary.dfy`, `ChunkStore.dfy` | packs, reads through the chunk index, garbage collection |
| `Remote.dfy` | the object store, every write it performs, scans and compaction |
| `Retention.dfy` | newest-N retention, the acknowledgement gate, heads after deletion |
| `Catalog.dfy`, `CatalogProofs.dfy`, `CatalogTheorems.dfy` | the protocol as a transition system, its invariant, safety over all runs |
| `Durability.dfy`, `DurableRuns.dfy` | crash points inside a batch and inside a compaction; whole runs |
| `Execution.dfy`, `Convergence.dfy`, `Views.dfy` | planning and carrying out operations, what one undisturbed reconcile leads to |
| `Resolution.dfy` | conflict resolution and rollback |
| `OnlyCopy.dfy`, `Simulation.dfy` | runs in which users edit between planning and applying; a reconcile is one of them |
| `TextJoin.dfy` | order of deltas, two replicas editing the same text |
| `Batches.dfy`, `Maintenance.dfy`, `Refinement.dfy` | the steps `execute`, `maintain` and `reconcile` take |
| `Snapshots.dfy` | counting events and the snapshots a reconcile takes, and how often |
| `Upkeep.dfy`, `KeptVersions.dfy` | what one maintenance run makes of each resource; what the kept versions read as afterwards |
| `Quiescence.dfy`, `Agreement.dfy` | two reconciles in a row with honest listings; what a reconcile or a resolution may overwrite; settled clients hold the same file |
| `Runtime.dfy` | the runtime object itself; what its calls do to the remote is proved to be a sequence of protocol steps |

Three layers meet in `Runtime.dfy`. A client object mirrors one record of the transition
system; `Reconcile`, `ResolveAndReconcile`, `RollbackAndReconcile` and `Maintain` return the
steps they took; each of them needs and leaves `SyncRuntime.Ready`, so any session is a
sequence of such calls; and because every such sequence of steps extends a run
(`Maintenance.LeadsExtendsRun`), everything proved over runs holds of the code's own methods.

## Assumptions

- The hash is injective: a `Digest` is the bytes it stands for.
- A host never issues the same version token twice for one resource.
- A text update is a set of items and applying it is union. `set_text(t)` leaves the
  content `t`, and its update does the same to an equal document (`Crdt.Lawful`).
  `TextJoin.LawfulCrdtExists` shows that this can be met.
- Each client's counters increase from batch to batch, and the identifier of a new commit
  is new. The counter is saved only after the batch is stored (`src/runtime.rs:1104-1174`),
  so a restart in between would break the first of these.
- A host that lists a content hash lists the right one.
- The chunker returns non-empty consecutive chunks no longer than a 32-bit length, whose
  concatenation is the data.
- One client deletes history. Every client may compact a scope, but in a run only right
  after refreshing it, and any other than the deleting one only while it holds no removed
  commit and without dropping commits (`Catalog.CompactStep`). The code ensures neither:
  the scheduled snapshots (`src/runtime.rs:366-403`) look at a counter alone. Every theorem
  over runs below is about runs with this guard, and `Reconcile` promises protocol steps when
  the scopes that are due meet it (`Snapshots.RefreshedScopesMayBeSnapshot`: it is enough
  that they are among the refreshed ones and the client holds no removed commit). What
  happens without it is in the next section.

## Where the code does less than it says

- `src/text.rs:134-137` says both cuts fall on character boundaries. They need not: two
  emoji that share their first surrogate are cut in the middle (`Text.SharedHighSurrogate`).
  `Text.DiffMiddle` states exactly when the splice gives the new text.
- `src/binary.rs:46-50` says that equal pack contents make the index write idempotent.
  Two packs can have the same bytes and cut them differently; then the second index is
  never written and its chunks cannot be found (`ChunkStore.SplitFilesCollideWithAStoredPack`).
  `ChunkStore.PublishedIsReadableIff` gives the exact condition.
- A download reads the first head only (`src/runtime.rs:525-541`), while the planned
  content is the merge of all heads (`src/runtime.rs:201`). With several text heads the two
  can differ (`TextJoin.FirstHeadNeedNotBeTheMerge`). What the next plan makes of it depends
  on who hashes the file (`Convergence.DownloadSettlesIff`): the inventory takes the recorded
  hash and settles (`src/runtime.rs:405-466`), a host that hashes has the first head's text
  uploaded over the other heads. Either way the next edit is published against the merge the
  file never showed, and the joined text becomes that edit alone
  (`TextJoin.NextEditErasesUnseenHeads`).
- Retention keeps the newest N by timestamp and the checkpoint. That set need not be
  closed under children, so deletion can create heads (`Retention.RetentionCanForkALine`).
  `Retention.HeadsUnchangedIff` is the exact condition.
- A compaction need not keep what it does not name. It hides exactly the obsolete events if
  and only if the client holds every other visible event of the scope or has it beyond its
  cursors, holds nothing hidden, and has nothing hidden or obsolete beyond its cursors
  (`CatalogProofs.CompactionHidesExactlyTheObsolete`; for the scheduled snapshots of several
  scopes `Snapshots.SnapshotsHideNothingIff`). A client behind somebody else's snapshot loses
  events, however much it has counted (`CatalogProofs.LateCompactionLosesEvents`, in miniature
  `CatalogProofs.UnrefreshedCompactionLosesEvents`), one that holds a removed commit lists it
  again (`CatalogProofs.StaleCompactionListsAMissingCommit`).
- A batch is durable at every crash point if and only if the packs and indexes list all its
  chunks (`Durability.BatchPrefixesAreDurableIff`); a pack that meets an old index under its
  identifier is the exception. A compaction is so if and only if all it would list is stored
  and not dropped (`Durability.CompactionPrefixesAreDurableIff`).
- `resolve` calls a record stale by what the inventory says of the file (`src/runtime.rs:1521-1529`).
  That is the file's own hash if and only if the host gave it or the baseline has it
  (`Quiescence.ListedStateIsObservedIff`), which fails after a download of a first head that
  is not the merge (`Quiescence.ReconcileRecordsHashesIff`).

- A reconcile of all scopes names none (`scopes` is empty), and the list of conflicts keeps
  everything that is in no named scope (`src/runtime.rs:781-783`): it forgets no conflict, not
  even one that is gone (`Batches.GlobalReconcileForgetsNoConflict`), and maintenance goes on
  leaving that resource alone. `Batches.RecordedConflictsMeaning` says what is listed for any
  scopes.
- `src/runtime.rs:1876-1878` postpones text because text history is not self-contained. What
  it asks is the recorded kind, which the host may change: a resource recorded as binary with
  texts in its history loses deltas, and a kept version reads as another text
  (`KeptVersions.RetentionCanRewriteText`). `KeptVersions.KeptTextReadsTheSameIff` is the exact
  condition; every other kept version reads as before (`KeptVersions.KeptVersionReadsTheSame`).

## Model

| member | source | states |
|---|---|---|
| Core.PlannerIsThreeWayMerge | src/core.rs:11-115 | the decision table takes the side a textbook three-way merge of base, local and remote content takes; on a fork or a tombstone met without baseline it keeps both sides, and a file unknown remotely is published |
| Core.OverwritesOnlyTheBaseline | src/core.rs:53-60 | whenever the plan overwrites or removes a local file, the file's content is the acknowledged baseline's |
| Core.ConflictTellsBothSides | src/core.rs:11-115 | a conflict records all heads and the local state, and each kind is reported if and only if the sides moved that way |
| Core.OperationsCarryWhatWasSeen | src/core.rs:29-115 | baselines acknowledge all remote heads, uploads and deletions carry the observed local state, downloads the observed remote one |
| Core.InventoryIsThreeWayMerge | src/core.rs:117-146 | no resource any side knows is missed, no other is planned, and each is planned by the three-way merge of what the sides say about that resource |
| CommitGraph.IsDescendant | src/runtime.rs:103-117 | true exactly when zero or more parent edges lead from candidate to ancestor; ends on every finite map, cyclic or with missing parents |
| CommitGraph.TextDocAt | src/runtime.rs:146-180 | the document holds exactly the deltas of the commits reachable from the head inside the resource, whatever order they are taken in; the search ends |
| CommitGraph.TextDocAtOnlyHead | src/runtime.rs:127-180 | with one head, the document at the head is the document of all deltas |
| CommitGraph.HeadsMeaning | src/runtime.rs:93-101 | a head is a commit of the resource that no commit of the resource names as a parent |
| CommitGraph.HeadsAreUnrelated | src/runtime.rs:93-101 | no head of a resource is an ancestor of another |
| CommitGraph.EveryCommitReachesAHead | src/runtime.rs:93-101 | every known commit is an ancestor of some head |
| CommitGraph.PublishLeavesOneHead | src/runtime.rs:630-638 | publishing on top of the known heads leaves exactly the new commit as head and every other resource's heads alone |
| CommitGraph.HeadLostOnlyUnderAChild | src/runtime.rs:93-101 | in a growing map a commit stops being a head only under a new commit that names it |
| CommitGraph.StateAfterPublish | src/runtime.rs:182-226 | after publishing on all heads the remote state is that of the new commit, for text the merge of everything known |
| CommitGraph.RemoteStateFrame | src/runtime.rs:182-226 | heads, document and remote state depend on the resource's own commits alone |
| CommitGraph.RemoteStateMeaning | src/runtime.rs:182-226 | head by head, for any heads: missing if and only if there is none, deleted if and only if all are tombstones, present if and only if all are text or all are one snapshot, forked if and only if two are unlike; the content is that snapshot's or the merged text's |
| Text.DiffMiddle | src/text.rs:113-160 | maximal common prefix, then maximal non-overlapping suffix, 32-bit saturation; the insertion is exactly the characters that start between the cuts, and the edited text reads as the new text if and only if the cuts are clean |
| Text.SplicedUnits | src/text.rs:134-160 | what the edit gives whatever the cuts: of a pair split by the start cut the second half is lost, of one split by the end cut it comes twice, everything else is the new text |
| Text.DecodesIff | src/text.rs:113-139 | code units read as a text, by the decoding rules of UTF-16, if and only if they are its encoding |
| Text.CharacterBounds | src/text.rs:139-153 | the last loop finds the first characters at or after each cut |
| Text.MiddleLaw | src/text.rs:134-153 | the inserted characters are the middle of the new text if and only if it is empty or neither cut splits a surrogate pair |
| Text.SharedHighSurrogate | src/text.rs:134-137 | two characters with the same high surrogate for which the splice gives something else |
| Binary.BuildPacks | src/binary.rs:64-88 | the distinct chunks in order, grouped; every pack but the last reaches the target and none reaches target plus the largest chunk |
| Binary.EachHashInExactlyOnePack | src/binary.rs:60-98 | every hash of the input is listed by exactly one pack, by an entry whose offset and length cut the bytes of a chunk with that hash out of the pack |
| Binary.PackedBytesAreConserved | src/binary.rs:60-98 | the packs of any chunk list hold exactly as many bytes as its distinct chunks |
| Binary.LayoutSlices | src/binary.rs:75-79 | each recorded offset and length cuts the chunk's own bytes out of the pack, of a chunk too long for 32 bits as many as they can count |
| ChunkStore.ReadSnapshot | src/runtime.rs:542-578 | whatever the store holds, the bytes returned are those the chunk list stands for; in a consistent store there are some if and only if every chunk is indexed |
| ChunkStore.ManifestDenotesData | src/runtime.rs:598-612 | the chunk list of any partition stands for exactly the partitioned data |
| ChunkStore.PublishedIsReadableIff | src/runtime.rs:598-640 | after publishing only the missing chunks the whole list is readable if and only if no built pack's identifier already has an index |
| ChunkStore.SplitFilesCollideWithAStoredPack | src/v2_remote.rs:237-239 | a consistent store and two new files whose pack collides with a stored one: afterwards neither of their chunks is listed |
| ChunkStore.LaterWritesKeepReads | src/v2_remote.rs:29-46 | what was readable stays readable whatever packs are stored later |
| ChunkStore.WithPacksKeepsConsistency | src/v2_remote.rs:233-239 | storing well-sealed packs and indexes keeps the store consistent and every listed chunk listed |
| ChunkStore.GarbageCollectionKeepsLiveReads | src/runtime.rs:2023-2046 | after deleting the packs in which no live chunk was located, every live snapshot reads as before, also when a chunk was in several packs |
| Remote.LocalFolderRemote.ScanCatalog | src/v2_remote.rs:148-220 | returns exactly the events the snapshots and segments offer beyond the cursors, and per author and scope the largest cursor on offer |
| Remote.LocalFolderRemote.CommitBatch | src/v2_remote.rs:233-290 | performs exactly the writes packs, indexes, commits, segments in that order; stored objects are not overwritten |
| Remote.LocalFolderRemote.LookupChunks | src/v2_remote.rs:292-314 | finds one index entry for exactly the wanted hashes that some index lists |
| Remote.LocalFolderRemote.ReadRanges | src/v2_remote.rs:316-333 | all ranges in order, or the error of the first that is missing, short or corrupt |
| Remote.LocalFolderRemote.CompactCatalog | src/v2_remote.rs:389-448 | swaps the snapshot, drops exactly the segments it covers, then the obsolete commits |
| Remote.LocalFolderRemote.DeletePackObjects | src/v2_remote.rs:381-387 | removes the packs and their indexes and nothing else |
| Remote.ReadRangeMeaning | src/v2_remote.rs:316-333 | a range that is read has the address asked for; the error is a corrupt chunk if and only if the pack holds other bytes there, and an I/O error if and only if the pack is missing or too short |
| Remote.LocalFolderRemote.WriteAcknowledgements | src/v2_remote.rs:335-349 | each acknowledgement replaces the client's earlier one for the resource |
| Remote.CompactionLogMeaning | src/v2_remote.rs:402-447 | the deletions in any order amount to the store without covered segments and obsolete commits |
| Catalog.IncrementalScanRefinesFullScan | src/v2_remote.rs:148-220 | a scan with cursors returns exactly the full scan's events above them, and the pointwise maximum of both cursor sets |
| CatalogProofs.VisibleMeaning | src/v2_remote.rs:148-220 | an event is visible if and only if the scope's snapshot lists it or a segment does beyond what the snapshot covers |
| CatalogProofs.CommitBatchPublishes | src/v2_remote.rs:233-290 | the writes of a batch, in any order of groups, amount to the publish step |
| CatalogProofs.CompactionHidesExactlyTheObsolete | src/v2_remote.rs:389-448 | for any client and any scope, a full scan afterwards loses exactly the obsolete events if and only if the client is fit: everything else visible is held or beyond its cursors, nothing it keeps is hidden, nothing beyond its cursors is hidden or obsolete |
| CatalogProofs.RefreshedClientIsFit | src/runtime.rs:1982-2021 | a client that just refreshed the scope is fit if and only if it holds no commit of it that was removed before |
| CatalogProofs.StaleCompactionListsAMissingCommit | src/runtime.rs:1982-2016 | a compactor that holds a removed commit makes a full scan list it again |
| CatalogProofs.LateCompactionLosesEvents | src/runtime.rs:366-403 | when a fit client that has seen an event and is past its segments compacts, nothing is hidden; when any client that does not hold the event compacts after that, whatever else it holds or has counted, the event disappears |
| Snapshots.SnapshotsHideNothingIff | src/runtime.rs:366-403 | the scheduled snapshots of any client leave a full scan as it was if and only if the client is fit to compact each of the scopes |
| Snapshots.SnapshotsAreFarApart | src/runtime.rs:366-403 | in any row of reconciles of one client, whatever happens in between, at least 10,000 new uncovered events of a scope are listed between two snapshots it takes of the scope |
| CatalogProofs.UnrefreshedCompactionLosesEvents | src/v2_remote.rs:389-448 | the same in miniature: two commits, a client that holds the first and one that holds both and compacts first |
| CatalogProofs.StepKeepsInv | src/runtime.rs:299-357 | every step of every client, with compactions guarded as under Assumptions, keeps the invariant: a full scan lists the live history, each client knows every live commit up to its cursors, and commit maps are closed under parents up to removed ones |
| CatalogProofs.RunKeepsInv | src/runtime.rs:299-357 | the invariant holds at every point of every run with guarded compactions |
| CatalogTheorems.FullScanIsTheLiveHistory | src/v2_remote.rs:148-220 | at every point of every run in which only just refreshed clients compact, and others than the maintainer only without removed commits, a full scan lists exactly the published commits not removed, and each can be loaded |
| CatalogTheorems.CursorsAreSound | src/runtime.rs:299-357 | a client holds every visible event at or below its cursor, whatever publishes, refreshes and compactions by just refreshed clients (other than the maintainer only without removed commits) came before |
| CatalogTheorems.RefreshLearnsTheScopes | src/runtime.rs:299-357 | after a refresh the client holds every visible event of the scopes it asked for |
| CatalogTheorems.RefreshCanAlwaysLoad | src/runtime.rs:331-339 | in every run whose compactions are guarded as under Assumptions everything a scan lists can be loaded |
| CatalogTheorems.PublishedCommitsReachEveryClient | src/runtime.rs:1982-2021 | a published commit that was not removed is held by every client after its next refresh of the scope, however many compactions happened, each by a just refreshed client that holds no removed commit or is the maintainer |
| CatalogTheorems.CompactionHidesNothingElse | src/v2_remote.rs:389-448 | in every run a compaction that meets the guard hides exactly the obsolete commits |
| CatalogTheorems.DeletionIsAcknowledged | src/runtime.rs:1929-1949 | whenever a commit is deleted, each active author of the resource has acknowledged a head on top of the checkpoint and itself holds both |
| CatalogTheorems.KnownDagIsSound | src/runtime.rs:93-101 | in every reachable state each known commit is below a known head and known heads are unrelated |
| CatalogTheorems.HeadIsLostOnlyByAHolder | src/runtime.rs:1043-1086 | in every run a published commit stops being a head only when a client publishes that already held it |
| CatalogTheorems.ConcurrentHeadsRemain | src/runtime.rs:1043-1086 | while no publishing client holds it, a head stays a head |
| Retention.HeadsAfterDropping | src/runtime.rs:1951-1971 | after dropping any set the heads are exactly the surviving heads and the kept commits all of whose children are dropped |
| Retention.HeadsUnchangedIff | src/runtime.rs:1951-1971 | the heads stay the same if and only if no head is dropped and every kept commit with a child keeps one |
| Retention.CausalRetentionKeepsHeads | src/runtime.rs:1951-1971 | with causal timestamps, the checkpoint among the newest N and nothing pinned, retention changes neither heads nor remote state |
| Retention.RetentionCanForkALine | src/runtime.rs:1951-1965 | four commits in a row and one kept version: deletion leaves two heads |
| Retention.NewestSize | src/runtime.rs:1951-1962 | retention takes exactly the asked number of newest versions, or all when there are no more |
| Durability.BatchPrefixesAreDurableIff | src/v2_remote.rs:233-290 | after every prefix of a batch's writes each visible event has its commit and each chunk it names an index entry and a pack, if and only if packs and indexes list every chunk of the batch |
| DurableRuns.EveryRunIsDurable | src/runtime.rs:2023-2046 | at every point of every run whose batches list their chunks and whose collections delete only packs in which a caught-up client located no chunk it knows, each visible event can be loaded and its content read |
| DurableRuns.GrownIsDurableIff | src/runtime.rs:985-1037 | a call that publishes (`Reconcile`, `Resolve`, `Rollback`) leaves a durable remote durable if and only if every chunk of the commits it published is listed |
| DurableRuns.MaintainedIsDurableIff | src/runtime.rs:1838-2049 | so does `Maintain`, for the checkpoints it made |
| Durability.CompactionPrefixesAreDurableIff | src/v2_remote.rs:402-447 | after every prefix of any client's compaction, the pointer swap taken as one step, each visible event is stored with its chunks, if and only if everything it would list is stored and nothing of it is dropped |
| Durability.FitCompactionIsDurable | src/v2_remote.rs:402-447 | a client that is fit to compact meets that condition |
| OnlyCopy.ReconcileNeverDestroysTheOnlyCopy | src/runtime.rs:746-1337 | over every run of user edits and reconciles, what the engine overwrites or deletes is the content of a commit, from then on for ever |
| OnlyCopy.StepKeepsInv | src/runtime.rs:673-709 | a present baseline's content is always committed, and a planned state still tells what an unchanged file holds |
| Simulation.ReconcileIsARun | src/runtime.rs:1412-1470 | a reconcile of binary files is a run of those machines: list, plan, and a read with a commit or one application for each resource that did not fail, ending with the same files, baselines and commits |
| Simulation.ReconcileDestroysNoOnlyCopy | src/runtime.rs:746-1337 | wherever in a run of user edits and reconciles it comes, it replaces or removes a binary file only if the content is that of a commit |
| Convergence.DownloadSettlesIff | src/runtime.rs:405-466 | after the content of the first head was downloaded and the file is listed honestly, the next plan settles if and only if the host left the hash out or the first head has the text of all heads merged; otherwise it uploads the first head's text |
| Convergence.UnlikeHeadsAreAConflict | src/runtime.rs:182-226 | while two heads are unlike, such as a tombstone beside content, every replica plans a fork conflict with all heads, whatever its file and its baseline |
| Convergence.OnlyDivergedTextMerges | src/runtime.rs:468-517 | text changes the plan if and only if the file and the remote content both moved from a baseline; then the local text is uploaded |
| Convergence.BaselineIsOfTheKnownHeads | src/runtime.rs:1104-1337 | what a carried-out operation leaves as baseline is of exactly the heads known now and of the file as it is now, version and presence |
| TextJoin.FirstHeadNeedNotBeTheMerge | src/runtime.rs:525-541 | a lawful text type and two heads whose first has another text than the merge that is planned to be downloaded |
| TextJoin.NextEditErasesUnseenHeads | src/runtime.rs:1055-1066 | after such a download whatever the user writes next becomes the joined text, and what the other heads had added is gone |
| TextJoin.NextEditBecomesTheDocument | src/runtime.rs:1055-1077 | after a text was found in step or uploaded, the next edit is made against all that is known, so the joined text becomes that edit |
| Convergence.ReconciledResourceIsQuiet | src/runtime.rs:1038-1337 | once the planned operation is carried out and the host hashes the file, the next plan repeats a conflict, and otherwise is settled if and only if no download wrote a first head that is not the merge |
| Resolution.ResolveCollapsesTheHeads | src/runtime.rs:1515-1733 | a carried-out resolution leaves one head above all recorded ones and keeps every commit; if the inventory saw the file as it is, it has the chosen content and the next plan is settled |
| Resolution.RollbackRestoresTheVersion | src/runtime.rs:1736-1835 | a rollback publishes exactly the selected version's content on top of all heads, removes no commit, and the next plan is settled |
| Views.ExecutedResourceIsQuiet | src/runtime.rs:1038-1337 | the same, both ways, for the outcome the whole `execute` leaves, in whatever order it worked |
| Views.AfterCommitElsewhere | src/runtime.rs:1104-1172 | publishing for one resource leaves file, baseline, document and commits of every other alone |
| TextJoin.ReplayIsTheDocument | src/runtime.rs:127-144 | applying the deltas of a resource's commits in any order, each at least once, gives the document its heads are read from |
| TextJoin.TwoReplicasJoin | src/runtime.rs:1055-1172 | two replicas editing the same acknowledged text and reconciling in turn both end with the join of both edits, in document and file |
| TextJoin.LawfulCrdtExists | src/text.rs:51-68 | the contract assumed of the text type can be met |
| Batches.UploadsAreReadable | src/runtime.rs:985-1033 | when no built pack meets an index under its identifier, every snapshot of the batch can be read back |
| Batches.BatchProgress | src/runtime.rs:1038-1174 | after the batch is taken over each planned upload or deletion has its outcome and no other resource changed |
| Batches.RecordedConflictsMeaning | src/runtime.rs:781-846 | in the named scopes exactly the conflicts of this plan are listed afterwards, in the others those of before and of this plan |
| Batches.GlobalReconcileForgetsNoConflict | src/runtime.rs:781-783 | a reconcile that names no scope keeps every listed conflict |
| Batches.AcknowledgedMeaning | src/runtime.rs:1361-1373 | exactly the planned resources that are not in conflict are acknowledged, at the heads known then and pinning nothing; every other acknowledgement stays |
| Runtime.LocalReplica.WritePresent | src/runtime.rs:663-671 | writes under a fresh token exactly when the slot is still what was planned |
| Runtime.SyncRuntime.RefreshRemote | src/runtime.rs:299-357 | counts the events no snapshot covers; is the refresh step, or changes nothing else when a listed commit cannot be loaded |
| Runtime.SyncRuntime.ContentForRemote | src/runtime.rs:519-580 | returns exactly the content of the commit, and something if and only if it is no tombstone and its chunks are indexed |
| Runtime.SyncRuntime.PublishBytes | src/runtime.rs:587-640 | one new commit with the next counter, stored in one batch; for a binary with exactly the packs the remote lacks, for a text with none |
| Runtime.SyncRuntime.PublishDelete | src/runtime.rs:642-661 | one new tombstone with the next counter, stored without packs |
| Runtime.SyncRuntime.MakeCommit | src/runtime.rs:1038-1090 | the commit of one planned upload or deletion, or none exactly when the file is gone or changed; only a binary is cut into chunks |
| Runtime.SyncRuntime.ApplyOne | src/runtime.rs:1177-1337 | the effect of one remaining operation; it fails, and then changes nothing, exactly when the content cannot be read or the slot is no longer the planned one |
| Runtime.SyncRuntime.Execute | src/runtime.rs:746-1374 | every planned resource has its outcome as seen from the start, a failed one being exactly one whose file moved on or whose content cannot be read; every other is untouched, conflicts of the scopes are replaced by the planned ones, and the remote holds the batch and the acknowledgements |
| Runtime.SyncRuntime.LocalInventory | src/runtime.rs:405-466 | the planner's states, with the cached hash used only for an unchanged version token |
| Runtime.SyncRuntime.SnapshotLargeCatalogs | src/runtime.rs:366-403 | writes a snapshot of every scope with 10,000 counted events and no other, whatever the order; afterwards those count 0, every other keeps its count and none is due; steps of the protocol when the client may compact them |
| Runtime.SyncRuntime.Reconcile | src/runtime.rs:1412-1470 | a refresh, the snapshots of exactly the scopes that reach 10,000 with the listed events, at most one batch and acknowledgements as steps of the protocol; locally, exactly the plan built after the refresh is carried out |
| Runtime.SyncRuntime.Resolve | src/runtime.rs:1515-1729 | decides exactly as the heads, the inventory, the choice and the store say: drops a stale record, refuses without effect, or settles the conflict as chosen by one publish step |
| Runtime.SyncRuntime.ResolveAndReconcile | src/runtime.rs:1505-1733 | a settled conflict is followed by a reconcile of the scope, and both together are steps of the protocol |
| Runtime.SyncRuntime.Rollback | src/runtime.rs:1736-1831 | restores a known version of that resource by one publish step, or refuses without effect exactly when the version is unknown, the inventory fails, the content cannot be read or the file moved on |
| Runtime.SyncRuntime.RollbackAndReconcile | src/runtime.rs:1736-1835 | the rollback with the reconcile that follows it, as steps of the protocol |
| Runtime.SyncRuntime.AllHaveSeen | src/runtime.rs:1929-1949 | true exactly when every active client acknowledged a head on top of the checkpoint |
| Runtime.SyncRuntime.Judge | src/runtime.rs:1857-1980 | gives exactly the verdict `Upkeep.VerdictOf` defines and `Upkeep.VerdictMeaning` explains: short, left alone, to be checkpointed, waiting, nothing to drop, or what to drop |
| Runtime.SyncRuntime.MakeCheckpoint | src/runtime.rs:1884-1927 | a copy of the only head becomes the only head, the checkpoint, and acknowledged |
| Runtime.SyncRuntime.CollectGarbage | src/runtime.rs:2023-2046 | deletes exactly the packs in which no chunk of a known snapshot was located, so each pack that stays lists a chunk of one; every known snapshot is readable afterwards if and only if it was before |
| Runtime.SyncRuntime.Maintain | src/runtime.rs:1838-2049 | is a sequence of protocol steps that treats each resource in scope by the verdict about it right after the refresh, with recorded conflicts and interrupted operations held; without failure it deletes exactly what was deletable then, and what was readable stays readable |
| Upkeep.VerdictMeaning | src/runtime.rs:1857-1980 | when history is short, left alone, to be checkpointed, waiting or dropped, by number, kind and heads; dropped is exactly what has as many newer versions (by timestamp, then identifier) as are kept, is not the checkpoint and not pinned |
| Upkeep.WaitingMeaning | src/runtime.rs:1929-1949 | deletion waits if and only if the maintainer or an author who is not retired has acknowledged no head on top of the checkpoint |
| Upkeep.HistoryStays | src/runtime.rs:1857-1882 | after any maintenance run, failed or not, history that was short, forked, in conflict, held or text has exactly the commits it had and no new checkpoint |
| Upkeep.OnlyCopiesArePublished | src/runtime.rs:1884-1927 | a maintenance run publishes nothing but one copy of a head per resource that had too much history, was not left alone and had no checkpoint |
| Upkeep.MaintainedResource | src/runtime.rs:1857-2021 | what a run that did not fail makes of each resource: checkpoint cleared, made or kept, and exactly which commits go |
| KeptVersions.KeptVersionReadsTheSame | src/runtime.rs:1951-2021 | every version still known after a maintenance run reads as before, except texts of a resource recorded as binary |
| KeptVersions.KeptTextReadsTheSameIff | src/runtime.rs:1876-1882 | in that case it does if and only if each item of its ancestors is in an ancestor it still reaches |
| KeptVersions.RetentionCanRewriteText | src/runtime.rs:1876-1882 | three texts recorded as binary: deleting the first changes what the kept second one reads as |
| KeptVersions.EnoughVersionsStay | src/runtime.rs:1951-1965 | after a run that did not fail at least the asked number of versions is left, or all there were |
| Maintenance.RunKeepsSystem | src/runtime.rs:1982-2016 | in every run what a snapshot lists is covered by its cursors or still stands in a segment |
| Maintenance.FullRefreshCatchesUp | src/runtime.rs:1842-1845 | after a full refresh the maintainer holds exactly what is live and its cursors are past all of it |
| Maintenance.SameDecision | src/runtime.rs:1929-1980 | the decision about a resource nobody touched does not depend on when it is made |
| Maintenance.DeletedIsAcknowledged | src/runtime.rs:1929-1949 | no commit maintenance deletes is a checkpoint, and each active author of its resource acknowledged a head above the checkpoint and holds both |
| Maintenance.LeadsExtendsRun | src/runtime.rs:1412-1470 | the steps of one call extend every run that ends where the call began |
| Refinement.ExecuteSteps | src/runtime.rs:1038-1374 | storing the batch and the acknowledgements is a run of the protocol that leaves the client's own records as they are in the code |
| Refinement.BuiltPlanIsPlanFor | src/runtime.rs:468-517 | the built plan holds for each resource in scope the operation planned for it alone, in the state the inventory reports |
| Quiescence.UndisturbedReconcileIsQuiet | src/runtime.rs:405-517 | two reconciles in a row, each with an honest listing whose missing hashes come from the baselines: for every resource that did not fail the second repeats a conflict, and otherwise is settled, except that it uploads a downloaded first head that is not the merge when the host hashes it |
| Quiescence.SingleHeadReconcileIsQuiet | src/runtime.rs:405-517 | for a resource with one head, or whose first head is not text, the second reconcile repeats a conflict or settles, whoever hashes the file |
| Quiescence.ListedStateIsObservedIff | src/runtime.rs:405-466 | what the inventory says of an honestly listed file is true if and only if the host gave the hash or the baseline has it |
| Quiescence.DescribedStateIsObservedIff | src/runtime.rs:405-466 | whatever size is listed, a file the engine reads itself is seen with its own hash and size; a hash given or recorded is seen truly if and only if it and the listed size are true |
| Quiescence.ReconcileRecordsHashesIff | src/runtime.rs:405-466 | a reconcile leaves the file's own hash in every baseline whose version is the file's, if and only if it downloaded no first head that is not the merge |
| Quiescence.ReconcileOverwritesOnlyWhatIsPublished | src/runtime.rs:1038-1337 | a reconcile replaces or removes a file, binary or text, only if it is the acknowledged one or went into a commit on the way |
| Quiescence.SettledBaselineIsCurrent | src/runtime.rs:1104-1337 | after a reconcile with an honest listing the baseline of whatever did not fail is of the heads known and of the file's version, or says that there is none |
| Quiescence.SettledTextHasItsDocument | src/runtime.rs:1104-1337 | after a reconcile the recorded document of a text that was in step, uploaded or downloaded is everything known of it |
| Quiescence.OthersStay | src/runtime.rs:746-1374 | what a reconcile does not plan, and what fails, keeps its file, baseline, document and commits |
| Quiescence.ForkedResourceIsLeftAlone | src/runtime.rs:191-224 | a reconcile leaves file, baseline, commits and base text of a resource with unlike heads as they are and lists the fork with all heads, whatever the host listed |
| Quiescence.ResolvedFileIsTheRecorded | src/runtime.rs:1515-1534 | with a true listing, a resolution that goes through found the heads of the record and the file with the version and content of the record |
| Quiescence.ChangedFileIsKept | src/runtime.rs:1521-1529 | a file whose version or content differs from the record, or heads that do, make the resolution stale: file, baselines and commits stay as they were |
| Agreement.ReconciledReplicaAgreesIff | src/runtime.rs:1038-1337 | a reconcile that did not fail on a resource leaves the file with exactly the content the known commits add up to, if and only if it met no conflict and downloaded no first head that is not the merge |
| Agreement.SettledClientsHoldTheSameFile | src/runtime.rs:1412-1470 | in every run with guarded compactions two clients that refreshed since others last published for a resource, hold none of its removed commits and have nothing left to do hold the same file, text or binary |
| Agreement.HoldsLiveUntilPublished | src/runtime.rs:299-357 | what a client held right after its refresh stays everything live of the resource until somebody else publishes for it |

## Left out

- v1 (`src/engine.rs`, `src/oplog.rs`, `src/remote.rs`, `src/store.rs`): not linked into v2.
- Files, JSON, redb, zstd and the foreign-function layer: the remote is maps and sets of objects, and one object write is one step; so are the remove-then-rename of the snapshot pointer and the two deletions of `delete_pack_objects`.
- blake3, FastCDC and yrs: an injective digest, any partition into non-empty chunks, a set of items per update.
- Snapshot files of earlier generations, the generation number and the order in which files are listed: one current snapshot per scope, any order.
- The order of `parents`, `heads` and events: they are sets here (an event that is listed twice is counted once); only "the first head" and "the last commit" depend on it, and both are modelled.
- Byte offsets into the new text: positions in the list of characters stand for them.
- Commit identifiers, timestamps and chunk cuts are parameters of the methods that need them.
- `TextMergePolicy` and the order it gives operations, events, reports, `created_at`, the run journal: no bearing on what is proved; resources of an interrupted run are a parameter of `Maintain`.
- Text that is not valid UTF-8: `set_text` is given any bytes.
- Races inside one `Maintain` or one `Execute`: other clients' steps happen before or after; user edits between planning and applying are in `OnlyCopy.dfy` and in the arbitrary inventory `Execute` is given.
- A crash between storing a batch and saving the client's state.
- Runtime.SyncRuntime.Resolve: without the copies it preserves for other resources.
- OnlyCopy.ReconcileNeverDestroysTheOnlyCopy: about binary resources; a merged text is written back over the local edit, whose text is in the published delta and not the content of a commit; `Quiescence.ReconcileOverwritesOnlyWhatIsPublished` covers text, for one reconcile at a time.
- `preview`, `history`, `list_conflicts`, `close`: reads without a property of their own.
