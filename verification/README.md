# A verified model of the cloud platform's storage core

The platform keeps all user data in a replicated key-value store and builds a file
service and a mailbox on it. This project models the four parts that hold hard state and
proves what they promise:

* **The key-value node.** Chunk files with an index and counted lazy deletion
  (`Records`, `ChunkFolder`, `ChunkStore`), the regular expressions and the text of the
  write-ahead log (`Regex`, `LogCodec`), the node as a state machine over disk, log, read
  cache and pending updates (`KvModel`), the messages of a full synchronisation
  (`SyncMessages`), durability and recovery against the history of operations (`History`),
  and replication over whole runs of a cluster (`Replicas`).
  `KvCaches.KvCache` and `KvNode.Node` are the mutable objects; each of their methods is
  proved against those machines, and `SizeBounds` and `NodeRuns` bound the chunk files in
  every run. Everything refines one view: a map from user and key to
  a value in which absent and `""` are the same.
* **Cluster membership.** The master's three lists, its broadcasts and the flags of the
  node processes (`NodeRole`, `Membership`, `MasterProcess`).
* **The file service.** A tree of entries with parent links, paths, a breadth-first
  printer and a line parser that store the tree in one cell, and the handlers that work
  on it (`StorageTree`, `StorageSubtree`, `StoragePath`, `StorageBreadth`,
  `StorageMetadata`, `StorageReload`, `StorageDelete`, `StorageWorld`, `StorageSteps`,
  `StorageService`, `StorageEffects`, `StorageRequests`); `StorageBackend` proves that a node serves the
  cells the handlers work on.
* **The mailbox.** A parser, a printer and two edit operations on one text (`Mailbox`).

A character stands for one byte. Files and cells are byte sequences in memory; a message
is delivered before the next event; the iteration order of an unordered map is arbitrary
(loops pick any remaining key, and the printer of the file service takes any order as a
parameter). Where a promise does not hold of the code, the exact condition under which it
holds is proved: names outside the log header's characters (`LogCodec.LogRoundTrip`), those names
and refused compare-and-puts in replay (`History.RestartRestores`,
`History.RestartFailsExactlyOnGap`), users without a folder in listings
(`KvModel.GetsAllListsView`) and checkpoints (`KvModel.CheckpointKeepsView`,
`History.CheckpointThenRestart`), nodes that missed operations (`History.StaleRejoin`),
users whose names the header of the file transfer cannot carry
(`SyncMessages.TransferIff`, `History.RecoveryAgrees`, `History.RetryAfterStop`),
shared ports (`Membership.SharedPortMakesTwoPrimaries`), paths with trailing slashes
(`StoragePath.LookupIffPath`, `StoragePath.TrailingSlashes`), names outside the metadata
format (`StorageReload.MetadataRoundTrip`, `StorageSteps.FirstWorldStored`), requests that
leave no storable tree (`StorageWorld.AllowedIsExact` with `StorageTree.CreateKeepsTree`,
`RenameKeepsTree`, `MoveKeepsTree`), reverted moves (`StorageEffects.MoveReverts`) and the
id counter of the mailbox (`Mailbox.DeliveredIdIsFresh`).

## Model

| member | source | states |
|---|---|---|
| Text.DecRoundTrip | backend/chunk.h:161-176 | a number written in decimal reads back as itself |
| Text.TableRoundTrip | backend/chunk.h:50-61 | the two-line tables of the index and of the delete list read back as the pairs written |
| Records.ChunkRoundTrip | backend/chunk.h:112-117 | any sequence of records with newline-free keys, whatever bytes the values hold, is recovered from the file text |
| Records.LoadChunk | backend/chunk.h:183-197 | the record loop returns exactly the records the file was written from |
| Records.ScanForKey | backend/chunk.h:67-95 | the seek-skipping scan returns the value of the last record of the key, or none |
| Records.EraseCounted | backend/chunk.h:227-236 | the erase loop removes the first n occurrences of every counted key |
| Records.DropSparesAppended | backend/chunk.h:220-236 | dropping the first occurrence removes the old record of every marked key and never an appended one, although both lie in one chunk |
| ChunkFolder.SurvivingRecords | backend/chunk.h:200-247 | after a batch a chunk holds its old records of keys outside the batch, then the appended ones |
| ChunkFolder.IndexAfterBatch | backend/chunk.h:120-152 | after a batch every indexed key has exactly one record over all chunks, in the chunk the index names, with its latest value |
| ChunkFolder.BatchRefinesOverlay | backend/chunk.h:120-152 | a batch of updates, metadata write and lazy deletion together lay the batch over the stored pairs and keep the folder well formed |
| ChunkFolder.SizesAfterDeletion | backend/chunk.h:220-243 | lazy deletion keeps the size bound of every chunk |
| ChunkStore.SizeStep | backend/chunk.h:134-144 | appending one record keeps a full chunk within the limit plus one record |
| ChunkStore.ReadDeleteList | backend/chunk.h:207-218 | the reader counts, per chunk, how often each key is listed for deletion |
| ChunkStore.Chunk.Init | backend/chunk.h:31-64 | a fresh object agrees with the stored index and metadata; without a folder it answers USER_ERROR |
| ChunkStore.Chunk.GetValue | backend/chunk.h:67-95 | a read returns the stored value of the key, or KEY_ERROR if there is none |
| ChunkStore.Chunk.GetAllKv | backend/chunk.h:98-109 | the listing is exactly the stored pairs |
| ChunkStore.Chunk.AppendKvs | backend/chunk.h:120-152 | the whole batch operation: stored pairs become the old ones overlaid with the batch, other users keep theirs, sizes stay bounded |
| ChunkStore.Chunk.AppendRecords | backend/chunk.h:124-147 | the append loop lists every old record, appends every new one and moves the index, key by key in any order |
| ChunkStore.Chunk.AppendOne | backend/chunk.h:125-146 | one key of the batch, deletion or new value, keeps what the loop needs and the size bound |
| ChunkStore.Chunk.StoreOne | backend/chunk.h:130-137 | one record is appended, its key is indexed and an old record is listed for deletion |
| ChunkStore.Chunk.RollOver | backend/chunk.h:138-144 | a chunk over the limit is closed and a new one opened, so the append chunk is within the limit |
| ChunkStore.Chunk.WriteMetaBack | backend/chunk.h:155-180 | index, metadata and delete list are stored so that they read back as the object's fields |
| ChunkStore.Chunk.LazyDelete | backend/chunk.h:200-247 | every listed chunk is rewritten without the counted records, others stay, the list is gone |
| Regex.ScannerComplete | backend/cache.h:22-30 | the greedy scanner finds every match of the formats' expressions, with the same groups |
| Regex.ScannerSound | backend/cache.h:22-30 | every match the scanner reports is a match of the expression |
| Regex.FullMatchIff | frontend/storage.h:19-30 | a whole line matches an expression with given groups if and only if the scanner says so |
| Regex.SearchSkips | backend/cache.h:792-800 | a search steps over a prefix in which no match starts |
| LogCodec.RoundReadsEntry | backend/cache.h:792-835 | one round of the replay loop reads back one written entry, whatever its value holds and whatever follows, if and only if user and key are made of the header's characters |
| LogCodec.LogRoundTrip | backend/cache.h:898-914 | a checkpoint line and any entries give back the checkpoint, and parse back to exactly those entries if and only if all users and keys are made of the header's characters; values may be anything |
| LogCodec.ItemsAreNamed | backend/cache.h:792-835 | whatever the log holds, every operation replay executes has a user and key of the header's characters |
| LogCodec.HeaderlessIsSilent | backend/cache.h:22-25 | an entry of another user or key, without blanks in them and without the first word of a header anywhere, lets no header begin within it |
| LogCodec.ValueIsReplayed | backend/cache.h:792-835 | of an entry whose user or key the header cannot name, replay passes over the header and takes the value, whatever it holds, for log text |
| LogCodec.ItemsOfEntries | backend/cache.h:792-835 | replay meets exactly the entries with proper names, in order, and passes over the others |
| LogCodec.RoundNames | backend/cache.h:22-25 | a user and key that replay takes from a header are names of the header's character class |
| LogCodec.RoundShrinks | backend/cache.h:792-835 | every round consumes text, so the replay loop ends |
| KvModel.GetsReturnsView | backend/cache.h:152-183 | a read returns the view of the cell, keeps the view and keeps the read cache coherent |
| KvModel.SecondGetsFinishes | backend/cache.h:152-183 | after a failed read the empty cache entry makes the next read finish with the view |
| KvModel.WriteCellWrites | backend/cache.h:865-887 | a write in memory changes one cell of the view and keeps coherence |
| KvModel.LookedUp | backend/kvstore.cpp:85-101 | the read and the folder creation before a compare-and-put change no cell and make its own read finish with the view |
| KvModel.CputIsCompareAndSwap | backend/kvstore.cpp:81-105 | compare-and-put is an atomic swap on the view with absent read as empty: FINISHED and one cell written if and only if the cell equals the expected value, else VALUE_ERROR, no cell changed and nothing logged |
| KvModel.StepTakesEffect | backend/kvstore.cpp:72-123 | every numbered command has exactly its effect on view, log and numbers, and none gets SEQ_ERROR |
| KvModel.StepKeepsView | backend/kvstore.cpp:107-146 | reads, listings and checkpoints keep view and numbers; reads answer the view |
| KvModel.CheckpointKeepsView | backend/cluster_interface.h:86-98 | a checkpoint keeps the view of the running node; for cleared caches it does so if and only if every user with a pending non-empty value has a folder |
| KvModel.GetsAllListsView | backend/cache.h:185-212 | the listing has exactly the keys whose cells are non-empty, with their values, if and only if the user has a folder or nothing to list |
| KvModel.AllAnswersView | backend/kvstore.cpp:135-145 | the reply to ALL is FINISHED exactly for a user with a folder, and holds exactly the non-empty cells with their values if and only if the user has one or has nothing to list |
| KvModel.FirstReadStatus | backend/cache.h:152-183 | a read of a cell that is neither cached nor pending answers USER_ERROR exactly without a folder, KEY_ERROR exactly for an empty cell of a user with one, FINISHED for a value; every other read finishes |
| KvModel.FoldersFromSignUp | backend/kvstore.cpp:85-98 | a compare-and-put of the key "pwd" that expects the empty value makes its user's folder, nothing else makes or removes one |
| KvModel.PendingUserNotListed | backend/cache.h:187-192 | after a first write by a user without a folder a read answers the value and the listing answers USER_ERROR |
| History.Absorption | backend/cache.h:768-843 | replaying the operations after c over a snapshot taken at any later d gives the final state |
| History.FirstStart | backend/cache.h:132-150 | a first start writes an empty log and shows the empty history |
| History.StepExtendsHistory | backend/kvstore.cpp:72-119 | a command appends its effect to the history, in view and on disk |
| History.PlainIsReadable | frontend/login.h:6-21 | operations of users and keys without blanks and without the first word of a header are passed over by replay when it cannot name them |
| History.CheckpointAdvances | backend/cache.h:290-316 | a checkpoint moves the snapshot and the start of the log to the present |
| History.ReplayFailsOnGap | backend/cache.h:889-896 | replay ends in REC_ERROR exactly when the logged numbers are not contiguous |
| History.ReplayNeedsCheckpoint | backend/cache.h:768-786 | a log that is missing or holds no checkpoint line ends the replay in REC_ERROR at once |
| History.OtherOperationSkipped | backend/cache.h:830-833 | a header of another operation is passed over, and the replay finishes at the checkpoint |
| History.ReplayRebuilds | backend/cache.h:768-843 | replaying the log of a history that lost nothing writes the last value of every touched cell over the disk |
| History.RestartRestores | backend/cache.h:768-843 | a restart executes exactly the logged operations up to the last number if and only if nothing was lost since the checkpoint: no compare-and-put refused, no user or key outside the header's characters; then it shows the whole history again; disk and log never change |
| History.RestartFailsExactlyOnGap | backend/cache.h:808-835 | a restart ends in REC_ERROR exactly when a lost operation was followed by one that replay reads |
| History.StarUserBreaksRestart | frontend/login.h:6-21 | a user "a*b", who may sign up, writes once, another user writes once, nothing is refused, and the restart ends in REC_ERROR |
| History.StarValueIsReplayed | backend/cache.h:792-835 | the user "a*b" writes the text of an entry of "u", who never writes: the restart finishes at the right number, shows that value as one of "u" and not the value written |
| History.RecoveryAgrees | backend/cache.h:422-588 | a secondary whose snapshot is an earlier point of the primary's history, checkpointed before or after the primary, ends with the primary's view and number by either branch, if and only if the primary lost nothing since its checkpoint and, for a full synchronisation, the transfer header can carry every folder's name; without the latter it holds other files, and with blank-free names the answer is SYNC_ERROR over a part of the primary's folders |
| History.FullSyncCopies | backend/cache.h:603-754 | a full synchronisation copies log and folders if and only if every folder's name is of the header's class; otherwise, with blank-free names, it stops with SYNC_ERROR and leaves complete folders of the primary only |
| History.CutShortFails | backend/cache.h:686-694 | a full synchronisation that is cut short ends in SYNC_ERROR |
| History.StaleRejoin | backend/cache.h:520-588 | a secondary that checkpointed after operations its primary missed reaches the primary's number and shows its view if and only if its disk agrees in every cell the primary's log does not write |
| History.StaleRestartDiverges | backend/kvstore.cpp:22-59 | a run in which a node that missed a sign-up restarts alone and the other rejoins: equal numbers, different cells |
| History.RetryAfterStop | backend/cache.h:520-588 | if the log arrived before a full synchronisation stopped, the next attempt finishes at the primary's number over the part that arrived, and shows the primary's view if and only if that part has every cell the log does not write |
| History.StarFolderStopsSync | backend/cache.h:28-30 | the user "a*b" signs up and a checkpoint follows: nothing is lost, yet the synchronisation ends in SYNC_ERROR and the secondary has no folders; a second attempt may finish at the right number without the cell |
| History.CheckpointThenRestart | backend/cache.h:290-316 | checkpoint and restart show the old view if and only if every user with a pending value has a folder |
| History.JoiningByLogLacksFolders | backend/cache.h:520-588 | a fresh node that joins by the log alone shows the view but lacks the folders a checkpoint needs |
| Replicas.ReplicasAgree | backend/kvstore.cpp:72-123 | two nodes that execute the same operations in order agree in view, statuses and numbers, wherever each reads or checkpoints in between |
| Replicas.SecondaryFollowsPrimary | backend/kvstore.cpp:189-208 | a secondary that executes what the primary forwards agrees with it after any run |
| Replicas.ExecutesRequests | backend/kvstore.cpp:189-208 | a primary executes exactly the requests, in order, and one checkpoint of its own for every 20th message of its clock |
| Replicas.ForwardsOnly | backend/kvstore.cpp:72-84 | it forwards all its operations and checkpoints and nothing else |
| Replicas.EventKeepsClusterOk | backend/kvstore.cpp:22-59 | operations, reads, checkpoints, failures, restarts and synchronisations keep every running node's disk, log and view consistent with one history; a node that restarts alone takes the cluster back to its own |
| Replicas.EventTakesEffect | backend/kvstore.cpp:22-59 | an operation adds the same effect to the history of every running node, a failed node is down, a node that restarts or rejoins is up again, all others stay as they were |
| Replicas.RunningNodesAgree | backend/cache.h:422-588 | in every run from fresh nodes, also after a stale node restarted alone, any two running nodes show the same cells and numbers |
| SyncMessages.NameRoundTrip | backend/chunk.h:156-171 | the name of every file of a folder is found again under its spelling |
| SyncMessages.PathsAreNames | backend/cache.h:22-30 | of the names without a slash, the transfer header can carry exactly those the log header can name |
| SyncMessages.HeaderRead | backend/cache.h:967-982 | a header with a path of the class gives back path, type and size, and everything behind it as content, whatever the content holds |
| SyncMessages.FolderReceivedIff | backend/cache.h:28-30 | the message of a new folder with a blank-free name is received under that name if the class has the name, and holds no header otherwise |
| SyncMessages.OnlyPathsAppear | backend/cache.h:603-676 | whatever messages arrive, only folders with names of the class appear |
| SyncMessages.ListingReceived | backend/cache.h:603-676 | in any order of the listing, everything before the first folder outside the class is received completely, and there the synchronisation ends |
| SyncMessages.TransferIff | backend/cache.h:603-754 | for any files, names and order of the listing the receiver ends with exactly the sender's files if and only if the class has every folder's name |
| SyncMessages.NoEndNoSuccess | backend/cache.h:603-696 | without the closing message, or with an error message before it, no synchronisation is complete |
| SyncMessages.SendAll | backend/cache.h:711-754 | the messages are those of some listing that has the log and every folder once, each folder before its files, and then the end |
| KvCaches.LayOver | backend/cache.h:196-202 | laying pending updates over the stored pairs, in any order, gives their overlay |
| KvCaches.ValidIsClean | backend/chunk.h:124-136 | the files never store an empty value, as the state machine and the history assume |
| KvCaches.KvCache.Gets | backend/cache.h:152-183 | answer and new caches are those of the state machine |
| KvCaches.KvCache.GetsAll | backend/cache.h:185-212 | status and listed pairs are those of the state machine |
| KvCaches.KvCache.Puts | backend/cache.h:214-235 | number check, log entry and write are those of the state machine |
| KvCaches.KvCache.Cputs | backend/cache.h:237-266 | number, comparison, log entry and write are those of the state machine |
| KvCaches.KvCache.Dele | backend/cache.h:268-288 | a deletion is logged and writes the empty value |
| KvCaches.KvCache.PutsInMemory | backend/cache.h:865-887 | the update is pending and the read cache forgets the key |
| KvCaches.KvCache.Checkpoint | backend/cache.h:290-316 | all users' updates reach their chunk files, in any order, the log restarts, chunk sizes stay bounded |
| KvCaches.KvCache.ReplayLoggings | backend/cache.h:768-843 | replay from the stored text is the replay function of the history |
| KvCaches.KvCache.ReplayEntries | backend/cache.h:792-835 | the loop that consumes the text executes its items in order and stops at the first failure |
| KvCaches.KvCache.InitCacheForPrimary | backend/cache.h:132-150 | a primary starts with a new log or replays its own |
| KvCaches.KvCache.NeedFullSync | backend/cache.h:520-588 | a full synchronisation is asked for exactly when the primary's checkpoint is newer or unreadable |
| KvCaches.KvCache.PerformFullSyncFromPrimary | backend/cache.h:603-696 | for any messages, files and answer are those of the receiving function: stored message by message until the end, an error message, or one without a header |
| KvCaches.KvCache.StoreFile | backend/cache.h:636-676 | a folder is created or refused, a file is written with its folder, as the receiving function says |
| KvCaches.KvCache.SecondaryRecoverFromPrimary | backend/cache.h:422-518 | the whole recovery, by either branch, is the recovery function of the history on the messages the primary sent; with blank-free names the files are in order again, the own ones or folders of the primary |
| KvCaches.ReplayStops | backend/cache.h:808-835 | a failed operation ends the replay, whatever follows it |
| SizeBounds.StepFits | backend/kvstore.cpp:72-146 | no command makes a larger record pending than its own |
| SizeBounds.StepLogBounded | backend/cache.h:845-863 | every command whose entry replay reads as written or passes over keeps the records of the log bounded |
| SizeBounds.ForgedLengthSpansEntries | backend/cache.h:804-812 | why other entries are left out: a value that ends in a header with a length of its own makes replay pend a record larger than any that was put |
| SizeBounds.ReplayFits | backend/cache.h:768-843 | replay makes nothing pending that is larger than what was logged |
| KvNode.RecoveryStaysBounded | backend/cache.h:422-518 | after a synchronisation by either branch, completed or not, log and pending records are within the bound if both nodes' were |
| KvNode.Node.Checkpoint | backend/cluster_interface.h:86-98 | the copy writes disk and log, the node keeps its caches, the first node of the group forwards; the chunk sizes stay bounded |
| KvNode.Node.Cput | backend/kvstore.cpp:81-105 | the whole command, with the read before it and the folder of a first "pwd" |
| KvNode.Node.RunCommand | backend/kvstore.cpp:66-152 | one command is one step of the state machine, reply included, and keeps the size bounds; a primary forwards each operation, no other node forwards one, reads are never forwarded; a killed node does nothing |
| KvNode.Node.HandleMessage | backend/kvstore.cpp:189-208 | a primary executes the message and, on every 20th, a checkpoint, forwards exactly that and keeps the size bounds |
| KvNode.Node.ParseSecondaryFromMaster | backend/cluster_interface.h:11-23 | the list is stored and the flag set when the first port is the own one; it is never cleared |
| KvNode.Node.Kill | backend/kvstore.cpp:147-151 | a node that is not killed becomes killed and not primary; a killed one does not look at the command |
| KvNode.Node.Restart | backend/kvstore.cpp:22-59 | a primary replays its own log, any other node recovers from the primary; with blank-free names files and size bounds are kept |
| NodeRuns.RunNodes | backend/chunk.h:13 | whatever commands, kills, restarts and synchronisations a group of nodes goes through, every chunk file stays within the limit plus one record, the append chunk within the limit |
| NodeRuns.RunFromStart | backend/chunk.h:137-144 | so it is from the first start of the nodes on |
| Membership.PrimaryIsFirstMember | master/monitor.h:97-107 | the primary is the first alive backend of the group's list |
| Membership.BroadcastRole | master/monitor.h:76-94 | a delivered broadcast makes a node primary exactly if it is the first of its group, given distinct ports |
| Membership.PortIsNumber | common/address_parse.h:28-34 | the port of "ip:number" is that number |
| Membership.KillKeepsOk | master/monitor.h:110-139 | killing a backend keeps the invariant of lists and flags |
| Membership.RestartKeepsOk | master/monitor.h:142-171 | restarting a backend keeps it |
| Membership.LoseKeepsOk | master/monitor.h:174-205 | a lost connection keeps it |
| Membership.RegisterKeepsOk | master/monitor.h:208-228 | a registration keeps it |
| Membership.EventKeepsOk | master/monitor.h:110-228 | every event keeps it |
| Membership.EventTakesEffect | master/monitor.h:110-228 | an event changes exactly the backend it names: killed, restarted, crashed or registered |
| Membership.EventAnswers | master/monitor.h:110-228 | a kill, restart, loss or registration answers success exactly if the list it searches held such a backend |
| Membership.SinglePrimary | master/monitor.h:97-107 | in every group with an alive backend exactly one node has the flag, the one the master names |
| Membership.NeverDemoted | backend/cluster_interface.h:11-23 | a primary stays primary until it is itself killed or lost |
| Membership.SinglePrimaryInEveryRun | master/monitor.h:231-269 | from the configuration on, after any events, the lists partition the backends and every group with an alive one has one primary |
| Membership.SharedPortMakesTwoPrimaries | backend/cluster_interface.h:18-20 | two backends of a group with the same port both become primary |
| Membership.DifferentNumbersOnePrimary | backend/cluster_interface.h:11-23 | backends configured as "ip:number" with different numbers in each group: one primary in every group after any run |
| Membership.SharedNumberTwoPrimaries | backend/cluster_interface.h:18-20 | with a number that two of them share in a group there is a run with two primaries |
| MasterProcess.Master.GetCluster | master/monitor.h:53-64 | the loop returns the alive addresses of the group in order |
| MasterProcess.Master.GetPrimary | master/monitor.h:97-107 | the loop returns the group's primary, if any |
| MasterProcess.Master.BroadcastGroupAddr | master/monitor.h:76-94 | every listed process handles the list once |
| MasterProcess.Master.KillBackend | master/monitor.h:110-139 | lists and flags change as the event does |
| MasterProcess.Master.RestartBackend | master/monitor.h:142-171 | lists and flags change as the event does |
| MasterProcess.Master.DeleteBackendFd | master/monitor.h:174-205 | lists and flags change as the event does |
| MasterProcess.Master.SetBackendFd | master/monitor.h:208-228 | lists and flags change as the event does |
| StorageTree.CreateKeepsTree | frontend/storage.h:430-436 | creating under a free name leaves a tree if and only if the place is a directory; one node with a fresh ID is new, the others keep name, kind and parent |
| StorageTree.RenameKeepsTree | frontend/storage.h:341-344 | renaming changes one name and leaves a tree if and only if no other entry of the directory has it |
| StorageTree.MoveKeepsTree | frontend/storage.h:301-304 | moving leaves a tree if and only if the target is a directory outside the moved subtree without another entry of that name; one parent link changes, everything else stays |
| StorageTree.NoCycle | frontend/storage.h:301-304 | a node moved below itself ties its subtree into a cycle |
| StorageSubtree.DropKeepsOthers | frontend/storage.h:550-553 | erasing a node and its directory entry removes exactly that node |
| StorageSubtree.WithoutIsTree | frontend/storage.h:501-577 | a tree without one subtree is a tree |
| StoragePath.PathIsNames | frontend/storage.h:67-74 | a path is the user's name followed by the names on the way down |
| StoragePath.WalkResolves | frontend/storage.h:662-689 | on a path that ends in a name the string scanner follows its non-empty parts one by one |
| StoragePath.PathRoundTrip | frontend/storage.h:521-525 | the path of any node but the root, stripped of the user, looks up that node, its parent and its name |
| StoragePath.LookupIffPath | frontend/storage.h:651-692 | any path whatever leads to a node if and only if its parts, the last one twice when slashes follow it, are that node's names |
| StoragePath.TrailingSlashes | frontend/storage.h:662-689 | a found path with slashes behind it never leads to its node, but to the entry in it of the same name or to a success without a node; one that is not found stays so |
| StoragePath.OnlySlashes | frontend/storage.h:656-689 | slashes alone, other than one, report a success without a node |
| StoragePath.LookupFinds | frontend/storage.h:651-692 | a successful lookup names an entry and the node it leads to; a failed one a name that is free |
| StorageBreadth.ChildDirsOfListing | frontend/storage.h:785-803 | for any iteration order the loop over the entries pushes each child directory once |
| StorageBreadth.Round | frontend/storage.h:793-805 | one round of the queue keeps: every directory pushed once, after its parent |
| StorageBreadth.Reached | frontend/storage.h:629-646 | when the queue is empty exactly the directories not below the stop were reached |
| StorageBreadth.NoMoreThanNodes | frontend/storage.h:793-805 | no more directories are pushed than there are nodes, so the loop ends |
| StorageMetadata.ReadLatest | frontend/storage.h:707-709 | the line with the latest ID reads back |
| StorageMetadata.ReadFolder | frontend/storage.h:711-718 | a folder line reads back as path, ID and number of entries |
| StorageMetadata.ReadEntry | frontend/storage.h:756-772 | an entry line links exactly that entry |
| StorageReload.LinkAddsNode | frontend/storage.h:767-770 | linking an entry adds exactly its node to the part of the tree that was loaded |
| StorageReload.EntriesParse | frontend/storage.h:742-751 | the entry lines of a directory link exactly its entries |
| StorageReload.SectionsParse | frontend/storage.h:694-721 | parsing the sections that are left completes the tree |
| StorageReload.EntriesFit | frontend/storage.h:723-751 | a directory has no more entries than IDs were given out, so its count can be read back |
| StorageReload.MetadataRoundTrip | frontend/storage.h:694-808 | for every tree and every iteration order, loading the printed text in a fresh handler gives the same nodes, links, kinds, root and latest ID if and only if all names are made of the format's characters |
| StorageReload.LinesKeepParsed | frontend/storage.h:19-30 | whatever text is loaded, every name in the table is made of the format's characters |
| StorageDelete.DeleteNext | frontend/storage.h:519-535 | deleting the next entry removes its subtree from what the earlier ones left |
| StorageDelete.DeleteLast | frontend/storage.h:537-553 | erasing the node after its entries completes the removal of its subtree |
| StorageWorld.KeysAreFileIds | frontend/storage.h:450-453 | the numeric keys in use are exactly the IDs of the files in the tree, at most the latest one |
| StorageWorld.NextOk | frontend/storage.h:207-263 | every allowed request leaves a tree whose files are exactly the stored ones |
| StorageWorld.AllowedIsExact | frontend/storage.h:265-577 | a request that succeeds leaves a storable tree with exactly its files if and only if it is allowed |
| StorageWorld.RunOk | frontend/storage.h:207-263 | so does every run of allowed requests |
| StorageRequests.SucceedsIff | frontend/storage.h:651-692 | for any paths: a creation succeeds exactly under a path that ends in a name with a free place for it, the other requests exactly if the parts looked up are those of a node, and a move also needs a target that is one or "/" |
| StorageRequests.CreationTakesEffect | frontend/storage.h:430-453 | an upload makes one new file with the content, a creation one new directory without entries and no file; the path leads to it under a fresh ID, every other node keeps name, kind and parent, every other file its content |
| StorageRequests.RenamingTakesEffect | frontend/storage.h:341-344 | the entry gets the new name in the same directory; every other node, all contents and the latest ID stay |
| StorageRequests.MoveTakesEffect | frontend/storage.h:301-304 | the entry gets the new directory under the same name; every other node, all contents and the latest ID stay |
| StorageRequests.DeletionTakesEffect | frontend/storage.h:521-577 | exactly the entry and what is below it go, with exactly the contents of the files among it |
| StorageSteps.PrintRound | frontend/storage.h:793-805 | each round of the printer prints the next section and pushes the child directories |
| StorageSteps.SmallerSubtree | frontend/storage.h:528-529 | an entry's subtree is smaller, so the recursive deletion ends |
| StorageSteps.DeleteChild | frontend/storage.h:519-534 | the path computed for an entry leads to it in the partly deleted tree, and deleting it is the next step |
| StorageSteps.ListedAll | frontend/storage.h:629-646 | what the search lists is exactly the directories outside the entry's subtree other than its parent |
| StorageSteps.FirstWorldStored | frontend/reply.h:19-35 | the text written for a new user is the printed form of a tree with the root alone; it loads again if and only if the user's name is made of the format's characters |
| StorageSteps.StarUserHasNoRoot | frontend/login.h:6-21 | the text written for a user "a*b", who may sign up, loads without a root |
| StorageService.StorageHandler.FindOrCreateDirMapping | frontend/storage.h:151-161 | a known ID keeps its node whatever name and kind are given, an unknown one gets a new node, and no other ID changes |
| StorageService.StorageHandler.ParseDirEntry | frontend/storage.h:756-772 | one entry line changes the table as the parser's function says |
| StorageService.StorageHandler.ParseDirectory | frontend/storage.h:723-754 | a section consumes its lines and links its entries |
| StorageService.StorageHandler.ParseMetadataFile | frontend/storage.h:694-721 | the line loop loads what the parser's function gives |
| StorageService.StorageHandler.ReadMetadata | frontend/storage.h:195-205 | a fresh handler reads exactly the stored tree |
| StorageService.StorageHandler.PrintEntries | frontend/storage.h:797-803 | the loop over the entries prints their lines and collects the directories |
| StorageService.StorageHandler.GetMetadataStr | frontend/storage.h:774-808 | the queue loop ends and prints the tree's text, for any iteration order |
| StorageService.StorageHandler.WriteMetadataToKv | frontend/storage.h:131-149 | the cell is replaced exactly if it still holds the text that was read |
| StorageService.StorageHandler.ValidatePathAndGetDir | frontend/storage.h:651-692 | the loop over the path is the lookup |
| StorageService.StorageHandler.HandleCreation | frontend/storage.h:362-499 | upload and directory creation: success, tree and file cells are those of the request |
| StorageService.StorageHandler.HandleRename | frontend/storage.h:322-360 | renaming: success, tree and cells are those of the request |
| StorageService.StorageHandler.HandleMove | frontend/storage.h:265-320 | moving: success, tree and cells are those of the request |
| StorageService.StorageHandler.HandleDelete | frontend/storage.h:501-577 | the recursion ends, removes exactly one subtree and exactly its files' cells, and stores the tree |
| StorageService.StorageHandler.HandleQueryAllMovableDir | frontend/storage.h:603-649 | the paths of exactly the directories outside the entry's own subtree other than its parent, each once |
| StorageService.StorageHandler.HandleFileDownload | frontend/storage.h:579-601 | a file's path yields its content, a missing path nothing |
| StorageService.InitializeHandler | frontend/storage.h:812-823 | a new handler holds what the cells hold |
| StorageService.Serve | frontend/storage.h:825-937 | one request in a fresh handler changes the cells as the request says |
| StorageService.ServeAll | frontend/storage.h:825-937 | after any sequence of requests the cells hold exactly the tree and the files they amount to |
| StorageService.InitializeUsr | frontend/reply.h:19-35 | a new user has a tree with the root alone and no files if and only if the name is made of the format's characters |
| StorageEffects.CreateReverts | frontend/storage.h:438-442 | a creation that could not be stored is taken back completely |
| StorageEffects.RenameReverts | frontend/storage.h:346-349 | a renaming is taken back exactly when it did not overwrite another entry |
| StorageEffects.MoveReverts | frontend/storage.h:306-309 | a move is taken back exactly when the target had no entry of that name, so never from the directory it was already in |
| StorageEffects.DropReverts | frontend/storage.h:556-559 | the removal of a node is taken back completely |
| StorageEffects.UploadThenDownload | frontend/storage.h:450-453 | an uploaded file is found under its path, with its content |
| StorageEffects.DeleteThenMissing | frontend/storage.h:501-577 | after a deletion the path leads nowhere |
| StorageEffects.MovedPath | frontend/storage.h:301-304 | a moved entry is found below the new directory under its name |
| StorageEffects.MovableIffSafe | frontend/storage.h:603-649 | the listed directories without an entry of that name are exactly those into which a move keeps a tree and changes it |
| StorageBackend.NodeServesCells | backend/kvstore.cpp:72-123 | every command on a node changes the cells of its user as the file service's store does, and those of no other user |
| StorageBackend.NodeAnswers | backend/kvstore.cpp:81-112 | on a node a compare-and-put finishes exactly if the cell holds the expected value, and a read answers the cell and fails only if it is empty |
| Mailbox.ParseMail | frontend/mail/mbox.h:53-72 | one printed mail is parsed as one mail, after the one before it is complete |
| Mailbox.MailboxRoundTrip | frontend/mail/mbox.h:45-78 | the concatenated mails parse back to the same mails in order, each sender with a domain, and the largest id |
| Mailbox.MailsReadBack | frontend/mail/mail.h:36-43 | mail by mail the reader finds id, time and text as written, and the sender, with "@localhost" behind a name without a domain |
| Mailbox.OtherIdLines | frontend/mail/mbox.h:63-65 | blanks and a plus sign before an id do not matter, a minus sign negates it in 64 bits, and a number beyond 64 bits makes the parser throw |
| Mailbox.HeaderIff | frontend/mail/mbox.h:10-11 | the fixed positions find a header exactly where the whole line matches the expression |
| Mailbox.DeleteKeepsOthers | frontend/mail/mbox.h:80-102 | deleting an id leaves exactly the other mails, in order |
| Mailbox.DeliverAppends | frontend/mail/mbox.h:104-120 | delivering appends exactly the new mail |
| Mailbox.DeliveredIdIsFresh | frontend/mail/mbox.h:105-106 | a new id is not in the box, except exactly when the 64-bit counter wraps to 0 and a mail has id 0 |
| Mailbox.TextFollowsList | frontend/mail/mbox.h:80-120 | after any deliveries and removals the text parses to the list they describe |
| Mailbox.RemovedText | frontend/mail/mbox.h:80-102 | after a removal the reader finds exactly the mails with other ids, in order |
| Mailbox.DeliveredText | frontend/mail/mbox.h:104-120 | after a delivery the reader finds the mails as before and behind them the new one, numbered behind the largest |
| Mailbox.ServeRequest | frontend/mail/mbox.h:24-120 | a request on a fresh box changes the cell to the text of these results, or leaves it when the text does not parse |
| Mailbox.MBox.Init | frontend/mail/mbox.h:24-42 | a fresh box holds the parsed cell |
| Mailbox.MBox.ParseMails | frontend/mail/mbox.h:45-78 | the line loop is the parser's function, including blanks and signs before an id and the id lines that make it throw |
| Mailbox.MBox.Del | frontend/mail/mbox.h:80-102 | the cell becomes the print of the other mails if it was not changed meanwhile |
| Mailbox.MBox.Write | frontend/mail/mbox.h:104-120 | the mail gets the next id and is appended if the cell was not changed meanwhile |

## Left out

Assumed of callers and of the environment:

- Sockets, epoll, threads, protobuf encoding, heartbeats and failing file-system calls: commands and messages are delivered values, files are byte sequences, one command is one atomic step.
- Concurrent start-up and crashes in the middle of `append_kvs`: the code gives no guarantee there; crash points lie between operations.
- Numbers beyond their C++ types: histories and IDs end at 2147483647, sizes (also the size field of a transferred file, which `stoi` reads and nothing uses) and chunk numbers are unbounded, and `stoull` in the chunk tables reads the numbers the node itself wrote.
- History.RestartFailsExactlyOnGap: like the converse in `RestartRestores` and `RecoveryAgrees` about the number alone, does not cover logged entries that replay cannot name and that themselves hold a header: `LogCodec.ValueIsReplayed` says that replay then goes on within the value, and `History.StarValueIsReplayed` that neither status nor number tells. `History.PlainIsReadable` covers all names that sign-up accepts, with values and names that do not hold the first word of a header.
- NodeRuns.RunNodes: does not cover commands with such entries, like `SizeBounds.StepLogBounded` and `NodeRuns.RunFromStart`; for them the bound is false (`SizeBounds.ForgedLengthSpansEntries`).
- Keys with a newline: the chunk files store a key as a line, and every key the system uses is free of them, so `KvNode.KeyOk` asks for it.
- Users whose folder is not one directory of its own below the storage directory: the empty name, `.`, `..`, `logging` and names with a slash.
- Retries under contention in the file service and the mailbox: handlers and boxes reload without clearing what they hold, so a lost compare-and-swap is not followed further than `StorageEffects` and the failing results of `Mailbox.MBox`.
- Requests that `StorageWorld.Allowed` excludes (paths that dangle, changes of the root itself, creation below a file, empty contents, names outside the format, moves into the own subtree, taken names): `StoragePath.TrailingSlashes` says when a path dangles and `StorageWorld.AllowedIsExact` that the other exclusions are exact; what a handler does after one is not modelled.

Not modelled:

- StorageService.StorageHandler.HandleCreation: the reverting deletion after a failed upload is not modelled, because the store does not fail in the model; the query of one directory only reads and would add an easy member.
- StorageService.Kv.Gets: the status for an empty cell is left open, because the node answers it differently before and after a first read.
- Mailbox.MBox.Init: the user has signed up, so a first read answers KEY_ERROR at worst (`KvModel.FirstReadStatus`); the start that fails with USER_ERROR is not modelled.
- MasterProcess.Master.constructor: the lines of the configuration file are given as a list of backends with their groups.
- KvNode.Node.Restart: the secondary's list of the group and the reconnection attempts are replaced by the primary object itself; a process that does not finish exits, and the model keeps the object with its files.
- Pointers between entries of the file service are IDs of one table, so aliasing of freed entries is not captured.
- Folder and file names on disk are structured values; they are spelled out in the messages of a full synchronisation only. A path received there that names neither the log nor a file of a folder leaves no trace in the model.
- The order in which an unordered map is iterated is arbitrary but the same for two prints of one tree.
- Hashing of users to groups, login, cookies, HTTP, HTML, the admin console, the load balancer, relaying to remote mail servers, the SMTP dispatcher and the older copy of the mailbox under `email/`.
