# NanoFabric, modelled and proved in Dafny

NanoFabric is a replicated block store. A metadata control plane keeps block placements in a
small Raft; each storage node keeps blocks in an operation log, a version-guarded table and a
cache; clients read and write through quorums; Merkle trees compare nodes; copy-on-write
snapshots restore them. This project models those parts and proves what they are for.

Verify everything with `dafny verify dfyconfig.toml`.

## How the model is laid out

| files | what they hold |
|---|---|
| `Metadata`, `Order` | names, commands; sorted listings of sets |
| `RaftLog`, `RaftPeer` | log entries and the `raft.db` tables; every locked section of `RaftNode` as a function |
| `RaftCluster` | peers and messages as a transition system; a message may arrive never, late, twice or out of order, and a peer may crash inside a handler |
| `RaftInvariant`, `RaftSteps` | the inductive invariant over a history of elections, votes and acknowledgements, and that every step keeps it |
| `RaftSafety`, `RaftRepair` | the guarantees of Figure 3 of the extended Raft paper over whole runs; log repair |
| `CommandReplay`, `RaftMachine` | applying commands over recovered tables; what the state machines of a run hold across restarts |
| `RaftDrill`, `RaftLate`, `RaftLateReply` | segments of runs; two runs of the code as it stands that break those guarantees |
| `RaftPromises` | what the locked sections promise, said of fields, log and counts alone |
| `RaftNode` | `RaftStorage`, `RaftStateMachine` and `RaftNode` as classes, proved against `RaftPeer`, and the start of the metadata service |
| `Placement`, `PlacementPromises`, `MetadataMachine`, `PlacementService` | placements, their inverse index, the round robin; what each operation promises; commands; the classes |
| `BlockRows`, `Oplog`, `CrashRecovery` | the two SQL guards as a join; the log and its replay; a node that crashes anywhere |
| `BlockCache`, `StorageEngine` | the LRU cache; cache, log, store and engine as classes |
| `Quorum` | quorum arithmetic, freshness of quorum reads and when it fails, the coordinator classes |
| `Merkle` | roots, leaf texts, comparison |
| `Snapshots`, `SnapshotPromises`, `SnapshotService` | reference counts under crashes, isolation, restore over any table; what is recorded; the classes |

A class method is proved to change its object exactly as a function on values says, and the
lemmas are about those functions. The `Promises` modules say what the functions give without naming
them, and the methods carry those statements too. `View()`, `Node()`, `Memory()` and `Contents()` give an
object's value.

## What the code does that its comments and names do not say

- **Two missing leader checks.** `propose` tests `is_leader()` before it takes the lock, and
  `_replicate_to_peer` gives the lock up while it waits for the answer and looks at neither role
  nor term afterwards. Every Raft theorem here is about runs in which both steps are timely
  (`RaftCluster.Timely`: still leader, and for a reply still in the request's term).
  `RaftLate.LateProposalBreaksSafety` and `RaftLateReply.LateReplyBreaksCompleteness` are runs
  with a single untimely step each, after which two peers have applied different commands at one
  index, and a leader lacks an entry marked committed. Neither check can be dropped.
- **A restart applies the log from its first entry again**, over tables recovered from a store that
  already holds what entries further on wrote. Until it is as far as before, a peer holds more than
  the log it has applied gives; afterwards it holds exactly that (`RaftMachine.AppliedStatesAgree`).
  `CommandReplay.ReplayConvergesIff` says exactly when replaying over given rows makes no
  difference: an allocation applied over a recovered placement keeps its holders in the index.
- **A repeated allocation command** overwrites the placement without looking at the old one, so
  the inverse index keeps former holders (`Placement.PlaceKeepsIndexIff`, exact condition).
- **A checkpoint that empties the log** restarts LSNs at 1 at or below the replay cursor; a change
  logged then and not yet committed is skipped by the next replay
  (`CrashRecovery.CheckpointKeepsNodeIff`, `LoggedChangeIsRecoveredIff`,
  `WriteAfterFullCheckpointIsLost`). A checkpoint does not wait for SQLite either:
  `CompactionRecoversIff` says exactly which commits that a crash may fall back to do without what
  it compacts away.
- **A replicated write to a tombstone** of the same or a higher version is logged and reported as a
  success but changes nothing. `BlockRows.ReceiveIsJoin` covers it.
- **Two writes of one version with different data** leave the copy that arrives first. All orders of
  a set of messages agree exactly if no two such writes can win (`BlockRows.ReplicasConvergeOnDataIff`).
- **Levels that do not overlap** allow satisfied reads that miss acknowledged writes, and only those
  (`Quorum.StaleReadIff`).
- **A restore without `clear_blocks`** loses to rows that are newer by now, skips tombstones of the
  same version silently, and deletes leftovers under version 9999, which raises for newer ones
  (`Snapshots.RestoreOverUndoesIff`, exact condition).
- **Leaf texts join fields with colons**, so some ids can be confused (`Merkle.RootsDecideEqualityIff`
  says exactly which), and `leaf_hashes` drops the empty id.
- **An interrupted snapshot creation** leaves a reference count one too high exactly if it died
  between counting a version and pointing at it (`Snapshots.CrashIsExactIff`); whatever follows, that
  version is never removed again (`LeakIsForEver`, `CrashBetweenLeaks`).
- `QuorumManager.evaluate` computes how many answers are outstanding but returns `FAILED` either way.
- `SnapshotStore.delete_snapshot` is declared to return a bool and returns a bool or a pair.

## Model

| member | source | states |
|---|---|---|
| RaftSafety.ElectionSafety | metadata/raft/node.py:263-329 | at most one peer is ever leader in a term, over whole runs with restarts, for any cluster size |
| RaftSafety.LogMatching | metadata/raft/node.py:222-238 | entries with equal index and term, at any two peers and moments, sit on identical logs up to there, commands included |
| RaftSafety.LeaderCompleteness | metadata/raft/node.py:376-388 | whatever any peer has marked committed was chosen in a term between its last entry's and the peer's own, and is from then on in the log of every leader of that term or a later one |
| RaftSafety.StateMachineSafety | metadata/raft/node.py:403-409 | no two peers, nor one peer before and after a crash, apply different entries at the same index |
| RaftMachine.AppliedStatesAgree | metadata/raft/state_machine.py:96-117 | peers that have applied equally many entries, and at least as many as before any crash of theirs, hold the same placements, versions, inventory, stored rows and peer list, those the log gives from the start |
| RaftMachine.MachineIsReplay | metadata/raft/node.py:403-409 | in every reachable state a peer holds the entries applied so far over the tables recovered from its store at its last start, whose rows were written by entries still in its log; that differs from a start on nothing exactly until those rows are overwritten |
| RaftMachine.StepTracks | metadata/raft/node.py:403-409 | every step, crashes between two applied entries included, keeps that, and no entry a peer ever applied leaves its log |
| CommandReplay.ReplayConvergesIff | metadata/app.py:160-217 | for any stored rows and any commands: applying the commands over the recovered tables ends where applying them to nothing does exactly if each stored block is placed again, by an update first or on all its stored nodes |
| CommandReplay.ReplayOfOwnRows | metadata/raft/state_machine.py:96-117 | in particular if the commands themselves wrote the rows |
| CommandReplay.ReplayOverStored | metadata/placement_service.py:152-159 | block by block and node by node what replaying over recovered tables leaves, stale holders included |
| RaftSafety.DurableState | metadata/raft/node.py:61-71 | in every reachable state the raft_log rows are the in-memory list entry for entry, and a restart reloads log, term and vote |
| RaftSafety.CommitClippingIsSafe | metadata/raft/node.py:240-242 | a follower that raises its commit index, on however late a request, reaches the leader's index unclipped and agrees up to it with the log the leader had when it sent the request |
| RaftSafety.RequestWasSent | metadata/raft/node.py:335-350 | every append request in the network was built by a leader of its term at an earlier moment |
| RaftSafety.MatchIndexIsAgreement | metadata/raft/node.py:365-372 | a leader's match index for a peer that has not passed its term never exceeds the prefix their logs share |
| RaftRepair.LogIsRepaired | metadata/raft/node.py:372-374 | from any reachable state, at most next_index requests and replies make the leader's log a prefix of the peer's, leader unchanged |
| RaftRepair.RequestOutcome | metadata/raft/node.py:222-238 | one request either repairs the peer's log or is rejected with a preceding entry left to step back over |
| RaftSteps.StepKeepsInv | metadata/raft/node.py:186-409 | every timely step, crashes inside handlers and between two applied entries included, keeps the invariant and only grows the history |
| RaftSteps.VoteRequestStep | metadata/raft/node.py:186-212 | granting binds the voter: the candidate's log holds whatever the voter acknowledged and may still be chosen |
| RaftSteps.UpToDateBinds | metadata/raft/election.py:12-21 | a log at least as up to date as ours holds every entry of ours that an earlier term may have chosen |
| RaftSteps.WinnersQuorum | metadata/raft/election.py:24-26 | enough counted votes for majority_count are votes of a quorum of the whole cluster |
| RaftSteps.CountableIsChosen | metadata/raft/node.py:376-388 | an entry of the current term on a counted majority is acknowledged by a quorum |
| RaftSteps.WinStep | metadata/raft/node.py:307-316 | the new leader of a term is its first, and its log holds all that earlier terms may have chosen |
| RaftSteps.BuiltAppendOK | metadata/raft/node.py:339-350 | a built request is the leader's whole suffix from next_index, with the right preceding term |
| RaftSteps.StoreOutcome | metadata/raft/node.py:228-237 | storing a request leaves the list untouched if it already held the sender's entries and otherwise equal to the sender's prefix, rows mirroring it |
| RaftSteps.TornLog | metadata/raft/node.py:228-237 | a crash between truncation and insert leaves rows for a prefix that keeps everything shared with the sender |
| RaftInvariant.QuorumsMeet | metadata/raft/election.py:24-26 | two quorums share a peer |
| RaftInvariant.ChosenNotBlocked | metadata/raft/node.py:376-388 | an entry acknowledged by a quorum cannot have been left behind by another |
| RaftLog.MergeOutcome | metadata/raft/node.py:228-236 | what the loop over a request's entries does to a list and rows that match the sender's log |
| RaftLog.MergeThenPutMirrors | metadata/raft/node.py:228-237 | the closing INSERT OR REPLACE restores rows equal to the list, because logs match |
| RaftLog.MergeRowsAlone | metadata/raft/storage.py:116-122 | the rows a crash before the insert leaves |
| RaftLog.SortedRowsOfMirror | metadata/raft/storage.py:85-98 | reading rows that mirror a list in index order gives the list back |
| RaftLog.PutRowsContents | metadata/raft/storage.py:100-114 | INSERT OR REPLACE of consecutive entries replaces exactly those indices |
| RaftLate.LateProposalBreaksSafety | metadata/raft/node.py:160-165 | a 17-step run with one proposal appended after leadership was lost: two peers apply different commands at index 1, and rows differ from the list |
| RaftLateReply.LateReplyBreaksCompleteness | metadata/raft/node.py:352-374 | a 48-step run with one reply folded in two terms late: an index is marked committed that the leader of a later term lacks |
| RaftNode.RaftStorage.SetState | metadata/raft/storage.py:77-83 | term and vote are written together and the log is untouched |
| RaftNode.RaftStorage.GetLog | metadata/raft/storage.py:85-98 | every row once, after exactly the rows of smaller index; a table that mirrors a list gives that list back |
| RaftNode.RaftStorage.AppendEntries | metadata/raft/storage.py:100-114 | every entry replaces the row at its index, term and vote untouched |
| RaftNode.RaftStorage.TruncateLogFrom | metadata/raft/storage.py:116-122 | exactly the rows at or above the index go |
| RaftNode.RaftStateMachine.Apply | metadata/raft/state_machine.py:49-164 | registry, inventory, store and peer list change as the command says, or nothing does and it raises, exactly for a repeated node |
| RaftNode.RaftStateMachine.ForgetPeer | metadata/raft/state_machine.py:158-161 | removes the first occurrence of a peer only |
| RaftNode.RaftNode.constructor | metadata/raft/node.py:61-78 | a follower with the durable term, vote and log and nothing applied, over a state machine left as it is |
| RaftNode.StartMetadataService | metadata/app.py:160-217 | a start of the service is the peer Boot gives: tables recovered from the store, then the Raft node on them |
| RaftLog.SortedRowsAt | metadata/raft/storage.py:85-98 | reading in index order puts each row after exactly the rows of smaller index |
| RaftNode.RaftNode.LastLogInfo | metadata/raft/node.py:141-145 | index and term of the last entry, zeros for an empty log |
| RaftNode.RaftNode.LogTermAt | metadata/raft/node.py:134-139 | term at an index, zero outside the log |
| RaftNode.RaftNode.PersistState | metadata/raft/node.py:411-412 | the durable term and vote become the current ones |
| RaftNode.RaftNode.BecomeFollower | metadata/raft/node.py:318-329 | a higher term clears the vote, the role becomes follower, state is persisted |
| RaftNode.RaftNode.HandleRequestVote | metadata/raft/node.py:186-212 | state and answer of a vote request, granted exactly when `VoteIsGrantedIff` says |
| RaftNode.RaftNode.Store | metadata/raft/node.py:227-238 | list and rows after the loop over the entries and the insert |
| RaftNode.RaftNode.HandleAppendEntries | metadata/raft/node.py:214-247 | state and answer of an append request in every branch, no answer exactly if applying raises |
| RaftNode.RaftNode.ApplyPendingCommits | metadata/raft/node.py:403-409 | applies everything up to the commit index in order, or up to the first command that raises, which counts as applied; raises exactly in that case |
| RaftNode.RaftNode.StartElection | metadata/raft/node.py:263-282 | the opening of an election, unless leader |
| RaftNode.RaftNode.CountVote | metadata/raft/node.py:293-300 | one answer or none: stand down on a higher term, else count a granted vote |
| RaftNode.RaftNode.ConcludeElection | metadata/raft/node.py:302-307 | leader if still candidate with enough votes |
| RaftNode.RaftNode.BecomeLeader | metadata/raft/node.py:307-316 | next and match indexes are reset for every peer |
| RaftNode.RaftNode.BuildAppend | metadata/raft/node.py:335-350 | the request for one peer, none unless leader |
| RaftNode.RaftNode.ProcessReply | metadata/raft/node.py:360-374 | folding a reply in, whatever the role is by now: the peer booked and the highest index committed, one step back, or the leadership ended |
| RaftNode.RaftNode.CountReplicas | metadata/raft/node.py:380-383 | one plus the number of peers booked at or above an index |
| RaftNode.RaftNode.AdvanceCommitIndex | metadata/raft/node.py:376-388 | commits and applies the largest index above the old one with a current-term entry on more than half the cluster; no larger one would do, and nothing changes if there is none |
| RaftNode.RaftNode.AppendLocalEntry | metadata/raft/node.py:390-401 | one entry more in list and rows, at the next index and current term |
| RaftNode.RaftNode.Propose | metadata/raft/node.py:163-168 | the locked section of a proposal |
| RaftPromises.PendingIsApplied | metadata/raft/node.py:403-409 | applying reaches the commit index, or stops at the first command in the range that raises, counted as applied; the machine is the old one with exactly those commands applied |
| RaftPromises.AppliesOneWay | metadata/raft/node.py:403-409 | only one outcome fits that description, and it raises exactly if some command in the range does |
| RaftPromises.AppendRequestOutcome | metadata/raft/node.py:214-247 | every branch of an append request on the fields alone: stale term, foreign preceding entry, or entries merged, commit index raised as far as the log goes and applied; no answer exactly if applying raised |
| RaftPromises.FollowerCatchesUp | metadata/raft/node.py:240-242 | a success that raises the commit index leaves everything committed applied |
| RaftPromises.CommitIsHighest | metadata/raft/node.py:376-388 | the new commit index is the largest one with an entry of the current term whose match indexes make more than half the cluster, or the old one if there is none above it; what it commits is applied |
| RaftPromises.ReplyOutcome | metadata/raft/node.py:360-374 | a success books the peer for everything the request covered and commits what that allows, a refusal steps next_index back by one, a higher term ends the leadership |
| RaftPromises.RequestIsSuffix | metadata/raft/node.py:335-350 | a request carries the term, the commit index, and all of the log after the entry before next_index |
| RaftPromises.ProposalIsAppended | metadata/raft/node.py:163-168 | a proposal is the next entry of the current term in list and rows; without peers it is committed at once |
| RaftPromises.VoteIsGrantedIff | metadata/raft/node.py:186-212 | a vote is granted exactly in a term not past, to a log whose last entry is not older, if still free or that candidate's already; term, vote and rows afterwards |
| RaftPromises.ElectionIsByMajority | metadata/raft/node.py:263-316 | a whole election over any answers without a higher term is won exactly if the own vote and those granted are more than half the cluster; the winner's next and match indexes |
| RaftPromises.HigherTermEndsElection | metadata/raft/node.py:293-298 | the first answer of a higher term ends the election as a follower in that term, durably |
| MetadataMachine.CommandKeepsIndexIff | metadata/raft/state_machine.py:96-117 | a command keeps the inverse index exact unless it allocates an already placed block away from a holder |
| MetadataMachine.CommandOutcome | metadata/raft/state_machine.py:96-164 | what each placement and peer command does to tables, inventories and peer list, and that it raises exactly for a repeated node |
| Placement.ReplaceIsConsistent | metadata/placement_service.py:95-113 | an update succeeds exactly without repeated nodes and keeps index and rows in agreement |
| Placement.PlaceKeepsIndexIff | metadata/raft/state_machine.py:96-103 | placing without looking at the old placement keeps the index exactly if every old holder is kept |
| Placement.DeleteIsConsistent | metadata/placement_service.py:72-84 | a delete succeeds exactly if the block is placed, and keeps index and rows in agreement |
| Placement.RecoverIsConsistent | metadata/placement_service.py:152-159 | a restart brings back every block that still has a replica, same nodes and version, and the same inventory for every node |
| Placement.InventoryAlwaysAgrees | metadata/node_inventory.py:28-43 | after any allocations, updates, replacements, removals, deletions and restarts every inventory is the sorted list of blocks placed on the node |
| Placement.AllocationSucceedsIff | metadata/placement_service.py:47-67 | exactly when an allocation succeeds, and that it uses that many distinct healthy nodes |
| Placement.RoundRobinPicks | metadata/placement_policy.py:40-47 | exactly the nodes within the factor past the counter, cyclically, none twice |
| Placement.LoadOverCycles | metadata/placement_policy.py:40-47 | loads over any number of calls differ by at most min(r, n - r) |
| Placement.SelectionIsBalanced | metadata/placement_policy.py:25-47 | the same for any two of the available nodes over consecutive select_nodes calls |
| PlacementPromises.ReplaceReplicaSwaps | metadata/placement_service.py:115-129 | the successor stands where the former node stood and all else stays, or comes last if neither was there; fails only if the block is unknown or the successor is a second holder; version as given, other blocks untouched |
| PlacementPromises.RemoveExtraDrops | metadata/placement_service.py:131-144 | the list loses exactly the extra node, in order, at the version given; nothing changes if it was not there |
| PlacementPromises.UpdatePlaces | metadata/placement_service.py:95-113 | exactly the nodes and version given in memory and rows, former holders lose the block, other blocks untouched; fails exactly for an unknown block or a repeated node |
| PlacementPromises.AllocateTakesNext | metadata/placement_service.py:47-67 | the nodes are the next ones after the counter among the sorted healthy ones; counter up by one, version as given, other blocks untouched |
| PlacementPromises.DeleteDrops | metadata/placement_service.py:72-84 | exactly this block leaves placements, versions, rows and the inventories of its holders |
| PlacementPromises.RecoverReadsBack | metadata/placement_service.py:152-159 | for any stored rows: placements, versions, inventories and counter after a restart |
| PlacementPromises.PlacementsStayDistinct | metadata/metadata_store.py:130-159 | no sequence of operations makes a placement name a node twice |
| PlacementService.PlacementRegistry.RegisterBlock | metadata/placement_registry.py:18-30 | nodes and version of one block are replaced |
| PlacementService.PlacementRegistry.DeleteBlock | metadata/placement_registry.py:41-48 | removes a known block and says whether it was known |
| PlacementService.PlacementRegistry.LoadFromSnapshot | metadata/placement_registry.py:66-75 | both maps are replaced |
| PlacementService.NodeInventory.AddBlock | metadata/node_inventory.py:28-32 | the node's list becomes the sorted list with the block |
| PlacementService.NodeInventory.RemoveBlock | metadata/node_inventory.py:34-43 | the block goes, and the node with its last block |
| PlacementService.NodeInventory.GetInventory | metadata/node_inventory.py:45-48 | the node's list, empty if unknown |
| PlacementService.NodeInventory.RebuildFromPlacements | metadata/node_inventory.py:72-81 | each node's sorted list of its blocks, a block as often as its list repeats the node; the inverse as sets if none does |
| PlacementService.MetadataStore.SavePlacement | metadata/metadata_store.py:130-159 | replaces a block's rows, or rolls everything back exactly when a node repeats |
| PlacementService.MetadataStore.DeleteBlock | metadata/metadata_store.py:161-168 | the block and its placement rows go, and it says whether there was one |
| PlacementService.MetadataStore.LoadRecoverySnapshot | metadata/metadata_store.py:208-230 | placements of blocks that have rows, in node order, all versions and the block count |
| PlacementService.RoundRobinPlacementPolicy.SelectNodes | metadata/placement_policy.py:25-47 | the chosen nodes; the counter moves only on success |
| PlacementService.PlacementService.AllocateBlock | metadata/placement_service.py:47-67 | an allocation on the next healthy nodes, on all four tables, or on none of them |
| PlacementService.PlacementService.UpdateBlockPlacement | metadata/placement_service.py:95-113 | exactly the nodes and version given, on all tables, or none of them |
| PlacementService.PlacementService.ReplaceReplica | metadata/placement_service.py:115-129 | the new node stands where the old one stood, all else in its place, or is added at the end if neither was there; version as given, no other block touched; fails only for an unknown block or a second copy of the new node |
| PlacementService.PlacementService.RemoveExtraReplica | metadata/placement_service.py:131-144 | the list without exactly that node at the version given, nothing if it was not there |
| PlacementService.PlacementService.DeleteBlock | metadata/placement_service.py:72-84 | removes the block from store, registry and inventory |
| PlacementService.PlacementService.Recover | metadata/placement_service.py:152-159 | registry, inventory and counter from the stored rows |
| PlacementService.Place | metadata/raft/state_machine.py:96-103 | the writes an allocation makes |
| PlacementService.Replace | metadata/raft/state_machine.py:105-117 | the writes a placement update makes |
| BlockRows.ApplyIsJoin | node/extent_store.py:104-183 | both guards are one join on (version, deleted): a change is a no-op exactly if its key was reached, else sets it; other blocks stay |
| BlockRows.FinalKeyIsLargest | node/extent_store.py:123-173 | a row's final key is the largest of its first key and the keys of the changes to it |
| BlockRows.LocalWriteWins | node/storage_engine.py:67-76 | a client's write is accepted exactly when valid and newest, and is then what the row holds |
| BlockRows.LocalDeleteWins | node/storage_engine.py:78-80 | a delete without a version, idempotent or not, leaves a tombstone one version up |
| BlockRows.DecisionIs | node/storage_engine.py:189-215 | which requests are invalid, in conflict, there already or logged, in terms of the row, and at which version |
| BlockRows.Utf8SizeIs | node/validation.py:18 | the size that is limited and summed is one byte a character and one more from each of the codes 0x80, 0x800 and 0x10000 on |
| BlockRows.ReceiveIsJoin | node/storage_engine.py:193-227 | whatever branch a replication endpoint takes, its effect is the guarded upsert; it refuses only what the row is past; what it accepts the row has reached |
| BlockRows.ReplicasConverge | node/storage_engine.py:307-341 | two nodes that receive the same set of messages, in any orders and repetitions, end with the same version and deleted flag for every block |
| BlockRows.ReplicasConvergeOnDataIff | node/extent_store.py:123-133 | every order and repetition of a set of messages leaves the same table exactly if no two writes of one version with different data can both win |
| OplogLines.RecoveredIsCleanPrefix | node/oplog.py:86-113 | recover keeps exactly the lines before the first bad one |
| OplogLines.EntriesOfJoin | node/oplog.py:158-170 | the entries of two logs put together are theirs put together, so each good line gives one, in order |
| OplogLines.SecondReplayChangesNothing | node/storage_engine.py:141-155 | replaying the same log again, from any database and with any lsns, changes nothing |
| OplogLines.ReplayOfAbsorbed | node/storage_engine.py:145-153 | replaying entries whose rows have moved past them leaves the rows alone |
| OplogLines.ReplayCursor | node/storage_engine.py:142-155 | the cursor a replay leaves |
| OplogLines.ReplayIsPending | node/storage_engine.py:145-153 | a replay of increasing lsns applies exactly the changes past the cursor, in order |
| OplogLines.CompactedKeeps | node/oplog.py:172-183 | compaction keeps exactly the changes above the lsn |
| OplogLines.CompactedOfJoin | node/oplog.py:172-183 | and in their order, as often as they were logged |
| CrashRecovery.RecoveryIsExact | node/storage_engine.py:141-155 | in every run with crashes anywhere the rows are all fully logged changes applied in order, a crash brings back exactly them whichever commits survive and with a torn line or not, and a further restart changes nothing |
| CrashRecovery.CheckpointPreservesRowsIff | node/storage_engine.py:375-390 | a checkpoint, completed or cut short after the append, the compaction or before either, and whichever commits survive, leaves the rows seen after a restart as they were exactly if it compacts nothing yet or every surviving commit covers what is compacted |
| CrashRecovery.CompactionRecoversIff | node/oplog.py:172-183 | a database is recovered from the compacted log exactly if each change dropped past its cursor is reached in it or overtaken by one that stays |
| CrashRecovery.CheckpointKeepsNodeIff | node/oplog.py:199-200 | exactly which checkpoints leave later changes recoverable too: those that, besides, leave an entry that keeps lsns past the cursors |
| CrashRecovery.LoggedChangeIsRecoveredIff | node/storage_engine.py:146-149 | a change logged but not committed when the process dies is recovered exactly if its lsn is past the cursor |
| CrashRecovery.WriteAfterFullCheckpointIsLost | node/storage_engine.py:375-390 | a run in which such a write is lost |
| CrashRecovery.EventKeepsNode | node/storage_engine.py:187-227 | every event keeps every surviving database recoverable to the current rows |
| CrashRecovery.CheckpointLeaves | node/storage_engine.py:375-390 | a checkpoint through an lsn keeps exactly the changes above it and one of everything keeps none; rows stay, the cursor says how far it went |
| CrashRecovery.NextLsnIsNext | node/oplog.py:86-117 | the next lsn is one past the largest in the log, 1 for none |
| BlockCache.CacheIsTransparent | node/storage_engine.py:253-292 | after any requests, reads, replays and purges the cache holds only current live rows, within its bound, and a read answers as the table alone would |
| BlockCache.PutEvictsOldest | node/cache.py:11-15 | a put evicts the least recently used entry and only when full |
| BlockCache.EntriesAreByLastUse | node/cache.py:11-24 | after any puts, gets and removes the entries stand in the order of their last put or get, each with the row last put, none twice, within the bound |
| BlockCache.OldestUseIsEvicted | node/cache.py:11-15 | a put evicts only if the cache is full and the block is new to it, and then the one entry whose last put or get is the oldest |
| BlockCache.OnlyPutsEvict | node/cache.py:17-24 | a get and a remove evict nothing else, and a get finds the row last put |
| BlockCache.ReadRowIsNewest | node/storage_engine.py:253-292 | a live row just read is the newest entry; a read that finds none leaves the cache alone |
| BlockCache.WrittenRowIsNewest | node/storage_engine.py:92-128 | so is one just written; a deleted block is forgotten and nothing else is |
| BlockCache.StoreIsCoherent | node/storage_engine.py:92-128 | applying a logged change keeps the cache equal to live rows |
| StorageEngine.Cache.Put | node/cache.py:11-15 | the entry goes to the end and the front is evicted down to the bound |
| StorageEngine.Cache.Get | node/cache.py:17-21 | a hit moves to the end |
| StorageEngine.Cache.Remove | node/cache.py:23-24 | the entry is no longer found, every other entry is found as before, none twice |
| StorageEngine.ExtentStore.SaveIfNewer | node/extent_store.py:104-145 | the write guard on the table |
| StorageEngine.ExtentStore.TombstoneIfNewer | node/extent_store.py:147-183 | the delete guard on the table |
| StorageEngine.ExtentStore.ListBlocks | node/extent_store.py:211-215 | exactly the live blocks in id order |
| StorageEngine.Oplog.ScanHighWaterMark | node/oplog.py:68-84 | the largest lsn before the first bad line |
| StorageEngine.Oplog.Recover | node/oplog.py:86-117 | the file is cut at the first bad line and lsns go on from the largest left |
| StorageEngine.Oplog.Append | node/oplog.py:119-149 | one line more, at the next lsn |
| StorageEngine.Oplog.IterEntries | node/oplog.py:158-170 | the entries of a clean log in order |
| StorageEngine.Oplog.Compact | node/oplog.py:172-201 | the log becomes the changes above the lsn, and lsns go on from the largest left |
| StorageEngine.StorageEngine.constructor | node/storage_engine.py:49-65 | opening what a crash left recovers the log and replays it |
| StorageEngine.StorageEngine.ReplayOplog | node/storage_engine.py:141-155 | the replay loop: table, cursor and the last checkpoint seen |
| StorageEngine.StorageEngine.ResolveWriteVersion | node/storage_engine.py:67-76 | the version a client's write gets, or a conflict |
| StorageEngine.StorageEngine.WriteLocal | node/storage_engine.py:178-227 | outcome of a write in all its branches, on log, table and cache |
| StorageEngine.StorageEngine.DeleteLocal | node/storage_engine.py:294-341 | outcome of a delete in all its branches, on log, table and cache |
| StorageEngine.StorageEngine.ReadBlock | node/storage_engine.py:253-292 | the live row or nothing, cached or not |
| StorageEngine.StorageEngine.PurgeAllBlocks | node/storage_engine.py:366-373 | table and cache are emptied, the cursor stays |
| StorageEngine.StorageEngine.TakeCheckpoint | node/storage_engine.py:375-390 | record, compaction and cursor of a completed checkpoint |
| Quorum.QuorumReadIsFresh | node/read_coordinator.py:65-98 | a read with a satisfied quorum returns at least every version acknowledged before it began, strictly above every acknowledged delete, if the two levels overlap |
| Quorum.LevelsOverlapIff | node/quorum.py:8-41 | exactly which pairs of levels overlap for which replication factors |
| Quorum.RequiredIsLeast | node/quorum.py:8-41 | for every replication factor the number required is the least that is one, more than half, or all; a quorum is the least size that any two sets of share a replica |
| Quorum.StaleReadIff | node/quorum.py:8-41 | satisfied reads that miss an acknowledged change exist for exactly the levels that do not overlap |
| Quorum.StaleRun | node/replication_service.py:66-122 | from empty replicas, a run that ends in such a read for any levels that do not overlap |
| Quorum.ReadAfterWrite | node/read_coordinator.py:58-112 | a result of Replicate with a satisfied quorum, then a result of Read with one: the version read is at least the one written, above it after a delete |
| Quorum.ReachedForEver | node/storage_engine.py:193-220 | rows only move up, whatever requests are served |
| Quorum.AckReaches | node/replication_service.py:301-321 | an acknowledgement means the replica's row has reached the change |
| Quorum.CopyIsFresh | node/api_server.py:297-310 | a copy comes from a live row, so it is newer than any delete the node has absorbed |
| Quorum.SelectLatest | node/version_reconciliation.py:27-34 | the first copy that no other is newer than, none for no copies |
| Quorum.LatestIsUnique | node/version_reconciliation.py:18-34 | there is only one such copy |
| Quorum.ComparisonIsLexicographic | node/version_reconciliation.py:18-24 | copies compare by version, then origin lsn, then time |
| Quorum.StaleOrLatest | node/version_reconciliation.py:37-41 | the stale copies are exactly those strictly older than the one returned |
| Quorum.StalePlaces | node/version_reconciliation.py:37-41 | in the order and as often as they were collected |
| Quorum.SuccessfulPlaces | node/read_coordinator.py:78 | the copies that count towards the quorum are exactly those of a version above 0 or not deleted, in order |
| Quorum.QuorumManager.RecordAck | node/quorum_manager.py:57-59 | an acknowledgement overrides a failure |
| Quorum.QuorumManager.RecordFailure | node/quorum_manager.py:61-63 | a failure never overrides an acknowledgement |
| Quorum.QuorumManager.Evaluate | node/quorum_manager.py:69-78 | success exactly with enough acknowledgements, otherwise timeout or failure |
| Quorum.ReplicationService.Tally | node/replication_service.py:104-116 | acknowledged and failed nodes, whatever order the answers came in |
| Quorum.ReplicatedMeans | node/replication_service.py:98-122 | who acknowledged and who failed, node by node, and that the quorum is satisfied exactly with one, more than half, or all acknowledgements |
| Quorum.ReplicationService.Replicate | node/replication_service.py:66-122 | the result of a replicated write or delete: who acknowledged, who failed, and the quorum satisfied exactly with one, more than half, or all of the replicas; counts and outcome |
| Quorum.ReplicationService.LocalOnly | node/replication_service.py:214-220 | without this node in the placement one local acknowledgement suffices |
| Quorum.ReadCoordinator.Read | node/read_coordinator.py:58-130 | the result of a read, its quorum satisfied exactly with copies from one, more than half, or all of the replicas, and the copies to repair, in all its branches, without a placement too |
| Merkle.RootsDecideEqualityIff | node/merkle.py:42-70 | over a set of ids, equal roots mean equal block maps exactly when no two ids can be confused |
| Merkle.RootsDecideEquality | node/merkle.py:87-88 | trees_match decides equality for all sizes, odd levels included |
| Merkle.RootInjective | node/merkle.py:57-70 | a root determines its distinct leaves although an odd last node is paired with itself |
| Merkle.PairUpInjective | node/merkle.py:61-69 | one level up determines the level below |
| Merkle.PairUpOfJoin | node/merkle.py:57-70 | a level is paired off from the left, an odd last node with itself |
| Merkle.RootOfHalves | node/merkle.py:57-70 | two subtrees of 2^k leaves are joined left to right |
| Order.BelowIsLexicographic | node/merkle.py:43 | ids are sorted by the first character in which they differ, a prefix first |
| Merkle.LeafTextInjective | node/merkle.py:12-14 | a leaf's text determines id, version and data unless the ids can be confused |
| Merkle.DecimalReadsBack | node/merkle.py:12-14 | a version is written in decimal with a minus sign if negative and no leading zero |
| Merkle.ColonFreeIsClear | node/merkle.py:13 | ids without colons are never confused |
| Merkle.ConfusableIdsCollide | node/merkle.py:13 | any two confusable ids give different maps with the same root |
| Merkle.CompareTreesIsExact | node/merkle.py:76-84 | compare_trees lists exactly the non-empty ids on which the maps differ, for ids of any form |
| Merkle.TreesAgree | node/merkle.py:76-88 | trees_match, an empty compare_trees and equality of the maps coincide |
| Merkle.MerkleTree.constructor | node/merkle.py:27-32 | the object's root and leaves are those of its blocks |
| Merkle.MerkleTree.BuildLevel | node/merkle.py:57-70 | the recursive levels, filled pair by pair |
| Snapshots.RefCountsAreExact | storage/snapshot_store.py:105-156 | after any creations, completed, failed or cut short by a crash anywhere, deletions and reclaims each ref_count is the number of rows pointing at the version and of crashes that counted it without a row; no row dangles; once all snapshots are deleted only versions so counted are left; all counts are exact exactly if there was no such crash |
| Snapshots.SnapshotIsStable | storage/snapshot_store.py:195-243 | what a snapshot holds never changes until it is deleted, through crashes too |
| Snapshots.RestoreUndoesIff | storage/restore_service.py:76-96 | create, then anything, then clear and restore gives back the live blocks, versions and data, exactly when no stored version clashed at creation |
| Snapshots.RestoreOverUndoesIff | storage/restore_service.py:83-96 | the same over whatever the table has become, cleared or not: exactly when each block returns and no other live block is past version 9999 |
| Snapshots.RestoreIs | storage/cluster_bridge.py:22-42 | what restoring rows over any table through the idempotent writers gives back, exactly |
| SnapshotPromises.WriteBackStops | storage/restore_service.py:83-92 | rows are written back up to the first that is refused, and as many count as restored |
| SnapshotPromises.RefusedIff | storage/cluster_bridge.py:22-42 | a row is refused exactly if the block has a newer one, which for a live row must be live |
| Snapshots.CreateIsExact | storage/snapshot_manager.py:37-68 | a creation, completed or failed, keeps the counts exact and other snapshots as they were, and shares stored versions |
| SnapshotPromises.CreationIsRecorded | storage/snapshot_manager.py:37-88 | the one new record is ready exactly if no read raised, with the number of listed blocks and the UTF-8 bytes of the live data read, and otherwise failed with zeros; every other record stays |
| SnapshotPromises.TableIsRecorded | storage/snapshot_manager.py:37-68 | over a whole engine: the number of live blocks and the bytes of their data |
| Snapshots.DeleteIsExact | storage/snapshot_store.py:209-243 | a deletion keeps the counts exact and other snapshots as they were |
| SnapshotPromises.DeletionRemoves | storage/snapshot_store.py:209-243 | the record and rows of this snapshot go and no other, and exactly the versions that no other row points at and no crash left counted |
| Snapshots.ReclaimFindsNothing | storage/snapshot_store.py:260-266 | with exact counts there are no orphans |
| Snapshots.CrashIsExactIff | storage/snapshot_manager.py:45-68 | from any exact store and for any part of a creation done before the process died, counts are exact after the next start exactly if it did not die between counting a version and pointing at it |
| SnapshotPromises.CrashedCreationFails | storage/snapshot_store.py:268-288 | after the next start the snapshot whose creation died is failed with nothing counted, and ready and failed ones are as before |
| Snapshots.LeakIsForEver | storage/snapshot_store.py:209-266 | a version left counted is never removed by any creations, deletions, reclaims or further crashes, and its count stays above the rows pointing at it |
| Snapshots.CrashBetweenLeaks | storage/snapshot_manager.py:53-61 | after any operations, a creation that dies in that gap, and anything that follows, the version counted is still stored with too high a count |
| Snapshots.SnapshotStore.CreateSnapshotRecord | storage/snapshot_store.py:72-103 | a new record under a new id |
| Snapshots.SnapshotStore.GetOrCreateBlockVersion | storage/snapshot_store.py:105-140 | a stored version is shared and counted as it is, a new one is stored with count 1 |
| Snapshots.SnapshotStore.AddSnapshotBlock | storage/snapshot_store.py:142-156 | one row points at the version |
| Snapshots.SnapshotStore.FinalizeSnapshot | storage/snapshot_store.py:158-176 | status, count and size of an existing record, nothing for an unknown one |
| Snapshots.SnapshotStore.GetSnapshotBlocks | storage/snapshot_store.py:195-207 | the joined rows in block order |
| Snapshots.SnapshotStore.DeleteSnapshot | storage/snapshot_store.py:209-243 | rows, record, one decrement per row and the versions that reach zero; the size, or nothing if unknown |
| Snapshots.SnapshotStore.ReclaimOrphanBlocks | storage/snapshot_store.py:260-266 | versions without references go, and how many |
| Snapshots.SnapshotStore.RecoverInterruptedSnapshots | storage/snapshot_store.py:268-288 | creating and restoring snapshots become failed, and which they were |
| SnapshotService.SnapshotManager.CreateSnapshot | storage/snapshot_manager.py:37-77 | the store after a snapshot of every live block of the engine: a ready record with their number and bytes, no other record changed |
| SnapshotService.SnapshotManager.CreateSnapshotOf | storage/snapshot_manager.py:37-88 | the store after a creation for whatever the reads returned: its record ready exactly if none raised, otherwise failed with zeros, no other record changed |
| SnapshotService.SnapshotManager.DeleteSnapshot | storage/snapshot_manager.py:95-106 | deletes a known snapshot and says whether it was known |
| SnapshotService.RestoreService.RestoreSnapshot | storage/restore_service.py:47-126 | refused for an unknown snapshot and one being created or restored; a ready or failed one goes ahead; otherwise the engine's table, the job and the status after the restore, with or without clear_blocks, leftovers in whatever order |

## Left out

- Raft log compaction and snapshot restore in `RaftNode`: after trimming, list positions and indices differ while the other methods still index by position; the theorems are about logs that have not been trimmed.
- Raft membership changes (`reconfigure_peers`) and the `step_down` and partition hooks for tests; the peer set is fixed.
- Raft runs with untimely proposals or replies, beyond the two counterexample runs; safety is proved with both checks in place.
- The waiting loop of `propose` and its timeout result; replication inside it is the same request and reply steps.
- The loop of `_start_election` over its peers is split at every exchange, its local variables kept in a field, because other requests are handled in between.
- Clocks, timers, uuids, metrics and log messages; a timeout is a step that may happen at any time, uuids come from a counter.
- Writes to the placement tables past Raft (repair, reconciliation, restored placements); between restarts only commands change a peer's tables here.
- Raft commands for nodes, heartbeats, repair jobs and alerts change nothing in the model (`Other`).
- `rebuild_node_inventory`, `register_inventory` and placement reconciliation, which overwrite the inventory from what nodes report.
- Bytes of an oplog line: a line is a valid entry, blank or torn. A complete last line whose newline alone is missing, on which the next append would continue, is not modelled.
- The fsync policies, of which the model has the one that syncs every line.
- Purging inside crash runs; a purge is not logged.
- Origin node, origin lsn, checksums, lengths and timestamps of block rows; `origin_lsn` and `updated_at_ms` appear only as the tie breakers of a copy.
- StorageEngine.StorageEngine.WriteLocal: the idempotent form takes a version, as both endpoints always pass one.
- Consistency of blocks without a placement or written through a node outside it; those writes are local only.
- Quorum.ReplicationService.Replicate: takes the answers of the replicas as input; job rows, hints, replica states and the HTTP client are not modelled.
- Quorum.ReadCoordinator.Read: takes what the engine and the replicas answered as input.
- MerkleNode objects and their child pointers; only hashes matter to the comparisons.
- SnapshotService.SnapshotManager.CreateSnapshot: no write to the engine and no failing read meanwhile; CreateSnapshotOf takes whatever the reads returned as input.
- SnapshotService.RestoreService.RestoreSnapshot: placements and restore job rows are not modelled; the writers are those over one engine, and a cluster's writers that swallow HTTP errors are not.
- The snapshot status `DELETING`, which no code sets.
- Version ids of snapshots as strings, snapshot timestamps, policies, backups and the archive format.
- Repair orchestration, health scanning, hints, worker threads, HTTP applications and dashboards.
- Thread interleavings inside a locked section.
