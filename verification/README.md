# Verification of trans-db

trans-db is a sharded transactional store. Each shard replicates its log with Raft, runs transactions
under key locks with multi-version reads validated at Prepare, and writes a write-ahead log; a
coordinator commits across shards in two phases and runs scans and joins over all of them. This project
models those parts and proves what they are for. `dafny verify dfyconfig.toml` checks everything.

How the parts are modelled:

- **Raft** (`Raft*.dfy`). A cluster is a state machine over election time-outs, message deliveries from a
  set of messages that never shrinks (so messages may be lost, duplicated, delayed), proposals, commits,
  applications, step-downs in the same term and restarts. Votes, elected logs, acknowledgements and
  commits are kept as history that no step reads; the theorems compare any two moments of a run.
  `RaftServer` is the node and its log in place, each handler proved equal to the protocol's function;
  `RaftAnswers` says what those functions answer, and `RaftProgress` that every quorum can always go on.
- **Two-phase commit** (`TwoPhase*.dfy`). The coordinator's log is a durable prefix with an unflushed tail,
  crashes may come at any step and inside recovery, and shards are atomic participants.
  `TwoPhaseRecovery` says what recovery decides and that commits remain possible.
- **Transactions** (`Txn*.dfy`, `Lock*.dfy`). Every critical section is a step, and where one reads or
  changes the store while others may change it, every single look at it or effect on it: each entry of the
  read set is checked in a step of its own and each write applied in one. Transactions interleave between
  any two steps and a crash may fall there, losing any part of the unsynced log and of the store; recovery
  is part of the machine. `LockTable` and `LockManager` are the lock manager itself,
  `TxnManager` the manager object, `TxnRecovery` its recovery loops; `TxnProgress` says when a transaction
  can commit.
- **Logs as bytes** (`Framing`, `Cursor`, `*Format`, `Wal*`, `PrepareBatch`, `RowCodec`). Lengths are cut to 32
  bits as the code cuts them; the checksum is an arbitrary function.
- **Storage** (`KeyEncoding`, `MvccStore`, `MvccIterator`, `StoreView`, `ShardRouting`, `ShardedScan`). The ordered store is a sorted list
  of byte-string keys with a cursor.
- **Replicas** (`RaftApply*`, `StateMachine`). A shard's replicas share one agreed log; each applies it at its
  own pace, may run transactions itself and may restart.
- **Joins** (`Join*`, `NestedLoop`). Results are compared as multisets of (left row, right row) pairs.

Some promises do not hold of the code as it is. They are kept as they are, with the exact condition:

- Serializability: `TxnAnomaly.WriteSkew`, `TxnAnomaly.TornRead` and `TxnAnomaly.CutCommit` are runs that
  break it, `TxnSerial.FitsIff` says for every run exactly which reads fit the order of commit timestamps.
- Raft of a single replica: `RaftProgress.LoneNodeNeverLeads`; `RaftProgress.CommandsGetThrough` says that
  from two nodes on every quorum can get every command applied.
- Locks of prepared transactions: a late write frees them, and `TxnManager.Manager.WriteTooLate` says when
  that does harm.
- Logs that are appended to after a crash: `Wal.OtherLengthIsLost` and `Wal.TornTailHides` are what a torn
  tail does to later records, `Wal.ReadAfterAppend` says for every file exactly which appended record is
  read back.
- Recovery of the coordinator: `TwoPhaseSafety.SilentShardSplitsOutcome` is a run that splits the outcome,
  `TwoPhaseSafety.RecoveryAgreesIff` says exactly when recovery agrees with the shards.
- Point reads: `MvccStore.ShorterKeyIsLost` is a row that is there and not found, the contract of
  `MvccStore.Get` says exactly what is found.
- Encodings: each `...Iff` lemma of a format says exactly which values read back.

What the statements take for granted, beyond what the members' own conditions say: reads, writes and
syncs of files succeed and a sync is direct; an RPC takes effect before the caller's crash or never;
transaction ids of the coordinator are not reused across its incarnations; a transaction's calls come one
at a time, with one Prepare and no write after its commit timestamp is drawn; commit timestamps come from
one oracle and are drawn after the last write, and recovery of a commit may use a new one.

## Model

| member | source | states |
|---|---|---|
| `RaftSafety.AlwaysInv` | src/raft/raft_node.cpp:85-306 | the cluster invariant (votes, elected logs, acknowledgements, commits, messages in flight) holds after every run of timeouts, lost, duplicated and delayed messages, proposals, step-downs and restarts |
| `RaftSafety.ElectionSafety` | src/raft/raft_node.cpp:85-121 | two nodes that lead in the same term, at any two moments of any run, are the same node, although a leader that loses its quorum forgets its vote in that term |
| `RaftElections.SecondVoteIsTheSame` | src/raft/raft_node.cpp:458-481 | a node that grants a vote in a term it has already voted in grants it to the same candidate: the vote a leader forgot is guarded by its own NOOP |
| `RaftElections.LeaderLogEnds` | src/raft/raft_node.cpp:106-121 | the log of the leader of a term ends with an entry of that term, which no candidate of the term can match |
| `RaftReplication.FirstWinner` | src/raft/raft_node.cpp:158-172 | a candidate with a majority of votes is the first of its term: no leader and no leader log of that term exists yet |
| `RaftInvariant.LeaderCompleteness` | src/raft/raft_node.cpp:206-230 | a committed prefix is in the log of every leader elected in a later term |
| `RaftSafety.CommittedInLaterLeaders` | src/raft/raft_node.cpp:206-230 | what a node has committed at one moment is in the log of every leader of every later term at any moment |
| `RaftSafety.StateMachineSafety` | src/raft/raft_node.cpp:292-306 | if two nodes, or two incarnations of one, apply an entry at the same position, it is the same entry |
| `RaftSafety.AppliedFromLog` | src/raft/raft_node.cpp:292-306 | what a node has handed to its state machine are the entries 1, 2, 3, ... of its log, without gaps |
| `RaftSafety.OutputOnlyGrows` | src/raft/raft_node.cpp:292-306 | a step other than a restart only appends to what a node has applied |
| `RaftSafety.LogMatching` | src/raft/raft_node.cpp:412-449 | logs of any two nodes at any two moments that share an index and term agree on everything up to it |
| `RaftSafety.RequestsAreSafe` | src/raft/raft_node.cpp:251-265 | every append request in flight announces a commit index within the entries it checks or carries, and delivering it again leaves the follower's log as the first delivery left it |
| `RaftReplication.AcceptedCommit` | src/raft/raft_node.cpp:439-449 | the commit index a follower computes by clamping with its own last index covers only entries that the request checked and that stay committed |
| `RaftReplication.AcceptedLog` | src/raft/raft_node.cpp:432-449 | a follower that accepts a request holds the leader's log up to the request's last entry; a longer log survives only without conflict |
| `RaftLog.MergeWithLeader` | src/raft/raft_log.cpp:155-193 | merging a stretch of the leader's log leaves a log that contains it alone and otherwise cuts it to exactly the leader's log |
| `RaftLog.MergeIdempotent` | src/raft/raft_log.cpp:155-193 | merging the same stretch twice is merging it once |
| `RaftLog.MergeKeeps` | src/raft/raft_log.cpp:155-193 | what follower and leader already share is not lost by a merge |
| `RaftNode.CommitTarget` | src/raft/raft_node.cpp:206-230 | the scan from the end finds the highest index of the current term that a majority holds, or stays where it was |
| `RaftCatchUp.CatchUpTerminates` | src/raft/raft_node.cpp:189-194 | at most next_index - 1 rejections, then the follower's log starts with the leader's whole log and match_index is its last index |
| `RaftCatchUp.ReachableCatchUp` | src/raft/raft_node.cpp:255-262 | every reachable leader can run this against every peer that is not ahead of it in term |
| `RaftAnswers.VoteGrantedIff` | src/raft/raft_node.cpp:458-481 | a vote is granted if and only if the request is not from an older term, the vote of its term is free or already the candidate's, and the candidate's last (term, index) is at least the voter's; term, vote and role afterwards |
| `RaftAnswers.NotAheadGrants` | src/raft/raft_node.cpp:458-481 | in every run a request in flight of a node that is still candidate is granted on delivery by a voter of a lower term whose log is not ahead |
| `RaftAnswers.CommittableIff` | src/raft/raft_node.cpp:206-230 | an index is committable if and only if its entry is of the leader's term and more than half of the cluster holds it |
| `RaftAnswers.TickCommitsHighest` | src/raft/raft_node.cpp:206-230 | in every run a leader's commit index moves to the highest index of its term that a quorum holds, if that is further on |
| `RaftAnswers.TallyIs` | src/raft/raft_node.cpp:147-172 | what a node does with the answer to a vote request, over all fields: it wins if and only if its votes are a quorum, and then has its NOOP and fresh progress tables |
| `RaftAnswers.WinsIff` | src/raft/raft_node.cpp:158-172 | in every run a candidate told of a vote becomes leader if and only if that makes it a quorum |
| `RaftAnswers.CandidateRuns` | src/raft/raft_node.cpp:95-140 | running for leader takes the next term, the own vote and a request to every peer that names the last entry |
| `RaftAnswers.AppendIs` | src/raft/raft_node.cpp:412-456 | an append is accepted if and only if its term is not older and the entry before it matches; log, commit index, leader and confirmed index afterwards |
| `RaftAnswers.ReplyIs` | src/raft/raft_node.cpp:176-204 | one step back after a rejection; after a confirmation the peer's progress and the highest index a quorum holds |
| `RaftAnswers.ShippedIs` | src/raft/raft_node.cpp:250-265 | a request carries everything from next_index on and names the entry before |
| `RaftAnswers.KnownLeaderIsElected` | src/raft/raft_node.cpp:412-431 | in every run the leader a node names is the one that won the node's term |
| `RaftProgress.Elects` | src/raft/raft_node.cpp:95-172 | from every reachable cluster a quorum can elect any of its members whose log is not behind, without anyone else moving |
| `RaftProgress.QuorumGoesOn` | src/raft/raft_node.cpp:95-306 | and a command proposed then gets applied on each of them, at the same position, behind all that member had in its log |
| `RaftProgress.CommandsGetThrough` | src/raft/raft_node.cpp:95-306 | so from every reachable cluster of two or more nodes every quorum can get every command applied on all its members |
| `RaftProgress.LoneNodeNeverLeads` | src/raft/raft_node.cpp:142-173 | a cluster of one node never gets a leader, because votes are only counted when an answer comes |
| `RaftServer.Log.AppendEntries` | src/raft/raft_log.cpp:155-193 | the loop with truncation on conflict computes the merge, and the file is the entries |
| `RaftServer.Log.TruncateFrom` | src/raft/raft_log.cpp:138-153 | the entries and the file are cut at the index |
| `RaftServer.Log.GetRange` | src/raft/raft_log.cpp:105-119 | the stretch between two indices, clipped to the log |
| `RaftServer.Server.Reload` | src/raft/raft_node.cpp:579-603 | from the metadata file of a node and its log file cut off anywhere, the server that comes back is that node restarted with the entries that are whole |
| `RaftServer.FilesBack` | src/raft/raft_log.cpp:195-227 | what a node wrote to its two files is what it loads |
| `RaftServer.Server.HandleRequestVote` | src/raft/raft_node.cpp:458-481 | the handler updates the fields exactly as the protocol step says and gives its reply |
| `RaftServer.Server.StartElection` | src/raft/raft_node.cpp:123-140 | a node that is not leader becomes candidate and its request names its last entry |
| `RaftServer.Server.CountVote` | src/raft/raft_node.cpp:147-172 | counting a reply, stepping down or winning, in place, is the protocol step |
| `RaftServer.Server.ToLeader` | src/raft/raft_node.cpp:106-121 | progress tables for all peers and the NOOP, in place |
| `RaftServer.Server.HandleAppendEntries` | src/raft/raft_node.cpp:412-456 | the handler is the protocol step: term check, consistency check, merge, clamped commit index |
| `RaftServer.Server.ProcessAppendReply` | src/raft/raft_node.cpp:176-204 | next_index, match_index and commit index after a reply are those of the protocol step |
| `RaftServer.Server.AdvanceCommitIndex` | src/raft/raft_node.cpp:206-230 | the nested loops over indices and peers compute the commit target |
| `RaftServer.Server.BuildRequests` | src/raft/raft_node.cpp:250-265 | one request per peer, each carrying everything from next_index to the end |
| `RaftServer.Server.ApplyAll` | src/raft/raft_node.cpp:292-306 | the apply loop hands over exactly the committed entries that are present |
| `RaftServer.Server.QuorumLost` | src/raft/raft_node.cpp:285-288 | stepping down in the same term clears the vote |
| `TwoPhaseSafety.Agreement` | src/coordinator/coordinator.cpp:696-825 | in every run, of one shard or many, with crashes at any step, inside recovery and with the unflushed log tail lost, no shard commits a transaction that any shard aborts, and one commits only if all its shards voted yes |
| `TwoPhaseSafety.AlwaysInv` | src/coordinator/coordinator.cpp:345-481 | the invariant of log, phases, recovery work and participants holds after every run in which recovery hears of commits |
| `TwoPhaseSafety.RecoveryAgreesIff` | src/coordinator/coordinator.cpp:418-470 | where the log is silent, the outcome recovery drives agrees with the shards if and only if a committed shard, if there is one, is heard among the answers |
| `TwoPhaseSafety.SilentShardSplitsOutcome` | src/coordinator/coordinator.cpp:297-305 | without that: a run in which the committed shard does not answer and recovery aborts the other one |
| `TwoPhaseSafety.ReplaySees` | src/coordinator/coordinator.cpp:358-373 | replaying the log reports a record kind for a transaction exactly when such a record is in it |
| `TwoPhaseRecovery.RecoveryDecides` | src/coordinator/coordinator.cpp:385-470 | in every run recovery commits a transaction if and only if the log has COMMITTING, or has no ABORTING and no shard says aborted while all say prepared or committed or one says committed; the decision is flushed before any shard hears of it |
| `TwoPhaseRecovery.TakesUpIff` | src/coordinator/coordinator.cpp:378-383 | in every run recovery takes up exactly the transactions the log has as preparing on some shard and as neither committed nor aborted |
| `TwoPhaseRecovery.CrashLooksAtAll` | src/coordinator/coordinator.cpp:345-373 | after a crash every transaction of the surviving log is looked at |
| `TwoPhaseRecovery.CommitPossible` | src/coordinator/coordinator.cpp:696-825 | from every reachable state a new transaction whose shards all succeed can be committed on all of them, with COMMITTED on disk |
| `TwoPhaseService.ShardService.Prepare` | src/shard/shard_server.cpp:387-469 | yes exactly if there is a leader, the transaction is pending and not prepared, and validation, replication and result succeed; thrown away exactly if validation or replication fails |
| `TwoPhaseService.ShardService.Commit` | src/shard/shard_server.cpp:471-489 | a replicated commit moves the transaction to the terminal table |
| `TwoPhaseService.ShardService.Abort` | src/shard/shard_server.cpp:491-529 | a transaction that is not prepared is aborted locally, a prepared one through the log; the answer is an error exactly if there is a leader, the transaction is not one of its unprepared ones and the log refuses |
| `TwoPhaseService.ShardService.QueryState` | src/shard/shard_server.cpp:564-594 | the answer read off the two tables, and off the state machine if they know nothing |
| `TwoPhaseService.CollectSeen` | src/coordinator/coordinator.cpp:358-373 | one pass over the records gives the view of every transaction that the replay of its own records gives |
| `TwoPhaseService.DecideOutcome` | src/coordinator/coordinator.cpp:385-470 | the loop over the shards' answers: commit if and only if COMMITTING was seen, or ABORTING was not, nobody says aborted, and all say prepared or committed or one says committed |
| `LockTable.AlwaysInv` | src/txn/lock_manager.cpp:31-155 | after every run of acquires, wake-ups, time-outs and releases: one owner per key, hold counts equal the books plus a hand-over not yet picked up, waiters in arrival order, no waiter on a free lock |
| `LockTable.MutualExclusion` | src/txn/lock_manager.cpp:62-107 | no key is ever on the lists of two transactions |
| `LockTable.HandOverIsFifo` | src/txn/lock_manager.cpp:45-59 | the lock goes to the waiter that arrived first, after all served before and before all still waiting |
| `LockTable.ServedRises` | src/txn/lock_manager.cpp:45-59 | over the rest of any run the mark of the last arrival served only rises |
| `LockTable.ArrivalOrder` | src/txn/lock_manager.cpp:45-107 | over all runs: as long as a waiter is still queued, nobody queued behind it has had the lock at any moment in between |
| `LockTable.ReleaseAllReleases` | src/txn/lock_manager.cpp:132-155 | ReleaseAll frees every lock of the transaction or hands it to its longest waiter and touches no other lock |
| `LockTable.DropOneKeepsInv` | src/txn/lock_manager.cpp:143-154 | every key taken from a list is still owned by its transaction, so the loop never skips one |
| `LockTable.OwnerChanges` | src/txn/lock_manager.cpp:62-155 | ownership changes only when a transaction takes a free lock or gives up its own |
| `LockManager.Manager.Acquire` | src/txn/lock_manager.cpp:66-87 | the first critical section is the table step: it succeeds if and only if the key is free or the transaction's own, and otherwise queues behind all others |
| `LockManager.Manager.Recheck` | src/txn/lock_manager.cpp:89-93 | a woken thread takes the lock exactly if it was handed over |
| `LockManager.Manager.Expire` | src/txn/lock_manager.cpp:94-105 | at the deadline it takes a lock that is its own by now, or leaves the queue |
| `LockManager.Manager.ReleaseInternal` | src/txn/lock_manager.cpp:31-60 | one hold less, hand-over or removal of the entry, in place |
| `LockManager.Manager.Release` | src/txn/lock_manager.cpp:109-130 | a key on the list leaves it once and one hold is given back, to the first waiter if it was the last; anything else changes nothing |
| `LockManager.Manager.ReleaseAll` | src/txn/lock_manager.cpp:132-155 | the two critical sections one after the other release everything and nothing else |
| `TxnSafety.AlwaysInv` | src/txn/txn_manager.cpp:66-485 | the invariant of transactions, locks, log and store holds after every interleaving of steps and crashes with recovery |
| `TxnSafety.NoLostUpdate` | src/txn/txn_manager.cpp:174-299 | of two transactions that decided to commit and wrote the same key, the later one in timestamp order, if it read the key, observed the other's version or a newer one |
| `TxnProgress.CanCommit` | src/txn/txn_manager.cpp:242-323 | from every reachable state an active transaction whose reads are still the newest versions can commit at the next timestamp by its own steps, with exactly its writes in the store, PREPARE and COMMIT synced and its locks free |
| `TxnSerial.FitsIff` | src/txn/txn_manager.cpp:242-323 | in every run, crashes included: a committed transaction's read fits the serial order by timestamp if and only if it was not taken between two writes of the key by its writer, its version is not the remains of a commit that a crash cut short, and no earlier transaction's version of the key was missing at validation or got a timestamp above the validated one |
| `TxnSerial.AloneFits` | src/txn/txn_manager.cpp:242-323 | with increasing commit timestamps, if every other commit either starts after this transaction's or had its COMMIT logged before this one began to prepare, a read fits the serial order if and only if it was settled and its version is not the remains of a cut commit |
| `TxnSerial.UndisturbedFits` | src/txn/txn_manager.cpp:267-323 | the same read off the steps of a run, crashes anywhere: nobody in the middle of a commit at the start of Prepare, and nobody else starting one until the commit |
| `TxnSerial.UndisturbedIsAlone` | src/txn/txn_manager.cpp:267-323 | such steps put every other commit before the Prepare or after the commit |
| `TxnAnomaly.WriteSkew` | src/txn/txn_manager.cpp:280-323 | a run without crashes after which no serial order explains the reads of the committed transactions |
| `TxnAnomaly.TornRead` | src/txn/txn_manager.cpp:257-265 | a run in which a reader got a value between two writes of one key by another transaction, which is all over before the reader prepares and commits |
| `TxnAnomaly.CutCommit` | src/txn/txn_manager.cpp:301-323 | a run in which a crash leaves a version of a commit it cut short and a reader of it commits, with every other condition met |
| `TxnSafety.NeverLooksDeleted` | src/storage/mvcc_store.cpp:12-75 | no version in the store has the value that stands for a tombstone: a write of the single byte 0 is a delete to everyone but its own transaction |
| `TxnSafety.RecoveryRevives` | src/txn/txn_manager.cpp:417-481 | from any log prefix that keeps the synced records, exactly the transactions that had prepared and not ended come back prepared, with timestamp, snapshot and write set in order |
| `TxnSafety.RecoveryRestores` | src/txn/txn_manager.cpp:380-411 | every committed transaction's last write of every key is in the store at its commit timestamp, whatever part of the store was lost |
| `TxnSafety.RecoveryLocks` | src/txn/txn_manager.cpp:468-476 | recovery locks exactly the keys of the prepared transactions, each for its transaction |
| `TxnSafety.RecoveryIds` | src/txn/txn_manager.cpp:354-358 | no id that is still in the log is given out again |
| `TxnSafety.RecoveryNeverWaits` | src/txn/txn_manager.cpp:468-476 | two transactions that a durable log prefix leaves prepared wrote different keys |
| `TxnRecovery.Recover` | src/txn/txn_manager.cpp:350-485 | the passes over the records replay the committed transactions and rebuild and lock the prepared ones; the call goes through if and only if no two prepared transactions need the same key |
| `TxnRecovery.LargestIs` | src/txn/txn_manager.cpp:354-358 | ids go on behind the largest one in the log |
| `TxnRecovery.RecoveryShows` | src/txn/txn_manager.cpp:350-485 | on the log a crash leaves behind, the table and lock lists it builds show the recovered state of the machine |
| `TxnRecovery.RecoverySucceeds` | src/txn/txn_manager.cpp:468-476 | on such a log it always goes through |
| `TxnRecovery.LockKeys` | src/txn/txn_manager.cpp:468-476 | locks the keys, or stops at one that another transaction holds |
| `TxnRecovery.RebuildTxn` | src/txn/txn_manager.cpp:423-466 | snapshot, write set in order and key set from the records before PREPARE |
| `TxnRecovery.ReplayTxn` | src/txn/txn_manager.cpp:380-411 | the writes before COMMIT are put again at the commit timestamp |
| `TxnManager.Manager.Begin` | src/txn/txn_manager.cpp:66-78 | a fresh id, a BEGIN record and a table entry with the snapshot, and nothing else: the machine's step |
| `TxnManager.Manager.Read` | src/txn/txn_manager.cpp:80-120 | own buffered write first, then the snapshot; only a found read is recorded |
| `TxnManager.Manager.Write` | src/txn/txn_manager.cpp:174-240 | blocked exactly if another transaction has the key; otherwise logged and buffered behind the earlier writes, or refused for an unknown transaction, which loses the lock again |
| `TxnManager.Manager.WriteTooLate` | src/txn/txn_manager.cpp:189-193 | a write to a prepared transaction is refused and frees all its locks; afterwards locks and table agree if and only if it had written nothing |
| `TxnManager.Manager.ResumeWrite` | src/txn/txn_manager.cpp:176-180 | a waiting write goes on, keeps waiting, or aborts its transaction at the deadline |
| `TxnManager.Manager.Prepare` | src/txn/txn_manager.cpp:267-299 | the checks of the read set, one step each, decide between a synced PREPARE and removal with a synced ABORT and released locks |
| `TxnManager.Manager.Commit` | src/txn/txn_manager.cpp:301-323 | writes applied in order, COMMIT synced, then locks released; errors for unknown and unprepared transactions |
| `TxnManager.Manager.Abort` | src/txn/txn_manager.cpp:325-340 | ABORT synced before the locks go; unknown transactions are fine |
| `TxnManager.ValidateReadSet` | src/txn/txn_manager.cpp:242-255 | passes exactly if every recorded version is the newest of its key up to the timestamp and no tombstone |
| `TxnManager.LatestBuffered` | src/txn/txn_manager.cpp:16-24 | the backwards loop finds the last buffered write of the key |
| `TxnManager.Manager.Scan` | src/txn/txn_manager.cpp:122-172 | own buffered writes over the rows of the snapshot, and one read step and read set entry for every row not written by itself |
| `TxnManager.ScanAgreesWithRead` | src/txn/txn_manager.cpp:146-169 | a row of the snapshot is listed with a value exactly if Read of its key gives that value, and the version Read would record is recorded |
| `TxnManager.OverlayInOrder` | src/txn/txn_manager.cpp:146-169 | the rows keep their order |
| `TxnManager.WritesAreLocked` | src/txn/txn_manager.cpp:66-340 | in every state the manager can get into, a transaction in its table holds exactly the locks of the keys it wrote |
| `TxnManager.WritesAreApart` | src/txn/txn_manager.cpp:66-340 | so no two transactions in the table wrote the same key |
| `TxnManager.ManagerLosesNothing` | src/txn/txn_manager.cpp:66-340 | no lost update among the transactions a manager decided to commit |
| `Framing.TornTail` | src/txn/wal.cpp:69-131 | a prefix of a written log parses to exactly the records wholly inside it, for any reader and writer that fit together |
| `Framing.PrefixParse` | src/txn/wal.cpp:69-131 | for any bytes, parsing a prefix gives a prefix of the parse |
| `Framing.LeRoundTrip` | src/txn/wal.cpp:174-212 | n bytes little-endian give the number back modulo 256^n |
| `Framing.LeDigit` | src/txn/wal.cpp:174-186 | byte i is the i-th digit to the base 256 |
| `Framing.ParseSized` | src/txn/wal.cpp:69-131 | the loop with a moving offset computes the parse and the largest rank |
| `Framing.AppendLe` | src/txn/wal.cpp:174-186 | the byte loop writes the little-endian number |
| `WalFormat.TornWal` | src/txn/wal.cpp:276-300 | the write-ahead log read back from a cut at any byte |
| `WalFormat.ReadsBackIff` | src/txn/wal.cpp:276-300 | a record reads back if and only if its length fits in 32 bits |
| `WalFormat.PrefixOfFile` | src/txn/wal.cpp:69-131 | for any file contents, a prefix parses to a prefix |
| `WalFormat.ParseRecords` | src/txn/wal.cpp:69-131 | the records and the largest sequence number |
| `WalFormat.WriteRecord` | src/txn/wal.cpp:276-300 | the bytes of a record, field by field |
| `WalFormat.RecordLayout` | src/txn/wal.cpp:276-300 | the position of every field in those bytes |
| `WalPayloads.WriteBack` | src/txn/wal.cpp:399-473 | a write payload reads back if and only if key and value are shorter than 2^32 |
| `WalPayloads.DeleteBack` | src/txn/wal.cpp:412-497 | a delete payload reads back if and only if the key is shorter than 2^32 |
| `WalPayloads.KindBack` | src/txn/wal.cpp:392-507 | every kind of record payload decodes to what was encoded |
| `WalPayloads.CutLogIsPrefix` | src/txn/wal.cpp:331-351 | a log file cut anywhere holds a prefix of the machine's records, numbered from 1 |
| `Wal.Log.Append` | src/txn/wal.cpp:302-306 | the record gets the next number and its bytes go to the end of the file; behind a file without a torn tail it is read back if and only if its length fits |
| `Wal.ReadAfterAppend` | src/txn/wal.cpp:276-306 | for any file contents and record: it is read back, alone and after the records read before, if and only if its length fits, its bytes stand in front of the unparsed rest and itself, and nothing parses behind them |
| `Wal.AppendAfterCrash` | src/txn/wal.cpp:214-306 | the same for a written log that a crash cut at any byte, in terms of the torn piece |
| `Wal.OtherLengthIsLost` | src/txn/wal.cpp:214-306 | so once the torn piece shows its length field, an appended record with a payload of another length is not read |
| `Wal.ReadAfterWhole` | src/txn/wal.cpp:276-306 | behind a file without a torn tail a record is read if and only if its length fits, and the file stays without one |
| `Framing.TornRest` | src/txn/wal.cpp:69-131 | a log cut inside a record is left with exactly that piece unparsed |
| `Framing.AppendIff` | src/txn/wal.cpp:69-131 | the exact condition for any reader that finds a record exactly where its bytes stand |
| `WalFormat.InFront` | src/txn/wal.cpp:69-131 | the reader finds a record in front of any bytes if and only if its length fits and its bytes stand there |
| `Wal.TornTailHides` | src/txn/wal.cpp:220-242 | a torn tail whose length field reaches past the appended record hides it and everything behind |
| `Framing.ParseAppend` | src/txn/wal.cpp:69-131 | for any bytes, what is appended is read together with the rest that did not parse before |
| `Wal.Log.constructor` | src/txn/wal.cpp:214-237 | opening any file gives a next number above all in it, unless the numbers are used up |
| `Wal.Log.Replay` | src/txn/wal.cpp:331-351 | the records that parse, for any file contents, and a next number above them |
| `CoordinatorLogFormat.TornCoordinatorLog` | src/coordinator/coordinator_log.cpp:130-153 | the coordinator's log read back from a cut at any byte |
| `CoordinatorLogFormat.ReadsBackIff` | src/coordinator/coordinator_log.cpp:130-153 | a record reads back if and only if its length fits in 32 bits |
| `CoordinatorLogFormat.PrefixOfFile` | src/coordinator/coordinator_log.cpp:205-251 | for any file contents, a prefix parses to a prefix |
| `CoordinatorLogFormat.Replay` | src/coordinator/coordinator_log.cpp:205-251 | the replay loop computes the parse |
| `CoordinatorLogFormat.WriteRecord` | src/coordinator/coordinator_log.cpp:130-153 | the bytes of a record, shards in a loop |
| `CoordinatorLogFormat.RecordLayout` | src/coordinator/coordinator_log.cpp:130-153 | the position of every field in those bytes |
| `CoordinatorLogFormat.WordAt` | src/coordinator/coordinator_log.cpp:135-140 | shard i is the i-th word |
| `RaftLogFormat.TornRaftLog` | src/raft/raft_log.cpp:57-66 | the Raft log read back from a cut at any byte |
| `RaftLogFormat.ReadsBackIff` | src/raft/raft_log.cpp:57-66 | an entry reads back if and only if its payload is shorter than 2^32 |
| `RaftLogFormat.PrefixOfFile` | src/raft/raft_log.cpp:205-226 | for any file contents, a prefix loads to a prefix |
| `RaftLogFormat.MetaBack` | src/raft/raft_node.cpp:579-626 | term and vote come back as written, and nothing from a file cut short |
| `RaftLogFormat.Load` | src/raft/raft_log.cpp:195-227 | the load loop computes the parse |
| `RaftLogFormat.Serialize` | src/raft/raft_log.cpp:57-66 | the bytes of an entry |
| `KeyEncoding.DecodeEncode` | src/storage/key_encoding.cpp:43-76 | decoding gives back table, key and timestamp |
| `KeyEncoding.EncodeDecode` | src/storage/key_encoding.cpp:64-76 | every key of twelve bytes or more is the key of one version |
| `KeyEncoding.VersionOrder` | src/storage/key_encoding.cpp:41-50 | the versions of a row sort newest first |
| `KeyEncoding.RowOrder` | src/storage/key_encoding.cpp:43-50 | rows with prefix-free keys sort by key whatever their timestamps |
| `KeyEncoding.TableOrder` | src/storage/key_encoding.cpp:7-14 | tables sort by number |
| `KeyEncoding.BeOrder` | src/storage/key_encoding.cpp:16-23 | big-endian numbers of one width sort like the numbers |
| `KeyEncoding.AppendBe` | src/storage/key_encoding.cpp:16-23 | the loop from the last byte to the first writes the big-endian number |
| `KeyEncoding.ReadBe` | src/storage/key_encoding.cpp:33-39 | the shifting loop reads it back |
| `MvccStore.Get` | src/storage/mvcc_store.cpp:56-83 | the cursor loop finds a version exactly if it is the newest at or below the snapshot, no tombstone, and no key of another row lies between it and the seek key |
| `MvccStore.NothingHidden` | src/storage/mvcc_store.cpp:58-70 | with prefix-free keys nothing is ever hidden |
| `MvccStore.LongerKeyHides` | src/storage/mvcc_store.cpp:58-70 | a key that continues pk with a byte below 255 hides every version of pk older than 2^56 |
| `MvccStore.ShorterKeyIsLost` | src/storage/mvcc_store.cpp:58-70 | two rows of which the point read does not find the first |
| `MvccStore.Store.Put` | src/storage/mvcc_store.cpp:31-40 | exactly one version changes and the store stays sorted |
| `MvccStore.Store.Delete` | src/storage/mvcc_store.cpp:42-50 | exactly one version becomes a tombstone |
| `MvccIterator.Scan` | src/storage/mvcc_iterator.cpp:19-57 | on prefix-free keys, by ascending key and once each, exactly the rows in range whose newest version at the snapshot is no tombstone; it terminates |
| `MvccIterator.ScanAgreesWithGet` | src/storage/mvcc_iterator.cpp:59-139 | a row is listed with a timestamp and value exactly when a point read sees them |
| `MvccIterator.Iterator.constructor` | src/storage/mvcc_iterator.cpp:19-32 | the seek passes no row of the range and the first entry is found |
| `MvccIterator.Iterator.Advance` | src/storage/mvcc_iterator.cpp:59-139 | stops behind the next row to list, having skipped none, or at the end of the range |
| `MvccIterator.Iterator.Next` | src/storage/mvcc_iterator.cpp:34-57 | goes on from behind the current row |
| `MvccIterator.Iterator.Choose` | src/storage/mvcc_iterator.cpp:80-134 | the newest visible version of a row, if there is one, and the cursor behind the row |
| `MvccIterator.SeekMissesNone` | src/storage/mvcc_iterator.cpp:29-30 | the seek key is at or before every row whose key is not below the start, prefix-free or not |
| `StoreView.GetAgrees` | src/storage/mvcc_store.cpp:56-83 | on prefix-free keys the point read of the ordered store is the read of the transaction machine's version map |
| `StoreView.PutAgrees` | src/storage/mvcc_store.cpp:31-50 | a put or delete in the ordered store is the put of the version map |
| `StoreView.LockKeyTells` | src/txn/lock_manager.cpp:23-29 | different rows have different lock keys |
| `ShardedScan.ScanShards` | src/coordinator/coordinator.cpp:570-636 | scanning every shard, concatenating and sorting gives the scan of any one store that holds all the rows |
| `ShardedScan.OneScan` | src/coordinator/coordinator.cpp:570-636 | there is only one list that is such a scan |
| `ShardRouting.RouteShard` | src/coordinator/coordinator.cpp:90-99 | the wrapping hash loop gives the 64-bit FNV-1a hash modulo the number of shards, or modulo 1 without any |
| `ShardRouting.FnvRound` | src/coordinator/coordinator.cpp:90-99 | the hash of no bytes is the offset, and a further byte takes the number whose bits are those of hash or byte but not both, times the prime, modulo 2^64 |
| `ShardRouting.FnvPublished` | src/coordinator/coordinator.cpp:90-99 | the value published for the key a, and its shard among three |
| `ShardRouting.LastByteTells` | src/coordinator/coordinator.cpp:90-99 | keys that differ in their last byte only never share a hash |
| `RaftApplySafety.ReplicaMatchesLog` | src/raft/raft_state_machine.cpp:179-322 | a replica that has caught up holds exactly what the log it applied says, whichever transactions it ran itself and however often it restarted, in the middle of an entry or between two, with whatever part of its store |
| `RaftApplySafety.ReplicasAgree` | src/raft/raft_state_machine.cpp:179-322 | two replicas that applied equally much hold the same store |
| `RaftApplySafety.AlwaysInv` | src/raft/raft_state_machine.cpp:179-322 | tables and stores of all replicas follow the log in every run of local work, votes, proposals, applications and restarts |
| `RaftApply.ReplayIsIdempotentIff` | src/raft/raft_state_machine.cpp:304-318 | replaying a log over a store gives what replaying it from nothing gives if and only if the store holds no version the log does not write |
| `RaftApplySafety.CommitFinds` | src/raft/raft_state_machine.cpp:304-318 | at a commit entry the replica has the transaction with exactly the log's writes, or both have nothing |
| `RaftApplySafety.BatchFinds` | src/raft/raft_state_machine.cpp:199-236 | a batch meets no earlier one, and the replica's own transaction has the same writes |
| `RaftApplySafety.CommitIsStored` | src/raft/raft_state_machine.cpp:304-318 | in every run a replica that applied the first entry to end a transaction, a commit, has the last value it wrote for each key at the commit timestamp |
| `RaftApplySafety.AppliedMeansSuccess` | src/raft/raft_state_machine.cpp:205-236 | in every run a replica that applied a transaction's batch and no end of it holds a successful prepare result, until it is handed out or the transaction dropped |
| `RaftApplySafety.AppliedMeansVote` | src/shard/shard_server.cpp:452-468 | so the replica the transaction runs on can vote yes, through that result |
| `StateMachine.Machine.Apply` | src/raft/raft_state_machine.cpp:179-322 | the handler updates tables and store as the model of one entry says; a batch leaves a table entry and a success, an end leaves no entry |
| `StateMachine.Machine.CommitLocal` | src/txn/txn_manager.cpp:301-323 | the put loop applies the writes of a prepared transaction |
| `StateMachine.Machine.TakePrepareResult` | src/raft/raft_state_machine.cpp:111-120 | the result is handed out once |
| `PrepareBatch.UnpackPackIff` | src/raft/raft_state_machine.cpp:75-177 | a batch payload reads back if and only if the number of writes and all lengths fit in 32 bits |
| `PrepareBatch.UnpackPayload` | src/raft/raft_state_machine.cpp:144-177 | the unpacking loop computes the decoder |
| `Cursor.TookMany` | src/raft/raft_state_machine.cpp:153-176 | n elements read back exactly when each of them fits |
| `NestedLoop.ExecuteInnerJoin` | src/coordinator/distributed_join.cpp:57-86 | whatever plan is asked for or picked and whichever side is broadcast, the row pairs are the join's |
| `NestedLoop.NestedLoopJoin` | src/coordinator/executor.cpp:586-617 | the nested loop over column maps gives the join's multiset of row pairs, and an error if and only if there is a left row and some row on either side does not decode |
| `NestedLoop.ConditionIs` | src/coordinator/executor.cpp:592-614 | for distinct tables and qualified columns the combined map compares the two join cells |
| `JoinPlans.RunBroadcastJoin` | src/coordinator/distributed_join.cpp:88-136 | every shard joins the whole build side with its own probe rows |
| `JoinPlans.RunShuffleJoin` | src/coordinator/distributed_join.cpp:138-201 | both sides parted by any hash of the join key |
| `JoinPlans.LocalHashJoin` | src/shard/distributed_join_handler.cpp:68-98 | the hash table join gives the join of the rows that decode |
| `JoinPlans.KeyProbes` | src/shard/distributed_join_handler.cpp:148-172 | the shard attaches the same join keys as the coordinator |
| `JoinPlans.KeyRows` | src/coordinator/distributed_join.cpp:118-124 | the coordinator attaches the cell of the join column |
| `JoinSpec.JoinHas` | src/coordinator/executor.cpp:598-613 | the pairs of the join are those of rows with equal keys |
| `JoinSpec.PartsAreWhole` | src/coordinator/distributed_join.cpp:148-161 | joining part by part gives the whole join |
| `JoinSpec.PermuteRight` | src/coordinator/distributed_join.cpp:203-218 | the order of the right rows does not matter |
| `JoinSpec.PermuteLeft` | src/coordinator/distributed_join.cpp:203-218 | the order of the left rows does not matter |
| `RowCodec.RowBackIff` | src/coordinator/executor.cpp:196-230 | a row reads back if and only if it has fewer than 2^16 cells, each shorter than 2^32 |
| `RowCodec.DecodesAlike` | src/shard/distributed_join_handler.cpp:14-43 | the shard's decoder and the coordinator's agree on rows with the table's number of columns |
| `RowCodec.DeserializeRow` | src/coordinator/row_codec.cpp:32-49 | the cell loop computes the decoder |
| `RowCodec.CellForColumn` | src/coordinator/row_codec.cpp:51-76 | the cell of a qualified column |
| `RowCodec.QualifiedApart` | src/coordinator/row_codec.cpp:51-57 | a qualified name tells table and column when columns have no dots |

## Left out

- Group commit with a window: a sync is modelled as direct.
- RPC channels, retries, deadlines, leader lookup, protocol buffers, processes and timers: they appear only as lost, late or repeated messages and as steps that may happen at any time.
- Raft proposal batching: entries are proposed one by one.
- `raft_node` metadata and log files: they persist together with the change in memory.
- A next_index of 0 is not reachable and is treated as 1 by a rejected append.
- Torn tails across a second crash: the transaction machine's log after a crash is the surviving records alone, while the code leaves the torn bytes in the file, with the effect that Wal.AppendAfterCrash states.
- Checksums: which damaged records CRC-32 detects.
- TwoPhaseService.ShardService.QueryState: the state machine's answer is an input, and in the runs of TwoPhaseSafety it is no, because with calls that take effect at once or never the prepare results are gone by then.
- TwoPhaseService.ShardService.Prepare: the outcomes of the local Prepare (TxnManager), of replication (Raft) and of the state machine (StateMachine) are inputs.
- TwoPhaseSafety.Agreement: outcome only, not the commit timestamp, because recovery draws a new one; shard tables survive, so a shard that restarts or answers as a follower is not covered.
- TxnSafety.NoLostUpdate: locally begun transactions only, because imported prepared transactions take no locks.
- TxnSerial.FitsIff: found reads only, because the code does not record reads that find nothing.
- TxnManager.Manager.Write: a Write for a prepared transaction is TxnManager.Manager.WriteTooLate, and no run goes on behind one; a Write between the drawing of the timestamp and Prepare is excluded.
- TxnManager.Manager.Scan: the rows come from the store's iterator (MvccIterator); other transactions' steps between two rows are left to the machine.
- LockManager.Manager.Acquire: the wait on the condition variable is a step of its own (Recheck, Expire); transaction id 0 and a second waiting Acquire of the same transaction are excluded.
- MvccIterator.Scan: prefix-free primary keys, as in the fixed-width keys of the benchmarks; keys shorter than twelve bytes in the ordered store, which only damage could put there, are not modelled.
- RaftServer.Log.AppendEntries: an entry with index 0 that meets a log that is not empty is excluded, because the code then looks outside its entries; no leader sends one.
- RaftApplySafety.ReplicasAgree: a transaction begins on one replica only and is dropped by it before it votes yes or not at all; entries that the shard never proposes (begin, write, delete, single prepare) are not modelled.
- JoinPlans.RunBroadcastJoin: output columns under unqualified names are not compared, because a shared name takes the value of whichever side comes last; join columns that do not exist are excluded.
- WHERE, ORDER BY, LIMIT, aggregates, the parser, the catalog, the wire protocol and key ranges from predicates.
