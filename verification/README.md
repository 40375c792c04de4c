# Proofs about a Raft-based storage stack

This project models the core of a distributed-systems code base in Go: a Raft library, a
key/value service on it, a sharded key/value service with live migration, its shard
controller, a linearizability checker and a MapReduce framework. It proves what these
programs are for.

`dafny verify dfyconfig.toml` checks the whole project.

## How the code is modelled

Every section of a server that runs under its lock is one atomic step, and is a function
from the state before to the state after. The network is a set of messages: a message once
sent may be lost, delayed, reordered or delivered any number of times. Servers may crash and
restart from what they stored. The server objects are classes whose methods have the loops
and in-place updates of the code, and each method is proved to compute the function that the
protocol model runs. Maps that the code walks in an unspecified order are walked in any order.

* **Raft** (`Raft*.dfy`). `RaftPeer` is one peer, `RaftServer` the object with its persister,
  `RaftCluster` the cluster. `RaftHistory` holds the argument about leaders, votes and
  majorities (sections 5.3 and 5.4 of the extended Raft paper) on recorded history alone;
  `RaftInvariant`, `RaftElections`, `RaftReplication` and `RaftSnapshots` tie each step to it;
  `RaftSafety` draws the theorems. `RaftRules` says what each section does to the whole log of
  its peer, snapshotted part included, in every reachable state. `RaftProgress`, `RaftApplying`
  and `RaftCommits` show that a cluster of two or more peers never gets stuck; a single peer
  never leads. The model follows the code where it differs from the paper:
  vote arguments are read when a request is sent, a snapshot of the same term does not demote a
  candidate, the snapshot reply writes the match index without a check, heartbeats carry the
  term of the commit index, and the applying loop drops the lock while it sends.
* **Key/value service on Raft** (`KvService`, `KvSystem`, `KvReplicas`, `KvBehind`,
  `KvLateSnapshot`, `KvRestore`). What a key holds is defined on a sequence of writes alone: the
  last put and everything appended since (`Writes`). `KvSystem` runs a service beside every peer
  of the Raft cluster. The channel between the two carries one message at a time: the commands
  of a batch wait in a queue while the lock is free, a snapshot from the leader may be received between two of them,
  and a service saves its state as it is after the command it has just applied.
  `CondInstallSnapshot` is documented to accept a snapshot only if Raft has nothing newer, but
  compares only with the base of the log. A delayed snapshot therefore moves a service back
  while Raft goes on behind the entries it had applied. `KvReplicas` proves what holds without
  such installs, `KvBehind` that the condition is exact, and `KvLateSnapshot` is a run that
  loses a write.
* **Sharded service** (`Shard*.dfy` except `ShardController`). Many groups, each a replicated
  state machine, exchange shards over the network. A single map and, per shard, the config
  number at which its holder acquired it, are carried along as history. The results of
  `ShardSafety` are over config histories that never take an assigned shard out of service;
  `ShardNecessity` shows that this is exactly what no loss of keys needs. That one group serves
  a shard at a time needs less; `ShardExclusion` has the exact condition. `ShardMeaning` says
  what the single map holds in terms of the served writes. `ShardProgress` and `ShardSettles`
  show that migration never gets stuck, over any config history.
* **Shard controller** (`Rebalance`, `Handout`, `HandoutOrder`, `ShardController`,
  `ControllerHistory`, `ControllerMoves`), for any number of shards.
* **Linearizability checker** (`Linearization`, `EntryHistory`, `EventHistory`, `EntryList`,
  `Bitset`, `Checker*`, `KvLocality`, `KvMeaning`, `KvCheck`, `KvTies`). The declarative definition is in
  `Linearization`. The list of entries is a heap of doubly linked nodes with the code's pointer
  surgery. The kill flag may be seen up from any round on. Any result of a sort by time is
  allowed for; where a return and a call share a time the outcome depends on the sort, and
  `KvTies` shows that it matters for every such history.
* **MapReduce** (`MapReduce`, `MrCoordinator`, `MrJob`, `MrProgress`, `MrJobProgress`). Files are sequences; the coordinator's
  channels and goroutines are multisets of tasks. `MrJob` runs the coordinator with any number
  of workers that take tasks, write files step by step, report and crash. The coordinator
  queues one task that says the job is done, so only one worker is told; the others wait.

Encoding to bytes, files and remote calls are values passed along. Timers, timeouts, kill
flags, the order of arrival and the client's choice of server are free choices of the run.

## Model

| member | source | states |
|---|---|---|
| RaftSafety.ElectionSafety | code/src/raft/raft.go:169-227 | At most one peer is ever leader of a term, judged at any two moments of a run with losses, reordering, crashes and restarts; a leader's log at the earlier moment is a prefix of its log at the later one. |
| RaftSafety.LogMatching | code/src/raft/raft.go:575-649 | In every reachable state two whole logs that agree on the term at an index agree on every entry up to it. |
| RaftHistory.LeaderCompleteness | code/src/raft/raft.go:169-325 | In every history of leaders, acknowledgements and votes, a committed entry is in the log of every leader of a later term; votes carry the log of the moment they were sent. |
| RaftSafety.CommittedEntriesInLeaders | code/src/raft/raft.go:169-325 | Everything counted to a majority in some term by one moment of a run is in the log of every peer that leads at a later moment in that or a later term. |
| RaftSafety.KnownIsCommitted | code/src/raft/raft.go:575-800 | What a peer knows to be committed, by counting, from a request or from a snapshot, was counted to a majority by the leader of its term or an earlier one. |
| RaftSafety.StateMachineSafety | code/src/raft/raft.go:777-800 | Two peers, at any two moments, hold the same entry at every position that each knew to be committed. |
| RaftSafety.DeliverySafety | code/src/raft/raft.go:803-866 | Whatever two services are ever handed at one index is the same command and term. |
| RaftSafety.OffsetsAndDurability | code/src/raft/raft.go:803-956 | In every reachable state base <= applied <= committed <= last index, the log is not empty, the stored snapshot is the one of the stored base, and a crash now would bring back the same term, vote, base and log. |
| RaftSafety.CommitEvidence | code/src/raft/raft.go:435-498 | A match index above a leader's commit index is backed by an AppendEntries success of its own term, so that the unchecked write after a snapshot reply never counts towards a majority. |
| RaftSafety.CommittedNeverLost | code/src/raft/raft.go:617-646 | What a peer knew to be committed stays in its own log at every later moment, through conflict truncation, both snapshot paths and restarts. |
| RaftSafety.StepKeepsInv | code/src/raft/raft.go:169-1046 | Each of the seventeen lock-held sections, crash and restart keeps the invariant of the cluster. |
| RaftRules.VoteRule | code/src/raft/raft.go:292-325 | In every reachable state a vote is granted if and only if the term is not older, nobody else has the vote in it, and the last term and length of the requester's whole log are lexicographically at least those of the voter's; term, vote and role afterwards, and the log stays. |
| RaftRules.LongerLogSuffices | code/src/raft/raft.go:309-324 | A candidate whose whole log extends the voter's is never refused because of its log. |
| RaftRules.TimeoutRule | code/src/raft/raft.go:169-185 | An election is for the next term with a vote for oneself; the whole log stays. |
| RaftRules.AskVoteRule | code/src/raft/raft.go:248-270 | A request for votes names the end of the whole log at the moment of sending. |
| RaftRules.VoteReplyRule | code/src/raft/raft.go:271-290 | A reply of a later term ends the candidacy; a granted vote is kept for counting exactly while the peer is a candidate, of whatever term. |
| RaftRules.CountRule | code/src/raft/raft.go:186-227 | A candidate leads exactly when the votes counted in its term, its own with them, pass half of the peers; every follower is then expected to lack nothing. |
| RaftRules.StartRule | code/src/raft/raft.go:713-732 | A leader's command goes to the end of its whole log with its term; another peer takes none. |
| RaftRules.ReplicateRule | code/src/raft/raft.go:399-460 | A follower is sent all entries of the whole log from its next index on with the entry before them, or the snapshot if that lies in it. |
| RaftRules.AppendRule | code/src/raft/raft.go:515-664 | A request is accepted if and only if its term is not older and the whole log has its previous entry; the whole log afterwards is the old one where the new entries are in it, else it ends with them; the commit index, and the term condition on heartbeats. |
| RaftRules.AppendReplyRule | code/src/raft/raft.go:463-511 | A later term ends the leadership; an acceptance raises what the follower is known to hold and commits exactly the highest entry of the term that a majority holds; a refusal moves the next index back by one and not below the base; an answer to an earlier term changes nothing. |
| RaftRules.SnapshotRule | code/src/raft/raft.go:667-702 | A snapshot is handed to the service exactly if its leader is not of an earlier term and it reaches beyond the base. |
| RaftRules.SnapshotReplyRule | code/src/raft/raft.go:420-441 | The leader takes the follower to hold its own base, whatever happened since. |
| RaftRules.InstallRule | code/src/raft/raft.go:960-1002 | An accepted snapshot leaves the whole log as it is if it has the snapshot's last entry, and else makes it the snapshot. |
| RaftRules.TrimRule | code/src/raft/raft.go:1006-1046 | A service's snapshot moves the base to a committed position and leaves the whole log. |
| RaftRules.ApplyRule | code/src/raft/raft.go:803-852 | A batch can start exactly if none is being sent, no snapshot is on its way and something committed is not applied; it is all committed entries behind the applied index, in order. |
| RaftRules.EndApplyRule | code/src/raft/raft.go:853-866 | After a batch the applied index is its end, unless a snapshot came in between. |
| RaftRules.RestartRule | code/src/raft/raft.go:97-130 | A restart keeps term, vote, base and the whole log and forgets the rest. |
| RaftCommits.ServesIff | code/src/raft/raft.go:169-866 | For every command: from every reachable state, whatever logs, terms, snapshots and messages there are, some continuation elects a leader, commits the command and hands it to that leader's service, if and only if the cluster has two peers or more; a single peer asks nobody for its vote and never leads. |
| RaftCommits.AlwaysCanServe | code/src/raft/raft.go:169-866 | The continuation for two peers or more: the peer with the most complete log is elected, and every follower is brought to its log. |
| RaftCommits.Match | code/src/raft/raft.go:399-511 | From any state of a leader and a follower whose base is below the next index, stepping back over conflicts, and a snapshot where the leader's log was compacted, end with the follower holding the whole log. |
| RaftProgress.CanElect | code/src/raft/raft.go:169-325 | From every reachable state of two or more peers some continuation makes the peer with the most complete log leader of a term above all others. |
| RaftApplying.ReachableSends | code/src/raft/raft.go:803-866 | The applying flag is up exactly while a batch is being sent, so that no peer is kept from applying for ever. |
| RaftHistory.SpliceKeeps | code/src/raft/raft.go:604-649 | The conflict scan keeps what the old log shared with the leader of the request. |
| RaftHistory.QuorumsMeet | code/src/raft/raft.go:777-800 | Two majorities of the same peers have a peer in common. |
| RaftServer.Persister.SaveRaftState | code/src/raft/persister.go:40-44 | Replaces the hard state and leaves the snapshot. |
| RaftServer.Persister.SaveStateAndSnapshot | code/src/raft/persister.go:62-67 | Replaces hard state and snapshot together. |
| RaftServer.Raft.Make | code/src/raft/raft.go:97-130 | A new object is the peer that booting from the stored state gives. |
| RaftServer.Raft.ReadPersist | code/src/raft/raft.go:904-956 | Restores term, vote, base and log and moves commit and applied index up to the base; leaves everything if nothing is stored. |
| RaftServer.Raft.Election | code/src/raft/raft.go:169-185 | The new state is that of a candidate of the next term that voted for itself and stored it. |
| RaftServer.Raft.RequestVoteHandle | code/src/raft/raft.go:292-325 | New state and reply are those of the vote function that the cluster model runs; `RaftRules.VoteRule` says when that grants the vote. |
| RaftServer.Raft.BecomeLeader | code/src/raft/raft.go:205-224 | The loop sets every next index behind the log and every match index to the base, its own to the last index. |
| RaftServer.Raft.Scan | code/src/raft/raft.go:604-649 | The loop leaves the log of the splice function: unchanged on agreement, cut and extended at the first conflict, stored exactly when it changed. |
| RaftServer.Raft.CheckPrev | code/src/raft/raft.go:575-602 | Decides the consistency check at the previous position, below, at and above the base. |
| RaftServer.Raft.AppendEntriesHandler | code/src/raft/raft.go:515-664 | New state and reply are those of the append function, including the term check on heartbeat commits; `RaftRules.AppendRule` says what that does to the whole log. |
| RaftServer.Raft.CountReplicas | code/src/raft/raft.go:786-793 | The loop counts exactly the peers whose match index reaches the position, this one included. |
| RaftServer.Raft.AdvanceCommitIndex | code/src/raft/raft.go:777-800 | The downward loop finds the highest position of the current term held by a majority, or leaves the commit index. |
| RaftServer.Raft.OnAppendEntriesReply | code/src/raft/raft.go:463-511 | New state after a reply: step down, note the match and advance, or back off. |
| RaftServer.Raft.Start | code/src/raft/raft.go:713-732 | A leader appends, stores and returns the position; others refuse. |
| RaftServer.Raft.InstallSnapshot | code/src/raft/raft.go:667-702 | New state, reply term and whether the snapshot is handed to the service; a candidate of the same term stays one. |
| RaftServer.Raft.CondInstallSnapshot | code/src/raft/raft.go:960-1002 | Refuses at or below the base, else moves the base, keeps the suffix on a matching term, and stores state and snapshot together. |
| RaftServer.Raft.Snapshot | code/src/raft/raft.go:1006-1046 | Trims up to a committed position above the base and stores state and snapshot together. |
| RaftServer.Raft.CollectBatch | code/src/raft/raft.go:816-845 | The loop collects exactly the batch between the applied and the commit index, clipped to the log. |
| RaftServer.Raft.FinishApply | code/src/raft/raft.go:853-865 | Advances the applied index over the batch unless a snapshot is in flight. |
| KvService.AtMostOnce | code/src/kvraft/server.go:191-246 | After any log every key holds the last put to it and everything appended since among the fresh writes of the log, and nothing if there is none; their request numbers strictly increase per client: each fresh write takes effect, and none twice. A write is fresh when it is newer than every earlier write of its client in the log; neither the table nor the store plays a part in this. |
| KvService.GuardIsFresh | code/src/kvraft/server.go:243-246 | The guard on the table lets through exactly the fresh writes of the log. |
| KvService.TableIsLatest | code/src/kvraft/server.go:243-246 | The table holds, for exactly the clients that wrote, the largest request number of their writes in the log. |
| KvService.ReplayChangesNothing | code/src/kvraft/server.go:191-246 | From any state, a command that was handed over before changes nothing when handed over again. |
| KvService.Redelivery | code/src/raft/raft.go:846-862 | A batch that starts inside or right after the included prefix brings the state to the end of the batch, or leaves it. |
| KvService.KVServer.Apply | code/src/kvraft/server.go:191-218 | New store, table and answer of one command: a fresh put leaves its text at the key, a fresh append leaves it behind what was there, everything else stays. |
| KvService.KVServer.EncodeSnapshot | code/src/kvraft/server.go:289-306 | The copying loops yield the store and the table as they are. |
| KvService.KVServer.RestoreSnapshot | code/src/kvraft/server.go:310-332 | Replaces store and table; no bytes leave them. |
| KvRestore.RestoresLast | code/src/kvraft/server.go:276-332 | In every run, with any installs, a restarted service holds exactly the state that it saved last or last took in, or nothing if there was none, and has nothing to receive. |
| KvRestore.DiskIsLast | code/src/raft/persister.go:62-67 | The stored snapshot is always the one left by the last step that left one. |
| KvReplicas.ServicesFollowLog | code/src/kvraft/server.go:188-332 | In every run of a Raft cluster with its services, in which commands are handed over one at a time and a snapshot may come between two commands of a batch, each service holds in memory and on disk exactly the state of a prefix of the committed log, no shorter than what Raft counts as applied and as snapshotted; the one condition is that no snapshot is taken in from behind. |
| KvReplicas.ReplicasAgree | code/src/kvraft/server.go:188-332 | Two replicas, at any two moments, hold states of prefixes of one committed log; with the same position they hold the same store and table. |
| KvReplicas.StepKeepsSystem | code/src/raft/raft.go:803-866 | Every section of Raft, every command handed over, every snapshot saved and every snapshot taken in that is not behind keeps all services, stored snapshots and snapshots on the way on the committed log. |
| KvReplicas.StepTracks | code/src/raft/raft.go:803-866 | Whatever anybody does, a service that holds some state followed by the commands behind some position keeps doing so until its peer restarts or takes in a snapshot. |
| KvBehind.InstallKeepsIff | code/src/raft/raft.go:960-1002 | An accepted snapshot leaves a service with every command that Raft counts as applied, in every continuation without a restart or another install of its peer, if and only if the snapshot is not behind the commands that were handed over and will not be handed over again; the code compares only with the base. |
| KvBehind.BehindOpensGap | code/src/raft/raft.go:846-866 | After every snapshot from behind the peer's own steps lead to a gap: Raft counts commands as applied that the service does not have. |
| KvBehind.GapStays | code/src/raft/raft.go:803-866 | The gap stays in every continuation without a restart or install of the peer, whatever the others do. |
| KvBehind.GapState | code/src/kvraft/server.go:191-235 | With a gap the store is exactly what the committed log without the skipped commands produces. |
| KvBehind.SkippedWriteIsLost | code/src/kvraft/server.go:191-246 | A skipped write that is newer than what the service holds of its client would still be taken for new, and the store is the state of no committed prefix with that write. |
| KvLateSnapshot.LateInstallLosesWrite | code/src/raft/raft.go:960-1002 | A run of three peers from the start in which a delayed snapshot takes back a committed and applied write; after the next command the replica holds the state of no prefix of the committed log. |
| ShardSafety.Linearizable | code/src/shardkv/server.go:93-109 | Each completed client call took effect on one single map at one step between its call and its return, and returned what the map answered there; groups, migrations and retries are invisible. `ShardMeaning.CallsSeeLatest` says what that answer is. |
| ShardSafety.SpecMoves | code/src/shardkv/server.go:343-556 | The single map changes only where a served operation is applied; every configuration, pull, insert and delete is a stutter. |
| ShardSafety.ServedOperation | code/src/shardkv/server.go:486-517 | A served operation changes the single map as the map itself would and answers as it would, first delivery or not; `ShardMeaning.MapIsLatest` and `ShardMeaning.GetAnswersLatest` say what that is. |
| ShardSafety.WrittenOnce | code/src/shardkv/server.go:486-540 | However often a write is sent, retried and carried along by migrations, it changes the map once. |
| ShardMeaning.CallsSeeLatest | code/src/shardkv/server.go:30-52 | A completed get returned, at one moment between its call and its return, the last put to its key and everything appended since among the writes served by then, or that there is no such key; a completed write was answered with success and is among the served writes. |
| ShardMeaning.MapIsLatest | code/src/shardkv/server.go:30-52 | In every run the single map holds for each key the last put and what was appended since among the writes served so far, each counted at its first service, and has no other key. |
| ShardMeaning.GetAnswersLatest | code/src/shardkv/server.go:505-517 | A group that serves a get answers the last put and what was appended since, or that there is no such key. |
| ShardMeaning.ShardHoldsLatest | code/src/shardkv/server.go:264-266 | The group that serves a shard holds exactly what the served writes have left there. |
| ShardMeaning.LoggedOnce | code/src/shardkv/server.go:486-503 | No write is among the served writes twice. |
| ShardSettles.CanSettle | code/src/shardkv/server.go:321-556 | Every run over every config history, at every moment of any migration, has a continuation after which all groups are at the last configuration with every shard serving, and the owner of each assigned shard can serve it. |
| ShardSettles.CallCanComplete | code/src/shardkv/server.go:93-137 | Whatever has happened, a waiting call can still be answered if the last configuration assigns the shard of its key. |
| ShardProgress.StepInv | code/src/shardkv/server.go:343-556 | Every action keeps the handover invariant of a shard over every config history: the new owner has the shard only after the old one has come to the configuration, the old one holds it until then, and a deletion that a finished collection relies on is on its way. |
| ShardExclusion.ExclusiveService | code/src/shardkv/server.go:264-266 | In every reachable state at most one group can serve a shard, over every config history that never takes this shard from one group through nobody to a different group, whatever it does with other shards. |
| ShardExclusion.ExclusionIff | code/src/shardkv/server.go:343-371 | For the owners of one shard over time: all reachable states of all histories with these owners have at most one server of the shard if and only if the owners never switch groups across a gap. |
| ShardExclusion.SwitchBreaks | code/src/shardkv/server.go:348-363 | For all owners that switch groups across a gap, a reachable state in which two groups serve the shard. |
| ShardExclusion.StepKeepsInv | code/src/shardkv/server.go:343-556 | Every action keeps the invariant of one shard: the token walks along its holders, and copies, proposals and deletions never run ahead of it. |
| ShardSafety.ServesTheMap | code/src/shardkv/server.go:264-266 | The group that serves a shard holds exactly the keys and values of the single map there. |
| ShardSafety.ConfigChangesWhenServing | code/src/shardkv/server.go:321-371 | A configuration takes effect only with all shards serving, and only the next one, although only the proposer checked. |
| ShardSafety.NoKeyLost | code/src/shardkv/server.go:343-556 | Every key of the single map is, with its value, in some group's copy of its shard. |
| ShardNecessity.KeysKeptIff | code/src/shardkv/server.go:359-363 | The runs over a config history keep every written key if and only if the history never unassigns a shard. |
| ShardNecessity.UnassigningLosesKey | code/src/shardkv/server.go:359-363 | For any history that unassigns a shard, a reachable state in which a written key is nowhere. |
| ShardNecessity.InStep | code/src/shardkv/server.go:343-556 | Over any config history the protocol can carry all groups to any configuration with all shards serving. |
| ShardInvariant.ServerIsHolder | code/src/shardkv/server.go:264-266 | A group that can serve a shard acquired it at the token of the shard, and its copy and table are faithful. |
| ShardTransfer.InsertInv | code/src/shardkv/server.go:519-540 | Installing a pulled copy keeps the invariant: the token moves to the new owner with the data and the merged table. |
| ShardTransfer.WriteInv | code/src/shardkv/server.go:486-503 | A write keeps the invariant and acts as on the single map. |
| ShardSteps.DeleteInv | code/src/shardkv/server.go:542-556 | Deleting pulled shards keeps the invariant, however late or repeated the command. |
| ShardServer.ShardKV.constructor | code/src/shardkv/server.go:149-178 | All shards serving and empty under the first configuration. |
| ShardServer.ShardKV.Applier | code/src/shardkv/server.go:201-233 | Commands at or below the applied index are discarded; others have the effect and answer of the group function. |
| ShardServer.ShardKV.ApplyOp | code/src/shardkv/server.go:486-503 | ErrWrongGroup and no change exactly if the shard is not assigned here or not yet arrived; a get answers the value or ErrNoKey and changes nothing; a repeated write gets its stored answer and changes nothing; a new put or append changes its key as stated outright, no other key, shard or status, and is remembered for its client alone. |
| ShardServer.ShardKV.ApplyToShard | code/src/shardkv/server.go:505-517 | A put leaves the text at its key, an append leaves it behind what was there, a get answers the value or ErrNoKey; no other key and no other shard changes. |
| ShardServer.ShardKV.ApplyConfig | code/src/shardkv/server.go:343-371 | Only for the next number: the loop leaves a shard gained from nobody serving and one gained from a group pulling, empties one lost to nobody, holds one lost to a group, and leaves all others. |
| ShardServer.ShardKV.InsertCopy | code/src/shardkv/server.go:519-540 | In any order of the maps, exactly the pulling shards in the copy get its data and go on to collection, and of each client the context with the larger command id stays. |
| ShardServer.ShardKV.MergeOperations | code/src/shardkv/server.go:532-537 | In any order, each client keeps the context with the larger command id. |
| ShardServer.ShardKV.DeleteIds | code/src/shardkv/server.go:542-556 | Only at the same number: a collected shard serves with its data, a pulled one is emptied, repeated ids included, and every other shard stays. |
| ShardServer.ShardKV.CanTakeNext | code/src/shardkv/server.go:321-331 | True exactly if every shard is serving. |
| ShardServer.ShardKV.ByPreviousOwner | code/src/shardkv/server.go:374-384 | The lists name exactly the shards in the given status, each under its previous owner. |
| ShardServer.ShardKV.GetShardsData | code/src/shardkv/server.go:436-462 | Refuses another config number, else copies exactly the asked shards that are being pulled or collected, with the whole table. |
| ShardGroup.Key2Shard | code/src/shardkv/common.go:94-101 | The shard of a key is the remainder modulo the number of shards of its first byte, and of nothing else of it. |
| Checker.CheckSingle | code/src/porcupine/checker.go:174-248 | Unless the kill flag ended the search, which it does only in the round that sees it up, the answer is true exactly for linearizable histories; it always ends; a true answer comes with a complete linearization for every operation. With partial results asked for, after a false answer an operation has a partial linearization if and only if it is in some legal beginning, and the one reported is a legal beginning that contains it and is as long as any that does; without, none is reported. |
| Linearization.FinishIffLinearizable | code/src/porcupine/model.go:36-39 | Searching from nothing succeeds if and only if some order respects real time and the model. |
| CheckerSearch.CachedIsDead | code/src/porcupine/checker.go:140-147 | A cached successor of the top of the stack leads nowhere: skipping it discards no solution. |
| CheckerSearch.NoneLeft | code/src/porcupine/checker.go:206-236 | When the scan reaches a return, no call that may go next leads to a linearization. |
| CheckerSearch.PopOK | code/src/porcupine/checker.go:206-236 | Backtracking keeps what is known about the stack and the cache. |
| CheckerPaths.PathBegins | code/src/porcupine/checker.go:223-235 | The calls on the stack are a legal beginning that ends in the current state and set. |
| CheckerPaths.LevelInUniverse | code/src/porcupine/checker.go:185-238 | Every pair the search can cache lies in one finite set, which is why it ends. |
| CheckerPartial.EndMaximal | code/src/porcupine/checker.go:206-236 | When the search has gone through everything, what was reported at its pops is a longest legal beginning for each operation that has one. |
| CheckerPartial.PoppedThorough | code/src/porcupine/checker.go:206-236 | A level leaves the stack only after all its successors were tried and its own path was reported. |
| EntryList.Lift | code/src/porcupine/checker.go:154-162 | A call and its return leave the list and remember where they were. |
| EntryList.Unlift | code/src/porcupine/checker.go:164-172 | Restores exactly the list before the lift. |
| EntryList.InsertBefore | code/src/porcupine/checker.go:65-76 | Links the node before the mark and behind the mark's old predecessor. |
| EntryList.MakeLinkedEntries | code/src/porcupine/checker.go:116-133 | The list mirrors the entries in order, and each call's match is its own return. |
| EntryList.Length | code/src/porcupine/checker.go:78-85 | The number of nodes. |
| Checker.CacheContains | code/src/porcupine/checker.go:140-147 | Finds a pair exactly if it was cached, whatever collides in its bucket. |
| EntryHistory.MadeWellFormed | code/src/porcupine/checker.go:43-55 | Operations that return after their call become well-formed entries, however the sort orders equal times. |
| EntryHistory.EntriesDecide | code/src/porcupine/checker.go:43-55 | The entries are linearizable only if the operations are, and conversely if no return coincides with a call; `KvTies.TrustIffNoTies` shows the condition to be exact. |
| EventHistory.Renumber | code/src/porcupine/checker.go:87-101 | New ids are dense and equal exactly where the old ones were; kinds and values stay. |
| EventHistory.ConvertEntries | code/src/porcupine/checker.go:103-114 | Positions become times. |
| EventHistory.RenumberedWellFormed | code/src/porcupine/checker.go:350-358 | Events with one call and one later return per id become entries that the search accepts. |
| EventHistory.EventsDecide | code/src/porcupine/checker.go:87-114 | The entries made of the events are linearizable if and only if the events are, in terms of their own ids, values and positions. |
| KvLocality.Locality | code/src/models/kv.go:20-57 | A history of the whole map is linearizable if and only if its sub-history for every key is linearizable as a single value; `KvMeaning.LinearizableMeans` says what that means for the values. |
| KvMeaning.LinearizableMeans | code/src/models/kv.go:39-57 | A key/value history is linearizable if and only if some order of all operations agrees with real time and every get in it returns the last put to its key and everything appended since. |
| KvMeaning.SequentialMeans | code/src/models/kv.go:39-57 | A history of operations that followed one another is linearizable if and only if every get returns the last put to its key and everything appended since. |
| KvCheck.Partition | code/src/models/kv.go:21-37 | One part per key that occurs, in strictly increasing order of the keys: its operations in the order of the history. |
| KvCheck.CheckParallel | code/src/porcupine/checker.go:269-348 | The exact result for any order of arrival: Illegal if and only if one of the parts received before the timeout is not linearizable, else Unknown if the timeout comes before the last part or there is none, else Ok. |
| KvCheck.CheckOperations | code/src/porcupine/checker.go:360-368 | Ok means that some order of the operations explains every get as last put and what was appended since; Illegal means that none does, unless a return and a call share a time; Unknown only if the timeout comes first. |
| KvTies.TrustIffNoTies | code/src/porcupine/checker.go:39-53 | The verdict on key/value operations at given times is right for all operations and all results of the sort if and only if no return and call coincide. |
| KvTies.TieMisleads | code/src/porcupine/checker.go:39-53 | For every history with such a tie, linearizable key/value operations at the same times and a result of the sort that is not linearizable. |
| Bitset.NewBitset | code/src/porcupine/bitset.go:10-17 | An empty set with room for the given numbers. |
| Bitset.Clone | code/src/porcupine/bitset.go:19-23 | A separate array with the same words. |
| Bitset.Set | code/src/porcupine/bitset.go:29-33 | Adds exactly one number. |
| Bitset.Clear | code/src/porcupine/bitset.go:35-39 | Removes exactly one number. |
| Bitset.Get | code/src/porcupine/bitset.go:41-44 | Membership. |
| Bitset.Hash | code/src/porcupine/bitset.go:54-60 | The size of the set, with each bit turned over once for every word that has it. |
| Bitset.Popcnt | code/src/porcupine/bitset.go:46-52 | The number of elements. |
| Bitset.Equals | code/src/porcupine/bitset.go:62-72 | Equality of the words. |
| Bitset.SameElements | code/src/porcupine/bitset.go:62-72 | Words of equal length are equal exactly when they hold the same numbers. |
| ControllerHistory.AlwaysBalanced | code/src/shardctrler/server.go:346-465 | For any number of shards and any history of joins and leaves, every configuration gives each group exactly its target and every shard a group. |
| ControllerHistory.JoinBalancesIff | code/src/shardctrler/server.go:346-414 | From any configuration a join ends balanced if and only if no shard has an unknown owner and no group outside the join is short of its new target. |
| ControllerHistory.LeaveBalancesIff | code/src/shardctrler/server.go:417-465 | From any configuration a leave ends balanced if and only if every shard belongs to a leaving or remaining group and no remaining group is over its new target. |
| ControllerHistory.MoveBreaksBalance | code/src/shardctrler/server.go:387-402 | For any number of shards, a history of joins and moves after which a join does not even the shares. |
| ControllerHistory.JoinMovesLeast | code/src/shardctrler/server.go:367-402 | No assignment that gives every group its target moves fewer shards than the join. |
| ControllerMoves.JoinLeastIff | code/src/shardctrler/server.go:326-402 | A join from balance moves no more shards than any even assignment if and only if no extra shard goes to a new group, or every old group with more than the smaller share keeps one more. |
| ControllerHistory.LeaveMovesLeast | code/src/shardctrler/server.go:438-464 | No assignment to the remaining groups moves fewer shards than the leave. |
| ControllerHistory.OldGroupsKeep | code/src/shardctrler/server.go:387-402 | After a join a shard held by an old group was held by it before: nothing moves between old groups. |
| ControllerHistory.JoinMovesExactly | code/src/shardctrler/server.go:367-402 | From balance a join moves exactly the unassigned shards and the first surplus ones of each group, and a lower shard goes to a lower new group. |
| ControllerHistory.LeaveMovesExactly | code/src/shardctrler/server.go:438-464 | From balance a leave moves exactly the shards of the leaving groups, and a lower shard goes to a lower remaining group. |
| ControllerHistory.ServersAlong | code/src/shardctrler/server.go:346-465 | Along every history of joins, leaves, moves and queries a group is there if and only if the last command that names it is a join, and then has exactly the servers that this join gave. |
| ControllerHistory.LeaveClears | code/src/shardctrler/server.go:438-464 | Whatever moves went before, no shard stays with a group that leaves. |
| ControllerHistory.BalancedMeans | code/src/shardctrler/server.go:325-343 | In a balanced configuration shares differ by at most one and every shard has a known group. |
| ControllerHistory.NeverUnassigns | code/src/shardctrler/server.go:346-465 | Joins and leaves that keep some group never unassign a shard, the condition under which the sharded service is safe. |
| Rebalance.TargetsSum | code/src/shardctrler/server.go:326-343 | The targets of all groups add up to the number of shards. |
| Rebalance.TargetShrinks | code/src/shardctrler/server.go:326-343 | More groups never raise a group's target. |
| ShardController.SortedGIDs | code/src/shardctrler/server.go:316-323 | The keys are listed in whatever order the map yields them and sorted; the result is the one increasing list of them. |
| ShardController.ComputeTargets | code/src/shardctrler/server.go:326-343 | The target of every group. |
| ShardController.PickDonors | code/src/shardctrler/server.go:367-386 | The scan with its running counts picks exactly the unassigned shards and each group's surplus, and leaves each count at most the target. |
| ShardController.HandOut | code/src/shardctrler/server.go:393-402 | The two loops hand out donors as the fill function does. |
| ShardController.JoinNext | code/src/shardctrler/server.go:346-414 | In any order of the maps: every group named has exactly the servers given, every other one those it had, and there is no further group; the shards are those of the join function, whose results are stated in `ControllerHistory`. |
| ShardController.LeaveNext | code/src/shardctrler/server.go:417-465 | Exactly the groups not named remain, with the servers they had; the shards are those of the leave function. |
| ShardController.ShardCtrler.ApplyJoin | code/src/shardctrler/server.go:346-414 | Appends one configuration with the next number: every group named has exactly the servers given, every other old group those it had, and there is no further group. |
| ShardController.ShardCtrler.ApplyLeave | code/src/shardctrler/server.go:417-465 | Appends one configuration with the next number: exactly the groups not named remain, with the servers they had. |
| ShardController.ShardCtrler.ApplyMove | code/src/shardctrler/server.go:468-477 | Earlier configurations stay; the new one has the next number, the same groups, the given shard at the given group and every other shard where it was. |
| ShardController.MoveIsMoveConfig | code/src/shardctrler/server.go:468-477 | There is exactly one such configuration, and moving the shard back restores the assignment. |
| ShardController.ShardCtrler.ReadConfig | code/src/shardctrler/server.go:297-302 | The answer is a configuration of the list, the one with the number asked for if there is one and else the one with the highest number. |
| ShardController.ShardCtrler.Apply | code/src/shardctrler/server.go:221-256 | A change already applied for its client is not repeated; a query changes nothing and reads. |
| MapReduce.DistributedIsSequential | code/src/mr/worker.go:128-233 | The output files together hold exactly the lines of the sequential run, each key in the one file its hash names and on one line there. |
| MapReduce.StableIffUnordered | code/src/mr/worker.go:176-199 | The output is independent of the unstable sort exactly for the reduce functions that do not depend on the order of their values. |
| MapReduce.OneOutput | code/src/mr/worker.go:176-205 | There is exactly one output that a set of pairs can leave, line by line. |
| MapReduce.ReducerOf | code/src/mr/worker.go:138-150 | The reducer of a key is the remainder of its hash modulo the number of reducers. |
| MapReduce.FnvValues | code/src/mr/worker.go:33-39 | The hash has the published values of 32-bit FNV-1a. |
| MapReduce.FilesAreBucket | code/src/mr/worker.go:143-153 | Reading one reducer's files of all map tasks is splitting all pairs at once. |
| MapReduce.BucketValues | code/src/mr/worker.go:143-153 | A bucket has all of a key's values or none. |
| MapReduce.CreateTempFiles | code/src/mr/worker.go:128-155 | Every pair is in the file of its reducer, in order. |
| MapReduce.ReadTempFiles | code/src/mr/worker.go:207-233 | The files one after the other. |
| MapReduce.ReduceSorted | code/src/mr/worker.go:185-199 | The nested loops print one line per key, reduced from all its values, in the order of the keys. |
| MapReduce.ReduceTask | code/src/mr/worker.go:176-205 | One line per key of the reducer's bucket, in the order of the keys. |
| MapReduce.Distributed | code/src/mr/worker.go:106-233 | Every reducer prints its bucket of all map outputs. |
| MapReduce.Sequential | code/src/main/mrsequential.go:41-87 | One line per key of all map outputs, in the order of the keys. |
| MrCoordinator.NoReduceBeforeMaps | code/src/mr/coordinator.go:68-143 | No reduce task waits, runs or was ever handed out before every map task was reported finished and counted once. |
| MrCoordinator.TokensConserved | code/src/mr/coordinator.go:68-143 | Under any timeouts, late finishes and re-dispatches each task of a phase is exactly one of queued, traced or counted, and the count never exceeds the quantity. |
| MrCoordinator.DoneMeansAll | code/src/mr/coordinator.go:145-153 | The finished phase is reached only when every map and reduce task was reported. |
| MrProgress.CanFinish | code/src/mr/coordinator.go:68-143 | For any numbers of map and reduce tasks, every run of the coordinator has a continuation that reaches the finished phase. |
| MrProgress.OneWorkerIsTold | code/src/mr/coordinator.go:77-103 | Once one worker has been told that the job is done, no task of any kind is handed out again: any other worker that asks waits for ever. |
| MrCoordinator.StepKeepsInv | code/src/mr/coordinator.go:68-143 | Each section of the coordinator keeps the invariant. |
| MrCoordinator.Coordinator.constructor | code/src/mr/coordinator.go:168-188 | The object is the start of the state machine. |
| MrCoordinator.Coordinator.Exec | code/src/mr/coordinator.go:107-125 | The loop starts a phase as the state machine does. |
| MrCoordinator.Coordinator.Check | code/src/mr/coordinator.go:77-93 | Takes the phase check of the state machine exactly when it is possible, and else changes nothing. |
| MrJob.NoFileMissing | code/src/mr/worker.go:207-233 | In every run of a job, with tasks run again after timeouts and workers that crash between any two steps, a reduce task finds the complete file of every map task. |
| MrJob.DoneMeansOutput | code/src/mr/worker.go:106-205 | When the job is done every output file is there and, for reduce functions that ignore the order of values, holds exactly the lines of its bucket. |
| MrJob.JobIsSequential | code/src/main/mrsequential.go:41-87 | A finished job holds the lines of the sequential program, each in the file of its key's hash. |
| MrJob.OneResult | code/src/mr/worker.go:106-205 | Two finished runs of a job, whatever their schedules, timeouts and crashes, have the same output files, line by line, for reduce functions that ignore the order of values. |
| MrJobProgress.CanFinish | code/src/mr/worker.go:44-68 | Every run of a job, with tasks half done, lost or reported late, has a continuation in which the coordinator is done and every output file is there. |
| MrJob.StepKeepsInv | code/src/mr/worker.go:44-68 | Every step of the coordinator and of the workers keeps the invariant about tasks and files. |

## Left out

- Liveness and timing: election timers, and that anything happens in the end. `RaftCommits`, `ShardSettles`, `MrProgress` and `MrJobProgress` show that commands, migrations, waiting calls and jobs can always be completed, not that fair runs complete them.
- Notification channels and client retry loops: each client has one outstanding command and increasing command ids; a reply is one that some server produced for that command.
- Encoding (labgob, JSON), labrpc, net/rpc, plugins and files: modelled as values; in the Raft cluster a snapshot stands for the log prefix of its index, and `KvSystem` carries the service state that really is in it.
- RaftServer.Raft.ReadPersist: does not model the fallback for bytes of an older format, which nothing in the code writes, nor bytes that cannot be decoded.
- KvReplicas.ServicesFollowLog: assumes that no snapshot is taken in from behind, because the code does not check it; `KvBehind.InstallKeepsIff` shows this to be exact for each install.
- ShardExclusion.ExclusionIff: is about all histories with given owners of one shard; what other shards do in one particular history may keep its groups in step although the shard switches across a gap.
- KvReplicas: snapshots of the sharded service and its applied-index check are not composed with the Raft cluster; a group's proposals may be applied late, repeatedly or never instead.
- KvCheck.CheckParallel: with no part and no timeout the code waits for ever, which the precondition excludes; the collection of partial linearizations into reports is not modelled.
- KvCheck.CheckOperations: assumes that every operation returns after its call; the comparison of states is equality, as the key/value model uses.
- MapReduce.Sequential: and the distributed run take the map outputs as given and use an insertion sort in the place of the library's sort; the equality with it is for reduce functions that ignore the order of values, which `MapReduce.StableIffUnordered` shows to be exact.
- MapReduce.Distributed: runs each task once; `MrJob` has the runs with repeated tasks and crashes.
- Bitset.Hash: words are sequences of bits; the bits of the size are given by a function that divides by two.
- ShardController.ShardCtrler.ReadConfig: numbers below -1, on which the code panics, are excluded; so are moves of a shard that does not exist and group 0 as a joining group.
- porcupine/visualization.go, the test harnesses, the other programs under main, mrapps and condvar: not part of this model.
