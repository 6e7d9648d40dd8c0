# Verified models of a Raft store, an async runtime and a log client

This project models five parts of a collection of Rust systems and proves what they promise, or exactly when they
keep it.

- **Raft** (`11-distributed-kv-raft`): the node's handlers, the messages between nodes, and whole runs of a cluster
  over a network that loses, delays, duplicates and reorders.
- **Timer wheel** (`06-async-runtime`): four wheels with cascades, lazy cancellation and reinsertion.
- **Tasks, scheduler and scopes** (`06-async-runtime`): the wake/queue/join protocol as interleaved atomic steps, and
  the work-stealing search.
- **Write-ahead log and key-value state machine** (`11-distributed-kv-raft`): the byte format, torn tails, recovery
  over many sessions, replay and snapshots.
- **Range assignor and producer** (`12-distributed-log-system`): exact cover of partitions, and per-partition order.

Code that the source changes in place is a class or a method with loops, proved equal to a function of the old state;
the theorems are about those functions and about all runs built from them.

## How Raft is modelled

`RaftHandlers` holds one function per handler, `RaftNode.RaftServer` the imperative node proved equal to them, and
`RaftCluster` the cluster: a map of nodes, a set of messages that never shrinks (so any message may be delivered late,
often or never), and a history of elections, votes and acknowledgements that only the proofs read. A node may time out
or resign at any time, and may send a vote request or an append request at any time, since the source builds requests
and changes roles under separate locks.

Three lines of the source are weaker than Figure 2 of Ongaro and Ousterhout, "In Search of an Understandable Consensus
Algorithm (Extended Version)". Each is a hypothesis of the safety theorems, each is shown to be exactly what separates
the code from Figure 2, and for each there is a run that keeps the other two hypotheses and breaks safety.

- *Fresh votes.* A grant from an older term is counted (`node.rs:425`, `node.rs:432-440`). Without the hypothesis two
  leaders can share a term.
- *Current acknowledgements.* A success sets `match_index` to the leader's last index at the time of the reply
  (`node.rs:557-559`), whatever the batch held. Without it a leader commits and applies an entry that no other node has.
  `RaftReplication.AckFollowsFigure2` says which replies meet it, and which also move the next index as in Figure 2.
- *Commits within the batch.* A follower commits up to its own last index (`node.rs:515`), not the last entry the
  request vouches for. A node that stepped down between the check and the send still sends an empty request with its
  commit index (`node.rs:655`, `node.rs:675-677`), so without this hypothesis two nodes apply different entries at one
  index.

The comments of the source cite the rules of Figure 2 at these lines; the model follows the code.

`RaftVoting` and `RaftProgress` hold the other half: what a node must do, not only what it must not. They say exactly
when a vote is granted, when a candidate wins, what a leader commits, and which hint a rejection carries.

## What else the proofs found

- The timer wheel picks a slot by the distance to the deadline but drains slots by the absolute tick. A timer is on
  time exactly when the two agree and its deadline is not a multiple of 256 (`TimerTicks.OnTimeIff`); otherwise it is
  late, by at most a bound per wheel that is attained.
- Deadlines are rounded down to ticks, so on the wall clock a timer can fire before its deadline, by less than a tick.
  It can exactly if the deadline is not a whole tick and the timer is on time in ticks
  (`TimerTicks.EarlyOnTheClockIff`).
- The next deadline is cut to 32 bits, so what it reports is right exactly if some deadline is below 2^32
  (`TimerWheel.TimerWheel.NextDeadline`).
- A wake that arrives while its task is being polled is overwritten by the store of the idle state and lost if that
  poll returns `Pending` (`AsyncTasks.LostWakeRun`). `is_completed` is true from completion until the next wake only
  (`AsyncTasks.CompletedUntilWoken`).
- After a crash that tears the first record of a segment, the next session appends behind the torn bytes of the same
  file, and what it appends is gone at the next opening unless it happens to complete the torn record
  (`WalRuns.TornFirstRecordLosesAppends`, `WalRuns.OneByteTearLosesEntry`). In every run whose crashes leave nothing or
  a whole record of the open segment, recovery is exact.
- Turns of the producer skip or repeat a partition when the 32-bit counter wraps, exactly if the number of partitions
  does not divide 2^32 (`Producer.NextTurnIff`); with the default of three one partition gets two turns in a row
  (`Producer.WrapRepeats`).
- The in-memory index of the write-ahead log is not rebuilt by recovery: after opening and appending it has exactly the
  log indices above the recovered ones (`WriteAheadLog.OpenThenAppend`), so a recovered entry is not found
  (`WriteAheadLog.RecoveredIsNotFound`).

## Model

| member | source | states |
|---|---|---|
| `RaftSafety.ElectionSafety` | 11-distributed-kv-raft/src/node.rs:376-443 | In every run that counts no stale vote, a term has at most one leader, over all nodes and all times. |
| `RaftSafety.LogMatching` | 11-distributed-kv-raft/src/node.rs:467-511 | Logs of any two nodes at any two times that share index and term of an entry agree on everything before it. |
| `RaftSafety.RequestMatching` | 11-distributed-kv-raft/src/node.rs:681-692 | A request in flight and any log that share index and term of an entry agree on the batch up to it and on the entry before the batch. |
| `RaftSafety.LogShape` | 11-distributed-kv-raft/src/node.rs:467-497 | Every reachable log is numbered from 1 with terms at least 1 that never fall, so a request built from an overrun next index is rejected. |
| `RaftSafety.CommittedReachLeaders` | 11-distributed-kv-raft/src/node.rs:588-608 | Leader Completeness: what any node has committed at any time is a prefix of the log of every leader of a later term, before or after the commit, and of a leader of the node's own term from then on. |
| `RaftSafety.StateMachineSafety` | 11-distributed-kv-raft/src/node.rs:611-623 | What any two nodes have applied at any two times are prefixes of one another. |
| `RaftSafety.AppliedState` | 11-distributed-kv-raft/src/node.rs:513-517 | Applied entries are never taken back, `last_applied` equals `commit_index`, and a read returns what the applied entries last wrote. |
| `RaftSafety.ReplicasAgree` | 11-distributed-kv-raft/src/storage.rs:103-122 | Nodes that have applied equally many entries hold the same key-value state. |
| `RaftSafety.MatchIndexIsTrue` | 11-distributed-kv-raft/src/node.rs:546-566 | A leader's match index is a length on which that peer's log did agree with the leader's, in the leader's term. |
| `RaftElection.QuorumsMeet` | 11-distributed-kv-raft/src/config.rs:83-86 | Any two majorities share a member. |
| `RaftElection.QuorumIsMajority` | 11-distributed-kv-raft/src/config.rs:73-86 | The quorum a node computes from its peer list is a majority of the cluster. |
| `RaftElection.TermIsFree` | 11-distributed-kv-raft/src/node.rs:432-440 | A candidate with a majority of votes runs in a term nobody has won yet. |
| `RaftCommit.LeaderCompleteness` | 11-distributed-kv-raft/src/node.rs:376-421 | A committed prefix is in the log of every later election's winner, from the vote restriction and quorum intersection. |
| `RaftCommit.CertifiedByQuorum` | 11-distributed-kv-raft/src/node.rs:588-608 | The index a leader picks, if of its own term, is held by a majority. |
| `RaftQuorum.PickIsLargest` | 11-distributed-kv-raft/src/node.rs:588-597 | The element at distance q from the end of the sorted values is the largest that at least q of them reach. |
| `RaftQuorum.QuorumIndexIsLargest` | 11-distributed-kv-raft/src/node.rs:588-597 | The pick never underflows, and an index is at most the pick exactly when a quorum, counting the leader, holds it. |
| `RaftSteps.BaseStep` | 11-distributed-kv-raft/src/cluster.rs:131-162 | Every step of a cluster without stale votes keeps the invariants of elections and logs. |
| `RaftApply.FullStep` | 11-distributed-kv-raft/src/cluster.rs:131-162 | Every step under the three hypotheses keeps the invariants of commitment and application and never lowers a term or takes back applied entries. |
| `RaftApply.FullRun` | 11-distributed-kv-raft/src/cluster.rs:257-290 | So does every run. |
| `RaftLogs.BuildsBatch` | 11-distributed-kv-raft/src/node.rs:654-678 | A leader's request starts at the next index and carries the piece of its log from there, as many entries as the limit allows; an overrun next index gives an empty request that no log accepts. |
| `RaftLogs.BatchIsSlice` | 11-distributed-kv-raft/src/node.rs:654-678 | The filtered and limited entries are one slice of the log, as long as the limit and the log allow. |
| `RaftLogs.MergeBatch` | 11-distributed-kv-raft/src/node.rs:499-511 | Merging a piece of a matching leader log gives a log that has the leader's log up to the end of the piece. |
| `RaftReplication.MergeShape` | 11-distributed-kv-raft/src/node.rs:499-511 | Merging leaves the log up to the first conflict or its end, followed by the rest of the batch; a log that has the whole batch stays as it is. |
| `RaftReplication.DelayedRequestKeepsLog` | 11-distributed-kv-raft/src/node.rs:499-511 | A delayed request whose entries are all there, by term, neither shortens nor changes the log. |
| `RaftReplication.AppendIsIdempotent` | 11-distributed-kv-raft/src/node.rs:446-525 | Handling a request twice leaves log, commit index, term and answer as after the first time. |
| `RaftReplication.VoteFollowsFigure2` | 11-distributed-kv-raft/src/node.rs:424-443 | The vote-reply handler is Figure 2's, which counts grants of its own term until they are from a majority, if and only if the reply is fresh. |
| `RaftReplication.AckFollowsFigure2` | 11-distributed-kv-raft/src/node.rs:546-566 | The success of a leader's own request is recorded as in Figure 2, match and next index alike, if and only if the next index has not moved since the request, and the peer was known to have the whole log or nothing was proposed since and the limit did not cut the batch. |
| `RaftReplication.AckIsCurrentIff` | 11-distributed-kv-raft/src/node.rs:546-566 | The reply to a leader's own request meets that hypothesis if and only if the peer was known to have the whole log, or nothing was proposed since the request and the limit did not cut it. |
| `RaftReplication.NextIsCurrentIff` | 11-distributed-kv-raft/src/node.rs:554-556 | A success moves the next index to the end of its batch if and only if the request was built from the next index as it is now. |
| `RaftReplication.CommitFollowsFigure2` | 11-distributed-kv-raft/src/node.rs:513-517 | A request moves the commit index as in Figure 2 if and only if it commits nothing beyond its batch. |
| `RaftReplication.TailBatchCommitsWithin` | 11-distributed-kv-raft/src/node.rs:654-692 | Requests whose batch is not cut by the limit never commit beyond their batch, whatever the receiver's log. |
| `RaftReplication.ExchangeStep` | 11-distributed-kv-raft/src/node.rs:528-585 | One round of build, handle and handle-reply lowers the next index on a rejection and raises it after an acceptance. |
| `RaftReplication.CatchUp` | 11-distributed-kv-raft/src/node.rs:552-576 | Repeating the round ends, with the leader's log a prefix of the follower's and acknowledged in full. |
| `RaftVoting.VoteGrantedIff` | 11-distributed-kv-raft/src/node.rs:376-421 | A vote is granted if and only if the request is not of an older term, the vote of its term is free or the candidate's, and the last entry of the log is not ahead of the candidate's in term and then index. |
| `RaftVoting.VoteLeaves` | 11-distributed-kv-raft/src/node.rs:376-421 | The node ends in the later term and answers with it; a vote of an earlier term is forgotten, one of this term stays unless it is given now. |
| `RaftVoting.ExtensionIsGranted` | 11-distributed-kv-raft/src/node.rs:396-401 | A candidate whose log extends the voter's gets a vote that is free. |
| `RaftVoting.OneOfTwo` | 11-distributed-kv-raft/src/node.rs:396-401 | Of any two nodes one would vote for the other in a new term. |
| `RaftVoting.SomeNodeCanWin` | 11-distributed-kv-raft/src/node.rs:396-401 | In every cluster, whatever its logs, some node would get every vote. |
| `RaftVoting.GrantsElect` | 11-distributed-kv-raft/src/node.rs:424-443 | A node that stands and gets grants, in any order and with repetitions, leads its new term if and only if the voters and itself are a majority, and counts them until then. |
| `RaftProgress.QuorumIsCommitted` | 11-distributed-kv-raft/src/node.rs:588-608 | Advancing commits every index of the current term that a quorum is known to hold, and beyond what was committed nothing else. |
| `RaftProgress.CommitIsExact` | 11-distributed-kv-raft/src/node.rs:588-608 | In every guarded run of at least two nodes, at every time, a leader has committed an index of its own term if and only if a quorum is known to hold it. |
| `RaftProgress.ProposalsTakeEffect` | 11-distributed-kv-raft/src/node.rs:1241-1261 | A batch is stored in order behind the log; once applied, every key reads as its last command in the batch says, or as before. |
| `RaftProgress.RejectionNames` | 11-distributed-kv-raft/src/node.rs:467-497 | A rejection at a position the log has names the term found there and the first index of that term; one beyond the end names the index after the last. |
| `RaftProgress.RejectionSkipsTerm` | 11-distributed-kv-raft/src/node.rs:467-497 | After a rejected exchange the leader asks for the last entry of an earlier term than the one that did not match, or for the end of a shorter log. |
| `RaftProgress.BacksOff` | 11-distributed-kv-raft/src/node.rs:567-575 | A failure moves the next index to the hint, or one back but not below 1, and changes nothing else. |
| `RaftProgress.OldTermIsRefused` | 11-distributed-kv-raft/src/node.rs:446-455 | A request of an older term changes nothing and is answered with the node's term and no hint. |
| `RaftProgress.FollowsOrStays` | 11-distributed-kv-raft/src/node.rs:457-465 | Any other request makes its sender the leader that the node follows and names to clients. |
| `RaftProgress.LaterTermStepsDown` | 11-distributed-kv-raft/src/node.rs:528-539 | A reply of a later term makes any node a follower of that term with its vote free; other replies change nothing at a node that does not lead. |
| `RaftProgress.CommitIsPassedOn` | 11-distributed-kv-raft/src/node.rs:513-517 | An accepted exchange takes the follower to the leader's commit index, as far as its log goes. |
| `RaftProgress.CatchUpCommits` | 11-distributed-kv-raft/src/node.rs:513-517 | A follower that has caught up has committed all that the leader had. |
| `RaftProgress.FirstRequest` | 11-distributed-kv-raft/src/node.rs:333-362 | A new leader's first request to a peer carries its no-op alone, behind the log it was elected with. |
| `RaftWitness.AllHypotheses` | 11-distributed-kv-raft/src/cluster.rs:131-162 | The runs of the witnesses with all hypotheses are the runs of the theorems. |
| `RaftWitness.StaleVoteElectsTwo` | 11-distributed-kv-raft/src/node.rs:424-443 | A reachable state with two leaders of one term, with the other two hypotheses kept. |
| `RaftWitness.LateAckLosesEntry` | 11-distributed-kv-raft/src/node.rs:557-559 | A reachable state in which an applied entry is missing from a later leader, with the other two hypotheses kept. |
| `RaftWitness.StrayHeartbeatSplitsState` | 11-distributed-kv-raft/src/node.rs:513-517 | A reachable state in which two nodes that applied two entries each read different values, with the other two hypotheses kept. |
| `RaftWitness.StepKeepsShape` | 11-distributed-kv-raft/src/node.rs:333-362 | Every step, with or without the hypotheses, keeps node configurations and the leader's tables of all peers. |
| `RaftNode.RaftServer.constructor` | 11-distributed-kv-raft/src/node.rs:181-215 | A new node is a follower in term 0 with an empty log. |
| `RaftNode.RaftServer.LastLog` | 11-distributed-kv-raft/src/node.rs:295-302 | Index and term of the last entry, zero for an empty log. |
| `RaftNode.RaftServer.TransitionToFollower` | 11-distributed-kv-raft/src/node.rs:305-311 | Only the role changes. |
| `RaftNode.RaftServer.TransitionToCandidate` | 11-distributed-kv-raft/src/node.rs:314-330 | The term grows by one and the node's own vote is the only one. |
| `RaftNode.RaftServer.TransitionToLeader` | 11-distributed-kv-raft/src/node.rs:333-362 | Loop over the peers: next indices after the old last entry, match indices 0, a no-op of the term appended. |
| `RaftNode.RaftServer.HandleRequestVote` | 11-distributed-kv-raft/src/node.rs:376-421 | The imperative handler is the function of the theorems; `RaftVoting.VoteGrantedIff` says when it grants. |
| `RaftNode.RaftServer.HandleRequestVoteResponse` | 11-distributed-kv-raft/src/node.rs:424-443 | The same, including the vote count that makes a leader; `RaftVoting.GrantsElect` says when it does. |
| `RaftNode.RaftServer.FirstIndexOfTerm` | 11-distributed-kv-raft/src/node.rs:478-493 | If the term occurs, the scan finds its first entry: that entry is of the term and no earlier one is. |
| `RaftNode.RaftServer.MergeEntries` | 11-distributed-kv-raft/src/node.rs:499-511 | The truncate-and-append loop is the merge of the theorems. |
| `RaftNode.RaftServer.ApplyCommittedEntries` | 11-distributed-kv-raft/src/node.rs:611-623 | The loop applies the committed entries in order, once each, and changes nothing else. |
| `RaftNode.RaftServer.HandleAppendEntries` | 11-distributed-kv-raft/src/node.rs:446-525 | The whole handler, rejections and commits included; `RaftProgress.RejectionNames` says which hint it gives. |
| `RaftNode.RaftServer.TryAdvanceCommitIndex` | 11-distributed-kv-raft/src/node.rs:588-608 | Collect, sort and pick; `RaftProgress.QuorumIsCommitted` says that it commits what a quorum is known to hold of the current term, and no more. |
| `RaftNode.RaftServer.MatchIndices` | 11-distributed-kv-raft/src/node.rs:590-590 | Collects one match index per peer; their order does not matter, since they are sorted next. |
| `RaftNode.RaftServer.NoteSuccess` | 11-distributed-kv-raft/src/node.rs:552-559 | Moves the next index by the batch and the match index to the last index. |
| `RaftNode.RaftServer.NoteFailure` | 11-distributed-kv-raft/src/node.rs:567-575 | Sets the next index to the hint, or lowers it by one but not below 1. |
| `RaftNode.RaftServer.HandleAppendEntriesResponse` | 11-distributed-kv-raft/src/node.rs:528-585 | Term check, match and next index on success, hint-driven back-off on failure. |
| `RaftNode.RaftServer.EntriesForPeer` | 11-distributed-kv-raft/src/node.rs:666-674 | The filter loop collects the entries from the next index on, cut to what one request may carry. |
| `RaftNode.RaftServer.BuildAppendEntriesRequest` | 11-distributed-kv-raft/src/node.rs:654-692 | The loop that filters and limits entries builds the request of the theorems, also for a node that is no longer leader. |
| `RaftNode.RaftServer.BuildRequestVoteRequest` | 11-distributed-kv-raft/src/node.rs:695-702 | The request names the node's term and last entry. |
| `RaftNode.RaftServer.BatchPropose` | 11-distributed-kv-raft/src/node.rs:1241-1261 | A leader stores one entry per command, in order behind its log, and returns the index of each; others refuse with the leader they know and change nothing. |
| `KeyValueFsm.ReplayReadsLastWrite` | 11-distributed-kv-raft/src/storage.rs:103-127 | After replaying a log a read returns the last value the log wrote to the key, or nothing after a delete. |
| `KeyValueFsm.OutcomeIsLastWrite` | 11-distributed-kv-raft/src/storage.rs:107-121 | Applying a read after a log returns what the log last wrote to that key; no other command returns a value. |
| `KeyValueFsm.ReplayConcat` | 11-distributed-kv-raft/src/storage.rs:103-122 | Replaying two pieces one after the other is replaying them together. |
| `KeyValueFsm.ReplayRemembersLast` | 11-distributed-kv-raft/src/storage.rs:103-105 | After replaying, the recorded index and term are those of the last entry. |
| `KeyValueFsm.SnapshotThenReplay` | 11-distributed-kv-raft/src/storage.rs:130-145 | Restoring a snapshot into any state machine and replaying the rest equals replaying everything. |
| `KeyValueFsm.KeyValueStore.ApplyEntry` | 11-distributed-kv-raft/src/storage.rs:103-122 | The in-place update is one step of the replay and returns the value before the entry for a read. |
| `KeyValueFsm.KeyValueStore.RestoreFrom` | 11-distributed-kv-raft/src/storage.rs:139-145 | A snapshot that cannot be decoded changes nothing. |
| `TimerTicks.NextVisitIsFirst` | 06-async-runtime/src/timer.rs:190-210 | The next visit of a slot is the first tick after now that drains it, at most one turn of its wheel away. |
| `TimerTicks.NeverEarly` | 06-async-runtime/src/timer.rs:106-141 | Through any number of cascades and reinsertions, no timer fires before its deadline. |
| `TimerTicks.LatenessIsBounded` | 06-async-runtime/src/timer.rs:177-210 | A timer inserted into wheel 0, 1, 2 or 3 with a deadline not past fires at most 256, 2^14, 2^20-2^14+256 or 2^26-2^20+256 ticks after it. |
| `TimerTicks.PastFiresSoon` | 06-async-runtime/src/timer.rs:78-97 | A timer whose deadline is past fires within 256 ticks. |
| `TimerTicks.LatenessIsTight` | 06-async-runtime/src/timer.rs:177-210 | Each of the four bounds is attained. |
| `TimerTicks.FiresWhenDue` | 06-async-runtime/src/timer.rs:106-141 | If distance and deadline select the same slot, the timer fires at its deadline, or 256 ticks later for multiples of 256; if not, it is late. |
| `TimerTicks.OnTimeIff` | 06-async-runtime/src/timer.rs:177-187 | A timer is on time if and only if distance and deadline select the same slot and the deadline is not a multiple of 256. |
| `TimerTicks.ExactFromStart` | 06-async-runtime/src/timer.rs:106-141 | Timers inserted at tick 0 with deadline below 2^26 fire exactly then, or 256 ticks later for multiples of 256. |
| `TimerTicks.NeverEarlyOnTheClock` | 06-async-runtime/src/timer.rs:166-169 | On the wall clock a timer fires less than a tick early, and never early if its deadline is a whole number of ticks. |
| `TimerTicks.EarlyOnTheClockIff` | 06-async-runtime/src/timer.rs:166-169 | On the wall clock a timer can fire before its deadline if and only if the deadline is not a whole number of ticks and the timer is on time in ticks. |
| `TimerTicks.EarlyExample` | 06-async-runtime/src/timer.rs:166-169 | With ticks of 10, a timer set at the start for instant 15 fires at instant 10. |
| `TimerTicks.FireTickStep` | 06-async-runtime/src/timer.rs:110-138 | What one tick does to an entry: nothing if its slot is not drained, else fire or move with the same firing tick. |
| `TimerWheel.TimerWheel.constructor` | 06-async-runtime/src/timer.rs:60-75 | A new wheel has no timers. |
| `TimerWheel.TimerWheel.Insert` | 06-async-runtime/src/timer.rs:78-97 | Adds one timer under a new id; its firing tick is fixed at insertion. |
| `TimerWheel.TimerWheel.Cancel` | 06-async-runtime/src/timer.rs:100-103 | Removes the timer and tells whether it was live, though its entry stays in the slot. |
| `TimerWheel.TimerWheel.Expire` | 06-async-runtime/src/timer.rs:117-132 | Drops a cancelled entry, fires an expired one, puts the others back. |
| `TimerWheel.TimerWheel.Drain` | 06-async-runtime/src/timer.rs:113-133 | The slot of wheel 0 fires exactly timers due in this tick and loses none. |
| `TimerWheel.TimerWheel.Spread` | 06-async-runtime/src/timer.rs:195-204 | The loop over a cascaded slot drops no entry and changes no firing tick. |
| `TimerWheel.TimerWheel.Cascade` | 06-async-runtime/src/timer.rs:190-210 | After the recursion every wheel is in the state of the current tick. |
| `TimerWheel.TimerWheel.Tick` | 06-async-runtime/src/timer.rs:110-138 | One tick fires exactly the timers due by it and keeps the rest. |
| `TimerWheel.TimerWheel.Advance` | 06-async-runtime/src/timer.rs:106-141 | Advancing to a tick hands out exactly the live timers due by it, each once, in due order; a target in the past does nothing. |
| `TimerWheel.TimerWheel.NextDeadline` | 06-async-runtime/src/timer.rs:144-163 | The least deadline of any entry, cut to 32 bits. The result is that deadline if and only if some deadline is below 2^32, and then it is never after a live timer's deadline or firing tick. |
| `TimerRuns.FiresOnceWhenDue` | 06-async-runtime/src/timer.rs:78-141 | In every run of inserts, cancels and advances, an uncancelled timer waits until its firing tick and then fires exactly once, in the advance that passes it. |
| `TimerRuns.CancelledNeverFires` | 06-async-runtime/src/timer.rs:100-120 | In every run a cancelled timer never fires afterwards. |
| `AsyncTasks.HeldOnce` | 06-async-runtime/src/task.rs:43-100 | In every interleaving a task has at most one of queue entry, push under way, poll before its final store. |
| `AsyncTasks.NeverPolledAgain` | 06-async-runtime/src/task.rs:43-63 | A future that returned `Ready` is never polled again, whatever wakes come later. |
| `AsyncTasks.WakeIsKeptIff` | 06-async-runtime/src/task.rs:78-100 | A wake of an unfinished task leaves it queued, about to be pushed or popped if and only if it is not in a poll. |
| `AsyncTasks.WakeDuringPollIsLost` | 06-async-runtime/src/task.rs:55-62 | In every run the final store of a poll that returned `Pending` leaves the polled task idle and held nowhere, however many wakes fell into the poll. |
| `AsyncTasks.PollIsReachable` | 06-async-runtime/src/runtime.rs:280-285 | Spawn, count, push, steal and start lead to a poll of any task. |
| `AsyncTasks.LostWakeRun` | 06-async-runtime/src/task.rs:78-80 | A run in which a wake falls into a poll and the polled task ends idle and unqueued. |
| `AsyncTasks.CompletedUntilWoken` | 06-async-runtime/src/task.rs:66-80 | In every run, after the final store of a poll that returned `Ready`, `is_completed` is true if and only if there was no wake since; no such wake enqueues anything. |
| `AsyncTasks.ActiveIsTrue` | 06-async-runtime/src/runtime.rs:280-293 | `active_tasks` is queued tasks plus counted pushes plus unreported polls in every interleaving, and its decrement never underflows. |
| `AsyncTasks.StepInv` | 06-async-runtime/src/scheduler.rs:61-84 | Every atomic step keeps these invariants. |
| `AsyncTasks.LocalPopMoves` | 06-async-runtime/src/scheduler.rs:117-119 | A local pop only moves a task. |
| `AsyncTasks.BatchMoves` | 06-async-runtime/src/scheduler.rs:122-128 | A batch steal of any size only moves tasks. |
| `AsyncTasks.StealMoves` | 06-async-runtime/src/scheduler.rs:138-144 | A steal only moves a task. |
| `AsyncTasks.LoneWorkerIsFifo` | 06-async-runtime/src/scheduler.rs:115-128 | In every run of one worker that looks at its own queue first, tasks are popped in the order they are pushed, whatever is moved in batches. |
| `AsyncScheduler.EveryVictimOnce` | 06-async-runtime/src/scheduler.rs:131-136 | The modular search looks at every worker exactly once. |
| `AsyncScheduler.FoundIsNearest` | 06-async-runtime/src/scheduler.rs:131-145 | The search finds the first queue with work after the worker's own, going round. |
| `AsyncScheduler.Scheduler.Push` | 06-async-runtime/src/scheduler.rs:61-64 | Counts one more active task and queues it last. |
| `AsyncScheduler.Scheduler.Pop` | 06-async-runtime/src/scheduler.rs:115-148 | Without contention, finds nothing if and only if every queue is empty. Takes the first task of the own queue followed by the injector, whose stolen batch goes to the own queue in order; if both are empty, the first task of the next worker with work. Nothing else is taken. |
| `AsyncScopes.NoLostCompletion` | 06-async-runtime/src/scope.rs:192-209 | In every interleaving, if the join last returned `Pending` and all tasks are done, a task took and woke that poll's waker after the one step that registered it. |
| `AsyncScopes.ReadyHasAllResults` | 06-async-runtime/src/scope.rs:299-315 | When the join is ready, every task has pushed and decremented, and the result is the multiset of outputs of all tasks that have one. |
| `AsyncScopes.ReadyIff` | 06-async-runtime/src/scope.rs:302-313 | A poll finds the join ready, at its first look or after registering, if and only if every task spawned has decremented the counter by then. |
| `AsyncScopes.ResultsInOrder` | 06-async-runtime/src/scope.rs:299-315 | Results are held, and handed out by the join, in the order in which the tasks pushed them. |
| `AsyncScopes.WokenByLast` | 06-async-runtime/src/scope.rs:73-80 | Who takes the waker has brought the counter to zero. |
| `AsyncScopes.CounterIsTrue` | 06-async-runtime/src/scope.rs:51-81 | The counter is the number of tasks that have not decremented it, so it never underflows. |
| `AsyncScopes.StepInv` | 06-async-runtime/src/scope.rs:232-252 | Every atomic step of spawn, finish and join keeps the invariants. |
| `WalFormat.Le32RoundTrip` | 11-distributed-kv-raft/src/storage.rs:276-289 | Reading four stored bytes gives back the lower 32 bits. |
| `WalFormat.ParseEncoded` | 11-distributed-kv-raft/src/storage.rs:268-315 | Records of any entries are read back in order, whatever bytes follow them. |
| `WalFormat.WholeRecordsIsLongest` | 11-distributed-kv-raft/src/storage.rs:291-294 | The records counted as whole are the longest prefix that fits before the cut. |
| `WalFormat.TornTail` | 11-distributed-kv-raft/src/storage.rs:274-312 | Reading a segment cut at any byte gives exactly the longest prefix of records wholly before the cut. |
| `WalFormat.TornFirstRecordHides` | 11-distributed-kv-raft/src/storage.rs:274-303 | Behind a tear at any byte of a first record, a file is readable if and only if the bytes after the tear complete a record with what the tear left of the old length and checksum. |
| `WalFormat.OneByteTearHides` | 11-distributed-kv-raft/src/storage.rs:276-294 | After a tear of one byte the next record's length is read shifted by a byte, and nothing is readable. |
| `WalNames.NamesAscend` | 11-distributed-kv-raft/src/storage.rs:371-373 | The order of the 20-digit file names is the order of the base indices. |
| `WalNames.SortOfListing` | 11-distributed-kv-raft/src/storage.rs:247-259 | Sorting any listing of the files gives their one ascending order. |
| `WalSessions.OpenReads` | 11-distributed-kv-raft/src/storage.rs:246-265 | Opening a directory of segments gives back all their entries in order, for any listing order and beside any other files. |
| `WalSessions.AppendKeeps` | 11-distributed-kv-raft/src/storage.rs:318-395 | Appending keeps the directory readable as the old entries followed by the new ones. |
| `WalSessions.CrashKeeps` | 11-distributed-kv-raft/src/storage.rs:291-303 | After a crash at any byte the directory holds exactly the entries whose records are whole. |
| `WalSessions.NextFileIsEmpty` | 11-distributed-kv-raft/src/storage.rs:370-395 | A new session's segment starts in an empty file, so offset 0 is right. |
| `WalRuns.StepIsExact` | 11-distributed-kv-raft/src/storage.rs:229-265 | Every append, reopening and clean crash succeeds and leaves exactly the expected entries. |
| `WalRuns.RecoveryIsExact` | 11-distributed-kv-raft/src/storage.rs:229-395 | So does every run over any number of sessions and crashes that leave nothing or a whole record of the open segment. |
| `WalRuns.SessionsLoseNothing` | 11-distributed-kv-raft/src/storage.rs:246-395 | Without crashes, an opened log holds everything ever appended, in order. |
| `WalRuns.TornThenOpened` | 11-distributed-kv-raft/src/storage.rs:370-395 | After a crash at any byte of a segment's first record and an append to the same file, opening gives the survivors and exactly what the torn file's bytes parse to. |
| `WalRuns.TornFirstRecordLosesAppends` | 11-distributed-kv-raft/src/storage.rs:370-395 | All that was appended is gone if and only if no intact record is at the front of the torn bytes and what follows them. |
| `WalRuns.LossIsRun` | 11-distributed-kv-raft/src/storage.rs:229-395 | From an empty directory: append, a crash that tears the record, append and reopen is a run in which every opening succeeds and that ends without the second entry, whenever its bytes do not complete the torn record. |
| `WalRuns.OneByteTearLosesEntry` | 11-distributed-kv-raft/src/storage.rs:229-395 | For every codec, a tear of one byte makes such a run if the second entry's encoding is neither empty nor of 2^24 bytes or more. |
| `WriteAheadLog.WriteAheadLog.constructor` | 11-distributed-kv-raft/src/storage.rs:229-243 | A log before recovery is empty, and so is its index. |
| `WriteAheadLog.ReadRecords` | 11-distributed-kv-raft/src/storage.rs:274-312 | The offset loop stays in bounds, fails exactly on an intact record that cannot be deserialized, and otherwise gives the parsed entries. |
| `WriteAheadLog.ReadRecord` | 11-distributed-kv-raft/src/storage.rs:276-311 | A record is rejected exactly if it is cut off or has a wrong checksum; otherwise its entry, or the failure to decode it, is what the parse gives first. |
| `WriteAheadLog.WriteAheadLog.ReadSegment` | 11-distributed-kv-raft/src/storage.rs:268-315 | Adds the entries of one file to the log. |
| `WriteAheadLog.WriteAheadLog.ReadSegments` | 11-distributed-kv-raft/src/storage.rs:261-263 | The loop over the files reads them in order and stops at the first failure. |
| `WriteAheadLog.WriteAheadLog.Recover` | 11-distributed-kv-raft/src/storage.rs:246-265 | Reads the log files in name order, is the opening of the sessions and leaves the index alone. |
| `WriteAheadLog.WriteAheadLog.CreateNewSegment` | 11-distributed-kv-raft/src/storage.rs:370-395 | Opens the file of the next base index without losing what is in it. |
| `WriteAheadLog.WriteAheadLog.AppendEntry` | 11-distributed-kv-raft/src/storage.rs:326-357 | Three writes make one record at the end of the file; its position is put into the index, and leads to it. |
| `WriteAheadLog.WriteAheadLog.AppendAll` | 11-distributed-kv-raft/src/storage.rs:326-357 | The loop writes all records in order; the index gains exactly their log indices, and every position leads to its record. |
| `WriteAheadLog.WriteAheadLog.Append` | 11-distributed-kv-raft/src/storage.rs:318-367 | Is the append of the sessions; the index gains exactly the appended indices, at positions that are right if the segment's file was empty when opened; if it covered the log from some index on, it still does. |
| `WriteAheadLog.Open` | 11-distributed-kv-raft/src/storage.rs:229-243 | A log is opened exactly if its files can be read, holds what the sessions say, and has an empty index. |
| `WriteAheadLog.OpenThenAppend` | 11-distributed-kv-raft/src/storage.rs:229-367 | After opening and appending, a log index is in the index if and only if it lies above the number of recovered entries and at most at the length, and in a durable log each position leads to its record. |
| `WriteAheadLog.RecoveredIsNotFound` | 11-distributed-kv-raft/src/storage.rs:246-265 | Of a stored entry and one appended after opening, the index has the second and not the first. |
| `RangeAssignor.LastStart` | 12-distributed-log-system/src/consumer.rs:291-305 | The ranges end exactly where the partitions end, so no slice is out of bounds. |
| `RangeAssignor.OneOwner` | 12-distributed-log-system/src/consumer.rs:296-305 | Every position lies in the range of exactly one member. |
| `RangeAssignor.SizesAreBalanced` | 12-distributed-log-system/src/consumer.rs:293-298 | Range sizes differ by at most one, and no later member's is larger. |
| `RangeAssignor.SortAscends` | 12-distributed-log-system/src/consumer.rs:289-289 | A topic's list is in ascending order of partition. |
| `RangeAssignor.TopicListHas` | 12-distributed-log-system/src/consumer.rs:281-289 | A topic's list has each partition of that topic as often as the input, and no other. |
| `RangeAssignor.ExactCover` | 12-distributed-log-system/src/consumer.rs:274-309 | Every distinct partition is in the share of exactly one member, once. |
| `RangeAssignor.NothingElse` | 12-distributed-log-system/src/consumer.rs:274-309 | Nobody gets a partition more often than it was given. |
| `RangeAssignor.OrderDoesNotMatter` | 12-distributed-log-system/src/consumer.rs:288-306 | A member's share does not depend on the order in which the topics are visited. |
| `RangeAssignor.RangesJoin` | 12-distributed-log-system/src/consumer.rs:296-305 | The ranges of the members, in member order, make up the topic's list. |
| `RangeAssignor.ShareOfTopic` | 12-distributed-log-system/src/consumer.rs:288-306 | What a member gets of a topic is its range of that topic's list, in order. |
| `RangeAssignor.GroupByTopic` | 12-distributed-log-system/src/consumer.rs:282-285 | The grouping loop keeps each topic's partitions in input order. |
| `RangeAssignor.AssignTopic` | 12-distributed-log-system/src/consumer.rs:291-305 | Every member gets its contiguous range of the topic, and nobody else's list changes. |
| `RangeAssignor.GiveRanges` | 12-distributed-log-system/src/consumer.rs:296-305 | The slicing loop hands out consecutive ranges of the given sizes in member order. |
| `RangeAssignor.DivisionIs` | 12-distributed-log-system/src/consumer.rs:293-294 | The sizes of the model are the source's quotient and remainder. |
| `RangeAssignor.Assign` | 12-distributed-log-system/src/consumer.rs:274-309 | With distinct members, each gets its share of every topic; without partitions nobody gets an entry. |
| `Producer.Producer.constructor` | 12-distributed-log-system/src/producer.rs:206-216 | A new producer holds nothing, starts its turns at 0 and gives every topic the default count. |
| `Producer.Producer.SetPartitionCount` | 12-distributed-log-system/src/producer.rs:222-226 | Sets the count of that topic alone; a count of zero is ignored, so routing never divides by zero. |
| `Producer.Producer.Append` | 12-distributed-log-system/src/producer.rs:149-159 | Adds to the end of one batch, keeps sizes true, and reports readiness by the number of key and value bytes in the batch. |
| `Producer.SizeIsPayload` | 12-distributed-log-system/src/producer.rs:149-152 | The size of a batch is the number of key and value bytes in it. |
| `Producer.Producer.PartitionFor` | 12-distributed-log-system/src/producer.rs:271-283 | A record without a partition goes by its key, or takes the next turn, which moves the counter. |
| `Producer.Producer.Send` | 12-distributed-log-system/src/producer.rs:240-283 | A named partition is used; otherwise the key's checksum or the turn picks one of the topic's partitions. Adds to exactly that batch. |
| `Producer.Producer.Drain` | 12-distributed-log-system/src/producer.rs:167-170 | Hands out a whole batch in order and forgets its size. |
| `Producer.Producer.BuildProduceRequest` | 12-distributed-log-system/src/producer.rs:286-327 | Takes exactly the batches with enough bytes, puts each into the request under its topic, and keeps sent = drained + held for every partition. |
| `Producer.CarriesOnce` | 12-distributed-log-system/src/producer.rs:293-311 | A request carries the whole batch of each of its partitions once, and nothing else. |
| `Producer.SendsAddUp` | 12-distributed-log-system/src/producer.rs:240-283 | Over any sequence of sends, a partition receives exactly the records routed to it, in order. |
| `Producer.KeyStaysTogether` | 12-distributed-log-system/src/producer.rs:272-283 | With unchanged counts, all records of a key that name no partition are in one partition, in order, and in no other, whatever else is sent. |
| `Producer.NamedStays` | 12-distributed-log-system/src/producer.rs:242-245 | Records that name a partition go there, in order, and nowhere else, whatever their keys are. |
| `Producer.TurnsGoRound` | 12-distributed-log-system/src/producer.rs:279-282 | Of two records that take turns in a topic, the later goes as many partitions further as turns were taken between them, if the counter does not wrap, so turns of less than a round all differ. |
| `Producer.NextTurnIff` | 12-distributed-log-system/src/producer.rs:279-282 | One turn leads to the next partition if and only if the counter does not wrap or the number of partitions divides 2^32. |
| `Producer.WrapRepeats` | 12-distributed-log-system/src/producer.rs:279-282 | With the default of three partitions the two turns around a wrap go to one partition. |

## Left out

- Raft snapshots, chunked installation and log compaction: positions are indices throughout the model.
- Raft membership changes and joint consensus.
- Raft leases, linearizable reads, pre-vote and check-quorum: they depend on wall-clock time.
- Raft restart from storage, and `update_match_index` as a public setter.
- Duplicate peers in a configuration: the cluster's peers are distinct. The source keeps one match index per peer, so
  from three copies of one peer on its quorum pick would underflow.
- Transport, metrics, client retries and error types: the network is a set of messages.
- `u64` wrap-around of terms, indices, ticks and ids; 32-bit wrap-around is modelled where records and counters have it.
- Wakes on threads with neither a scheduler nor an executor, which mark a task as scheduled without queueing it.
- Waker vtables, pinning and lifetimes; the single-threaded executor; the reactor.
- Tasks, scopes and joins as objects: atomic fields shared by threads are one state changed by interleaved steps.
- Retries of contended queue operations: a retry changes nothing, so the steps are the successful ones.
- Timers' wakers: a waker stands for its timer's id.
- TimerRuns.CancelledNeverFires: only for ids the wheel has issued, since a handle from another wheel can name a
  future id.
- `truncate_suffix` and `compact` of the write-ahead log, which change memory but not the files.
- I/O errors of the write-ahead log; serialization and CRC-32 are any functions such that serialization can be undone.
- RangeAssignor.Assign: says who gets what for distinct members; a member listed twice would get two ranges.
- The round-robin assignor, consumer positions, fetch requests and the broker.
- Producer sequence numbers, acknowledgement settings and headers of requests.
