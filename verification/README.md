# dkvs in Dafny

A model of dkvs, a key-value store replicated with Raft, and proofs about it. It covers the consensus
engine (`src/raft.cpp`), the durable log beneath it (`src/storage.cpp`, `src/codec.cpp`), the wire
formats (`src/raft_msgs.cpp`, `src/command.cpp`) and the client handshake above it (`src/server.cpp`,
`src/kv_store.cpp`).

`dafny verify dfyconfig.toml` verifies everything.

## How it is put together

| layer | modules | what is there |
|---|---|---|
| values | `Types`, `Messages`, `Command`, `Codec`, `Wire` | log entries, messages, commands, byte layouts |
| one node | `Node` | what each mutex-held region of `RaftNode` does to a node, and the durable writes it makes, in order |
| a cluster | `Cluster` | nodes, servers and network as a state machine; a run is a sequence of its actions |
| the argument | `Protocol`, `ProtocolSteps` | votes, reigns and acknowledgements of a whole history, their invariant, Log Matching, Leader Completeness |
| simulation | `Simulation`, `Runs` | every action of the cluster, crashes included, is a sequence of steps of the history |
| commitment | `Commit`, `CommitRule`, `Witness` | when commit indexes are safe, exactly, and a run in which they are not |
| service | `Service` | the applier, the waiter table and the client handlers in every interleaving |
| results | `Theorems`, `Elections`, `Repair`, `Replicator` | the main theorems, stated about states and actions of runs only |
| progress | `Quorum`, `Requests`, `Waiters`, `KeyValue` | what has to happen and what it means: majorities decide at once, commit indexes travel, applied entries are reported, a GET reads the last SET |
| exactness | `Schedules`, `Covered` | State Machine Safety if and only if the commit condition, and the same results from a condition on requests |
| bytes | `Crc`, `Polynomial`, `Layout`, `Wal`, `Disk`, `Files` | checksum against polynomial division, every format by byte positions, recovery of arbitrary bytes, crashes inside writes, runs on byte files |
| objects | `Storage`, `RaftNode`, `Coder`, `Server` | the source's classes with their loops, proved to compute the functions above |

An action of `Cluster` is one region the source executes under a lock, or a crash in the middle of
one: the node keeps any number of the region's durable writes and restarts. Requests may be lost,
delayed, reordered and duplicated. Calls of replicators are numbered: a reply belongs to one call, is
taken by the thread that made the call and at most once, and a peer has one call of a leader's term
waiting at a time. A client handler holds the wait mutex from submit until it waits, and the applier
works in four steps (copy the entry, change the map, fill the slot, advance `lastApplied`) between which
anything may happen. `Files.BytesRefineCluster` ties all of this to bytes: a cluster whose nodes keep
nothing but two byte files, with torn writes, reloads and crashes during reloads anywhere, has only runs
of `Cluster`.

## What is proved

Without any condition, for every cluster of up to 2^31 nodes (ids are cast to signed 32-bit numbers)
and every run: Election Safety, Log Matching, Leader Completeness, soundness of acknowledgements,
persistence of votes, harmless retransmission, and the bound on the walk back to the point where two
logs agree: the leader of a term takes from a peer at most one rejection for each term in the log with
which the peer entered that term, and one more; each lowers the next index; none follows a success.

Safety alone would allow a program that does nothing. So for every state of every run: a candidate has
counted the votes of no more than half (with more it leads), a leader has committed every entry of its
term that more than half are known to hold, a request says what its sender knew, and a node that accepts
it follows the leader's commit index as far as its log goes. In the runs that meet the commit condition
below, an entry applied while its client waits is reported to it, and the reply is what the last
committed SET or DEL of the key before it says.

**The commit rule of followers.** A follower that accepts a request moves its commit index to
`min(leaderCommit, lastLogIndex())` (`src/raft.cpp:332-335`). Figure 2 of the Raft paper clamps to the
last entry the request covers instead. With batches of at most 100 entries and the jump back to the
start of a conflicting term, a follower can commit and apply entries of its own that no leader ever
committed. `Witness.StateMachineSafetyCanFail` is such a run of three nodes: two nodes apply different
entries at index 101. The exact condition, `CommitRule.TermMatchedRun`, is on a node before it handles a
request: if it would accept and raise its commit index, the entry it would reach has the term of the
leader's entry there. `Schedules.SafetyIsExact`: some schedule of appliers and client handlers around the
protocol actions of a run applies two different entries at one index if and only if the run breaks the
condition. State Machine Safety, stable commit indexes, linearizable replies and the soundness of the
"lost leadership" reply are proved from the condition (`Theorems`), and again (`Covered`) from the
simpler one that accepted requests have `leaderCommit <= prevLogIndex + |entries|`.

**The recovery scan.** The length test at `src/storage.cpp:127` is a 32-bit sum and wraps for lengths
from 2^32 - 8 on; then the checksum lies behind the end of the file and reading it throws, although
docs/architecture.md:126-131 promises that a bad tail is discarded. The model follows the code.
`Wal.RecoveryExact` says what recovery does on any bytes, `Wal.RecoveryFailsExactly` when it throws,
`Wal.RecoveryCanFail` gives seven bytes that show it. The same sum limits what can be read back: files
written for a state load as that state and stay as they are if and only if every entry's record length
stays below 2^32 - 8 (`Disk.LoadsExactly`); the source does not test for it.

## Model

| member | source | states |
|---|---|---|
| `Theorems.ElectionSafety` | src/raft.cpp:123-199 | two nodes that lead one term, at any two moments of any run, are one node |
| `Elections.VotesAreDistinctVoters` | src/raft.cpp:148-169 | a candidate's vote counter is the number of distinct nodes it counted, each of which was in this term with its vote for the candidate written |
| `Elections.GrantWasWritten` | src/raft.cpp:266-271 | a granted vote was on disk when the reply was given |
| `Theorems.VotesPersist` | src/raft.cpp:243-274 | terms never fall and a vote is never changed or forgotten within its term, crashes included |
| `Theorems.HintIsLeader` | src/raft.cpp:276-292 | the leader hint of a node is the only node that ever leads the node's term |
| `Theorems.LogsMatch` | src/raft.cpp:294-330 | two logs, at any two moments, with one term at one index are equal through that index |
| `Theorems.BatchMatches` | src/raft.cpp:315-330 | the same for a log and a batch in flight: one equal term means the whole batch is there up to it |
| `Theorems.LogsSorted` | src/raft.cpp:201-213 | terms never fall along a log and never exceed the node's term |
| `Theorems.LeaderIndexesInRange` | src/raft.cpp:397-407 | a leader's next and match indexes always point into its log, so every request can be built |
| `Theorems.AcknowledgementsHold` | src/raft.cpp:423-428 | once a leader records a match, the peer's log agrees through it for as long as the peer is in that term |
| `Theorems.AdvanceCommitIsGreatest` | src/raft.cpp:201-226 | in any run, no index of the leader's term held by more than half lies above the one advanceCommit finds |
| `Quorum.LeadersCommitAtOnce` | src/raft.cpp:201-241 | in every state of any run an entry of a leader's term that more than half are known to hold is committed at the leader |
| `Quorum.WinnersLead` | src/raft.cpp:148-169 | in every state of any run a candidate has counted the votes of no more than half of the nodes |
| `Quorum.VoteDecides` | src/raft.cpp:161-168 | a granted vote makes a leader if and only if more than half have voted for the candidate |
| `Quorum.StandDecides` | src/raft.cpp:123-135 | standing makes a leader if and only if one vote is more than half |
| `Quorum.OpCatchesUp` | src/raft.cpp:201-241 | every operation leaves a leader caught up with what more than half hold |
| `Requests.RequestsSay` | src/raft.cpp:395-407 | every request of a run was sent at an earlier step and says its sender's term, next index, up to 100 entries from there and commit index at that step |
| `Requests.LeadersCanSend` | src/raft.cpp:389-407 | a leader with no call to a peer waiting can always send such a request |
| `Requests.CommitsTravel` | src/raft.cpp:332-335 | in any run the node that accepts a request ends with a commit index no lower than the smaller of its last index and the leader's commit index when sending |
| `Requests.AppendAnswer` | src/raft.cpp:276-310 | when a request succeeds, the term of the reply, and what becomes of role, vote and hint |
| `Requests.AppendHint` | src/raft.cpp:296-310 | a rejection names the end of the log or the first entry of the stretch of equal terms at the conflict |
| `Requests.AppendLog` | src/raft.cpp:312-330 | the log after an accepted request, entry by entry |
| `Requests.AppendCommit` | src/raft.cpp:332-335 | the commit index after an accepted request |
| `Requests.VoteAnswer` | src/raft.cpp:243-274 | a vote is granted if and only if term, earlier vote and last log entry allow it |
| `Requests.VoteReplyEffect` | src/raft.cpp:156-165 | a later term ends the candidacy, other replies without a vote change nothing |
| `Requests.CandidatesAskEveryone` | src/raft.cpp:123-147 | in any run a node that stands asks every other node, naming the end of its log |
| `Requests.TickEffect` | src/raft.cpp:353-368 | the ticker leaves a leader alone and makes anything else stand, its vote for itself written first |
| `Requests.AppendReplyEffect` | src/raft.cpp:413-438 | what each kind of answer does to the two indexes of the peer, and to nothing else |
| `Requests.ElectedEffect` | src/raft.cpp:173-199 | no-op, next and match indexes of a new leader |
| `Requests.SubmitEffect` | src/raft.cpp:228-241 | a command goes behind the log under the leader's term |
| `Requests.CrashRestarts` | src/raft.cpp:24-45 | what a crash leaves and what it forgets |
| `Theorems.LeadersAreComplete` | src/raft.cpp:201-226 | Leader Completeness: every leader of a later term, at any moment, has the same entries through an index a leader committed |
| `Theorems.StateMachineSafety` | src/raft.cpp:370-387 | no two nodes apply different entries at one index, in every run that meets the commit condition |
| `Theorems.CommittedStays` | src/raft.cpp:312-335 | nothing at or below a commit index is ever truncated or changed, and the commit index lies in the log |
| `Theorems.CommitIndexNeverFalls` | src/raft.cpp:332-335 | only a crash lowers a commit index |
| `Theorems.ApplierInRange` | src/raft.cpp:378-385 | lastApplied <= commitIndex < log size: nothing uncommitted is applied, no read behind the log |
| `Theorems.AnswersAreReplays` | src/server.cpp:215-266 | a reply other than ERROR is given only when the caller's own entry is committed, and equals replaying the log before it on an empty map, on every node that has it committed |
| `Theorems.LostEntriesAreNeverApplied` | src/server.cpp:251-255 | after "lost leadership" the entry is applied by no node at any moment of the run |
| `Theorems.RepliesRespectRealTime` | src/server.cpp:215-266 | an operation submitted after another was answered gets the higher committed index, even through a deposed leader |
| `Theorems.AnswersHaveOwnIndexes` | src/server.cpp:215-266 | two operations answered without ERROR, overlapping or not, have different committed indexes: the committed log is one order of all of them |
| `KeyValue.AnswersReadLastSets` | src/server.cpp:243-291 | a GET answered without ERROR returns v if and only if the last committed SET or DEL of its key before it is a SET to v; a DEL answers Deleted under the same condition; a SET answers OK |
| `KeyValue.StoresHoldLastSets` | src/kv_store.cpp:7-27 | whenever the applier rests the map is what the entries applied so far say |
| `KeyValue.ReplayIsLastSet` | src/server.cpp:268-291 | the map after a log has a key at a value if and only if the last entry that touches the key sets it so |
| `Waiters.AppliedIsReported` | src/server.cpp:215-302 | a client that waits when its index is applied is never told of a timeout; it is answered without ERROR if the applied term is its own, and told of lost leadership if not |
| `Waiters.WaitersAreRegistered` | src/server.cpp:234-247 | the index of a waiting client has a slot until a client of that index leaves |
| `Waiters.ParkRegisters` | src/server.cpp:234 | registering leaves a slot and touches no other |
| `Waiters.LeaveFrees` | src/server.cpp:243-247 | leaving frees the slot |
| `Waiters.TellingFills` | src/server.cpp:293-301 | the slot is filled with the term and the outcome applied |
| `Waiters.AppliesInOrder` | src/raft.cpp:370-387 | between crashes a node applies every index once and in order |
| `Waiters.ApplierGoesOn` | src/raft.cpp:370-387 | while something is committed and not applied the applier can go on |
| `Theorems.RegisteredBeforeApplied` | src/server.cpp:219-233 | from submit until the waiter is registered its index is not finished and no slot of the node is filled |
| `CommitRule.CommitRuleExact` | src/raft.cpp:332-335 | commit indexes agree in a run if and only if each raise by a follower would land on an entry of the leader's term |
| `CommitRule.CoveredIsTermMatched` | src/raft.cpp:332-335 | runs all of whose raises are covered satisfy the exact condition |
| `Schedules.SafetyIsExact` | src/raft.cpp:332-387 | two different entries can be applied at one index, under some schedule of appliers and clients around a run's protocol actions, if and only if the run breaks the commit condition |
| `Schedules.SameCoreAt` | src/raft.cpp:370-387 | the protocol actions of a run determine its nodes and network, however appliers and clients are scheduled |
| `Covered.WithinIsCovered` | src/raft.cpp:332-335 | leaderCommit within the batch of every accepted request is a covered run |
| `Covered.NeverApplyDifferently` | src/raft.cpp:370-387 | State Machine Safety, under every schedule, from that condition on requests |
| `Covered.CommittedEntriesStay` | src/raft.cpp:312-335 | committed entries stay and indexes are in range, from that condition |
| `Covered.RepliesAreReplays` | src/server.cpp:215-266 | replies are committed and replays, from that condition |
| `Covered.RepliesAreOrdered` | src/server.cpp:215-266 | replies respect real time, from that condition |
| `Covered.RepliesHaveOwnIndexes` | src/server.cpp:215-266 | answered operations have different indexes, from that condition |
| `Covered.RepliesReadLastSets` | src/server.cpp:243-291 | replies read the last SET, from that condition |
| `Covered.AppliedGetsReported` | src/server.cpp:215-302 | applied entries are reported, from that condition |
| `Covered.CommitNeverFalls` | src/raft.cpp:332-335 | only a crash lowers a commit index, from that condition |
| `Covered.LostStaysLost` | src/server.cpp:251-255 | "lost leadership" is final, from that condition |
| `Witness.StateMachineSafetyCanFail` | src/raft.cpp:332-335 | a run of three nodes with the cap of 100 in which two nodes apply different entries at one index |
| `Witness.CommitsCanDisagree` | src/raft.cpp:332-335 | hence a run whose commit indexes do not agree |
| `Repair.RetransmissionIsHarmless` | src/raft.cpp:312-330 | in any run two acceptable requests of one term give one log in either order, and the shorter reach adds nothing |
| `Repair.BatchesCommute` | src/raft.cpp:312-330 | the same for any two stretches of one leader's log |
| `Repair.HintSkipsAStretch` | src/raft.cpp:300-310 | the hint of a rejection is the start of the stretch of equal terms, never below 1 |
| `Repair.RejectionMovesBack` | src/raft.cpp:432-436 | a rejection lowers the next index and uses up one stretch of the log it came from |
| `Repair.StretchesAreTerms` | src/raft.cpp:300-310 | a sorted log has as many stretches of equal terms as terms |
| `Replicator.RejectionsAreFew` | src/raft.cpp:389-438 | in any run the leader of a term takes from a peer at most one rejection for each term in the log with which the peer entered the term, and one more |
| `Replicator.RejectionLowersNext` | src/raft.cpp:432-436 | each rejection taken strictly lowers the next index, and comes before any match is known |
| `Replicator.NoRejectionAfterSuccess` | src/raft.cpp:423-436 | after a success of the peer the leader takes no rejection of it any more |
| `Replicator.WinnerIsFirst` | src/raft.cpp:166-168 | a candidate that wins finds no leader of its term |
| `Replicator.AppendLeaves` | src/raft.cpp:312-330 | after any number of an accepted request's writes the log is unchanged or agrees with the leader as far as the request builds on |
| `Repair.AcceptedOnceMatched` | src/raft.cpp:423-431 | once nextIndex is right behind matchIndex, the peer accepts at every later moment of the term |
| `Runs.RunHasHistory` | src/raft.cpp:107-455 | every run of the cluster is backed, state by state, by a growing history that satisfies the invariant |
| `Runs.ActionSim` | src/raft.cpp:107-455 | each action, crashes included, keeps the correspondence and the invariant |
| `Runs.CrashSim` | src/raft.cpp:24-45 | a crash after any number of an operation's writes keeps every safety invariant |
| `Service.ServedHistory` | src/server.cpp:215-302 | map, slots, handlers and applier of every server are explained by its committed log throughout a run |
| `Protocol.LogMatching` | src/raft.cpp:294-330 | logs made of stretches of leaders' logs agree below a common term |
| `Protocol.OneWinner` | src/raft.cpp:243-274 | two majorities of voters of one term voted for one candidate |
| `Protocol.LeaderCompleteness` | src/raft.cpp:258-272 | by induction on terms: every later leader started with what a majority acknowledged |
| `ProtocolSteps.CutLosesOnlyLacked` | src/raft.cpp:315-325 | a truncation drops an acknowledged entry only if the current leader started without it |
| `Simulation.MergeResult` | src/raft.cpp:312-330 | the merged log is the follower's own if it agreed through the batch, else the leader's log cut behind the batch |
| `Commit.ScanCommitIsGreatest` | src/raft.cpp:201-226 | on a sorted log, stopping at the first older term misses no index |
| `Commit.FollowerCommitSafe` | src/raft.cpp:332-335 | an accepted request that meets the condition moves the commit index to a safe place |
| `Commit.CommitStep` | src/raft.cpp:201-241 | every action that meets the condition keeps all commit indexes safe |
| `Node.PerformIsWritten` | src/raft.cpp:107-338 | when an operation ends, its durable writes have produced exactly the term, vote and log in memory |
| `Node.MergeWritesPrefix` | src/raft.cpp:315-330 | what any number of the writes of one AppendEntries leaves: the retained prefix and a prefix of the new entries |
| `RaftNode.RaftNode.constructor` | src/raft.cpp:24-45 | memory is rebuilt from storage, with the sentinel in front |
| `RaftNode.RaftNode.BecomeFollower` | src/raft.cpp:107-121 | new state, agreement with storage, and the writes made |
| `RaftNode.RaftNode.Tick` | src/raft.cpp:353-368 | the ticker's region as the Timeout operation, with its writes |
| `RaftNode.RaftNode.StartElection` | src/raft.cpp:123-142 | the candidate's state or, alone in the cluster, the leader's, with its writes in order |
| `RaftNode.RaftNode.BecomeLeader` | src/raft.cpp:173-199 | the new leader with its no-op in log and storage and the commit index advanced |
| `RaftNode.RaftNode.CountReplicas` | src/raft.cpp:212-217 | the loop counts the set of peers whose match index reaches n |
| `RaftNode.RaftNode.AdvanceCommit` | src/raft.cpp:201-226 | the nested loops compute the scan that ScanCommitIsGreatest is about and change nothing else |
| `RaftNode.RaftNode.Submit` | src/raft.cpp:228-241 | the new state, the write, and the index and term reported to the caller |
| `RaftNode.RaftNode.OnRequestVote` | src/raft.cpp:243-274 | state and reply, and that term and vote are written before the reply |
| `RaftNode.RaftNode.OnVoteReply` | src/raft.cpp:153-168 | state and writes of the reply closure |
| `RaftNode.RaftNode.FindConflict` | src/raft.cpp:303-308 | the loop finds the start of the stretch of equal terms |
| `RaftNode.RaftNode.SkipHeld` | src/raft.cpp:315-326 | the first loop stops at the first position not held and cuts log and file there |
| `RaftNode.RaftNode.AppendRest` | src/raft.cpp:327-330 | the second loop appends the rest to log and file in order |
| `RaftNode.RaftNode.MergeEntries` | src/raft.cpp:312-330 | both loops compute the merge and make its writes |
| `RaftNode.RaftNode.OnAppendEntries` | src/raft.cpp:276-338 | state, reply and writes of the whole handler |
| `RaftNode.RaftNode.BuildAppend` | src/raft.cpp:397-407 | each field of the request: term, id, place and term before, commit index, and the entries from nextIndex on, at most 100 |
| `RaftNode.RaftNode.OnAppendReply` | src/raft.cpp:413-438 | state and writes of the replicator's region after its call |
| `Storage.Storage.Load` | src/storage.cpp:67-163 | loads exactly what LoadFiles yields on any bytes and cuts the file where the scan stopped; files, offsets, sizes and entries describe one list again if and only if no giant record follows the longest run |
| `Storage.ReadMeta` | src/storage.cpp:77-104 | magic, checksum, term and vote read with the decoder and the table-driven checksum |
| `Storage.EncodeRecord` | src/storage.cpp:212-226 | length, payload and checksum built with the encoder |
| `Storage.ReadRecord` | src/storage.cpp:125-144 | one round of the scan on the buffer |
| `Storage.Storage.SaveMeta` | src/storage.cpp:165-210 | the meta file is replaced, everything keeps describing one state |
| `Storage.Storage.Append` | src/storage.cpp:212-233 | the record is written behind the last one, everything keeps describing one list |
| `Storage.Storage.TruncateFrom` | src/storage.cpp:235-252 | the file is cut at the entry's offset; an index outside the log changes nothing |
| `Disk.MetaRoundTrip` | src/storage.cpp:172-183 | what writeMetaFile writes is loaded as the same term and vote, negative votes included |
| `Disk.MetaCanonical` | src/storage.cpp:77-104 | nothing else is accepted as a meta file |
| `Disk.LoadsWhatItHolds` | src/storage.cpp:67-163 | files written for a state load as that state and stay as they are |
| `Disk.LoadsExactly` | src/storage.cpp:121-158 | files written for a state load as it and stay as they are if and only if every entry fits its record |
| `Disk.ReloadsAgain` | src/storage.cpp:147-158 | cutting the torn tail changes nothing of what is loaded |
| `Disk.WrittenHolds` | src/storage.cpp:165-252 | after any write the files are what is written for the new state |
| `Disk.CrashInWrite` | src/storage.cpp:165-252 | a crash inside any write loads as the state before or after it, and loading leaves files that hold it |
| `Disk.CrashInOperation` | src/raft.cpp:276-338 | a crash anywhere in an operation loads as the state after some number of its writes, and loading leaves files that hold it |
| `Files.FailIsACrash` | src/raft.cpp:24-45 | restarting on the bytes such a crash left, after any number of attempts cut short, is a Crash action of the cluster |
| `Files.AttemptsReload` | src/storage.cpp:147-158 | however often loading is cut short, before or after the cut of the torn tail, the next attempt finds the same state |
| `Files.BytesRefineCluster` | src/storage.cpp:67-252 | every run on byte files, with torn writes and reloads anywhere, is a run of the cluster, and the files are what is written for each node's term, vote and log throughout |
| `Files.RestartsAlwaysLoad` | src/storage.cpp:67-163 | no crash in such a run leaves files that cannot be loaded |
| `Wal.ScanOfRecord` | src/storage.cpp:212-226 | a written record is taken by the scan, whatever follows |
| `Wal.TakeIsRecord` | src/storage.cpp:124-144 | what the scan takes where nothing wraps is a written record, byte for byte |
| `Wal.ScanOfGiant` | src/storage.cpp:124-144 | a record too long for the sum is taken, but the scan moves on by the wrapped sum only |
| `Wal.LongestIsMaximal` | src/storage.cpp:121-145 | every run of well-formed records at the start of the file is part of the longest one |
| `Wal.LongestExists` | src/storage.cpp:121-145 | any bytes start with a longest run of well-formed records |
| `Wal.RecoveryExact` | src/storage.cpp:121-158 | on any bytes, exactly: recovery keeps that longest run and stops behind it; where the sum wraps it throws, stops, or takes a giant record and goes on inside it |
| `Wal.RecoveryFailsExactly` | src/storage.cpp:127-131 | below 4 GiB, recovery throws if and only if the length field behind the longest run wraps the sum |
| `Wal.RecoveryCanFail` | src/storage.cpp:127-131 | seven bytes on which it throws |
| `Wal.WholeRecovers` | src/storage.cpp:121-158 | a file of written records is recovered completely |
| `Wal.ReadBackExactly` | src/storage.cpp:121-158 | a list of entries is read back from its records if and only if each fits |
| `Wal.TornRecordStops` | src/storage.cpp:127-129 | no part of a record is taken for a record |
| `Wal.TornAppendRecovers` | src/storage.cpp:121-158 | after an append torn anywhere the old list or the new list is recovered |
| `Wal.DamagedRecordStops` | src/storage.cpp:130-135 | a record whose payload was changed within four consecutive bytes ends the scan |
| `Crc.Crc32IsBitwise` | src/codec.cpp:77-100 | the checksum byte by byte equals the bit by bit reflected division |
| `Polynomial.Crc32IsPolynomial` | src/codec.cpp:77-100 | the checksum of any message is the complemented remainder of its polynomial, started with ones, by the generator x^32 + x^26 + x^23 + x^22 + x^16 + x^12 + x^11 + x^10 + x^8 + x^7 + x^5 + x^4 + x^2 + x + 1 (section 8 of RFC 1952) |
| `Polynomial.GeneratorIs` | src/codec.cpp:83 | the constant is that generator, the coefficient of x^31 in the lowest place |
| `Polynomial.CheckValue` | src/codec.cpp:92-100 | the digits 1 to 9 have the checksum CBF43926 |
| `Crc.BurstDetected` | src/codec.cpp:92-100 | changing up to four consecutive bytes of a message of any length changes its checksum |
| `Crc.TableStep` | src/codec.cpp:94-98 | one table step equals eight single-bit steps |
| `Crc.TableRow` | src/codec.cpp:80-85 | the inner loop computes eight single-bit steps |
| `Crc.MakeCrcTable` | src/codec.cpp:77-88 | the table holds them for every byte |
| `Crc.ComputeCrc32` | src/codec.cpp:92-100 | the table-driven loop computes the checksum the results above are about |
| `Codec.TakePutUint` | src/codec.cpp:7-62 | an integer written is read back and leaves what followed it |
| `Codec.TakePutStr` | src/codec.cpp:26-73 | the same for strings |
| `Codec.TakeUintCanonical` | src/codec.cpp:32-62 | the bytes read are the bytes written for that integer |
| `Codec.TakeStrCanonical` | src/codec.cpp:64-73 | the same for strings |
| `Coder.Encoder.Uint` | src/codec.cpp:12-24 | the shifting loop appends the big-endian bytes |
| `Coder.Encoder.Str` | src/codec.cpp:26-30 | length, cut to 32 bits, then the bytes |
| `Coder.Decoder.Uint` | src/codec.cpp:40-62 | the loop reads the value, or fails and consumes nothing |
| `Coder.Decoder.Str` | src/codec.cpp:64-73 | reads a string or fails when the bytes run out |
| `Layout.MostSignificantFirst` | src/codec.cpp:12-24 | integers have the most significant byte first |
| `Layout.VoteArgsLayout` | src/raft_msgs.cpp:7-16 | every field of a vote request by its position |
| `Layout.VoteReplyLayout` | src/raft_msgs.cpp:40-47 | every field of a vote reply by its position |
| `Layout.AppendArgsLayout` | src/raft_msgs.cpp:67-82 | every field of an append request by its position, each entry included |
| `Layout.AppendReplyLayout` | src/raft_msgs.cpp:121-129 | every field of an append reply by its position |
| `Layout.CommandLayout` | src/command.cpp:7-14 | every field of a command by its position, with 1, 2 and 3 for SET, GET and DEL |
| `Layout.RecordLayout` | src/storage.cpp:212-226 | every field of a log record by its position |
| `Layout.MetaLayout` | src/storage.cpp:172-183 | every field of the meta file by its position, the vote in two's complement |
| `Command.RoundTrip` | src/command.cpp:7-33 | a command is decoded as it was encoded |
| `Command.Canonical` | src/command.cpp:16-33 | only encodings decode, and none is the empty no-op |
| `Coder.EncodeCommand` | src/command.cpp:7-14 | the calls on the encoder produce the command's bytes |
| `Coder.DecodeCommand` | src/command.cpp:16-33 | the reads, none skipped after a failure, compute the decoder |
| `Wire.VoteArgsRoundTrip` | src/raft_msgs.cpp:7-38 | vote requests survive the wire |
| `Wire.VoteReplyRoundTrip` | src/raft_msgs.cpp:40-65 | vote replies survive the wire |
| `Wire.AppendArgsRoundTrip` | src/raft_msgs.cpp:67-119 | append requests survive the wire, entries included |
| `Wire.AppendReplyRoundTrip` | src/raft_msgs.cpp:121-149 | append replies survive the wire |
| `Wire.VoteArgsCanonical` | src/raft_msgs.cpp:18-38 | only encodings decode as vote requests |
| `Wire.AppendArgsCanonical` | src/raft_msgs.cpp:84-119 | only encodings decode as append requests |
| `Wire.VoteReplyAccepts` | src/raft_msgs.cpp:49-65 | exactly which bytes decode as a vote reply: any nonzero byte means granted |
| `Wire.AppendReplyAccepts` | src/raft_msgs.cpp:131-149 | exactly which bytes decode as an append reply |
| `Wire.OneKind` | src/raft_msgs.cpp:7-149 | no bytes decode as two kinds of message |
| `Coder.EncodeVoteArgs` | src/raft_msgs.cpp:7-16 | the calls on the encoder produce the layout |
| `Coder.DecodeVoteArgs` | src/raft_msgs.cpp:18-38 | the reads compute the decoder |
| `Coder.EncodeVoteReply` | src/raft_msgs.cpp:40-47 | the calls on the encoder produce the layout |
| `Coder.DecodeVoteReply` | src/raft_msgs.cpp:49-65 | the reads compute the decoder |
| `Coder.EncodeEntries` | src/raft_msgs.cpp:77-80 | the loop appends the entries |
| `Coder.EncodeAppendArgs` | src/raft_msgs.cpp:67-82 | the calls on the encoder produce the layout |
| `Coder.DecodeEntries` | src/raft_msgs.cpp:107-114 | the loop reads as many entries as announced or fails |
| `Coder.DecodeAppendArgs` | src/raft_msgs.cpp:84-119 | the reads compute the decoder |
| `Coder.EncodeAppendReply` | src/raft_msgs.cpp:121-129 | the calls on the encoder produce the layout |
| `Coder.DecodeAppendReply` | src/raft_msgs.cpp:131-149 | the reads compute the decoder |
| `Server.KVStore.Set` | src/kv_store.cpp:7-11 | the map with the key at the value, all else as before |
| `Server.KVStore.Get` | src/kv_store.cpp:13-21 | the value if and only if the key is present |
| `Server.KVStore.Remove` | src/kv_store.cpp:23-27 | the map without the key, and whether it was there |
| `Server.Server.HandleFrame` | src/server.cpp:110-141 | from request bytes to reply bytes: decoded, handled by the node, encoded; other frames change nothing |
| `Server.Server.Begin` | src/server.cpp:215-233 | submit and, on a leader, a slot for the index with all others as before; elsewhere the redirection |
| `Server.Server.Complete` | src/server.cpp:242-263 | which slot gives which answer, and the removal of the slot |
| `Server.Server.ApplyToStore` | src/server.cpp:268-291 | map and outcome of one log entry, no-ops and undecodable bytes included |
| `Server.Server.OnApply` | src/server.cpp:268-302 | the cluster's two applier steps, map first and slot second |

## Left out

- Sockets, framing, polling and the TCP transport (`src/net.cpp`, `src/transport.cpp`): replaced by requests that may be lost, delayed, duplicated or reordered.
- Timers, random deadlines, condition-variable timing, thread start and stop, `stopping_`: a timeout may happen at any moment; no liveness is claimed.
- System calls: synced bytes stay, a rename is atomic, a file is cut at once or not at all, and of an unsynced append any part may arrive. I/O errors and their exceptions are not modelled.
- 64-bit counters: terms and indexes are unbounded; writing a term requires it to be below 2^64, the range of its type.
- Memory limits: `reserve` on the announced number of entries (`src/raft_msgs.cpp:106`) is not modelled.
- Client sessions and resends (`src/client_main.cpp`): client results are about submitted entries, not about requests.
- The line parser, STATUS, addresses, the command line, `KVStore::contains` and `size`: they would only add easy members.
- Snapshots, membership changes and reads outside the log are not part of the program.
- Reads behind the end of the log: the applier step of `Cluster` is enabled only inside the log; `Theorems.ApplierInRange` shows that this excludes nothing in the runs it is about.
- Locks: each region is atomic because the source holds a mutex for it; the objects of `RaftNode` and `Server` are sequential.
- Files.BytesRefineCluster: a node may write and serve entries of any size, but is restarted only if its entries, and those it was writing, fit their records (commands below 2^32 - 20 bytes); `Disk.LoadsExactly` shows that without this its files are not read back. Terms written are below 2^64, the range of their type.
- RaftNode.RaftNode.BuildAppend: requires the next index to lie in the log, which `Theorems.LeaderIndexesInRange` proves of every run.
