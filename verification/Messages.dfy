/** The two remote calls of the Raft paper and their replies (include/dkvs/raft_msgs.hpp). */
module Messages {
  import opened Types

  datatype VoteArgs = VoteArgs(term: nat, candidateId: nat, lastLogIndex: nat, lastLogTerm: nat)

  datatype VoteReply = VoteReply(term: nat, voteGranted: bool)

  datatype AppendArgs = AppendArgs(
    term: nat, leaderId: nat, prevLogIndex: nat, prevLogTerm: nat, leaderCommit: nat, entries: Log)

  datatype AppendReply = AppendReply(term: nat, success: bool, conflictIndex: nat)
}
