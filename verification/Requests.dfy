/**
 * What nodes tell each other over whole runs (src/raft.cpp:137-147, 276-338, 395-407): what every
 * request says about its sender at the moment of sending, and what handling it brings about.
 */
module Requests {
  import opened Types
  import opened Messages
  import opened Node
  import opened Cluster
  import opened Protocol
  import opened Simulation
  import opened Runs
  import opened Commit
  import opened CommitRule
  import opened Service
  import opened Theorems

  // ----- requests of leaders -----

  /** The request says what this leader knows: its term, where the peer's part of the log begins, up to
      100 entries from there, and how far it has committed. */
  predicate Says(m: Node, p: nat, a: AppendArgs)
  {
    && m.role == Leader && p < |m.nextIndex| && 1 <= m.nextIndex[p] <= |m.log|
    && a.term == m.currentTerm && a.leaderId == m.id
    && a.prevLogIndex == m.nextIndex[p] - 1 && a.prevLogTerm == m.log[a.prevLogIndex].term
    && a.leaderCommit == m.commitIndex
    && |a.entries| == (if |m.log| - m.nextIndex[p] < 100 then |m.log| - m.nextIndex[p] else 100)
    && forall k :: 0 <= k < |a.entries| ==> a.entries[k] == m.log[m.nextIndex[p] + k]
  }

  lemma BuiltSays(m: Node, p: nat)
    requires m.role == Leader && p < |m.nextIndex| && 1 <= m.nextIndex[p] <= |m.log|
    ensures Says(m, p, BuildAppend(m, p))
  {
  }

  /** Every AppendEntries request of a run was sent at some earlier step and says what its sender knew
      then. */
  lemma RequestsSay(n: nat, ss: seq<State>, acts: seq<Action>, k: nat, call: nat, p: nat, a: AppendArgs) returns (j: nat)
    requires IsRun(n, ss, acts) && k < |ss| && AppendReq(call, p, a) in ss[k].sent
    ensures j < k && acts[j] == Send(a.leaderId, p) && a.leaderId < |ss[j].nodes|
    ensures Says(ss[j].nodes[a.leaderId], p, a)
  {
    hide Inv, Rel, Grows, Backs, CreditedRun, IsRun, StepAt, Says, BuildAppend;
    var hs := RunHasHistory(n, ss, acts);
    j := RequestsAreSent(n, ss, acts, hs, k, call, p, a);
    BuiltSays(ss[j].nodes[a.leaderId], p);
  }

  /** Sending is possible whenever no call to the peer waits, and the request goes out. */
  lemma LeadersCanSend(n: nat, ss: seq<State>, acts: seq<Action>, k: nat, i: nat, p: nat)
    requires IsRun(n, ss, acts) && k < |ss| && i < |ss[k].nodes| && p < |ss[k].nodes| && p != i
    requires ss[k].nodes[i].role == Leader && ReplicatorFree(ss[k], i, p)
    ensures |ss[k].servers| == |ss[k].nodes| && Enabled(ss[k], Send(i, p))
    ensures exists a :: Says(ss[k].nodes[i], p, a) && AppendReq(ss[k].serial, p, a) in Next(ss[k], Send(i, p)).calls
  {
    hide Inv, Rel, Grows, Backs, CreditedRun, IsRun, StepAt, Says, BuildAppend, ReplicatorFree;
    var hs := RunHasHistory(n, ss, acts);
    Backed(ss, hs, k);
    SizeIs(n, ss, acts, hs, k);
    LeaderIndexesInRange(n, ss, acts, k, i, p);
    BuiltSays(ss[k].nodes[i], p);
  }

  // ----- handling them -----

  /** What the handler makes of a request, apart from the log and the commit index. */
  lemma AppendAnswer(m: Node, a: AppendArgs)
    requires m.Wf()
    ensures var (m', r) := OnAppendEntries(m, a);
            && r.term == (if a.term > m.currentTerm then a.term else m.currentTerm) == m'.currentTerm
            && (r.success <==>
                  a.term >= m.currentTerm && a.prevLogIndex < |m.log| && m.log[a.prevLogIndex].term == a.prevLogTerm)
            && (a.term >= m.currentTerm ==> m'.role == Follower && m'.leaderHint == Signed32(a.leaderId))
            && (a.term < m.currentTerm ==> m' == m)
            && (!r.success ==> m'.log == m.log && m'.commitIndex == m.commitIndex)
            && m'.votedFor == (if a.term > m.currentTerm then -1 else m.votedFor)
            && m'.lastApplied == m.lastApplied
  {
    hide Merge, ConflictStart;
  }

  /** Where a rejection sends the leader: behind the node's log, or to the first entry of the stretch of
      equal terms that ends at the place of conflict. */
  lemma AppendHint(m: Node, a: AppendArgs)
    requires m.Wf() && a.term >= m.currentTerm && !OnAppendEntries(m, a).1.success
    ensures var ci, x := OnAppendEntries(m, a).1.conflictIndex, a.prevLogIndex;
            && (x >= |m.log| ==> ci == |m.log|)
            && (1 <= x < |m.log| ==>
                  && 1 <= ci <= x && (forall k :: ci <= k <= x ==> m.log[k].term == m.log[x].term)
                  && (ci > 1 ==> m.log[ci - 1].term != m.log[x].term))
  {
    if 1 <= a.prevLogIndex < |m.log| { StretchStart(m.log, a.prevLogIndex); }
  }

  lemma {:induction false} StretchStart(l: Log, x: nat)
    requires 1 <= x < |l|
    ensures var ci := ConflictStart(l, x);
            && 1 <= ci <= x && (forall k :: ci <= k <= x ==> l[k].term == l[x].term)
            && (ci > 1 ==> l[ci - 1].term != l[x].term)
    decreases x
  {
    if x > 1 && l[x - 1].term == l[x].term { StretchStart(l, x - 1); }
  }

  /** What an accepted request leaves in the log: everything up to where it builds on; from there the
      request's terms; the node's own entries as long as the terms are equal, the request's from the
      first that is not; and nothing is cut off behind a request that was all there. */
  lemma AppendLog(m: Node, a: AppendArgs) returns (i: nat)
    requires m.Wf() && OnAppendEntries(m, a).1.success
    ensures var l, l', x := m.log, OnAppendEntries(m, a).0.log, a.prevLogIndex + 1;
            && i <= |a.entries| && x + i <= |l|
            && (forall k :: 0 <= k < x + i ==> k < |l'| && l'[k] == l[k])
            && (forall k :: 0 <= k < i ==> l[x + k].term == a.entries[k].term)
            && (i < |a.entries| && x + i < |l| ==> l[x + i].term != a.entries[i].term)
            && (i < |a.entries| ==> |l'| == x + |a.entries|)
            && (forall k :: i <= k < |a.entries| ==> x + k < |l'| && l'[x + k] == a.entries[k])
            && (i == |a.entries| ==> l' == l)
  {
    hide FirstNew;
    i := FirstNew(m.log, a.prevLogIndex, a.entries, 0);
    FirstNewIs(m.log, a.prevLogIndex, a.entries, 0);
  }

  lemma {:induction false} FirstNewIs(l: Log, prev: nat, entries: Log, i: nat)
    requires prev < |l| && i <= |entries| && prev + i < |l|
    ensures var r := FirstNew(l, prev, entries, i);
            && i <= r <= |entries| && prev + r < |l|
            && (forall k :: i <= k < r ==> l[prev + 1 + k].term == entries[k].term)
            && (r < |entries| && prev + 1 + r < |l| ==> l[prev + 1 + r].term != entries[r].term)
    decreases |entries| - i
  {
    if i < |entries| && prev + 1 + i < |l| && l[prev + 1 + i].term == entries[i].term {
      FirstNewIs(l, prev, entries, i + 1);
    }
  }

  /** An accepted request leaves the commit index where it was if the leader is not ahead, and else at
      the smaller of the leader's and the node's own last index. */
  lemma AppendCommit(m: Node, a: AppendArgs)
    requires m.Wf() && OnAppendEntries(m, a).1.success
    ensures var m' := OnAppendEntries(m, a).0;
            && (a.leaderCommit <= m.commitIndex ==> m'.commitIndex == m.commitIndex)
            && (a.leaderCommit > m.commitIndex ==>
                  m'.commitIndex <= a.leaderCommit && m'.commitIndex < |m'.log|
                  && (m'.commitIndex == a.leaderCommit || m'.commitIndex == |m'.log| - 1))
  {
    hide FirstNew;
  }

  /**
   * In any run: the node that accepts a request ends with a commit index no lower than the smaller of
   * its own last index and the commit index its leader had when it sent the request, and with all the
   * request's entries in its log. A request without entries brings the commit index as well.
   */
  lemma CommitsTravel(n: nat, ss: seq<State>, acts: seq<Action>, k: nat, i: nat, a: AppendArgs) returns (j: nat)
    requires IsRun(n, ss, acts) && k < |acts| && acts[k].Local? && acts[k].i == i && acts[k].op == HandleAppend(a)
    requires i < |ss[k].nodes| && Accepts(ss[k].nodes[i], a)
    ensures j < k && acts[j] == Send(a.leaderId, i) && a.leaderId < |ss[j].nodes|
    ensures i < |ss[k + 1].nodes| && |ss[k + 1].nodes[i].log| >= 1
    ensures var leader, m := ss[j].nodes[a.leaderId], ss[k + 1].nodes[i];
            && a.leaderCommit == leader.commitIndex
            && m.commitIndex >= Min(leader.commitIndex, |m.log| - 1)
            && m.currentTerm == a.term == leader.currentTerm && m.leaderHint == a.leaderId && m.role == Follower
            && |m.log| > a.prevLogIndex + |a.entries|
            && forall x :: 0 <= x < |a.entries| ==> m.log[a.prevLogIndex + 1 + x].term == a.entries[x].term
  {
    hide Inv, Rel, Grows, Backs, CreditedRun, IsRun, StepAt, OnAppendEntries;
    RunShape(n, ss, acts);
    var hs := RunHasHistory(n, ss, acts);
    TakenStep(n, ss, acts, k);
    AppendStep(ss, acts, k);
    j := RequestsSay(n, ss, acts, k, acts[k].call, i, a);
    Backed(ss, hs, j);
    IdFits(ss[j], hs[j], a.leaderId);
    var m := ss[k].nodes[i];
    AppendAnswer(m, a);
    AppendCommit(m, a);
    var f := AppendLog(m, a);
    PerformWf(m, HandleAppend(a)) by { assert Callable(m, HandleAppend(a)); }
    PerformIs(m, a);
  }

  lemma PerformIs(m: Node, a: AppendArgs)
    requires m.Wf()
    ensures Callable(m, HandleAppend(a)) && Perform(m, HandleAppend(a)) == OnAppendEntries(m, a).0
  {
  }

  lemma TakenStep(n: nat, ss: seq<State>, acts: seq<Action>, k: nat)
    requires IsRun(n, ss, acts) && k < |acts|
    ensures |ss| == |acts| + 1 && StepAt(ss, acts, k)
  {
    hide StepAt;
  }

  lemma IdFits(s: State, h: History, i: nat)
    requires Rel(s, h) && i < |s.nodes|
    ensures Signed32(i) == i
  {
    assert NodeRel(s.nodes[i], h, i);
  }

  // ----- votes -----

  /** The candidate's log, by its last term and last index, is no older than the node's. */
  predicate NoOlder(a: VoteArgs, l: Log)
    requires |l| >= 1
  {
    a.lastLogTerm > l[|l| - 1].term || (a.lastLogTerm == l[|l| - 1].term && a.lastLogIndex + 1 >= |l|)
  }

  /** A vote is granted if and only if the request is not from an older term, the node has not voted for
      another in that term, and the candidate's log is no older than its own. */
  lemma VoteAnswer(m: Node, a: VoteArgs)
    requires m.Wf()
    ensures var (m', r) := OnRequestVote(m, a);
            && r.term == (if a.term > m.currentTerm then a.term else m.currentTerm) == m'.currentTerm
            && (r.voteGranted <==>
                  && a.term >= m.currentTerm && NoOlder(a, m.log)
                  && (a.term > m.currentTerm || m.votedFor == -1 || m.votedFor == Signed32(a.candidateId)))
            && (r.voteGranted ==> m'.votedFor == Signed32(a.candidateId))
            && (!r.voteGranted ==> m'.votedFor == if a.term > m.currentTerm then -1 else m.votedFor)
            && (a.term > m.currentTerm ==> m'.role == Follower && m'.leaderHint == -1)
            && (a.term <= m.currentTerm ==> m'.role == m.role && m'.leaderHint == m.leaderHint)
            && m'.log == m.log && m'.commitIndex == m.commitIndex && m'.lastApplied == m.lastApplied
  {
  }

  /** A reply of a later term ends the candidacy; any other reply that is no vote in it changes nothing. */
  lemma VoteReplyEffect(m: Node, a: VoteArgs, r: VoteReply)
    requires m.Wf()
    ensures var m' := OnVoteReply(m, a, r);
            && (r.term > m.currentTerm ==> StepsDown(m, m', r.term))
            && (r.term <= m.currentTerm && !(m.role == Candidate && m.currentTerm == a.term && r.voteGranted) ==> m' == m)
  {
  }

  /** The node has learned of term t: a follower, without vote and without leader. */
  predicate StepsDown(m: Node, m': Node, t: nat)
  {
    && m'.currentTerm == t && m'.role == Follower && m'.votedFor == -1 && m'.leaderHint == -1
    && m'.log == m.log && m'.commitIndex == m.commitIndex && m'.lastApplied == m.lastApplied
  }

  /** In any run a node that stands asks every other node for its vote in the next term, and says what
      its own log ends with. */
  lemma CandidatesAskEveryone(n: nat, ss: seq<State>, acts: seq<Action>, k: nat, i: nat, p: nat)
    requires IsRun(n, ss, acts) && k < |acts| && acts[k].Local? && acts[k].i == i && acts[k].op == Timeout
    requires p < n && p != i
    ensures k + 1 < |ss| && i < |ss[k].nodes| && i < |ss[k + 1].nodes| && |ss[k].nodes[i].log| >= 1
    ensures var m, m' := ss[k].nodes[i], ss[k + 1].nodes[i];
            && m'.role == Candidate && m'.currentTerm == m.currentTerm + 1 && m'.votedFor == i && m'.votesReceived == 1
            && VoteReq(p, VoteArgs(m.currentTerm + 1, i, |m.log| - 1, m.log[|m.log| - 1].term)) in ss[k + 1].calls
            && VoteReq(p, VoteArgs(m.currentTerm + 1, i, |m.log| - 1, m.log[|m.log| - 1].term)) in ss[k + 1].sent
  {
    hide Inv, Rel, Grows, Backs, CreditedRun, IsRun, StepAt, Next, Enabled;
    var hs := RunHasHistory(n, ss, acts);
    RunStep(n, ss, acts, hs, k);
    SizeIs(n, ss, acts, hs, k);
    AsksEveryone(ss[k], hs[k], i, acts[k].call, p);
  }

  lemma AsksEveryone(s: State, h: History, i: nat, call: nat, p: nat)
    requires Rel(s, h) && Enabled(s, Local(i, Timeout, call)) && p < |s.nodes| && p != i
    ensures i < |s.nodes| && i < |Next(s, Local(i, Timeout, call)).nodes| && |s.nodes[i].log| >= 1
    ensures var m, s' := s.nodes[i], Next(s, Local(i, Timeout, call));
            var r := VoteReq(p, VoteArgs(m.currentTerm + 1, i, |m.log| - 1, m.log[|m.log| - 1].term));
            && s'.nodes[i].role == Candidate && s'.nodes[i].currentTerm == m.currentTerm + 1
            && s'.nodes[i].votedFor == i && s'.nodes[i].votesReceived == 1
            && r in s'.calls && r in s'.sent
  {
    hide NetRel;
    assert NodeRel(s.nodes[i], h, i);
    var m' := Perform(s.nodes[i], Timeout);
    assert p in NodeSet(|s.nodes|);
    assert VoteReq(p, VoteArgs(m'.currentTerm, i, |m'.log| - 1, m'.LastTerm())) in VoteRequests(m', |s.nodes|);
  }

  // ----- a leader's bookkeeping -----

  /** Only the two indexes of peer p, and what follows from them, may differ. */
  predicate OnlyPeer(m: Node, m': Node, p: nat)
  {
    && |m'.nextIndex| == |m.nextIndex| && |m'.matchIndex| == |m.matchIndex|
    && (forall q :: 0 <= q < |m.nextIndex| && q != p ==> m'.nextIndex[q] == m.nextIndex[q])
    && (forall q :: 0 <= q < |m.matchIndex| && q != p ==> m'.matchIndex[q] == m.matchIndex[q])
    && m'.(nextIndex := [], matchIndex := [], commitIndex := 0) == m.(nextIndex := [], matchIndex := [], commitIndex := 0)
  }

  /** What a leader makes of an answer: a success moves the peer's indexes to the end of the batch, never
      back; a rejection aims at the hint, inside the log; a later term ends the reign; the rest is old. */
  lemma AppendReplyEffect(m: Node, p: nat, a: AppendArgs, r: AppendReply)
    requires m.Wf() && p < m.size
    ensures var m', end := OnAppendReply(m, p, a, r), a.prevLogIndex + |a.entries|;
            var current := m.role == Leader && m.currentTerm == a.term;
            && (!current || r.term < m.currentTerm ==> m' == m)
            && (current && r.term > m.currentTerm ==> StepsDown(m, m', r.term))
            && (current && r.term == m.currentTerm ==> OnlyPeer(m, m', p))
            && (current && r.term == m.currentTerm && r.success ==>
                  && m'.matchIndex[p] == (if m.matchIndex[p] < end then end else m.matchIndex[p])
                  && m'.nextIndex[p] == m'.matchIndex[p] + 1 && m'.commitIndex >= m.commitIndex)
            && (current && r.term == m.currentTerm && !r.success ==>
                  && m'.matchIndex[p] == m.matchIndex[p] && m'.commitIndex == m.commitIndex
                  && m'.nextIndex[p] == (if r.conflictIndex < 1 then 1
                                         else if r.conflictIndex > |m.log| then |m.log| else r.conflictIndex))
  {
    hide ScanCommit;
    if r.success {
      var k: nat := Max(m.matchIndex[p], a.prevLogIndex + |a.entries|);
      var m1 := m.(matchIndex := m.matchIndex[p := k], nextIndex := m.nextIndex[p := k + 1]);
      ScanCommitResult(m1, |m1.log| - 1);
    }
  }

  /** A new leader has one entry more, of its term and without command, knows nothing of its peers, and
      aims behind the log it was elected with. */
  lemma ElectedEffect(m: Node)
    requires m.Wf()
    ensures var m' := BecomeLeader(m);
            && m'.role == Leader && m'.leaderHint == m.id && m'.currentTerm == m.currentTerm && m'.votedFor == m.votedFor
            && |m'.log| == |m.log| + 1 && m'.log[..|m.log|] == m.log && m'.log[|m.log|] == LogEntry(m.currentTerm, [])
            && |m'.nextIndex| == m.size && (forall q :: 0 <= q < m.size ==> m'.nextIndex[q] == |m.log|)
            && |m'.matchIndex| == m.size
            && (forall q :: 0 <= q < m.size ==> m'.matchIndex[q] == if q == m.id then |m.log| else 0)
            && m'.lastApplied == m.lastApplied
  {
    hide ScanCommit;
  }

  /** A leader takes a command behind its log, under its term, and counts itself as holding it. */
  lemma SubmitEffect(m: Node, c: Bytes)
    requires m.Wf()
    ensures var m' := Submit(m, c);
            && (m.role != Leader ==> m' == m)
            && (m.role == Leader ==>
                  && |m'.log| == |m.log| + 1 && m'.log[..|m.log|] == m.log
                  && m'.log[|m.log|] == LogEntry(m.currentTerm, c) && m'.matchIndex[m.id] == |m.log|
                  && OnlyPeer(m, m'.(log := m.log), m.id) && m'.nextIndex == m.nextIndex)
  {
    hide ScanCommit;
  }

  /** After a crash a node has its term, vote and log, and nothing else: no role, no commit index, no
      map, no waiting client. */
  lemma CrashRestarts(s: State, i: nat, op: Op, call: nat, k: nat)
    requires |s.servers| == |s.nodes| && Enabled(s, Crash(i, op, call, k))
    ensures var s' := Next(s, Crash(i, op, call, k));
            && i < |s.nodes| && |s'.nodes| == |s'.servers| == |s.nodes| && s.nodes[i].Wf()
            && var m', v := s'.nodes[i], s'.servers[i];
               && m'.role == Follower && m'.commitIndex == 0 && m'.lastApplied == 0 && m'.leaderHint == -1
               && |m'.log| >= 1 && DurableOf(m') == ApplyWrites(DurableOf(s.nodes[i]), Writes(s.nodes[i], op)[..k])
               && v.store == map[] && v.waiters == map[] && v.handlers == map[] && v.holder == None
               && forall r :: r in s'.calls ==> Sender(r) != i
  {
    hide ApplyWrites, Writes;
    var d := ApplyWrites(DurableOf(s.nodes[i]), Writes(s.nodes[i], op)[..k]);
    assert ([SENTINEL] + d.entries)[1..] == d.entries;
  }

  /** The ticker leaves a leader alone, and makes anything else stand in the next term with its vote for
      itself written. */
  lemma TickEffect(m: Node)
    requires m.Wf()
    ensures m.role == Leader ==> Perform(m, Timeout) == m && Writes(m, Timeout) == []
    ensures m.role != Leader ==>
              var m', ws := Perform(m, Timeout), Writes(m, Timeout);
              && m'.currentTerm == m.currentTerm + 1 && m'.votedFor == m.id && m'.role != Follower
              && |ws| >= 1 && ws[0] == SaveMeta(m.currentTerm + 1, m.id)
  {
    hide ScanCommit;
  }
}
