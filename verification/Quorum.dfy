/**
 * What has to happen, not only what may: a candidate with more than half of the votes leads at once,
 * and an entry of the leader's term that more than half are known to hold is committed at once
 * (src/raft.cpp:123-241, 413-431; include/dkvs/raft.hpp:88).
 */
module Quorum {
  import opened Types
  import opened Messages
  import opened Node
  import opened Cluster
  import opened Protocol
  import opened Simulation
  import opened Runs
  import opened Commit
  import opened Service
  import opened Theorems
  import opened Elections
  import Command

  // ----- elections -----

  /** A granted vote makes the candidate leader if and only if more than half have now voted for it. */
  lemma VoteDecides(m: Node, a: VoteArgs, r: VoteReply)
    requires m.Wf() && m.role == Candidate && m.currentTerm == a.term && r.voteGranted && r.term <= m.currentTerm
    ensures OnVoteReply(m, a, r).role == Leader <==> 2 * (m.votesReceived + 1) > m.size
    ensures OnVoteReply(m, a, r).role != Leader ==> OnVoteReply(m, a, r) == m.(votesReceived := m.votesReceived + 1)
  {
  }

  /** Standing for election makes a node leader if and only if its own vote is more than half. */
  lemma StandDecides(m: Node)
    requires m.Wf()
    ensures StartElection(m).role == Leader <==> 2 * 1 > m.size
    ensures StartElection(m).role != Leader ==> StartElection(m).role == Candidate
    ensures StartElection(m).currentTerm == m.currentTerm + 1 && StartElection(m).votedFor == m.id
  {
  }

  /** A candidate has not been voted for by more than half. */
  predicate Undecided(m: Node)
  {
    m.role == Candidate ==> 2 * m.votesReceived <= m.size
  }

  lemma OpUndecided(m: Node, op: Op)
    requires Callable(m, op) && Undecided(m)
    ensures Undecided(Perform(m, op))
  {
    hide Merge, ConflictStart, ScanCommit;
  }

  // ----- commitment -----

  /** A leader's commit index is not behind any entry of its term that more than half hold. */
  ghost predicate CaughtUp(m: Node)
  {
    m.role == Leader ==> forall x :: m.commitIndex < x ==> !Replicated(m, x)
  }

  predicate TermsUpTo(m: Node)
  {
    Sorted(m.log) && forall j :: 0 <= j < |m.log| ==> m.log[j].term <= m.currentTerm
  }

  lemma AdvanceCatchesUp(m: Node)
    requires m.Wf() && TermsUpTo(m)
    ensures CaughtUp(AdvanceCommit(m))
  {
    hide ScanCommit, Replicas, Sorted;
    var m' := AdvanceCommit(m);
    if m.role == Leader {
      ScanCommitResult(m, |m.log| - 1);
      forall x | m'.commitIndex < x ensures !Replicated(m', x) {
        if Replicated(m, x) { ScanCommitIsGreatest(m, |m.log| - 1, x); }
      }
    }
  }

  lemma ElectedCatchesUp(m: Node)
    requires m.Wf() && TermsUpTo(BecomeLeader(m))
    ensures CaughtUp(BecomeLeader(m))
  {
    hide ScanCommit, Sorted, CaughtUp;
    var l := m.log + [NoOp(m.currentTerm)];
    AdvanceCatchesUp(m.(role := Leader, leaderHint := Signed32(m.id), nextIndex := seq(m.size, i => |m.log|),
                        matchIndex := seq(m.size, i => 0)[m.id := |m.log|], log := l));
  }

  lemma StillCaughtUp(m: Node, m': Node)
    requires CaughtUp(m)
    requires m'.role == Leader ==>
               && m.role == Leader && m'.log == m.log && m'.currentTerm == m.currentTerm
               && m'.matchIndex == m.matchIndex && m'.size == m.size && m'.commitIndex == m.commitIndex
    ensures CaughtUp(m')
  {
    hide Replicas;
    if m'.role == Leader {
      forall x | m'.commitIndex < x ensures !Replicated(m', x) { assert !Replicated(m, x); }
    }
  }

  /** Every operation after which a node leads leaves it caught up. */
  lemma OpCatchesUp(m: Node, op: Op)
    requires Callable(m, op) && CaughtUp(m) && TermsUpTo(Perform(m, op))
    ensures CaughtUp(Perform(m, op))
  {
    hide ScanCommit, Sorted, BecomeLeader, Merge, ConflictStart, Replicas, CaughtUp;
    match op {
      case Timeout =>
        if Perform(m, op).role == Leader && m.role != Leader {
          ElectedCatchesUp(m.(role := Candidate, currentTerm := m.currentTerm + 1, votedFor := Signed32(m.id),
                              leaderHint := -1, votesReceived := 1));
        } else {
          StillCaughtUp(m, Perform(m, op));
        }
      case VoteReplied(p, a, r) =>
        if Perform(m, op).role == Leader && m.role != Leader {
          ElectedCatchesUp(m.(votesReceived := m.votesReceived + 1));
        } else {
          StillCaughtUp(m, Perform(m, op));
        }
      case AppendReplied(p, a, r) =>
        var k: nat := Max(m.matchIndex[p], a.prevLogIndex + |a.entries|);
        var m1 := m.(matchIndex := m.matchIndex[p := k], nextIndex := m.nextIndex[p := k + 1]);
        if Perform(m, op).role == Leader && r.success && r.term == m.currentTerm == a.term {
          AdvanceCatchesUp(m1);
        } else {
          StillCaughtUp(m, Perform(m, op));
        }
      case SubmitCommand(c) =>
        var m1 := m.(log := m.log + [LogEntry(m.currentTerm, c)], matchIndex := m.matchIndex[m.id := |m.log|]);
        if m.role == Leader { AdvanceCatchesUp(m1); } else { StillCaughtUp(m, Perform(m, op)); }
      case _ => StillCaughtUp(m, Perform(m, op));
    }
  }

  // ----- runs -----

  /** What holds of every node between two steps of a run. */
  ghost predicate Prompt(m: Node)
  {
    Undecided(m) && CaughtUp(m) && (m.role == Leader ==> m.leaderHint == m.id)
  }

  lemma OpKnowsItself(m: Node, op: Op)
    requires Callable(m, op) && (m.role == Leader ==> m.leaderHint == m.id)
    ensures var m' := Perform(m, op); m'.role == Leader ==> m'.leaderHint == m'.id
  {
    hide ScanCommit, Merge, ConflictStart;
  }

  lemma PromptStep(s: State, h: History, a: Action, i: nat)
    requires Rel(s, h) && Enabled(s, a) && i < |s.nodes| && Prompt(s.nodes[i])
    requires i < |Next(s, a).nodes| && TermsUpTo(Next(s, a).nodes[i])
    ensures Prompt(Next(s, a).nodes[i])
  {
    hide Next, Enabled, Perform, NetRel, TermsUpTo, CaughtUp, Undecided;
    assert NodeRel(s.nodes[i], h, i);
    if a.Local? && a.i == i {
      LocalNode(s, i, a.op, a.call);
      OpPrompt(s.nodes[i], a.op);
    } else if a.ClientSubmit? && a.i == i {
      SubmitNode(s, i, a.command);
      OpPrompt(s.nodes[i], SubmitCommand(Command.Encode(a.command)));
    } else {
      OtherPrompt(s, a, i);
    }
  }

  lemma OpPrompt(m: Node, op: Op)
    requires Callable(m, op) && Prompt(m) && TermsUpTo(Perform(m, op))
    ensures Prompt(Perform(m, op))
  {
    hide Perform, TermsUpTo, CaughtUp, Undecided;
    OpUndecided(m, op);
    OpCatchesUp(m, op);
    OpKnowsItself(m, op);
  }

  lemma OtherPrompt(s: State, a: Action, i: nat)
    requires |s.servers| == |s.nodes| && Enabled(s, a) && i < |s.nodes| && Prompt(s.nodes[i])
    requires !(a.Local? && a.i == i) && !(a.ClientSubmit? && a.i == i)
    ensures i < |Next(s, a).nodes| && Prompt(Next(s, a).nodes[i])
  {
    hide Perform, Writes, ApplyWrites, Submit, OnRequestVote, OnAppendEntries, VoteRequests, BuildAppend, CaughtUp;
    StillCaughtUp(s.nodes[i], Next(s, a).nodes[i]);
  }

  lemma {:induction false} PromptAt(n: nat, ss: seq<State>, acts: seq<Action>, hs: seq<History>, k: nat, i: nat)
    requires IsRun(n, ss, acts) && Backs(ss, hs) && k < |ss| && i < n
    ensures i < |ss[k].nodes| && Prompt(ss[k].nodes[i])
    decreases k
  {
    hide Inv, Rel, Next, Enabled, Grows, Backs, IsRun, StepAt, Prompt;
    SizeIs(n, ss, acts, hs, k);
    if k == 0 {
      StartsPrompt(n, ss, acts, i);
    } else {
      PromptAt(n, ss, acts, hs, k - 1, i);
      RunShape(n, ss, acts);
      RunStep(n, ss, acts, hs, k - 1);
      LogsSorted(n, ss, acts, k, i);
      PromptStep(ss[k - 1], hs[k - 1], acts[k - 1], i);
    }
  }

  lemma StartsPrompt(n: nat, ss: seq<State>, acts: seq<Action>, i: nat)
    requires IsRun(n, ss, acts) && i < n
    ensures i < |ss[0].nodes| && Prompt(ss[0].nodes[i])
  {
  }

  /**
   * In every state of every run, a candidate has counted the votes of no more than half of the nodes:
   * with one vote more than that it leads.
   */
  lemma WinnersLead(n: nat, ss: seq<State>, acts: seq<Action>, k: nat, i: nat)
    requires IsRun(n, ss, acts) && k < |ss| && i < |ss[k].nodes| && ss[k].nodes[i].role == Candidate
    ensures k <= |acts| && forall j :: 0 <= j <= k ==> i < |ss[j].nodes|
    ensures 2 * |Counted(ss, acts, k, i)| <= n
  {
    hide Inv, Rel, Grows, Backs, CreditedRun, IsRun, StepAt, Counted;
    var hs := RunHasHistory(n, ss, acts);
    SizeIs(n, ss, acts, hs, k);
    Backed(ss, hs, k);
    PromptAt(n, ss, acts, hs, k, i);
    VotesAreDistinctVoters(n, ss, acts, k, i);
    NodeSize(ss[k], hs[k], i);
  }

  lemma NodeSize(s: State, h: History, i: nat)
    requires Rel(s, h) && i < |s.nodes|
    ensures s.nodes[i].size == |s.nodes| && s.nodes[i].id == i
  {
    assert NodeRel(s.nodes[i], h, i);
  }

  /**
   * In every state of every run, an entry of a leader's own term that the leader knows to be held by
   * more than half of the nodes is committed at the leader, and the leader points clients to itself.
   */
  lemma LeadersCommitAtOnce(n: nat, ss: seq<State>, acts: seq<Action>, k: nat, i: nat, x: nat)
    requires IsRun(n, ss, acts) && k < |ss| && i < |ss[k].nodes| && ss[k].nodes[i].role == Leader
    requires x < |ss[k].nodes[i].log| && ss[k].nodes[i].log[x].term == ss[k].nodes[i].currentTerm
    requires 2 * |set p: nat | p < |ss[k].nodes[i].matchIndex| && ss[k].nodes[i].matchIndex[p] >= x| > n
    ensures x <= ss[k].nodes[i].commitIndex && ss[k].nodes[i].leaderHint == i
  {
    hide Inv, Rel, Grows, Backs, CreditedRun, IsRun, StepAt;
    var hs := RunHasHistory(n, ss, acts);
    SizeIs(n, ss, acts, hs, k);
    Backed(ss, hs, k);
    PromptAt(n, ss, acts, hs, k, i);
    NodeSize(ss[k], hs[k], i);
    var m := ss[k].nodes[i];
    assert Replicas(m.matchIndex, x) == set p: nat | p < |m.matchIndex| && m.matchIndex[p] >= x;
    assert Replicated(m, x);
  }
}
