/**
 * The same results from a condition on the requests alone: every request a node accepts calls nothing
 * committed that lies behind its entries. This is the rule of Figure 2 of the Raft paper, which
 * src/raft.cpp:332-335 does not enforce.
 */
module Covered {
  import opened Types
  import opened Messages
  import opened Node
  import opened Cluster
  import opened CommitRule
  import opened Theorems
  import opened Schedules
  import opened KeyValue
  import opened Waiters

  /** Every accepted request has leaderCommit <= prevLogIndex + |entries|. */
  ghost predicate WithinBatches(ss: seq<State>, acts: seq<Action>)
  {
    && |ss| == |acts| + 1
    && forall k :: 0 <= k < |acts| ==> StepAt(ss, acts, k) && WithinBatch(ss[k], acts[k])
  }

  predicate WithinBatch(s: State, a: Action)
  {
    a.Local? && a.op.HandleAppend? && a.i < |s.nodes| && Accepts(s.nodes[a.i], a.op.aargs) ==>
      a.op.aargs.leaderCommit <= a.op.aargs.prevLogIndex + |a.op.aargs.entries|
  }

  lemma WithinIsCovered(ss: seq<State>, acts: seq<Action>)
    requires WithinBatches(ss, acts)
    ensures CoveredRun(ss, acts)
  {
    hide Next, Merge;
    forall k | 0 <= k < |acts| ensures StepAt(ss, acts, k) && CoveredAt(ss, acts, k) {
      assert StepAt(ss, acts, k) && WithinBatch(ss[k], acts[k]);
    }
  }

  /** Such a run meets the exact condition. */
  lemma Meets(n: nat, ss: seq<State>, acts: seq<Action>)
    requires IsRun(n, ss, acts) && (WithinBatches(ss, acts) || CoveredRun(ss, acts))
    ensures TermMatchedRun(ss, acts)
  {
    hide IsRun, CoveredRun, TermMatchedRun, WithinBatches;
    if WithinBatches(ss, acts) { WithinIsCovered(ss, acts); }
    CoveredIsTermMatched(n, ss, acts);
  }

  lemma NeverApplyDifferently(n: nat, ss: seq<State>, acts: seq<Action>)
    requires IsRun(n, ss, acts) && (WithinBatches(ss, acts) || CoveredRun(ss, acts))
    ensures forall j, a, k, b :: !AppliesDifferently(ss, acts, j, a, k, b)
    ensures !CanDiffer(n, Core(acts))
  {
    hide IsRun, CoveredRun, TermMatchedRun, WithinBatches, AppliesDifferently, CanDiffer;
    Meets(n, ss, acts);
    SafetyIsExact(n, ss, acts);
    forall j, a, k, b ensures !AppliesDifferently(ss, acts, j, a, k, b) {
      StateMachineSafety(n, ss, acts, j, a, k, b);
    }
  }

  lemma CommittedEntriesStay(n: nat, ss: seq<State>, acts: seq<Action>, j: nat, k: nat, i: nat)
    requires IsRun(n, ss, acts) && (WithinBatches(ss, acts) || CoveredRun(ss, acts))
    requires j <= k < |ss| && i < |ss[j].nodes|
    ensures i < |ss[k].nodes| && ss[k].nodes[i].lastApplied <= ss[k].nodes[i].commitIndex < |ss[k].nodes[i].log|
    ensures Agree(ss[j].nodes[i].log, ss[k].nodes[i].log, ss[j].nodes[i].commitIndex)
  {
    hide IsRun, CoveredRun, TermMatchedRun, WithinBatches;
    Meets(n, ss, acts);
    CommittedStays(n, ss, acts, j, k, i);
    ApplierInRange(n, ss, acts, k, i);
  }

  lemma RepliesAreReplays(n: nat, ss: seq<State>, acts: seq<Action>, k: nat, i: nat, c: Handler, r: Answer)
    requires IsRun(n, ss, acts) && (WithinBatches(ss, acts) || CoveredRun(ss, acts))
    requires Answers(ss, acts, k, i, c, r) && !IsError(r)
    ensures i < |ss[k].nodes| && 1 <= c.index <= ss[k].nodes[i].commitIndex < |ss[k].nodes[i].log|
    ensures forall j, b :: 0 <= j < |ss| && 0 <= b < |ss[j].nodes| && ss[j].nodes[b].commitIndex >= c.index ==>
              Replayed(ss[j].nodes[b].log, c, r)
  {
    hide IsRun, CoveredRun, TermMatchedRun, WithinBatches, Replayed, Answers;
    Meets(n, ss, acts);
    AnswersAreReplays(n, ss, acts, k, i, c, r);
  }

  lemma RepliesAreOrdered(n: nat, ss: seq<State>, acts: seq<Action>,
                          j: nat, a: nat, c: Handler, r: Answer, k: nat, b: nat, d: Handler, q: Answer)
    requires IsRun(n, ss, acts) && (WithinBatches(ss, acts) || CoveredRun(ss, acts)) && j <= k
    requires Answers(ss, acts, j, a, c, r) && !IsError(r)
    requires Answers(ss, acts, k, b, d, q) && !IsError(q) && acts[k].ticket >= ss[j].tickets
    ensures d.index > c.index
  {
    hide IsRun, CoveredRun, TermMatchedRun, WithinBatches;
    Meets(n, ss, acts);
    RepliesRespectRealTime(n, ss, acts, j, a, c, r, k, b, d, q);
  }

  lemma LostStaysLost(n: nat, ss: seq<State>, acts: seq<Action>, k: nat, i: nat, c: Handler, j: nat, b: nat)
    requires IsRun(n, ss, acts) && (WithinBatches(ss, acts) || CoveredRun(ss, acts))
    requires Answers(ss, acts, k, i, c, LostLeadership)
    requires j < |acts| && j < |ss| && acts[j] == StoreFetched(b) && b < |ss[j].servers|
    requires ss[j].servers[b].applier.Fetched? && ss[j].servers[b].applier.index == c.index
    ensures ss[j].servers[b].applier.entry.term != c.term
  {
    hide IsRun, CoveredRun, TermMatchedRun, WithinBatches, Answers;
    Meets(n, ss, acts);
    LostEntriesAreNeverApplied(n, ss, acts, k, i, c, j, b);
  }

  lemma CommitNeverFalls(n: nat, ss: seq<State>, acts: seq<Action>, k: nat, i: nat)
    requires IsRun(n, ss, acts) && (WithinBatches(ss, acts) || CoveredRun(ss, acts))
    requires k < |acts| && k < |ss| && i < |ss[k].nodes| && !(acts[k].Crash? && acts[k].i == i)
    ensures k + 1 < |ss| && i < |ss[k + 1].nodes| && ss[k + 1].nodes[i].commitIndex >= ss[k].nodes[i].commitIndex
  {
    hide IsRun, CoveredRun, TermMatchedRun, WithinBatches;
    Meets(n, ss, acts);
    RunShape(n, ss, acts);
    CommitIndexNeverFalls(n, ss, acts, k, i);
  }

  lemma RepliesHaveOwnIndexes(n: nat, ss: seq<State>, acts: seq<Action>,
                              j: nat, a: nat, c: Handler, r: Answer, k: nat, b: nat, d: Handler, q: Answer)
    requires IsRun(n, ss, acts) && (WithinBatches(ss, acts) || CoveredRun(ss, acts))
    requires Answers(ss, acts, j, a, c, r) && !IsError(r)
    requires Answers(ss, acts, k, b, d, q) && !IsError(q) && acts[j].ticket != acts[k].ticket
    ensures c.index != d.index
  {
    hide IsRun, CoveredRun, TermMatchedRun, WithinBatches;
    Meets(n, ss, acts);
    AnswersHaveOwnIndexes(n, ss, acts, j, a, c, r, k, b, d, q);
  }

  lemma RepliesReadLastSets(n: nat, ss: seq<State>, acts: seq<Action>, k: nat, i: nat, c: Handler, r: Answer)
    requires IsRun(n, ss, acts) && (WithinBatches(ss, acts) || CoveredRun(ss, acts))
    requires Answers(ss, acts, k, i, c, r) && !IsError(r)
    ensures forall j, b :: 0 <= j < |ss| && 0 <= b < |ss[j].nodes| && ss[j].nodes[b].commitIndex >= c.index ==>
              ReadsLastSet(ss[j].nodes[b].log, c, r)
  {
    hide IsRun, CoveredRun, TermMatchedRun, WithinBatches, ReadsLastSet, Answers;
    Meets(n, ss, acts);
    AnswersReadLastSets(n, ss, acts, k, i, c, r);
  }

  lemma AppliedGetsReported(n: nat, ss: seq<State>, acts: seq<Action>, j: nat, m: nat, k: nat,
                            i: nat, t: nat, e: LogEntry, c: Handler, r: Answer)
    requires IsRun(n, ss, acts) && (WithinBatches(ss, acts) || CoveredRun(ss, acts))
    requires Parks(ss, acts, j, i, t) && j < m < k && Tells(ss, acts, m, i, c.index, e)
    requires Answers(ss, acts, k, i, c, r) && acts[k].ticket == t && Undisturbed(ss, acts, j + 1, k, i, c.index)
    ensures r != CommitTimeout && (IsError(r) <==> e.term != c.term)
  {
    hide IsRun, CoveredRun, TermMatchedRun, WithinBatches, Parks, Tells, Undisturbed;
    Meets(n, ss, acts);
    AppliedIsReported(n, ss, acts, j, m, k, i, t, e, c, r);
  }
}
