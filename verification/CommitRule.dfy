/**
 * The follower's commit rule over whole runs. The rule of src/raft.cpp:332-335 takes the smaller of
 * the leader's commit index and the follower's last index, although the request may cover less than
 * either. All commit indexes of a run agree if and only if each raise lands on an entry that has the
 * term the leader's log had there; staying inside the request is a sufficient condition.
 */
module CommitRule {
  import opened Types
  import opened Messages
  import opened Node
  import opened Cluster
  import opened Protocol
  import opened Simulation
  import opened Runs
  import opened Commit

  // ----- what is being decided -----

  /** Two nodes, at any two moments of the run, have the same log as far as both call committed. */
  ghost predicate CommitsAgree(ss: seq<State>)
  {
    && (forall k, i :: 0 <= k < |ss| && 0 <= i < |ss[k].nodes| ==>
          ss[k].nodes[i].commitIndex < |ss[k].nodes[i].log|)
    && (forall j, k, a, b :: 0 <= j < |ss| && 0 <= k < |ss| && 0 <= a < |ss[j].nodes| && 0 <= b < |ss[k].nodes| ==>
          LogsAgree(ss[j].nodes[a], ss[k].nodes[b]))
  }

  predicate LogsAgree(a: Node, b: Node)
  {
    Agree(a.log, b.log, Min(a.commitIndex, b.commitIndex))
  }

  // ----- the condition -----

  /** In state s the leader builds exactly this request for peer p. */
  predicate Builds(s: State, p: nat, a: AppendArgs)
  {
    && a.leaderId < |s.nodes|
    && var m := s.nodes[a.leaderId];
       && m.role == Leader
       && p < |m.nextIndex| && 1 <= m.nextIndex[p] <= |m.log|
       && a == BuildAppend(m, p)
  }

  /** At step j the leader makes this call: it sends exactly this request to peer p. */
  ghost predicate SentAt(ss: seq<State>, acts: seq<Action>, j: nat, call: nat, p: nat, a: AppendArgs)
  {
    && j < |acts| && |ss| == |acts| + 1
    && acts[j] == Send(a.leaderId, p) && ss[j].serial == call && Builds(ss[j], p, a)
  }

  /** If node m would accept the request and raise its commit index, then to an entry that has the
      term of the leader's entry at that index. */
  predicate RaisesToTermOf(m: Node, a: AppendArgs, leader: Log)
  {
    Accepts(m, a) ==>
      var l := Merge(m.log, a.prevLogIndex, a.entries);
      |l| >= 1 &&
      var c := FollowerCommit(m.commitIndex, a.leaderCommit, l);
      c != m.commitIndex ==> c < |leader| && l[c].term == leader[c].term
  }

  /** The condition on step k: if it hands a request to a node, the node as it is before the step
      meets the above with the log the leader had when it sent the request. */
  ghost predicate TermMatched(ss: seq<State>, acts: seq<Action>, k: nat)
    requires k < |acts| && |ss| == |acts| + 1 && StepAt(ss, acts, k)
  {
    acts[k].Local? && acts[k].op.HandleAppend? ==>
      var a := acts[k].op.aargs;
      exists j: nat :: j < k && SentAt(ss, acts, j, acts[k].call, acts[k].i, a)
                       && RaisesToTermOf(ss[k].nodes[acts[k].i], a, ss[j].nodes[a.leaderId].log)
  }

  /** The two logs have the same term at the first node's commit index. */
  predicate SameTermAt(m: Node, leader: Node)
  {
    && m.commitIndex < |m.log| && m.commitIndex < |leader.log|
    && m.log[m.commitIndex].term == leader.log[m.commitIndex].term
  }

  /** The condition says what the step does. */
  lemma RaiseSeen(m: Node, a: AppendArgs, leader: Node)
    requires m.Wf()
    ensures RaisesToTermOf(m, a, leader.log) <==> (Raises(m, a) ==> SameTermAt(OnAppendEntries(m, a).0, leader))
  {
    hide FirstNew;
    if Accepts(m, a) { MergeKeepsSentinel(m.log, a.prevLogIndex, a.entries); }
  }

  ghost predicate TermMatchedRun(ss: seq<State>, acts: seq<Action>)
  {
    && |ss| == |acts| + 1
    && forall k :: 0 <= k < |acts| ==> StepAt(ss, acts, k) && TermMatched(ss, acts, k)
  }

  /** What a step that handles an AppendEntries request does to the node that handles it. */
  lemma AppendStep(ss: seq<State>, acts: seq<Action>, k: nat)
    requires k < |acts| && |ss| == |acts| + 1 && StepAt(ss, acts, k)
    requires acts[k].Local? && acts[k].op.HandleAppend?
    ensures |ss[k].servers| == |ss[k].nodes| && Enabled(ss[k], acts[k]) && ss[k + 1] == Next(ss[k], acts[k])
    ensures var i, a := acts[k].i, acts[k].op.aargs;
            && i < |ss[k].nodes| && i < |ss[k + 1].nodes| && ss[k].nodes[i].Wf()
            && ss[k + 1].nodes[i] == OnAppendEntries(ss[k].nodes[i], a).0
            && AppendReq(acts[k].call, i, a) in ss[k].sent
  {
  }

  // ----- requests come from leaders -----

  /** Every AppendEntries request of a run was built by its leader at some earlier step. */
  lemma {:induction false} RequestsAreSent(n: nat, ss: seq<State>, acts: seq<Action>, hs: seq<History>,
                                           k: nat, call: nat, p: nat, a: AppendArgs)
    returns (j: nat)
    requires IsRun(n, ss, acts) && Backs(ss, hs) && k < |ss| && AppendReq(call, p, a) in ss[k].sent
    ensures j < k && SentAt(ss, acts, j, call, p, a)
    decreases k
  {
    hide Inv, Rel, Next, Enabled, Grows;
    assert k > 0;
    assert StepAt(ss, acts, k - 1);
    if AppendReq(call, p, a) in ss[k - 1].sent {
      j := RequestsAreSent(n, ss, acts, hs, k - 1, call, p, a);
    } else {
      j := k - 1;
      SenderIsSelf(ss[j], hs[j], acts[j], call, p, a);
    }
  }

  lemma SenderIsSelf(s: State, h: History, act: Action, call: nat, p: nat, a: AppendArgs)
    requires Rel(s, h) && Enabled(s, act)
    requires AppendReq(call, p, a) in Next(s, act).sent && AppendReq(call, p, a) !in s.sent
    ensures act == Send(a.leaderId, p) && s.serial == call && Builds(s, p, a)
  {
    if act.Send? {
      assert NodeRel(s.nodes[act.i], h, act.i);
    }
  }

  // ----- the condition is necessary -----

  lemma CommitsAgreeAt(ss: seq<State>, j: nat, a: nat, k: nat, b: nat)
    requires CommitsAgree(ss) && j < |ss| && k < |ss| && a < |ss[j].nodes| && b < |ss[k].nodes|
    ensures LogsAgree(ss[j].nodes[a], ss[k].nodes[b])
  {
  }

  lemma CommitsAgreeNeedsTerms(n: nat, ss: seq<State>, acts: seq<Action>, k: nat)
    requires IsRun(n, ss, acts) && CommitsAgree(ss) && k < |acts|
    ensures StepAt(ss, acts, k) && TermMatched(ss, acts, k)
  {
    hide Inv, Rel, Grows, CommitsAgree, OnAppendEntries, StepAt, RaisesToTermOf;
    assert StepAt(ss, acts, k);
    if acts[k].Local? && acts[k].op.HandleAppend? {
      AppendStep(ss, acts, k);
      var i, a := acts[k].i, acts[k].op.aargs;
      var m := ss[k].nodes[i];
      var hs := RunHasHistory(n, ss, acts);
      var j := RequestsAreSent(n, ss, acts, hs, k, acts[k].call, i, a);
      RaiseSeen(m, a, ss[j].nodes[a.leaderId]);
      if Raises(m, a) {
        CommitsAgreeAt(ss, k + 1, i, j, a.leaderId);
        RaisedSameTerm(m, a, ss[j].nodes[a.leaderId]);
      }
      assert RaisesToTermOf(m, a, ss[j].nodes[a.leaderId].log);
    }
  }

  lemma RaisedSameTerm(m: Node, a: AppendArgs, leader: Node)
    requires m.Wf() && Raises(m, a) && a.leaderCommit == leader.commitIndex
    requires LogsAgree(OnAppendEntries(m, a).0, leader)
    ensures SameTermAt(OnAppendEntries(m, a).0, leader)
  {
    var m' := OnAppendEntries(m, a).0;
    AgreeBelow(m'.log, leader.log, m'.commitIndex, m'.commitIndex);
  }

  // ----- the condition is sufficient -----

  /** Equal terms at the new commit index make the follower's log agree with the leader's. */
  lemma TermsMakeMatch(n: nat, ss: seq<State>, acts: seq<Action>, hs: seq<History>, k: nat)
    requires IsRun(n, ss, acts) && Backs(ss, hs) && k < |acts| && StepAt(ss, acts, k) && TermMatched(ss, acts, k)
    ensures Matched(ss[k], acts[k], hs[k + 1])
  {
    hide Inv, Rel, Grows, OnAppendEntries, StepAt, RaisesToTermOf;
    if acts[k].Local? && acts[k].op.HandleAppend? {
      AppendStep(ss, acts, k);
      var i, a := acts[k].i, acts[k].op.aargs;
      var j: nat :| j < k && SentAt(ss, acts, j, acts[k].call, i, a)
                    && RaisesToTermOf(ss[k].nodes[i], a, ss[j].nodes[a.leaderId].log);
      RaiseSeen(ss[k].nodes[i], a, ss[j].nodes[a.leaderId]);
      if Raises(ss[k].nodes[i], a) {
        assert Grows(hs[j], hs[k + 1]);
        SameTermMatches(ss[j], hs[j], a.leaderId, ss[k + 1], hs[k + 1], i);
      }
    }
  }

  lemma SameTermMatches(s: State, h: History, leader: nat, s': State, h': History, i: nat)
    requires Inv(h) && Rel(s, h) && Inv(h') && Rel(s', h') && Grows(h, h')
    requires leader < |s.nodes| && s.nodes[leader].role == Leader && i < |s'.nodes|
    requires SameTermAt(s'.nodes[i], s.nodes[leader])
    ensures var t := s.nodes[leader].currentTerm;
            t in h'.reigns && Agree(s'.nodes[i].log, h'.reigns[t].log, s'.nodes[i].commitIndex)
  {
    hide Inv, Rel, LogOk;
    LeaderLogInReign(s, h, leader);
    NodeInHistory(s', h', i);
    ReignFact(h', s.nodes[leader].currentTerm);
    LogMatching(h'.reigns, s'.nodes[i].log, h'.reigns[s.nodes[leader].currentTerm].log, s'.nodes[i].commitIndex);
  }

  lemma LeaderLogInReign(s: State, h: History, i: nat)
    requires Inv(h) && Rel(s, h) && i < |s.nodes| && s.nodes[i].role == Leader
    ensures s.nodes[i].currentTerm in h.reigns && h.reigns[s.nodes[i].currentTerm].leader == i
    ensures h.reigns[s.nodes[i].currentTerm].log == s.nodes[i].log
  {
    hide Inv;
    assert NodeRel(s.nodes[i], h, i);
    NodeFact(h, i);
  }

  lemma NodeInHistory(s: State, h: History, i: nat)
    requires Inv(h) && Rel(s, h) && i < |s.nodes|
    ensures i < |h.log| && h.log[i] == s.nodes[i].log && i < |h.term| && h.term[i] == s.nodes[i].currentTerm
    ensures LogOk(h.reigns, s.nodes[i].log)
  {
    hide Inv;
    assert NodeRel(s.nodes[i], h, i);
    NodeFact(h, i);
  }

  ghost predicate CommitBacks(ss: seq<State>, hs: seq<History>)
  {
    |hs| == |ss| && forall k :: 0 <= k < |ss| ==> CommitRel(ss[k], hs[k])
  }

  lemma StepTaken(ss: seq<State>, acts: seq<Action>, k: nat)
    requires k < |acts| && |ss| == |acts| + 1 && StepAt(ss, acts, k)
    ensures |ss[k].servers| == |ss[k].nodes| && Enabled(ss[k], acts[k]) && ss[k + 1] == Next(ss[k], acts[k])
  {
    hide Enabled, Next;
  }

  lemma StartIsSafe(n: nat, h: History)
    ensures CommitRel(Init(n), h)
  {
  }

  lemma {:induction false} CommitRelAt(n: nat, ss: seq<State>, acts: seq<Action>, hs: seq<History>, k: nat)
    requires IsRun(n, ss, acts) && Backs(ss, hs) && CreditedRun(ss, acts, hs) && k < |ss|
    requires TermMatchedRun(ss, acts)
    ensures CommitRel(ss[k], hs[k])
  {
    hide Inv, Rel, Credited, TermMatched, Matched, StepAt, Next, Enabled, Grows, CommitRel, Init;
    if k == 0 {
      StartIsSafe(n, hs[0]);
    } else {
      CommitRelAt(n, ss, acts, hs, k - 1);
      assert StepAt(ss, acts, k - 1) && TermMatched(ss, acts, k - 1);
      StepTaken(ss, acts, k - 1);
      assert Credited(ss[k - 1], acts[k - 1], hs[k]);
      TermsMakeMatch(n, ss, acts, hs, k - 1);
      CommitStep(ss[k - 1], hs[k - 1], acts[k - 1], hs[k]);
    }
  }

  /** A run that meets the condition has a history under which every commit index is safe. */
  lemma SafeHistory(n: nat, ss: seq<State>, acts: seq<Action>) returns (hs: seq<History>)
    requires IsRun(n, ss, acts) && TermMatchedRun(ss, acts)
    ensures Backs(ss, hs) && CommitBacks(ss, hs)
  {
    hide Inv, Rel, Credited;
    hs := RunHasHistory(n, ss, acts);
    forall k | 0 <= k < |ss| ensures CommitRel(ss[k], hs[k]) {
      CommitRelAt(n, ss, acts, hs, k);
    }
  }

  /** Two safe prefixes, of any two nodes at any two moments, agree. */
  lemma SafeLogsAgree(h: History, h': History, a: nat, b: nat, c: nat, d: nat, e: nat)
    requires Inv(h) && Inv(h') && Grows(h, h') && a < |h.term| && b < |h.term|
    requires Safe(h, a, c) && Safe(h', b, d) && e <= c && e <= d
    ensures Agree(h.log[a], h'.log[b], e)
  {
    hide Inv;
    ShapeFact(h);
    ShapeFact(h');
    if c > 0 && d > 0 {
      var t, u, n :| SafeBy(h, a, c, t, u, n);
      var t', u', n' :| SafeBy(h', b, d, t', u', n');
      SafeByHolds(h, a, c, t, u, n);
      SafeByHolds(h', b, d, t', u', n');
      CommittedGrows(h, h', u, n);
      CommittedAgree(h', u, n, u', n', e);
      AgreeBelow(h.log[a], h.reigns[u].log, c, e);
      AgreeExtends(h.log[a], h.reigns[u].log, h.log[a], h'.reigns[u].log, e);
      AgreeBelow(h'.log[b], h'.reigns[u'].log, d, e);
      AgreeTransitive(h.log[a], h'.reigns[u].log, h'.reigns[u'].log, e);
    } else {
      Sentinels(h, a);
      Sentinels(h', b);
    }
  }

  lemma TermsMakeCommitsAgree(n: nat, ss: seq<State>, acts: seq<Action>)
    requires IsRun(n, ss, acts) && TermMatchedRun(ss, acts)
    ensures CommitsAgree(ss)
  {
    hide Inv, Rel, TermMatchedRun;
    var hs := SafeHistory(n, ss, acts);
    forall k, i | 0 <= k < |ss| && 0 <= i < |ss[k].nodes| ensures ss[k].nodes[i].commitIndex < |ss[k].nodes[i].log| {
      NodeInHistory(ss[k], hs[k], i);
      assert CommitRel(ss[k], hs[k]);
      SafeInLog(hs[k], i, ss[k].nodes[i].commitIndex);
    }
    forall j, k, a, b | 0 <= j < |ss| && 0 <= k < |ss| && 0 <= a < |ss[j].nodes| && 0 <= b < |ss[k].nodes|
      ensures LogsAgree(ss[j].nodes[a], ss[k].nodes[b])
    {
      if j <= k {
        SafeNodesAgree(ss, hs, j, a, k, b);
      } else {
        SafeNodesAgree(ss, hs, k, b, j, a);
      }
    }
  }

  lemma SafeNodesAgree(ss: seq<State>, hs: seq<History>, j: nat, a: nat, k: nat, b: nat)
    requires Backs(ss, hs) && CommitBacks(ss, hs) && j <= k < |ss| && a < |ss[j].nodes| && b < |ss[k].nodes|
    ensures LogsAgree(ss[j].nodes[a], ss[k].nodes[b])
  {
    hide Inv, Rel;
    var m, m' := ss[j].nodes[a], ss[k].nodes[b];
    NodeInHistory(ss[j], hs[j], a);
    NodeInHistory(ss[k], hs[k], b);
    assert CommitRel(ss[j], hs[j]) && CommitRel(ss[k], hs[k]) && Grows(hs[j], hs[k]);
    SafeLogsAgree(hs[j], hs[k], a, b, m.commitIndex, m'.commitIndex, Min(m.commitIndex, m'.commitIndex));
  }

  /**
   * The commit indexes of a run agree if and only if every raise of a follower's commit index lands
   * on an entry with the term the leader's log had there.
   */
  lemma CommitRuleExact(n: nat, ss: seq<State>, acts: seq<Action>)
    requires IsRun(n, ss, acts)
    ensures CommitsAgree(ss) <==> TermMatchedRun(ss, acts)
  {
    if CommitsAgree(ss) {
      forall k | 0 <= k < |acts| ensures StepAt(ss, acts, k) && TermMatched(ss, acts, k) {
        CommitsAgreeNeedsTerms(n, ss, acts, k);
      }
    }
    if TermMatchedRun(ss, acts) {
      TermsMakeCommitsAgree(n, ss, acts);
    }
  }

  // ----- a condition on the request alone -----

  /** The rule of Figure 2 of the Raft paper would make no difference: if the node accepts and the
      leader is ahead, nothing it would newly call committed lies behind the entries of the request. */
  predicate Covers(m: Node, a: AppendArgs)
  {
    Accepts(m, a) && a.leaderCommit > m.commitIndex ==>
      Min(a.leaderCommit, |Merge(m.log, a.prevLogIndex, a.entries)| - 1) <= a.prevLogIndex + |a.entries|
  }

  ghost predicate CoveredRun(ss: seq<State>, acts: seq<Action>)
  {
    && |ss| == |acts| + 1
    && forall k :: 0 <= k < |acts| ==> StepAt(ss, acts, k) && CoveredAt(ss, acts, k)
  }

  ghost predicate CoveredAt(ss: seq<State>, acts: seq<Action>, k: nat)
    requires k < |acts| && |ss| == |acts| + 1 && StepAt(ss, acts, k)
  {
    acts[k].Local? && acts[k].op.HandleAppend? ==> Covers(ss[k].nodes[acts[k].i], acts[k].op.aargs)
  }

  lemma CoveredMatches(n: nat, ss: seq<State>, acts: seq<Action>, hs: seq<History>, k: nat)
    requires IsRun(n, ss, acts) && Backs(ss, hs) && k < |acts| && StepAt(ss, acts, k) && CoveredAt(ss, acts, k)
    ensures TermMatched(ss, acts, k)
  {
    hide Inv, Rel, Grows, OnAppendEntries, StepAt, RaisesToTermOf;
    if acts[k].Local? && acts[k].op.HandleAppend? {
      AppendStep(ss, acts, k);
      var i, a := acts[k].i, acts[k].op.aargs;
      var j := RequestsAreSent(n, ss, acts, hs, k, acts[k].call, i, a);
      RaiseSeen(ss[k].nodes[i], a, ss[j].nodes[a.leaderId]);
      if Raises(ss[k].nodes[i], a) {
        assert Grows(hs[j], hs[k]);
        CoveredSameTerm(ss[j], hs[j], ss[k], hs[k], i, a, acts[k].call);
      }
      assert RaisesToTermOf(ss[k].nodes[i], a, ss[j].nodes[a.leaderId].log);
    }
  }

  lemma CoveredSameTerm(s: State, h: History, s': State, h': History, i: nat, a: AppendArgs, call: nat)
    requires Inv(h) && Rel(s, h) && Inv(h') && Rel(s', h') && Grows(h, h')
    requires Builds(s, i, a) && i < |s'.nodes| && AppendReq(call, i, a) in s'.sent
    requires s'.nodes[i].Wf() && Raises(s'.nodes[i], a) && Covers(s'.nodes[i], a)
    ensures SameTermAt(OnAppendEntries(s'.nodes[i], a).0, s.nodes[a.leaderId])
  {
    hide Inv, LogOk, Merge;
    var m := s'.nodes[i];
    var m' := OnAppendEntries(m, a).0;
    LeaderLogInReign(s, h, a.leaderId);
    assert NodeRel(m, h', i) && RequestRel(h', AppendReq(call, i, a));
    MergeAgrees(m, h', i, a);
    AgreeBelow(m'.log, h'.reigns[a.term].log, a.prevLogIndex + |a.entries|, m'.commitIndex);
    BuiltCovers(s.nodes[a.leaderId], i);
  }

  lemma BuiltCovers(m: Node, p: nat)
    requires p < |m.nextIndex| && 1 <= m.nextIndex[p] <= |m.log|
    ensures var a := BuildAppend(m, p); a.prevLogIndex + |a.entries| < |m.log|
  {
  }

  lemma CoveredIsTermMatched(n: nat, ss: seq<State>, acts: seq<Action>)
    requires IsRun(n, ss, acts) && CoveredRun(ss, acts)
    ensures TermMatchedRun(ss, acts)
  {
    hide Inv, Rel, CoveredAt, TermMatched;
    var hs := RunHasHistory(n, ss, acts);
    forall k | 0 <= k < |acts| ensures StepAt(ss, acts, k) && TermMatched(ss, acts, k) {
      assert StepAt(ss, acts, k) && CoveredAt(ss, acts, k);
      CoveredMatches(n, ss, acts, hs, k);
    }
  }
}
