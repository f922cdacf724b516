/**
 * What commit indexes mean. Leaders raise theirs only over entries a majority holds, without any
 * further condition. Followers clamp the leader's commit index to the end of their own log, so
 * theirs is safe only when it lands where their log agrees with the leader's; module CommitRule
 * says exactly when that is.
 */
module Commit {
  import opened Types
  import opened Messages
  import opened Node
  import opened Cluster
  import opened Protocol
  import opened Simulation
  import opened Runs

  // ----- leaders -----

  /** Index n of leader m has the leader's term and is recorded as held by more than half. */
  predicate Replicated(m: Node, n: nat)
  {
    n < |m.log| && m.log[n].term == m.currentTerm && 2 * |Replicas(m.matchIndex, n)| > m.size
  }

  lemma ScanCommitResult(m: Node, n: nat)
    requires n < |m.log|
    ensures var r := ScanCommit(m, n);
            r == m.commitIndex || (m.commitIndex < r <= n && Replicated(m, r))
  {
  }

  predicate Sorted(l: Log)
  {
    forall j, k :: 0 <= j <= k < |l| ==> l[j].term <= l[k].term
  }

  /** On a log with non-decreasing terms up to the current one, stopping at the first older entry
      loses nothing: the scan finds the greatest index a majority holds. */
  lemma {:induction false} ScanCommitIsGreatest(m: Node, n: nat, k: nat)
    requires n < |m.log| && Sorted(m.log)
    requires forall j :: 0 <= j < |m.log| ==> m.log[j].term <= m.currentTerm
    requires m.commitIndex < k <= n && Replicated(m, k)
    ensures k <= ScanCommit(m, n) <= n && Replicated(m, ScanCommit(m, n))
  {
    assert m.log[k].term <= m.log[n].term;
    if |Replicas(m.matchIndex, n)| < m.MajoritySize() {
      ScanCommitIsGreatest(m, n - 1, k);
    }
  }

  /** A leader's commit index that an operation raised is held by a majority. */
  lemma RaisedByLeader(m: Node, op: Op)
    requires Callable(m, op)
    requires Perform(m, op).role == Leader && Perform(m, op).commitIndex != m.commitIndex
    ensures Perform(m, op).commitIndex > m.commitIndex
    ensures Replicated(Perform(m, op), Perform(m, op).commitIndex)
  {
    hide ScanCommit, BecomeLeader, Merge, FirstNew, ConflictStart;
    match op {
      case Timeout =>
        var m1 := m.(role := Candidate, currentTerm := m.currentTerm + 1, votedFor := m.id,
                     leaderHint := -1, votesReceived := 1);
        RaisedByElection(m1);
      case VoteReplied(p, a, r) =>
        RaisedByElection(m.(votesReceived := m.votesReceived + 1));
      case AppendReplied(p, a, r) =>
        var k: nat := Max(m.matchIndex[p], a.prevLogIndex + |a.entries|);
        var m1 := m.(matchIndex := m.matchIndex[p := k], nextIndex := m.nextIndex[p := k + 1]);
        ScanCommitResult(m1, |m1.log| - 1);
      case SubmitCommand(c) =>
        var m1 := m.(log := m.log + [LogEntry(m.currentTerm, c)], matchIndex := m.matchIndex[m.id := |m.log|]);
        ScanCommitResult(m1, |m1.log| - 1);
      case HandleVote(a) =>
      case HandleAppend(a) =>
      case Idle =>
    }
  }

  lemma RaisedByElection(m: Node)
    requires m.Wf()
    ensures var m' := BecomeLeader(m);
            m'.commitIndex != m.commitIndex ==>
              m'.commitIndex > m.commitIndex && Replicated(m', m'.commitIndex)
  {
    hide ScanCommit;
    var l := m.log + [NoOp(m.currentTerm)];
    var m1 := m.(role := Leader, leaderHint := m.id, nextIndex := seq(m.size, i => |m.log|),
                 matchIndex := seq(m.size, i => 0)[m.id := |m.log|], log := l);
    ScanCommitResult(m1, |m1.log| - 1);
  }

  /** What a leader records as replicated is committed in the sense of the protocol. */
  lemma ReplicatedIsCommitted(m: Node, h: History, i: nat, n: nat)
    requires Inv(h) && NodeRel(m, h, i) && m.role == Leader && n >= 1 && Replicated(m, n)
    ensures m.currentTerm in h.reigns && h.reigns[m.currentTerm].log == m.log
    ensures Committed(h, m.currentTerm, n)
  {
    hide Inv;
    NodeFact(h, i);
    var q := Replicas(m.matchIndex, n);
    forall p | p in q ensures Ack(m.currentTerm, p, n) in h.acks {
      assert MatchRel(h, m.currentTerm, p, m.nextIndex[p], m.matchIndex[p], |m.log|);
    }
    assert Majority(q, |h.term|) && HeldBy(h, m.currentTerm, n, q);
  }

  // ----- committed prefixes -----

  /** Any two committed stretches agree where both reach. */
  lemma CommittedAgree(h: History, t: nat, n: nat, u: nat, k: nat, c: nat)
    requires Inv(h) && Committed(h, t, n) && Committed(h, u, k) && c <= n && c <= k
    ensures Agree(h.reigns[t].log, h.reigns[u].log, c)
  {
    hide Inv;
    if t < u {
      CommittedInLater(h, t, n, u);
      AgreeBelow(h.reigns[u].log, h.reigns[t].log, n, c);
    } else if u < t {
      CommittedInLater(h, u, k, t);
      AgreeBelow(h.reigns[t].log, h.reigns[u].log, k, c);
    }
  }

  /** The log of every later leader starts with what was committed. */
  lemma CommittedInLater(h: History, t: nat, n: nat, u: nat)
    requires Inv(h) && Committed(h, t, n) && t <= u && u in h.reigns
    ensures Agree(h.reigns[u].log, h.reigns[t].log, n)
  {
    hide Inv;
    if t < u {
      LeaderCompleteness(h, t, n, u);
      ReignFact(h, u);
      AgreeExtends(h.reigns[u].base, h.reigns[t].log, h.reigns[u].log, h.reigns[t].log, n);
    }
  }

  /** The leader of term t acknowledged index c of node i, inside what (u, n) committed. */
  ghost predicate SafeBy(h: History, i: nat, c: nat, t: nat, u: nat, n: nat)
  {
    && Committed(h, u, n) && c <= n
    && t in h.reigns && u <= t
    && Agree(h.reigns[t].log, h.reigns[u].log, c)
    && Ack(t, i, c) in h.acks
  }

  /** Everything through index c of node i's log is committed and will stay there. */
  ghost predicate Safe(h: History, i: nat, c: nat)
  {
    c == 0 || exists t, u, n :: SafeBy(h, i, c, t, u, n)
  }

  lemma SafeByGrows(h: History, h': History, i: nat, c: nat, t: nat, u: nat, n: nat)
    requires Grows(h, h') && SafeBy(h, i, c, t, u, n)
    ensures SafeBy(h', i, c, t, u, n)
  {
    CommittedGrows(h, h', u, n);
    AgreeExtends(h.reigns[t].log, h.reigns[u].log, h'.reigns[t].log, h'.reigns[u].log, c);
  }

  lemma SafeGrows(h: History, h': History, i: nat, c: nat)
    requires Grows(h, h') && Safe(h, i, c)
    ensures Safe(h', i, c)
  {
    if c > 0 {
      var t, u, n :| SafeBy(h, i, c, t, u, n);
      SafeByGrows(h, h', i, c, t, u, n);
    }
  }

  /** A safe prefix is in the node's log, equal to the committed entries. */
  lemma SafeByHolds(h: History, i: nat, c: nat, t: nat, u: nat, n: nat)
    requires Inv(h) && SafeBy(h, i, c, t, u, n)
    ensures i < |h.term| && t <= h.term[i] && Agree(h.log[i], h.reigns[u].log, c)
  {
    hide Inv;
    AckFact(h, Ack(t, i, c));
    if !Agree(h.log[i], h.reigns[t].log, c) {
      var w: nat :| w <= h.term[i] && Lacks(h.reigns, t, c, w);
      LeaderCompleteness(h, u, n, w);
      AgreeBelow(h.reigns[w].base, h.reigns[u].log, n, c);
    }
    AgreeTransitive(h.log[i], h.reigns[t].log, h.reigns[u].log, c);
  }

  lemma SafeInLog(h: History, i: nat, c: nat)
    requires Inv(h) && i < |h.term| && Safe(h, i, c)
    ensures c < |h.log[i]|
  {
    hide Inv;
    NodeFact(h, i);
    if c > 0 {
      var t, u, n :| SafeBy(h, i, c, t, u, n);
      SafeByHolds(h, i, c, t, u, n);
    }
  }

  /** A safe prefix does not change between two moments of one history. */
  lemma SafeIsStable(h: History, h': History, i: nat, c: nat)
    requires Inv(h) && Inv(h') && Grows(h, h') && i < |h.term| && Safe(h, i, c)
    ensures Agree(h.log[i], h'.log[i], c)
  {
    hide Inv;
    if c > 0 {
      var t, u, n :| SafeBy(h, i, c, t, u, n);
      SafeByGrows(h, h', i, c, t, u, n);
      SafeByHolds(h, i, c, t, u, n);
      SafeByHolds(h', i, c, t, u, n);
      AgreeExtends(h.log[i], h.reigns[u].log, h.log[i], h'.reigns[u].log, c);
    } else {
      Sentinels(h, i);
      Sentinels(h', i);
    }
  }

  lemma Sentinels(h: History, i: nat)
    requires Inv(h) && i < |h.term|
    ensures |h.log[i]| >= 1 && h.log[i][0] == SENTINEL
  {
    hide Inv;
    NodeFact(h, i);
  }

  // ----- the commit invariant of a cluster -----

  /** (u, n) committed what the request calls committed. */
  ghost predicate LeaderCommitBy(h: History, a: AppendArgs, u: nat, n: nat)
  {
    && a.term in h.reigns
    && Committed(h, u, n) && u <= a.term && a.leaderCommit <= n
    && Agree(h.reigns[a.term].log, h.reigns[u].log, a.leaderCommit)
  }

  ghost predicate LeaderCommitOk(h: History, r: Request)
  {
    r.AppendReq? && r.a.leaderCommit > 0 ==> exists u, n :: LeaderCommitBy(h, r.a, u, n)
  }

  ghost predicate CommitRel(s: State, h: History)
  {
    && (forall i :: 0 <= i < |s.nodes| ==> Safe(h, i, s.nodes[i].commitIndex))
    && (forall r :: r in s.sent ==> LeaderCommitOk(h, r))
  }

  lemma LeaderCommitGrows(h: History, h': History, r: Request)
    requires Grows(h, h') && LeaderCommitOk(h, r)
    ensures LeaderCommitOk(h', r)
  {
    if r.AppendReq? && r.a.leaderCommit > 0 {
      var u, n :| LeaderCommitBy(h, r.a, u, n);
      CommittedGrows(h, h', u, n);
      AgreeExtends(h.reigns[r.a.term].log, h.reigns[u].log, h'.reigns[r.a.term].log, h'.reigns[u].log,
                   r.a.leaderCommit);
      assert LeaderCommitBy(h', r.a, u, n);
    }
  }

  /** The commit index an accepted request leaves. */
  function CommitAfter(m: Node, a: AppendArgs): nat
    requires m.Wf()
  {
    OnAppendEntries(m, a).0.commitIndex
  }

  predicate Raises(m: Node, a: AppendArgs)
    requires m.Wf()
  {
    CommitAfter(m, a) != m.commitIndex
  }

  /** A commit index that the step raises on a follower lies where the follower's new log agrees
      with the leader's. */
  ghost predicate Matched(s: State, a: Action, h': History)
    requires |s.servers| == |s.nodes| && Enabled(s, a)
  {
    a.Local? && a.op.HandleAppend? && Raises(s.nodes[a.i], a.op.aargs) ==>
      var m := Next(s, a).nodes[a.i];
      var t := a.op.aargs.term;
      t in h'.reigns && Agree(m.log, h'.reigns[t].log, m.commitIndex)
  }

  /** A follower never lowers its commit index, and a matching one stays safe. */
  lemma FollowerCommitSafe(s: State, h: History, i: nat, a: AppendArgs, call: nat, h': History)
    requires Inv(h) && Rel(s, h) && CommitRel(s, h) && Enabled(s, Local(i, HandleAppend(a), call))
    requires Inv(h') && Grows(h, h') && Rel(Next(s, Local(i, HandleAppend(a), call)), h')
    requires Matched(s, Local(i, HandleAppend(a), call), h') && Credited(s, Local(i, HandleAppend(a), call), h')
    ensures Safe(h', i, CommitAfter(s.nodes[i], a))
    ensures CommitAfter(s.nodes[i], a) >= s.nodes[i].commitIndex
  {
    hide Inv, Merge, ConflictStart, NetRel, Safe;
    var m := s.nodes[i];
    var s' := Next(s, Local(i, HandleAppend(a), call));
    assert NodeRel(m, h, i) && Safe(h, i, m.commitIndex) && NodeRel(s'.nodes[i], h', i);
    SafeGrows(h, h', i, m.commitIndex);
    SafeInLog(h', i, m.commitIndex);
    assert s'.nodes[i].commitIndex >= m.commitIndex;
    if Raises(m, a) {
      assert LeaderCommitOk(h, AppendReq(call, i, a));
      LeaderCommitGrows(h, h', AppendReq(call, i, a));
      BatchCommitSafe(h', i, a, call, CommitAfter(m, a));
    }
  }

  lemma BatchCommitSafe(h: History, i: nat, a: AppendArgs, call: nat, c: nat)
    requires LeaderCommitOk(h, AppendReq(call, i, a)) && c <= a.leaderCommit
    requires Ack(a.term, i, c) in h.acks
    ensures Safe(h, i, c)
  {
    if c > 0 {
      var u, n :| LeaderCommitBy(h, a, u, n);
      AgreeBelow(h.reigns[a.term].log, h.reigns[u].log, a.leaderCommit, c);
      assert SafeBy(h, i, c, a.term, u, n);
    }
  }

  lemma LeaderCommitSafe(m: Node, h: History, i: nat)
    requires Inv(h) && NodeRel(m, h, i) && m.role == Leader && m.commitIndex > 0
    requires Replicated(m, m.commitIndex)
    ensures Safe(h, i, m.commitIndex)
  {
    hide Inv;
    var t, c := m.currentTerm, m.commitIndex;
    ReplicatedIsCommitted(m, h, i, c);
    NodeFact(h, i);
    ReignFact(h, t);
    assert MatchRel(h, t, i, m.nextIndex[i], m.matchIndex[i], |m.log|);
    assert SafeBy(h, i, c, t, t, c);
  }

  // ----- every step keeps the commit invariant -----

  lemma CommitUnchanged(m: Node, op: Op)
    requires Callable(m, op) && !op.HandleAppend?
    requires Perform(m, op).role != Leader
    ensures Perform(m, op).commitIndex == m.commitIndex
  {
  }

  /** The commit index of the node an operation ran on. */
  lemma OpCommitSafe(m: Node, h: History, i: nat, op: Op, h': History)
    requires Inv(h') && Grows(h, h') && Safe(h, i, m.commitIndex)
    requires Callable(m, op) && !op.HandleAppend? && NodeRel(Perform(m, op), h', i)
    ensures Safe(h', i, Perform(m, op).commitIndex)
  {
    hide Inv;
    var m' := Perform(m, op);
    SafeGrows(h, h', i, m.commitIndex);
    if m'.commitIndex != m.commitIndex {
      if m'.role != Leader { CommitUnchanged(m, op); }
      RaisedByLeader(m, op);
      LeaderCommitSafe(m', h', i);
    }
  }

  /** A leader's commit index, put into a request. */
  lemma SentCommitOk(m: Node, h: History, i: nat, peer: nat)
    requires Inv(h) && NodeRel(m, h, i) && m.role == Leader && Safe(h, i, m.commitIndex)
    requires peer < |m.nextIndex| && 1 <= m.nextIndex[peer] <= |m.log|
    ensures forall call :: LeaderCommitOk(h, AppendReq(call, peer, BuildAppend(m, peer)))
  {
    hide Inv;
    NodeFact(h, i);
    var c := m.commitIndex;
    if c > 0 {
      var t, u, n :| SafeBy(h, i, c, t, u, n);
      SafeByHolds(h, i, c, t, u, n);
      assert LeaderCommitBy(h, BuildAppend(m, peer), u, n);
    }
  }

  lemma CommitStep(s: State, h: History, a: Action, h': History)
    requires Inv(h) && Rel(s, h) && CommitRel(s, h) && Enabled(s, a)
    requires Inv(h') && Grows(h, h') && Rel(Next(s, a), h') && Matched(s, a, h') && Credited(s, a, h')
    ensures CommitRel(Next(s, a), h')
  {
    hide Inv;
    var s' := Next(s, a);
    forall j | 0 <= j < |s'.nodes| ensures Safe(h', j, s'.nodes[j].commitIndex) {
      CommitStepNode(s, h, a, h', j);
    }
    forall r | r in s'.sent ensures LeaderCommitOk(h', r) {
      if r in s.sent {
        LeaderCommitGrows(h, h', r);
      } else if a.Send? {
        assert NodeRel(s.nodes[a.i], h, a.i) && Safe(h, a.i, s.nodes[a.i].commitIndex);
        SentCommitOk(s.nodes[a.i], h, a.i, a.peer);
        LeaderCommitGrows(h, h', r);
      }
    }
  }

  /** A node that is not the one acting, or acts only as a server, keeps its commit index. */
  lemma OtherCommit(s: State, a: Action, j: nat)
    requires |s.servers| == |s.nodes| && Enabled(s, a) && j < |s.nodes|
    requires a.Local? || a.ClientSubmit? ==> a.i != j
    ensures j < |Next(s, a).nodes|
    ensures Next(s, a).nodes[j].commitIndex == (if a.Crash? && a.i == j then 0 else s.nodes[j].commitIndex)
  {
    hide Perform, Writes, Submit, VoteRequests, ApplyWrites;
  }

  lemma LocalNode(s: State, i: nat, op: Op, call: nat)
    requires |s.servers| == |s.nodes| && Enabled(s, Local(i, op, call))
    ensures Callable(s.nodes[i], op) && i < |s.nodes| == |Next(s, Local(i, op, call)).nodes|
    ensures Next(s, Local(i, op, call)).nodes[i] == Perform(s.nodes[i], op)
  {
    hide Perform, Writes, VoteRequests;
  }

  lemma SubmitNode(s: State, i: nat, c: Command.Command)
    requires |s.servers| == |s.nodes| && Enabled(s, ClientSubmit(i, c))
    ensures i < |s.nodes| == |Next(s, ClientSubmit(i, c)).nodes| && Callable(s.nodes[i], SubmitCommand(Command.Encode(c)))
    ensures Next(s, ClientSubmit(i, c)).nodes[i] == Perform(s.nodes[i], SubmitCommand(Command.Encode(c)))
  {
    hide Submit;
  }

  lemma CommitStepNode(s: State, h: History, a: Action, h': History, j: nat)
    requires Inv(h) && Rel(s, h) && CommitRel(s, h) && Enabled(s, a)
    requires Inv(h') && Grows(h, h') && Rel(Next(s, a), h') && Matched(s, a, h') && Credited(s, a, h')
    requires j < |s.nodes| && j < |Next(s, a).nodes|
    ensures Safe(h', j, Next(s, a).nodes[j].commitIndex)
  {
    hide Inv, Next, Enabled, Perform, Matched, Credited;
    var s' := Next(s, a);
    assert Safe(h, j, s.nodes[j].commitIndex) && NodeRel(s'.nodes[j], h', j);
    SafeGrows(h, h', j, s.nodes[j].commitIndex);
    if a.Local? && a.i == j {
      LocalNode(s, j, a.op, a.call);
      if a.op.HandleAppend? {
        FollowerCommitSafe(s, h, j, a.op.aargs, a.call, h');
        AppendPerformed(s.nodes[j], a.op.aargs);
      } else {
        OpCommitSafe(s.nodes[j], h, j, a.op, h');
      }
    } else if a.ClientSubmit? && a.i == j {
      SubmitNode(s, j, a.command);
      OpCommitSafe(s.nodes[j], h, j, SubmitCommand(Command.Encode(a.command)), h');
    } else {
      OtherCommit(s, a, j);
    }
  }

  lemma AppendPerformed(m: Node, a: AppendArgs)
    requires Callable(m, HandleAppend(a))
    ensures Perform(m, HandleAppend(a)).commitIndex == CommitAfter(m, a)
  {
    hide OnAppendEntries;
  }
}
