/**
 * What holds in every run of every cluster, with crashes and restarts anywhere. The statements
 * speak only of the states and actions of the run. The first part needs no condition; the second
 * part needs the condition of module CommitRule on the requests that nodes accept.
 */
module Theorems {
  import opened Types
  import opened Messages
  import opened Node
  import opened Command
  import opened Cluster
  import opened Protocol
  import opened Simulation
  import opened Runs
  import opened Commit
  import opened CommitRule
  import opened Service

  /** One state of a backed run, and one pair of its histories. */
  lemma Backed(ss: seq<State>, hs: seq<History>, k: nat)
    requires Backs(ss, hs) && k < |ss|
    ensures |hs| == |ss| && Inv(hs[k]) && Rel(ss[k], hs[k])
  {
  }

  /** One state of a run whose servers are backed as well. */
  lemma Served(ss: seq<State>, hs: seq<History>, k: nat)
    requires Backs(ss, hs) && ServerBacks(ss, hs) && k < |ss|
    ensures |hs| == |ss| && Inv(hs[k]) && Rel(ss[k], hs[k])
    ensures |ss[k].servers| == |ss[k].nodes| && ServerRel(ss[k], hs[k])
  {
  }

  lemma Grown(ss: seq<State>, hs: seq<History>, j: nat, k: nat)
    requires Backs(ss, hs) && j <= k < |ss|
    ensures |hs| == |ss| && Grows(hs[j], hs[k])
  {
  }

  lemma SizeIs(n: nat, ss: seq<State>, acts: seq<Action>, hs: seq<History>, k: nat)
    requires IsRun(n, ss, acts) && Backs(ss, hs) && k < |ss|
    ensures |ss[k].nodes| == |ss[k].servers| == n
  {
    hide Inv, Grows, StepAt;
    Backed(ss, hs, 0);
    Backed(ss, hs, k);
    Grown(ss, hs, 0, k);
    SameSize(ss[0], hs[0], ss[k], hs[k]);
  }

  lemma RunStep(n: nat, ss: seq<State>, acts: seq<Action>, hs: seq<History>, k: nat)
    requires IsRun(n, ss, acts) && Backs(ss, hs) && k < |acts|
    ensures |ss| == |hs| == |acts| + 1
    ensures Inv(hs[k]) && Rel(ss[k], hs[k]) && Inv(hs[k + 1]) && Rel(ss[k + 1], hs[k + 1]) && Grows(hs[k], hs[k + 1])
    ensures |ss[k].servers| == |ss[k].nodes| && Enabled(ss[k], acts[k]) && ss[k + 1] == Next(ss[k], acts[k])
  {
    hide Inv, Rel, Grows, Next, Enabled;
    assert StepAt(ss, acts, k);
  }

  lemma RunShape(n: nat, ss: seq<State>, acts: seq<Action>)
    requires IsRun(n, ss, acts)
    ensures |ss| == |acts| + 1
  {
  }

  lemma RunGrows(n: nat, ss: seq<State>, acts: seq<Action>, a: Action)
    requires IsRun(n, ss, acts)
    requires |ss[|acts|].servers| == |ss[|acts|].nodes| && Enabled(ss[|acts|], a)
    ensures IsRun(n, ss + [Next(ss[|acts|], a)], acts + [a])
  {
    var ss', acts' := ss + [Next(ss[|acts|], a)], acts + [a];
    forall k | 0 <= k < |acts'| ensures StepAt(ss', acts', k) {
      if k < |acts| { assert StepAt(ss, acts, k); }
    }
  }

  // ----- elections -----

  /** Two leaders of one term, at any two moments, are the same node. */
  lemma ElectionSafety(n: nat, ss: seq<State>, acts: seq<Action>, j: nat, a: nat, k: nat, b: nat)
    requires IsRun(n, ss, acts) && j < |ss| && k < |ss| && a < |ss[j].nodes| && b < |ss[k].nodes|
    requires ss[j].nodes[a].role == Leader && ss[k].nodes[b].role == Leader
    requires ss[j].nodes[a].currentTerm == ss[k].nodes[b].currentTerm
    ensures a == b
  {
    hide *;
    var hs := RunHasHistory(n, ss, acts);
    Backed(ss, hs, j);
    Backed(ss, hs, k);
    if j <= k { Grown(ss, hs, j, k); } else { Grown(ss, hs, k, j); }
    SameReign(ss[j], hs[j], a, ss[k], hs[k], b);
  }

  lemma SameReign(s: State, h: History, a: nat, s': State, h': History, b: nat)
    requires Inv(h) && Rel(s, h) && Inv(h') && Rel(s', h') && (Grows(h, h') || Grows(h', h))
    requires a < |s.nodes| && b < |s'.nodes| && s.nodes[a].role == Leader && s'.nodes[b].role == Leader
    requires s.nodes[a].currentTerm == s'.nodes[b].currentTerm
    ensures a == b
  {
    hide Inv, Rel;
    LeaderLogInReign(s, h, a);
    LeaderLogInReign(s', h', b);
  }

  /** Terms never fall, and a vote is neither changed nor forgotten within its term. */
  lemma VotesPersist(n: nat, ss: seq<State>, acts: seq<Action>, j: nat, k: nat, i: nat)
    requires IsRun(n, ss, acts) && j <= k < |ss| && i < |ss[j].nodes|
    ensures i < |ss[k].nodes| && ss[j].nodes[i].currentTerm <= ss[k].nodes[i].currentTerm
    ensures ss[j].nodes[i].currentTerm == ss[k].nodes[i].currentTerm && ss[j].nodes[i].votedFor != -1 ==>
              ss[k].nodes[i].votedFor == ss[j].nodes[i].votedFor
  {
    hide IsRun;
    var hs := RunHasHistory(n, ss, acts);
    hide Inv;
    assert Rel(ss[j], hs[j]) && Rel(ss[k], hs[k]) && Grows(hs[j], hs[k]);
    assert NodeRel(ss[j].nodes[i], hs[j], i) && NodeRel(ss[k].nodes[i], hs[k], i);
  }

  /** The leader a node points clients to is the only node that ever leads the node's term. */
  lemma HintIsLeader(n: nat, ss: seq<State>, acts: seq<Action>, k: nat, i: nat, j: nat, b: nat)
    requires IsRun(n, ss, acts) && k < |ss| && i < |ss[k].nodes| && ss[k].nodes[i].leaderHint != -1
    requires j < |ss| && b < |ss[j].nodes| && ss[j].nodes[b].role == Leader
    requires ss[j].nodes[b].currentTerm == ss[k].nodes[i].currentTerm
    ensures ss[k].nodes[i].leaderHint == b
  {
    hide IsRun, Inv, Rel, Grows, Backs, CreditedRun;
    var hs := RunHasHistory(n, ss, acts);
    Backed(ss, hs, j);
    Backed(ss, hs, k);
    if j <= k { Grown(ss, hs, j, k); } else { Grown(ss, hs, k, j); }
    HintInReign(ss[k], hs[k], i, ss[j], hs[j], b);
  }

  lemma HintInReign(s: State, h: History, i: nat, s': State, h': History, b: nat)
    requires Inv(h) && Rel(s, h) && Inv(h') && Rel(s', h') && (Grows(h, h') || Grows(h', h))
    requires i < |s.nodes| && s.nodes[i].leaderHint != -1 && b < |s'.nodes| && s'.nodes[b].role == Leader
    requires s'.nodes[b].currentTerm == s.nodes[i].currentTerm
    ensures s.nodes[i].leaderHint == b
  {
    hide Inv;
    assert NodeRel(s.nodes[i], h, i);
    LeaderLogInReign(s', h', b);
  }

  // ----- logs -----

  /** One common term at one index makes two logs equal through it, for any two nodes at any two
      moments. */
  lemma LogsMatch(n: nat, ss: seq<State>, acts: seq<Action>, j: nat, a: nat, k: nat, b: nat, x: nat)
    requires IsRun(n, ss, acts) && j < |ss| && k < |ss| && a < |ss[j].nodes| && b < |ss[k].nodes|
    requires x < |ss[j].nodes[a].log| && x < |ss[k].nodes[b].log|
    requires ss[j].nodes[a].log[x].term == ss[k].nodes[b].log[x].term
    ensures Agree(ss[j].nodes[a].log, ss[k].nodes[b].log, x)
  {
    if j <= k {
      LaterLogMatches(n, ss, acts, j, a, k, b, x);
    } else {
      LaterLogMatches(n, ss, acts, k, b, j, a, x);
    }
  }

  lemma LaterLogMatches(n: nat, ss: seq<State>, acts: seq<Action>, j: nat, a: nat, k: nat, b: nat, x: nat)
    requires IsRun(n, ss, acts) && j <= k < |ss| && a < |ss[j].nodes| && b < |ss[k].nodes|
    requires x < |ss[j].nodes[a].log| && x < |ss[k].nodes[b].log|
    requires ss[j].nodes[a].log[x].term == ss[k].nodes[b].log[x].term
    ensures Agree(ss[j].nodes[a].log, ss[k].nodes[b].log, x)
  {
    hide Inv, Rel, IsRun;
    var hs := RunHasHistory(n, ss, acts);
    NodeInHistory(ss[j], hs[j], a);
    NodeInHistory(ss[k], hs[k], b);
    assert Grows(hs[j], hs[k]);
    LogOkGrows(hs[j].reigns, hs[k].reigns, ss[j].nodes[a].log);
    LogMatching(hs[k].reigns, ss[j].nodes[a].log, ss[k].nodes[b].log, x);
  }

  /** A log that has the term of some entry of an in-flight batch at that entry's index has the
      whole batch up to there. */
  lemma BatchMatches(n: nat, ss: seq<State>, acts: seq<Action>, k: nat, i: nat, call: nat, p: nat, a: AppendArgs, x: nat)
    requires IsRun(n, ss, acts) && k < |ss| && i < |ss[k].nodes| && AppendReq(call, p, a) in ss[k].sent
    requires x < |a.entries| && a.prevLogIndex + 1 + x < |ss[k].nodes[i].log|
    requires ss[k].nodes[i].log[a.prevLogIndex + 1 + x].term == a.entries[x].term
    ensures ss[k].nodes[i].log[a.prevLogIndex].term == a.prevLogTerm
    ensures ss[k].nodes[i].log[a.prevLogIndex + 1..a.prevLogIndex + 2 + x] == a.entries[..x + 1]
  {
    hide IsRun, Inv, Rel, Backs, CreditedRun, LogOk;
    var hs := RunHasHistory(n, ss, acts);
    Backed(ss, hs, k);
    NodeInHistory(ss[k], hs[k], i);
    BatchInLog(ss[k], hs[k], ss[k].nodes[i].log, call, p, a, x);
  }

  lemma BatchInLog(s: State, h: History, l: Log, call: nat, p: nat, a: AppendArgs, x: nat)
    requires Inv(h) && Rel(s, h) && AppendReq(call, p, a) in s.sent && LogOk(h.reigns, l)
    requires x < |a.entries| && a.prevLogIndex + 1 + x < |l| && l[a.prevLogIndex + 1 + x].term == a.entries[x].term
    ensures l[a.prevLogIndex].term == a.prevLogTerm
    ensures l[a.prevLogIndex + 1..a.prevLogIndex + 2 + x] == a.entries[..x + 1]
  {
    hide Inv, LogOk;
    assert RequestRel(h, AppendReq(call, p, a));
    ReignFact(h, a.term);
    var m := h.reigns[a.term].log;
    var y := a.prevLogIndex + 1 + x;
    LogMatching(h.reigns, l, m, y);
    AgreeBelow(l, m, y, a.prevLogIndex);
    assert l[a.prevLogIndex + 1..y + 1] == l[..y + 1][a.prevLogIndex + 1..];
    assert m[a.prevLogIndex + 1..y + 1] == m[..y + 1][a.prevLogIndex + 1..];
  }

  /** Terms never fall along a log, nor exceed the node's term. */
  lemma LogsSorted(n: nat, ss: seq<State>, acts: seq<Action>, k: nat, i: nat)
    requires IsRun(n, ss, acts) && k < |ss| && i < |ss[k].nodes|
    ensures Sorted(ss[k].nodes[i].log)
    ensures forall j :: 0 <= j < |ss[k].nodes[i].log| ==> ss[k].nodes[i].log[j].term <= ss[k].nodes[i].currentTerm
  {
    hide Inv, Rel, IsRun;
    var hs := RunHasHistory(n, ss, acts);
    NodeInHistory(ss[k], hs[k], i);
    NodeFact(hs[k], i);
    var l := ss[k].nodes[i].log;
    forall x, y | 0 <= x <= y < |l| ensures l[x].term <= l[y].term {
      TermsSorted(hs[k], l, x, y);
    }
  }

  // ----- replication -----

  /** What a leader records about its peers never points outside its log. */
  lemma LeaderIndexesInRange(n: nat, ss: seq<State>, acts: seq<Action>, k: nat, i: nat, p: nat)
    requires IsRun(n, ss, acts) && k < |ss| && i < |ss[k].nodes| && ss[k].nodes[i].role == Leader
    requires p < |ss[k].nodes|
    ensures var m := ss[k].nodes[i];
            && p < |m.nextIndex| && p < |m.matchIndex|
            && 1 <= m.nextIndex[p] <= |m.log| && m.matchIndex[p] < |m.log|
  {
    hide IsRun, Inv;
    var hs := RunHasHistory(n, ss, acts);
    assert Rel(ss[k], hs[k]);
    var m := ss[k].nodes[i];
    assert NodeRel(m, hs[k], i);
    assert MatchRel(hs[k], m.currentTerm, p, m.nextIndex[p], m.matchIndex[p], |m.log|);
  }

  /** Once a leader of term t records that p holds its log through some index, p's durable log agrees
      with it there at every later moment at which p is still in term t, whatever requests arrive
      late, twice or out of order and however often p restarts. */
  lemma AcknowledgementsHold(n: nat, ss: seq<State>, acts: seq<Action>, j: nat, i: nat, k: nat, p: nat)
    requires IsRun(n, ss, acts) && j <= k < |ss| && i < |ss[j].nodes| && ss[j].nodes[i].role == Leader
    requires p < |ss[k].nodes| && p < |ss[j].nodes[i].matchIndex| && ss[j].nodes[i].matchIndex[p] > 0
    ensures ss[k].nodes[p].currentTerm >= ss[j].nodes[i].currentTerm
    ensures ss[k].nodes[p].currentTerm == ss[j].nodes[i].currentTerm ==>
              Agree(ss[k].nodes[p].log, ss[j].nodes[i].log, ss[j].nodes[i].matchIndex[p])
  {
    hide *;
    var hs := RunHasHistory(n, ss, acts);
    Backed(ss, hs, j);
    Backed(ss, hs, k);
    Grown(ss, hs, j, k);
    MatchHolds(ss[j], hs[j], i, ss[k], hs[k], p);
  }

  lemma MatchHolds(s: State, h: History, i: nat, s': State, h': History, p: nat)
    requires Inv(h) && Rel(s, h) && Inv(h') && Rel(s', h') && Grows(h, h')
    requires i < |s.nodes| && s.nodes[i].role == Leader && p < |s'.nodes|
    requires p < |s.nodes[i].matchIndex| && s.nodes[i].matchIndex[p] > 0
    ensures s'.nodes[p].currentTerm >= s.nodes[i].currentTerm
    ensures s'.nodes[p].currentTerm == s.nodes[i].currentTerm ==>
              Agree(s'.nodes[p].log, s.nodes[i].log, s.nodes[i].matchIndex[p])
  {
    hide Inv, LogOk;
    var m := s.nodes[i];
    var x := m.matchIndex[p];
    assert NodeRel(m, h, i);
    assert MatchRel(h, m.currentTerm, p, m.nextIndex[p], x, |m.log|);
    LeaderLogInReign(s, h, i);
    NodeInHistory(s', h', p);
    HeldInTerm(h', Ack(m.currentTerm, p, x));
    assert h'.reigns[m.currentTerm].log[..x + 1] == m.log[..x + 1];
  }

  lemma HeldInTerm(h: History, a: Ack)
    requires Inv(h) && a in h.acks
    ensures Shape(h) && a.node < |h.term| && a.term <= h.term[a.node] && a.term in h.reigns
    ensures h.term[a.node] == a.term ==> Agree(h.log[a.node], h.reigns[a.term].log, a.index)
  {
    hide Inv;
    AckFact(h, a);
  }

  // ----- commitment by leaders -----

  /** Step k raises the commit index of node i, which is leader afterwards. */
  predicate LeaderCommits(s: State, s': State, i: nat)
  {
    && i < |s.nodes| && i < |s'.nodes|
    && s'.nodes[i].role == Leader
    && s'.nodes[i].commitIndex > s.nodes[i].commitIndex
  }

  lemma LeaderCommitIsReplicated(s: State, h: History, a: Action, i: nat)
    requires Rel(s, h) && Enabled(s, a) && LeaderCommits(s, Next(s, a), i)
    ensures Replicated(Next(s, a).nodes[i], Next(s, a).nodes[i].commitIndex)
  {
    hide Next, Enabled, Perform, Replicated;
    if a.Local? && a.i == i {
      LocalNode(s, i, a.op, a.call);
      RaisedByLeader(s.nodes[i], a.op);
    } else if a.ClientSubmit? && a.i == i {
      SubmitNode(s, i, a.command);
      RaisedByLeader(s.nodes[i], SubmitCommand(Encode(a.command)));
    } else {
      OtherCommit(s, a, i);
    }
  }

  /** A leader that raises its commit index raises it to the greatest index of its own term that a
      majority is recorded to hold. */
  lemma AdvanceCommitIsGreatest(n: nat, ss: seq<State>, acts: seq<Action>, k: nat, i: nat, x: nat)
    requires IsRun(n, ss, acts) && k < |ss| && i < |ss[k].nodes| && ss[k].nodes[i].role == Leader
    requires x > ss[k].nodes[i].commitIndex && Replicated(ss[k].nodes[i], x)
    ensures x <= AdvanceCommit(ss[k].nodes[i]).commitIndex
    ensures Replicated(ss[k].nodes[i], AdvanceCommit(ss[k].nodes[i]).commitIndex)
  {
    LogsSorted(n, ss, acts, k, i);
    ScanCommitIsGreatest(ss[k].nodes[i], |ss[k].nodes[i].log| - 1, x);
  }

  /**
   * Leader Completeness: once a leader of term t raises its commit index to x, every node that leads
   * a later term, at any moment of the run, has exactly the same entries through x.
   */
  lemma LeadersAreComplete(n: nat, ss: seq<State>, acts: seq<Action>, k: nat, i: nat, j: nat, b: nat)
    requires IsRun(n, ss, acts) && k < |acts| && LeaderCommits(ss[k], ss[k + 1], i)
    requires j < |ss| && b < |ss[j].nodes| && ss[j].nodes[b].role == Leader
    requires ss[j].nodes[b].currentTerm > ss[k + 1].nodes[i].currentTerm
    ensures Agree(ss[j].nodes[b].log, ss[k + 1].nodes[i].log, ss[k + 1].nodes[i].commitIndex)
  {
    var hs := RunHasHistory(n, ss, acts);
    assert StepAt(ss, acts, k);
    LeaderCommitIsReplicated(ss[k], hs[k], acts[k], i);
    hide Inv, Rel, IsRun;
    CommittedByLeader(ss[k + 1], hs[k + 1], i);
    LeaderLogInReign(ss[j], hs[j], b);
    assert if j <= k + 1 then Grows(hs[j], hs[k + 1]) else Grows(hs[k + 1], hs[j]);
    var c := ss[k + 1].nodes[i].commitIndex;
    CompleteAcross(hs[k + 1], hs[j], ss[k + 1].nodes[i].currentTerm, c, ss[j].nodes[b].currentTerm);
  }

  lemma CommittedByLeader(s: State, h: History, i: nat)
    requires Inv(h) && Rel(s, h) && i < |s.nodes| && s.nodes[i].role == Leader && s.nodes[i].commitIndex > 0
    requires Replicated(s.nodes[i], s.nodes[i].commitIndex)
    ensures Committed(h, s.nodes[i].currentTerm, s.nodes[i].commitIndex)
    ensures h.reigns[s.nodes[i].currentTerm].log == s.nodes[i].log
  {
    hide Inv;
    assert NodeRel(s.nodes[i], h, i);
    ReplicatedIsCommitted(s.nodes[i], h, i, s.nodes[i].commitIndex);
  }

  /** Leader Completeness between two moments of one history, in either order. */
  lemma CompleteAcross(h: History, g: History, t: nat, c: nat, u: nat)
    requires Inv(h) && Inv(g) && (Grows(h, g) || Grows(g, h))
    requires Committed(h, t, c) && t < u && u in g.reigns
    ensures Agree(g.reigns[u].log, h.reigns[t].log, c)
  {
    hide Inv;
    if Grows(h, g) {
      CommittedGrows(h, g, t, c);
      CommittedInLater(g, t, c, u);
      AgreeTransitive(g.reigns[u].log, g.reigns[t].log, h.reigns[t].log, c);
    } else {
      LeaderCompleteness(h, t, c, u);
      ReignFact(g, u);
      AgreeExtends(g.reigns[u].base, h.reigns[t].log, g.reigns[u].log, h.reigns[t].log, c);
    }
  }

  // ===== runs that meet the commit condition =====

  /** Steps j and k of the run apply different entries at one index. */
  ghost predicate AppliesDifferently(ss: seq<State>, acts: seq<Action>, j: nat, a: nat, k: nat, b: nat)
  {
    && j < |acts| && k < |acts| && |ss| == |acts| + 1
    && acts[j] == StoreFetched(a) && acts[k] == StoreFetched(b)
    && a < |ss[j].servers| && b < |ss[k].servers|
    && ss[j].servers[a].applier.Fetched? && ss[k].servers[b].applier.Fetched?
    && ss[j].servers[a].applier.index == ss[k].servers[b].applier.index
    && ss[j].servers[a].applier.entry != ss[k].servers[b].applier.entry
  }

  /** State Machine Safety: no two nodes ever apply different entries at one index. */
  lemma StateMachineSafety(n: nat, ss: seq<State>, acts: seq<Action>, j: nat, a: nat, k: nat, b: nat)
    requires IsRun(n, ss, acts) && TermMatchedRun(ss, acts)
    ensures !AppliesDifferently(ss, acts, j, a, k, b)
  {
    hide Inv, Rel, IsRun, CommitsAgree, TermMatchedRun, ServerRel, Agree, Backs, CommitBacks, ServerBacks;
    RunShape(n, ss, acts);
    if j < |acts| && k < |acts| && acts[j] == StoreFetched(a) && acts[k] == StoreFetched(b)
       && a < |ss[j].servers| && b < |ss[k].servers| && ss[j].servers[a].applier.Fetched?
       && ss[k].servers[b].applier.Fetched? && ss[j].servers[a].applier.index == ss[k].servers[b].applier.index
    {
      var hs := ServedHistory(n, ss, acts);
      Served(ss, hs, j);
      Served(ss, hs, k);
      AppliedEntry(ss[j], hs[j], a);
      AppliedEntry(ss[k], hs[k], b);
      CommitRuleExact(n, ss, acts);
      CommitsAgreeAt(ss, j, a, k, b);
      var x := ss[j].servers[a].applier.index;
      var m, m' := ss[j].nodes[a], ss[k].nodes[b];
      AgreeBelow(m.log, m'.log, Min(m.commitIndex, m'.commitIndex), x);
    }
  }

  /** What the applier holds is a committed entry of its node's log. */
  lemma AppliedEntry(s: State, h: History, i: nat)
    requires |s.servers| == |s.nodes| && ServerRel(s, h) && i < |s.nodes| && s.servers[i].applier.Fetched?
    ensures var x := s.servers[i].applier.index;
            x <= s.nodes[i].commitIndex < |s.nodes[i].log| && s.servers[i].applier.entry == s.nodes[i].log[x]
  {
    assert ServerOk(s.nodes[i], s.servers[i], h, s.tickets);
  }

  /** Entries at or below a commit index stay where they are for the rest of the run, through every
      truncation and every restart, and every commit index lies inside its log. */
  lemma CommittedStays(n: nat, ss: seq<State>, acts: seq<Action>, j: nat, k: nat, i: nat)
    requires IsRun(n, ss, acts) && TermMatchedRun(ss, acts) && j <= k < |ss| && i < |ss[j].nodes|
    ensures i < |ss[k].nodes| && ss[k].nodes[i].commitIndex < |ss[k].nodes[i].log|
    ensures Agree(ss[j].nodes[i].log, ss[k].nodes[i].log, ss[j].nodes[i].commitIndex)
  {
    hide Inv, Rel, IsRun, CommitsAgree, TermMatchedRun, ServerRel;
    RunShape(n, ss, acts);
    var hs := ServedHistory(n, ss, acts);
    assert CommitRel(ss[j], hs[j]) && CommitRel(ss[k], hs[k]) && Grows(hs[j], hs[k]);
    SameSize(ss[j], hs[j], ss[k], hs[k]);
    NodeAdvances(ss[j], hs[j], ss[k], hs[k], i);
  }

  /** Only a crash of the node lowers its commit index. */
  lemma CommitIndexNeverFalls(n: nat, ss: seq<State>, acts: seq<Action>, k: nat, i: nat)
    requires IsRun(n, ss, acts) && TermMatchedRun(ss, acts) && k < |acts| && i < |ss[k].nodes|
    requires !(acts[k].Crash? && acts[k].i == i)
    ensures i < |ss[k + 1].nodes| && ss[k + 1].nodes[i].commitIndex >= ss[k].nodes[i].commitIndex
  {
    hide Inv, Rel, ServerRel;
    var hs := RunHasHistory(n, ss, acts);
    CommitRelAt(n, ss, acts, hs, k);
    assert StepAt(ss, acts, k) && TermMatched(ss, acts, k) && Credited(ss[k], acts[k], hs[k + 1]);
    TermsMakeMatch(n, ss, acts, hs, k);
    CommitNotLowered(ss[k], hs[k], acts[k], hs[k + 1], i);
  }

  lemma CommitNotLowered(s: State, h: History, a: Action, h': History, i: nat)
    requires Inv(h) && Rel(s, h) && CommitRel(s, h) && Enabled(s, a) && i < |s.nodes|
    requires Inv(h') && Grows(h, h') && Rel(Next(s, a), h') && Matched(s, a, h') && Credited(s, a, h')
    requires !(a.Crash? && a.i == i)
    ensures i < |Next(s, a).nodes| && Next(s, a).nodes[i].commitIndex >= s.nodes[i].commitIndex
  {
    hide Inv, Rel, Next, Enabled, Perform, CommitRel, Matched, Credited;
    SizesAt(s, h);
    if a.Local? && a.i == i {
      LocalNode(s, i, a.op, a.call);
      if a.op.HandleAppend? {
        FollowerCommitSafe(s, h, i, a.op.aargs, a.call, h');
        AppendPerformed(s.nodes[i], a.op.aargs);
      } else {
        CommitRises(s.nodes[i], a.op);
      }
    } else if a.ClientSubmit? && a.i == i {
      SubmitNode(s, i, a.command);
      CommitRises(s.nodes[i], SubmitCommand(Encode(a.command)));
    } else {
      OtherCommit(s, a, i);
    }
  }

  /** Nothing uncommitted is ever applied, and the applier never reads past the end of the log. */
  lemma ApplierInRange(n: nat, ss: seq<State>, acts: seq<Action>, k: nat, i: nat)
    requires IsRun(n, ss, acts) && TermMatchedRun(ss, acts) && k < |ss| && i < |ss[k].nodes|
    ensures ss[k].nodes[i].lastApplied <= ss[k].nodes[i].commitIndex < |ss[k].nodes[i].log|
  {
    hide Inv, Rel, IsRun;
    RunShape(n, ss, acts);
    var hs := ServedHistory(n, ss, acts);
    assert ServerRel(ss[k], hs[k]);
    assert ServerOk(ss[k].nodes[i], ss[k].servers[i], hs[k], ss[k].tickets);
  }

  // ----- client replies -----

  /** Step k ends a client handler of node i with this answer. */
  ghost predicate Answers(ss: seq<State>, acts: seq<Action>, k: nat, i: nat, c: Handler, r: Answer)
  {
    && k < |acts| && k < |ss| && acts[k].ClientLeave? && acts[k].i == i && i < |ss[k].servers|
    && acts[k].ticket in ss[k].servers[i].handlers
    && c == ss[k].servers[i].handlers[acts[k].ticket]
    && r == AnswerTo(c, ss[k].servers[i].waiters)
  }

  /** An answer other than a timeout tells what the node applied at the handler's index. */
  lemma AnswerSlot(s: State, h: History, i: nat, ticket: nat)
    requires Inv(h) && Rel(s, h) && ServerRel(s, h) && i < |s.nodes| && ticket in s.servers[i].handlers
    requires AnswerTo(s.servers[i].handlers[ticket], s.servers[i].waiters) != CommitTimeout
    ensures var c := s.servers[i].handlers[ticket];
            var m := s.nodes[i];
            && c.index <= m.commitIndex < |m.log|
            && (AnswerTo(c, s.servers[i].waiters) == LostLeadership ==> m.log[c.index].term != c.term)
            && (AnswerTo(c, s.servers[i].waiters) != LostLeadership ==>
                  && m.log[c.index] == LogEntry(c.term, Encode(c.command))
                  && AnswerTo(c, s.servers[i].waiters) == AnswerFor(c.command.verb, OutcomeAt(m.log, c.index)))
            && 1 <= c.index && Fits(c.command)
  {
    hide Inv, Replay, ApplyRaw, LogOk;
    var c := s.servers[i].handlers[ticket];
    var m := s.nodes[i];
    assert ServerOk(m, s.servers[i], h, s.tickets);
    assert SlotOk(m, c.index, s.servers[i].waiters[c.index]);
    assert HandlerOk(h, c);
    NodeInHistory(s, h, i);
    if m.log[c.index].term == c.term {
      ReignFact(h, c.term);
      LogMatching(h.reigns, m.log, h.reigns[c.term].log, c.index);
      AgreeBelow(m.log, h.reigns[c.term].log, c.index, c.index);
    }
  }

  /** The handler's entry is in this log, and the answer is what its command yields after everything
      in front of it was replayed on an empty map. */
  ghost predicate Replayed(l: Log, c: Handler, r: Answer)
  {
    && c.index < |l| && l[c.index] == LogEntry(c.term, Encode(c.command))
    && r == AnswerFor(c.command.verb, Execute(Replay(l[..c.index]), c.command).1)
  }

  /**
   * An answer that is not an error is the caller's own. Its entry, with the term it was submitted
   * under, is committed at the node that answers; and on every node b, at every moment j, whose
   * commit index reaches the entry, the answer is what replaying the log gives.
   */
  lemma AnswersAreReplays(n: nat, ss: seq<State>, acts: seq<Action>, k: nat, i: nat, c: Handler, r: Answer)
    requires IsRun(n, ss, acts) && TermMatchedRun(ss, acts) && Answers(ss, acts, k, i, c, r) && !IsError(r)
    ensures i < |ss[k].nodes| && 1 <= c.index <= ss[k].nodes[i].commitIndex < |ss[k].nodes[i].log|
    ensures forall j, b :: 0 <= j < |ss| && 0 <= b < |ss[j].nodes| && ss[j].nodes[b].commitIndex >= c.index ==>
              Replayed(ss[j].nodes[b].log, c, r)
  {
    hide Inv, Rel, IsRun, TermMatchedRun, ServerRel, AnswerTo, Replayed;
    var hs := ServedHistory(n, ss, acts);
    SizesAt(ss[k], hs[k]);
    AnswerSlot(ss[k], hs[k], i, acts[k].ticket) by { NotTimeout(c, ss[k].servers[i].waiters); }
    forall j, b | 0 <= j < |ss| && 0 <= b < |ss[j].nodes| && ss[j].nodes[b].commitIndex >= c.index
      ensures Replayed(ss[j].nodes[b].log, c, r)
    {
      AnswerReplayed(n, ss, acts, k, i, c, r, j, b);
    }
  }

  lemma AnswerReplayed(n: nat, ss: seq<State>, acts: seq<Action>, k: nat, i: nat, c: Handler, r: Answer, j: nat, b: nat)
    requires IsRun(n, ss, acts) && TermMatchedRun(ss, acts) && Answers(ss, acts, k, i, c, r) && !IsError(r)
    requires j < |ss| && b < |ss[j].nodes| && ss[j].nodes[b].commitIndex >= c.index
    ensures Replayed(ss[j].nodes[b].log, c, r)
  {
    hide Inv, Rel, IsRun, CommitsAgree, TermMatchedRun, ServerRel, Execute, Replay, AnswerTo, AnswerFor;
    var hs := ServedHistory(n, ss, acts);
    AnswerSlot(ss[k], hs[k], i, acts[k].ticket) by { NotTimeout(c, ss[k].servers[i].waiters); SizesAt(ss[k], hs[k]); }
    CommitRuleExact(n, ss, acts);
    CommitsAgreeAt(ss, k, i, j, b);
    var m, m' := ss[k].nodes[i], ss[j].nodes[b];
    SamePrefix(m.log, m'.log, Min(m.commitIndex, m'.commitIndex), c.index);
    EncodedOutcome(m'.log, c.index, c.term, c.command);
  }

  lemma NotTimeout(c: Handler, w: map<nat, Pending>)
    requires !IsError(AnswerTo(c, w))
    ensures AnswerTo(c, w) != CommitTimeout && AnswerTo(c, w) != LostLeadership
  {
  }

  lemma EncodedOutcome(l: Log, k: nat, t: nat, c: Command)
    requires k < |l| && l[k] == LogEntry(t, Encode(c)) && Fits(c)
    ensures OutcomeAt(l, k) == Execute(Replay(l[..k]), c).1
  {
    hide Execute, Replay, Encode, Decode;
    RoundTrip(c);
    Canonical(Encode(c));
  }

  /** A handler told that it lost leadership: its entry is never applied by any node, at any moment of
      the run. */
  lemma LostEntriesAreNeverApplied(n: nat, ss: seq<State>, acts: seq<Action>, k: nat, i: nat, c: Handler, j: nat, b: nat)
    requires IsRun(n, ss, acts) && TermMatchedRun(ss, acts) && Answers(ss, acts, k, i, c, LostLeadership)
    requires j < |acts| && acts[j] == StoreFetched(b) && b < |ss[j].servers|
    requires ss[j].servers[b].applier.Fetched? && ss[j].servers[b].applier.index == c.index
    ensures ss[j].servers[b].applier.entry.term != c.term
  {
    hide Inv, Rel, IsRun, CommitsAgree, TermMatchedRun, ServerRel, Agree, Backs, CommitBacks, ServerBacks;
    hide Encode, OutcomeAt, AnswerFor, AnswerTo;
    RunShape(n, ss, acts);
    var hs := ServedHistory(n, ss, acts);
    Served(ss, hs, k);
    Served(ss, hs, j);
    AnswerSlot(ss[k], hs[k], i, acts[k].ticket);
    AppliedEntry(ss[j], hs[j], b);
    CommitRuleExact(n, ss, acts);
    CommitsAgreeAt(ss, k, i, j, b);
    var m, m' := ss[k].nodes[i], ss[j].nodes[b];
    AgreeBelow(m.log, m'.log, Min(m.commitIndex, m'.commitIndex), c.index);
  }

  // ----- real-time order -----

  /** Handlers that came later than state k stand beyond what any leader's log held then. */
  ghost predicate Later(s: State, h: History, tickets: nat)
    requires |s.servers| == |s.nodes|
  {
    forall i, t :: 0 <= i < |s.servers| && t in s.servers[i].handlers && t >= tickets ==>
      LaterHandler(h, s.servers[i].handlers[t])
  }

  ghost predicate LaterHandler(h: History, c: Handler)
  {
    c.term in h.reigns ==> c.index >= |h.reigns[c.term].log|
  }

  lemma {:induction false} LaterAt(n: nat, ss: seq<State>, acts: seq<Action>, hs: seq<History>, j: nat, k: nat)
    requires IsRun(n, ss, acts) && Backs(ss, hs) && ServerBacks(ss, hs) && j <= k < |ss|
    ensures Later(ss[k], hs[j], ss[j].tickets) && ss[j].tickets <= ss[k].tickets
    decreases k
  {
    hide Inv, Rel, Grows, ServerRel, StepAt;
    if k == j {
      NoneLater(ss[k], hs[k]);
    } else {
      LaterAt(n, ss, acts, hs, j, k - 1);
      assert StepAt(ss, acts, k - 1) && Grows(hs[j], hs[k - 1]);
      StepIsEnabled(ss, acts, k - 1);
      LaterStep(ss, acts, hs, j, k - 1);
    }
  }

  lemma NoneLater(s: State, h: History)
    requires |s.servers| == |s.nodes| && ServerRel(s, h)
    ensures Later(s, h, s.tickets)
  {
    forall i, t | 0 <= i < |s.servers| && t in s.servers[i].handlers ensures t < s.tickets {
      assert ServerOk(s.nodes[i], s.servers[i], h, s.tickets);
    }
  }

  lemma LaterStep(ss: seq<State>, acts: seq<Action>, hs: seq<History>, j: nat, k: nat)
    requires Backs(ss, hs) && |ss| == |acts| + 1 && j <= k < |acts| && StepAt(ss, acts, k)
    requires |ss[k].servers| == |ss[k].nodes| && |ss[k + 1].servers| == |ss[k + 1].nodes|
    requires Later(ss[k], hs[j], ss[j].tickets) && ss[j].tickets <= ss[k].tickets
    ensures Later(ss[k + 1], hs[j], ss[j].tickets) && ss[j].tickets <= ss[k + 1].tickets
  {
    hide Inv, Rel, Backs, Grows;
    Backed(ss, hs, k);
    Grown(ss, hs, j, k);
    var s, s', a := ss[k], ss[k + 1], acts[k];
    forall i, t | 0 <= i < |s'.servers| && t in s'.servers[i].handlers && t >= ss[j].tickets
      ensures LaterHandler(hs[j], s'.servers[i].handlers[t])
    {
      if a.ClientSubmit? && a.i == i && t == s.tickets {
        LeaderLogInReign(s, hs[k], i);
        LeaderLogGrew(hs[j], hs[k], s.nodes[i].currentTerm);
      } else {
        assert t in s.servers[i].handlers;
        assert LaterHandler(hs[j], s.servers[i].handlers[t]);
      }
    }
  }

  lemma LeaderLogGrew(h: History, h': History, t: nat)
    requires Grows(h, h')
    ensures t in h.reigns ==> t in h'.reigns && |h.reigns[t].log| <= |h'.reigns[t].log|
  {
  }

  /**
   * Real-time order: an operation submitted (to any node, even a deposed leader) after another was
   * answered without error, and itself answered without error, has the higher committed index.
   */
  lemma RepliesRespectRealTime(n: nat, ss: seq<State>, acts: seq<Action>,
                               j: nat, a: nat, c: Handler, r: Answer, k: nat, b: nat, d: Handler, q: Answer)
    requires IsRun(n, ss, acts) && TermMatchedRun(ss, acts) && j <= k
    requires Answers(ss, acts, j, a, c, r) && !IsError(r)
    requires Answers(ss, acts, k, b, d, q) && !IsError(q)
    requires acts[k].ticket >= ss[j].tickets
    ensures d.index > c.index
  {
    hide Inv, Rel, IsRun, CommitsAgree, TermMatchedRun, ServerRel, LogOk;
    var hs := ServedHistory(n, ss, acts);
    SizesAt(ss[j], hs[j]);
    SizesAt(ss[k], hs[k]);
    AnswerSlot(ss[j], hs[j], a, acts[j].ticket);
    AnswerSlot(ss[k], hs[k], b, acts[k].ticket);
    LaterAt(n, ss, acts, hs, j, k);
    assert LaterHandler(hs[j], d);
    CommitRuleExact(n, ss, acts);
    CommitsAgreeAt(ss, j, a, k, b);
    var m, m' := ss[j].nodes[a], ss[k].nodes[b];
    if d.index <= c.index {
      AgreeBelow(m.log, m'.log, Min(m.commitIndex, m'.commitIndex), d.index);
      NodeInHistory(ss[j], hs[j], a);
      EntryInReign(hs[j], m.log, d.index);
    }
  }

  /** The state right after a handler was submitted: its entry is in its leader's log by then. */
  lemma {:induction false} SubmittedAt(n: nat, ss: seq<State>, acts: seq<Action>, hs: seq<History>, k: nat, i: nat, t: nat)
    returns (x: nat)
    requires IsRun(n, ss, acts) && Backs(ss, hs) && ServerBacks(ss, hs) && k < |ss|
    requires i < |ss[k].servers| && t in ss[k].servers[i].handlers
    ensures x <= k && ss[x].tickets == t + 1
    ensures var c := ss[k].servers[i].handlers[t];
            c.term in hs[x].reigns && c.index < |hs[x].reigns[c.term].log|
    decreases k
  {
    hide Inv, Rel, Grows, ServerRel, StepAt, Backs, ServerBacks, Next, Enabled;
    RunShape(n, ss, acts);
    if k == 0 {
      NobodyWaits(n, i);
    } else {
      RunStep(n, ss, acts, hs, k - 1);
      Served(ss, hs, k);
      HandlersBefore(ss[k - 1], acts[k - 1], i, t);
      if i < |ss[k - 1].servers| && t in ss[k - 1].servers[i].handlers {
        Served(ss, hs, k - 1);
        HandlerInReign(ss[k - 1], hs[k - 1], i, t);
        x := SubmittedAt(n, ss, acts, hs, k - 1, i, t);
      } else {
        x := k;
        HandlerInReign(ss[k], hs[k], i, t);
      }
    }
  }

  lemma NobodyWaits(n: nat, i: nat)
    requires i < |Init(n).servers|
    ensures Init(n).servers[i].handlers == map[]
  {
  }

  /** A handler keeps its index and term; a new one has the next number. */
  lemma HandlersBefore(s: State, a: Action, i: nat, t: nat)
    requires |s.servers| == |s.nodes| && Enabled(s, a)
    requires i < |Next(s, a).servers| && t in Next(s, a).servers[i].handlers
    ensures i < |s.servers|
    ensures t !in s.servers[i].handlers ==> Next(s, a).tickets == t + 1 && s.tickets == t
    ensures t in s.servers[i].handlers && t < s.tickets ==>
              var c, c' := s.servers[i].handlers[t], Next(s, a).servers[i].handlers[t];
              c.index == c'.index && c.term == c'.term && c.command == c'.command
  {
    hide Perform, Submit, Writes, ApplyWrites, OnRequestVote, OnAppendEntries, BuildAppend;
  }

  lemma HandlerInReign(s: State, h: History, i: nat, t: nat)
    requires |s.servers| == |s.nodes| && ServerRel(s, h) && i < |s.servers| && t in s.servers[i].handlers
    ensures t < s.tickets
    ensures var c := s.servers[i].handlers[t]; c.term in h.reigns && c.index < |h.reigns[c.term].log|
  {
    assert ServerOk(s.nodes[i], s.servers[i], h, s.tickets);
    assert HandlerOk(h, s.servers[i].handlers[t]);
  }

  /**
   * Two operations answered without error, overlapping or not, have different committed indexes: the
   * committed log is one sequential order of all answered operations.
   */
  lemma AnswersHaveOwnIndexes(n: nat, ss: seq<State>, acts: seq<Action>,
                              j: nat, a: nat, c: Handler, r: Answer, k: nat, b: nat, d: Handler, q: Answer)
    requires IsRun(n, ss, acts) && TermMatchedRun(ss, acts)
    requires Answers(ss, acts, j, a, c, r) && !IsError(r)
    requires Answers(ss, acts, k, b, d, q) && !IsError(q)
    requires acts[j].ticket != acts[k].ticket
    ensures c.index != d.index
  {
    hide IsRun, TermMatchedRun;
    if acts[j].ticket < acts[k].ticket {
      LaterTicketElsewhere(n, ss, acts, j, a, c, r, k, b, d, q);
    } else {
      LaterTicketElsewhere(n, ss, acts, k, b, d, q, j, a, c, r);
    }
  }

  lemma LaterTicketElsewhere(n: nat, ss: seq<State>, acts: seq<Action>,
                             j: nat, a: nat, c: Handler, r: Answer, k: nat, b: nat, d: Handler, q: Answer)
    requires IsRun(n, ss, acts) && TermMatchedRun(ss, acts)
    requires Answers(ss, acts, j, a, c, r) && !IsError(r)
    requires Answers(ss, acts, k, b, d, q) && !IsError(q)
    requires acts[j].ticket < acts[k].ticket
    ensures c.index != d.index
  {
    hide Inv, Rel, IsRun, CommitsAgree, TermMatchedRun, ServerRel, Agree, Grows, Backs, CommitBacks, ServerBacks;
    var hs := ServedHistory(n, ss, acts);
    Served(ss, hs, j);
    Served(ss, hs, k);
    hide Encode, OutcomeAt, AnswerFor, AnswerTo;
    NotTimeout(c, ss[j].servers[a].waiters);
    NotTimeout(d, ss[k].servers[b].waiters);
    AnswerSlot(ss[j], hs[j], a, acts[j].ticket);
    AnswerSlot(ss[k], hs[k], b, acts[k].ticket);
    var x := SubmittedAt(n, ss, acts, hs, j, a, acts[j].ticket);
    HandlerInReign(ss[k], hs[k], b, acts[k].ticket);
    if x <= k {
      LaterAt(n, ss, acts, hs, x, k);
      assert LaterHandler(hs[x], d);
    } else {
      LaterAt(n, ss, acts, hs, k, x);
    }
    if c.index == d.index {
      CommitRuleExact(n, ss, acts);
      CommitsAgreeAt(ss, j, a, k, b);
      var m, m' := ss[j].nodes[a], ss[k].nodes[b];
      AgreeBelow(m.log, m'.log, Min(m.commitIndex, m'.commitIndex), c.index);
    }
  }

  lemma EntryInReign(h: History, l: Log, x: nat)
    requires LogOk(h.reigns, l) && 1 <= x < |l|
    ensures l[x].term in h.reigns && x < |h.reigns[l[x].term].log|
  {
    assert Anchored(h.reigns, l, x);
  }

  /** From submit until its slot is registered, a handler's entry is not applied and no slot is filled
      at its node. */
  lemma RegisteredBeforeApplied(n: nat, ss: seq<State>, acts: seq<Action>, k: nat, i: nat)
    requires IsRun(n, ss, acts) && TermMatchedRun(ss, acts) && k < |ss| && i < |ss[k].servers| && i < |ss[k].nodes|
    requires ss[k].servers[i].holder.Some?
    ensures |ss[k].servers| == |ss[k].nodes|
    ensures var v := ss[k].servers[i];
            && v.holder.value in v.handlers
            && ss[k].nodes[i].lastApplied < v.handlers[v.holder.value].index
            && !Enabled(ss[k], Notify(i))
            && (v.applier.Notified? ==> v.applier.index < v.handlers[v.holder.value].index)
  {
    hide Inv, Rel, IsRun, CommitsAgree, TermMatchedRun, Grows, ServerRel, Enabled;
    var hs := ServedHistory(n, ss, acts);
    SizesAt(ss[k], hs[k]);
    HeldSlot(ss[k], hs[k], i);
  }

  lemma HeldSlot(s: State, h: History, i: nat)
    requires |s.servers| == |s.nodes| && ServerRel(s, h) && i < |s.nodes| && s.servers[i].holder.Some?
    ensures var v := s.servers[i];
            && v.holder.value in v.handlers
            && s.nodes[i].lastApplied < v.handlers[v.holder.value].index
            && !Enabled(s, Notify(i))
            && (v.applier.Notified? ==> v.applier.index < v.handlers[v.holder.value].index)
  {
    assert ServerOk(s.nodes[i], s.servers[i], h, s.tickets);
  }
}
