/**
 * State Machine Safety, exactly. What nodes do among themselves is one thing, when their appliers
 * and client handlers get to work is another. Fix the first, the protocol actions of a run: no
 * schedule of the second ever applies two different entries at one index if and only if the commit
 * condition holds.
 */
module Schedules {
  import opened Types
  import opened Messages
  import opened Node
  import opened Cluster
  import opened Protocol
  import opened Simulation
  import opened Runs
  import opened Commit
  import opened CommitRule
  import opened Service
  import opened Theorems
  import Command

  // ----- protocol actions -----

  predicate IsCore(a: Action) { a.Local? || a.Crash? || a.Send? || a.Lose? || a.ClientSubmit? }

  /** The protocol actions among these, in order. */
  function Core(acts: seq<Action>): seq<Action>
  {
    if acts == [] then []
    else Core(acts[..|acts| - 1]) + if IsCore(acts[|acts| - 1]) then [acts[|acts| - 1]] else []
  }

  /** Some schedule of appliers and clients around these protocol actions applies two different
      entries at one index. */
  ghost predicate CanDiffer(n: nat, core: seq<Action>)
  {
    exists ss, acts, j, a, k, b :: IsRun(n, ss, acts) && Core(acts) == core && AppliesDifferently(ss, acts, j, a, k, b)
  }

  lemma CoreOne(acts: seq<Action>, a: Action)
    ensures Core(acts + [a]) == Core(acts) + if IsCore(a) then [a] else []
  {
    assert (acts + [a])[..|acts|] == acts;
  }

  lemma CoreUpTo(acts: seq<Action>, k: nat)
    requires k < |acts|
    ensures Core(acts[..k + 1]) == Core(acts[..k]) + if IsCore(acts[k]) then [acts[k]] else []
  {
    assert acts[..k + 1] == acts[..k] + [acts[k]];
    CoreOne(acts[..k], acts[k]);
  }

  lemma {:induction false} CorePrefix(acts: seq<Action>, k: nat)
    requires k <= |acts|
    ensures Core(acts[..k]) <= Core(acts)
    decreases |acts| - k
  {
    if k < |acts| {
      CorePrefix(acts, k + 1);
      CoreUpTo(acts, k);
    } else {
      assert acts[..k] == acts;
    }
  }

  /** The point of the run at which c protocol actions are done. */
  lemma {:induction false} CutAt(acts: seq<Action>, c: nat) returns (k: nat)
    requires c <= |Core(acts)|
    ensures k <= |acts| && |Core(acts[..k])| == c
    decreases |acts|
  {
    if c == |Core(acts)| {
      k := |acts|;
      assert acts[..k] == acts;
    } else {
      var last := |acts| - 1;
      k := CutAt(acts[..last], c);
      assert acts[..last][..k] == acts[..k];
    }
  }

  // ----- states that differ in their servers only -----

  /** The same nodes, apart from how far they have applied, and the same network. */
  predicate SameCore(s: State, u: State)
  {
    && |s.nodes| == |u.nodes| == |s.servers| == |u.servers|
    && (forall i :: 0 <= i < |s.nodes| ==> SameNode(s.nodes[i], u.nodes[i]))
    && s.sent == u.sent && s.calls == u.calls && s.replies == u.replies && s.serial == u.serial
    && s.tickets == u.tickets
  }

  predicate SameNode(m: Node, w: Node) { m == w.(lastApplied := m.lastApplied) }

  lemma {:induction false} ScanBlind(m: Node, w: Node, n: nat)
    requires SameNode(m, w) && n < |m.log|
    ensures ScanCommit(m, n) == ScanCommit(w, n)
    decreases n
  {
    hide Replicas;
    if n > m.commitIndex { ScanBlind(m, w, n - 1); }
  }

  lemma AdvanceBlind(m: Node, w: Node)
    requires SameNode(m, w) && |m.log| >= 1
    ensures SameNode(AdvanceCommit(m), AdvanceCommit(w))
  {
    ScanBlind(m, w, |m.log| - 1);
  }

  lemma LeaderBlind(m: Node, w: Node)
    requires SameNode(m, w) && m.Wf()
    ensures SameNode(BecomeLeader(m), BecomeLeader(w))
  {
    hide AdvanceCommit;
    var next, match_ := seq(m.size, i => |m.log|), seq(m.size, i => 0)[m.id := |m.log|];
    var l := m.log + [NoOp(m.currentTerm)];
    var m1 := m.(role := Leader, leaderHint := Signed32(m.id), nextIndex := next, matchIndex := match_, log := l);
    var w1 := w.(role := Leader, leaderHint := Signed32(w.id), nextIndex := next, matchIndex := match_, log := l);
    assert seq(w.size, i => |w.log|) == next && seq(w.size, i => 0)[w.id := |w.log|] == match_;
    AdvanceBlind(m1, w1);
  }

  /** No operation looks at how far a node has applied. */
  lemma PerformBlind(m: Node, w: Node, op: Op)
    requires SameNode(m, w) && Callable(m, op)
    ensures Callable(w, op) && SameNode(Perform(m, op), Perform(w, op)) && Writes(m, op) == Writes(w, op)
    ensures Perform(w, op).lastApplied == w.lastApplied
    ensures op.HandleVote? ==> OnRequestVote(m, op.vargs).1 == OnRequestVote(w, op.vargs).1
    ensures op.HandleAppend? ==> OnAppendEntries(m, op.aargs).1 == OnAppendEntries(w, op.aargs).1
  {
    hide StartElection, OnRequestVote, OnAppendEntries, OnVoteReply, OnAppendReply, Submit, Writes;
    WritesBlind(m, w, op);
    match op {
      case Timeout => ElectionBlind(m, w);
      case HandleVote(a) => VoteBlind(m, w, a);
      case HandleAppend(a) => AppendBlind(m, w, a);
      case VoteReplied(p, a, r) => VoteReplyBlind(m, w, a, r);
      case AppendReplied(p, a, r) => AppendReplyBlind(m, w, p, a, r);
      case SubmitCommand(c) => SubmitBlind(m, w, c);
      case Idle =>
    }
  }

  lemma WritesBlind(m: Node, w: Node, op: Op)
    requires SameNode(m, w) && Callable(m, op)
    ensures Writes(m, op) == Writes(w, op)
  {
    hide MergeWrites;
  }

  lemma VoteBlind(m: Node, w: Node, a: VoteArgs)
    requires SameNode(m, w) && |m.log| >= 1
    ensures SameNode(OnRequestVote(m, a).0, OnRequestVote(w, a).0) && OnRequestVote(m, a).1 == OnRequestVote(w, a).1
    ensures OnRequestVote(w, a).0.lastApplied == w.lastApplied
  {
  }

  lemma AppendBlind(m: Node, w: Node, a: AppendArgs)
    requires SameNode(m, w) && |m.log| >= 1
    ensures SameNode(OnAppendEntries(m, a).0, OnAppendEntries(w, a).0) && OnAppendEntries(m, a).1 == OnAppendEntries(w, a).1
    ensures OnAppendEntries(w, a).0.lastApplied == w.lastApplied
  {
    hide Merge, ConflictStart;
  }

  lemma VoteReplyBlind(m: Node, w: Node, a: VoteArgs, r: VoteReply)
    requires SameNode(m, w) && m.Wf()
    ensures SameNode(OnVoteReply(m, a, r), OnVoteReply(w, a, r)) && OnVoteReply(w, a, r).lastApplied == w.lastApplied
  {
    hide BecomeLeader;
    var m1, w1 := m.(votesReceived := m.votesReceived + 1), w.(votesReceived := w.votesReceived + 1);
    LeaderBlind(m1, w1);
    LeaderKeepsApplied(w1);
  }

  lemma AppendReplyBlind(m: Node, w: Node, p: nat, a: AppendArgs, r: AppendReply)
    requires SameNode(m, w) && m.Wf() && p < m.size
    ensures SameNode(OnAppendReply(m, p, a, r), OnAppendReply(w, p, a, r))
    ensures OnAppendReply(w, p, a, r).lastApplied == w.lastApplied
  {
    hide AdvanceCommit;
    var k: nat := Max(m.matchIndex[p], a.prevLogIndex + |a.entries|);
    var next, match_ := m.nextIndex[p := k + 1], m.matchIndex[p := k];
    AdvanceBlind(m.(nextIndex := next, matchIndex := match_), w.(nextIndex := next, matchIndex := match_));
    AdvanceKeepsApplied(w.(nextIndex := next, matchIndex := match_));
  }

  lemma SubmitBlind(m: Node, w: Node, c: Bytes)
    requires SameNode(m, w) && m.Wf()
    ensures SameNode(Submit(m, c), Submit(w, c)) && Submit(w, c).lastApplied == w.lastApplied
  {
    hide AdvanceCommit;
    var l, match_ := m.log + [LogEntry(m.currentTerm, c)], m.matchIndex[m.id := |m.log|];
    AdvanceBlind(m.(log := l, matchIndex := match_), w.(log := l, matchIndex := match_));
    AdvanceKeepsApplied(w.(log := l, matchIndex := match_));
  }

  lemma ElectionBlind(m: Node, w: Node)
    requires SameNode(m, w) && m.Wf()
    ensures SameNode(StartElection(m), StartElection(w)) && StartElection(w).lastApplied == w.lastApplied
  {
    hide BecomeLeader;
    var m1 := m.(role := Candidate, currentTerm := m.currentTerm + 1, votedFor := Signed32(m.id),
                 leaderHint := -1, votesReceived := 1);
    var w1 := w.(role := Candidate, currentTerm := m.currentTerm + 1, votedFor := Signed32(m.id),
                 leaderHint := -1, votesReceived := 1);
    LeaderBlind(m1, w1);
    LeaderKeepsApplied(w1);
  }

  lemma AdvanceKeepsApplied(w: Node)
    requires |w.log| >= 1
    ensures AdvanceCommit(w).lastApplied == w.lastApplied
  {
    hide ScanCommit;
  }

  lemma LeaderKeepsApplied(w: Node)
    requires w.Wf()
    ensures BecomeLeader(w).lastApplied == w.lastApplied
  {
    hide ScanCommit;
  }

  /** One protocol action in two such states leads to two such states again. */
  lemma CoreStep(s: State, u: State, a: Action)
    requires SameCore(s, u) && IsCore(a) && Enabled(s, a) && Enabled(u, a)
    requires forall i :: 0 <= i < |s.nodes| ==> s.nodes[i].Wf()
    ensures SameCore(Next(s, a), Next(u, a)) && |Next(u, a).nodes| == |u.nodes|
    ensures forall i :: 0 <= i < |u.nodes| ==> Next(u, a).nodes[i].lastApplied <= u.nodes[i].lastApplied
  {
    hide Perform, Writes, ApplyWrites, OnRequestVote, OnAppendEntries, Submit, DurableOf, Restarted, BuildAppend, VoteRequests;
    if a.Local? {
      LocalStep(s, u, a.i, a.op, a.call);
    } else if a.Crash? {
      var m, w := s.nodes[a.i], u.nodes[a.i];
      assert SameNode(m, w);
      PerformBlind(m, w, a.op);
      SameDurable(m, w);
      RestartBlind(m.id, m.size, ApplyWrites(DurableOf(m), Writes(m, a.op)[..a.written]));
    } else if a.ClientSubmit? {
      assert SameNode(s.nodes[a.i], u.nodes[a.i]);
      SubmitBlind(s.nodes[a.i], u.nodes[a.i], Command.Encode(a.command));
    } else if a.Send? {
      assert SameNode(s.nodes[a.i], u.nodes[a.i]);
      SameRequest(s.nodes[a.i], u.nodes[a.i], a.peer);
    }
  }

  lemma LocalStep(s: State, u: State, i: nat, op: Op, call: nat)
    requires SameCore(s, u) && Enabled(s, Local(i, op, call)) && Enabled(u, Local(i, op, call))
    ensures SameCore(Next(s, Local(i, op, call)), Next(u, Local(i, op, call)))
    ensures |Next(u, Local(i, op, call)).nodes| == |u.nodes|
    ensures forall j :: 0 <= j < |u.nodes| ==> Next(u, Local(i, op, call)).nodes[j].lastApplied == u.nodes[j].lastApplied
  {
    hide Perform, OnRequestVote, OnAppendEntries, AfterLocal, Writes, VoteRequests;
    var m, w := s.nodes[i], u.nodes[i];
    assert SameNode(m, w);
    PerformBlind(m, w, op);
    PerformWf(m, op);
    PerformWf(w, op);
    AfterLocalBlind(s, u, i, op, call, Perform(m, op), Perform(w, op));
  }

  lemma SameVoteRequests(m: Node, w: Node, n: nat)
    requires SameNode(m, w) && |m.log| >= 1
    ensures VoteRequests(m, n) == VoteRequests(w, n)
  {
  }

  /** Like nodes send, answer and take the same off the network. */
  lemma AfterLocalBlind(s: State, u: State, i: nat, op: Op, call: nat, m: Node, w: Node)
    requires SameCore(s, u) && i < |s.nodes| && Callable(s.nodes[i], op) && Callable(u.nodes[i], op)
    requires SameNode(m, w) && |m.log| >= 1
    requires op.HandleVote? ==> OnRequestVote(s.nodes[i], op.vargs).1 == OnRequestVote(u.nodes[i], op.vargs).1
    requires op.HandleAppend? ==> OnAppendEntries(s.nodes[i], op.aargs).1 == OnAppendEntries(u.nodes[i], op.aargs).1
    ensures SameCore(AfterLocal(s, i, op, call, m), AfterLocal(u, i, op, call, w))
    ensures AfterLocal(u, i, op, call, w).nodes == u.nodes[i := w]
  {
    hide VoteRequests, OnRequestVote, OnAppendEntries, Callable;
    SameVoteRequests(m, w, |s.nodes|);
  }

  lemma SameDurable(m: Node, w: Node)
    requires SameNode(m, w) && |m.log| >= 1
    ensures DurableOf(m) == DurableOf(w)
  {
  }

  lemma SameRequest(m: Node, w: Node, p: nat)
    requires SameNode(m, w) && p < |m.nextIndex| && 1 <= m.nextIndex[p] <= |m.log|
    ensures BuildAppend(m, p) == BuildAppend(w, p)
  {
  }

  lemma RestartBlind(id: nat, size: nat, d: Durable)
    ensures Restarted(id, size, d).lastApplied == 0
  {
  }

  lemma OtherStep(s: State, a: Action)
    requires |s.servers| == |s.nodes| && Enabled(s, a) && !IsCore(a)
    ensures SameCore(Next(s, a), s)
  {
  }

  // ----- the protocol actions determine the nodes -----

  lemma SameCoreTransitive(s: State, u: State, v: State)
    requires SameCore(s, u) && SameCore(u, v)
    ensures SameCore(s, v) && SameCore(u, s)
  {
    forall i | 0 <= i < |s.nodes| ensures SameNode(s.nodes[i], v.nodes[i]) && SameNode(u.nodes[i], s.nodes[i]) {
      assert SameNode(s.nodes[i], u.nodes[i]) && SameNode(u.nodes[i], v.nodes[i]);
    }
  }

  lemma AllWf(n: nat, ss: seq<State>, acts: seq<Action>, hs: seq<History>, k: nat)
    requires IsRun(n, ss, acts) && Backs(ss, hs) && k < |ss|
    ensures forall i :: 0 <= i < |ss[k].nodes| ==> ss[k].nodes[i].Wf()
  {
    hide Inv, Grows, StepAt, NetRel;
    Backed(ss, hs, k);
    forall i | 0 <= i < |ss[k].nodes| ensures ss[k].nodes[i].Wf() {
      assert NodeRel(ss[k].nodes[i], hs[k], i);
    }
  }

  lemma {:induction false} SameCoreAt(n: nat, ss: seq<State>, acts: seq<Action>, hs: seq<History>, k: nat,
                                      us: seq<State>, bcts: seq<Action>, gs: seq<History>, j: nat)
    requires IsRun(n, ss, acts) && Backs(ss, hs) && IsRun(n, us, bcts) && Backs(us, gs)
    requires k < |ss| && j < |us| && k <= |acts| && j <= |bcts| && Core(acts[..k]) == Core(bcts[..j])
    ensures SameCore(ss[k], us[j])
    decreases k + j
  {
    hide Inv, Rel, Next, Enabled, Grows, Backs, IsRun, StepAt, SameCore, Core, Init;
    if k > 0 {
      CoreUpTo(acts, k - 1);
      RunStep(n, ss, acts, hs, k - 1);
    }
    if j > 0 {
      CoreUpTo(bcts, j - 1);
      RunStep(n, us, bcts, gs, j - 1);
    }
    if k > 0 && !IsCore(acts[k - 1]) {
      SameCoreAt(n, ss, acts, hs, k - 1, us, bcts, gs, j);
      OtherStep(ss[k - 1], acts[k - 1]);
      SameCoreTransitive(ss[k], ss[k - 1], us[j]);
    } else if j > 0 && !IsCore(bcts[j - 1]) {
      SameCoreAt(n, ss, acts, hs, k, us, bcts, gs, j - 1);
      OtherStep(us[j - 1], bcts[j - 1]);
      SameCoreTransitive(us[j], us[j - 1], us[j - 1]) by { SameCoreReflexive(n, us, bcts, gs, j - 1); }
      SameCoreTransitive(ss[k], us[j - 1], us[j]);
    } else if k > 0 && j > 0 {
      LastEqual(Core(acts[..k - 1]), acts[k - 1], Core(bcts[..j - 1]), bcts[j - 1]);
      SameCoreAt(n, ss, acts, hs, k - 1, us, bcts, gs, j - 1);
      AllWf(n, ss, acts, hs, k - 1);
      CoreStep(ss[k - 1], us[j - 1], acts[k - 1]);
    } else {
      EmptyCore();
      BothStart(n, ss, acts, us, bcts);
      SameCoreReflexive(n, ss, acts, hs, 0);
      assert acts[..0] == [] && bcts[..0] == [];
    }
  }

  lemma EmptyCore()
    ensures Core([]) == []
  {
  }

  lemma BothStart(n: nat, ss: seq<State>, acts: seq<Action>, us: seq<State>, bcts: seq<Action>)
    requires IsRun(n, ss, acts) && IsRun(n, us, bcts)
    ensures ss[0] == us[0]
  {
  }

  lemma LastEqual(x: seq<Action>, a: Action, y: seq<Action>, b: Action)
    requires x + [a] == y + [b]
    ensures x == y && a == b
  {
    assert |x| == |y|;
    assert (x + [a])[..|x|] == x && (y + [b])[..|x|] == y;
    assert (x + [a])[|x|] == a && (y + [b])[|x|] == b;
  }

  lemma SameCoreReflexive(n: nat, ss: seq<State>, acts: seq<Action>, hs: seq<History>, k: nat)
    requires IsRun(n, ss, acts) && Backs(ss, hs) && k < |ss|
    ensures SameCore(ss[k], ss[k])
  {
    hide Inv, Rel, Grows, StepAt;
    SizeIs(n, ss, acts, hs, k);
  }

  /** Runs with the same protocol actions pass through the same logs and commit indexes. */
  lemma Shadowed(n: nat, ss: seq<State>, acts: seq<Action>, hs: seq<History>,
                 us: seq<State>, bcts: seq<Action>, gs: seq<History>, j: nat) returns (k: nat)
    requires IsRun(n, ss, acts) && Backs(ss, hs) && IsRun(n, us, bcts) && Backs(us, gs)
    requires Core(acts) == Core(bcts) && j < |us|
    ensures k < |ss| && SameCore(ss[k], us[j])
  {
    hide Inv, Rel, Grows, Backs, IsRun, StepAt, SameCore, Core;
    RunShape(n, ss, acts);
    RunShape(n, us, bcts);
    CorePrefix(bcts, j);
    k := CutAt(acts, |Core(bcts[..j])|);
    CorePrefix(acts, k);
    SameCoreAt(n, ss, acts, hs, k, us, bcts, gs, j);
  }

  lemma AgreementTransfers(n: nat, ss: seq<State>, acts: seq<Action>, us: seq<State>, bcts: seq<Action>)
    requires IsRun(n, ss, acts) && IsRun(n, us, bcts) && Core(acts) == Core(bcts) && CommitsAgree(ss)
    ensures CommitsAgree(us)
  {
    hide IsRun, Core, CommitsAgree, Backs, CreditedRun, SameCore, LogsAgree, Inv, Rel, Grows, StepAt;
    var hs := RunHasHistory(n, ss, acts);
    var gs := RunHasHistory(n, us, bcts);
    forall j, i | 0 <= j < |us| && 0 <= i < |us[j].nodes| ensures us[j].nodes[i].commitIndex < |us[j].nodes[i].log| {
      var k := Shadowed(n, ss, acts, hs, us, bcts, gs, j);
      CommitInLog(ss, k, us[j], i);
    }
    forall j, j', a, b | 0 <= j < |us| && 0 <= j' < |us| && 0 <= a < |us[j].nodes| && 0 <= b < |us[j'].nodes|
      ensures LogsAgree(us[j].nodes[a], us[j'].nodes[b])
    {
      var k := Shadowed(n, ss, acts, hs, us, bcts, gs, j);
      var k' := Shadowed(n, ss, acts, hs, us, bcts, gs, j');
      SameLogsAgree(ss, k, us[j], a, k', us[j'], b);
    }
    AgreeIntro(us);
  }

  lemma AgreeIntro(us: seq<State>)
    requires forall j, i :: 0 <= j < |us| && 0 <= i < |us[j].nodes| ==> us[j].nodes[i].commitIndex < |us[j].nodes[i].log|
    requires forall j, j', a, b :: 0 <= j < |us| && 0 <= j' < |us| && 0 <= a < |us[j].nodes| && 0 <= b < |us[j'].nodes| ==>
               LogsAgree(us[j].nodes[a], us[j'].nodes[b])
    ensures CommitsAgree(us)
  {
    hide LogsAgree;
  }

  lemma CommitInLog(ss: seq<State>, k: nat, u: State, i: nat)
    requires CommitsAgree(ss) && k < |ss| && SameCore(ss[k], u) && i < |u.nodes|
    ensures u.nodes[i].commitIndex < |u.nodes[i].log|
  {
    hide LogsAgree;
    assert SameNode(ss[k].nodes[i], u.nodes[i]);
  }

  lemma SameLogsAgree(ss: seq<State>, k: nat, u: State, a: nat, k': nat, u': State, b: nat)
    requires CommitsAgree(ss) && k < |ss| && SameCore(ss[k], u) && a < |u.nodes|
    requires k' < |ss| && SameCore(ss[k'], u') && b < |u'.nodes|
    ensures LogsAgree(u.nodes[a], u'.nodes[b])
  {
    hide CommitsAgree;
    assert SameNode(ss[k].nodes[a], u.nodes[a]) && SameNode(ss[k'].nodes[b], u'.nodes[b]);
    CommitsAgreeAt(ss, k, a, k', b);
  }

  /** Where the condition holds, no schedule makes nodes apply different entries. */
  lemma ConditionSuffices(n: nat, ss: seq<State>, acts: seq<Action>)
    requires IsRun(n, ss, acts) && TermMatchedRun(ss, acts)
    ensures !CanDiffer(n, Core(acts))
  {
    hide IsRun, Core, CommitsAgree, TermMatchedRun, AppliesDifferently;
    if CanDiffer(n, Core(acts)) {
      var us, bcts, j, a, k, b :| IsRun(n, us, bcts) && Core(bcts) == Core(acts) && AppliesDifferently(us, bcts, j, a, k, b);
      CommitRuleExact(n, ss, acts);
      AgreementTransfers(n, ss, acts, us, bcts);
      CommitRuleExact(n, us, bcts);
      StateMachineSafety(n, us, bcts, j, a, k, b);
    }
  }

  // ----- a schedule of one's own -----

  ghost predicate Calm(u: State)
  {
    forall i :: 0 <= i < |u.servers| ==> u.servers[i].holder.None? && u.servers[i].applier.Resting?
  }

  /** The run us ends in a state like s, by these protocol actions, with its servers at rest. */
  ghost predicate Follows(n: nat, us: seq<State>, bcts: seq<Action>, s: State, core: seq<Action>)
  {
    IsRun(n, us, bcts) && SameCore(s, us[|bcts|]) && Calm(us[|bcts|]) && Core(bcts) == core
  }

  /** The run us' continues us, and no node has applied more at its end. */
  ghost predicate Continues(us: seq<State>, bcts: seq<Action>, us': seq<State>, bcts': seq<Action>)
  {
    && |us| == |bcts| + 1 && |us'| == |bcts'| + 1 && us <= us' && bcts <= bcts'
    && |us[|bcts|].nodes| == |us'[|bcts'|].nodes|
    && forall i :: 0 <= i < |us[|bcts|].nodes| ==>
         us'[|bcts'|].nodes[i].lastApplied <= us[|bcts|].nodes[i].lastApplied
  }

  /** A protocol action that is possible is possible in the like state too. */
  lemma EnabledBlind(s: State, u: State, a: Action)
    requires SameCore(s, u) && Calm(u) && IsCore(a) && Enabled(s, a)
    requires forall i :: 0 <= i < |s.nodes| ==> s.nodes[i].Wf()
    ensures Enabled(u, a)
  {
    hide Perform, Writes;
    if a.Local? || a.Crash? {
      assert SameNode(s.nodes[a.i], u.nodes[a.i]);
      PerformBlind(s.nodes[a.i], u.nodes[a.i], a.op);
    } else if a.Send? || a.ClientSubmit? {
      assert SameNode(s.nodes[a.i], u.nodes[a.i]);
    }
  }

  lemma CalmAfter(u: State, a: Action)
    requires |u.servers| == |u.nodes| && Calm(u) && Enabled(u, a) && IsCore(a)
    ensures |Next(u, a).servers| == |Next(u, a).nodes|
    ensures !a.ClientSubmit? ==> Calm(Next(u, a))
    ensures a.ClientSubmit? ==>
              var v := Next(u, a);
              && Enabled(v, ClientPark(a.i)) && Calm(Next(v, ClientPark(a.i)))
              && SameCore(Next(v, ClientPark(a.i)), v) && Next(v, ClientPark(a.i)).nodes == v.nodes
  {
    hide Perform, Submit, Writes, ApplyWrites, OnRequestVote, OnAppendEntries, VoteRequests;
  }

  lemma FollowStep(n: nat, us: seq<State>, bcts: seq<Action>, s: State, a: Action, core: seq<Action>)
    returns (us': seq<State>, bcts': seq<Action>)
    requires Follows(n, us, bcts, s, core) && Enabled(s, a)
    requires forall i :: 0 <= i < |s.nodes| ==> s.nodes[i].Wf()
    ensures Follows(n, us', bcts', Next(s, a), core + if IsCore(a) then [a] else [])
    ensures Continues(us, bcts, us', bcts')
  {
    hide IsRun, SameCore, Next, Enabled, Calm, Core;
    RunShape(n, us, bcts);
    var u := us[|bcts|];
    Sizes(s, u);
    us', bcts' := us, bcts;
    if !IsCore(a) {
      OtherStep(s, a);
      SameCoreTransitive(Next(s, a), s, u);
      assert core + [] == core;
    } else {
      EnabledBlind(s, u, a);
      CoreStep(s, u, a);
      CalmAfter(u, a);
      RunGrows(n, us, bcts, a);
      CoreOne(bcts, a);
      us', bcts' := us + [Next(u, a)], bcts + [a];
      Sizes(Next(s, a), Next(u, a));
      if a.ClientSubmit? {
        var v := Next(u, a);
        RunGrows(n, us', bcts', ClientPark(a.i));
        CoreOne(bcts', ClientPark(a.i));
        var w := Next(v, ClientPark(a.i));
        us', bcts' := us' + [w], bcts' + [ClientPark(a.i)];
        assert core + [a] + [] == core + [a];
        Sizes(w, v);
        SameCoreTransitive(w, v, v) by { SameCoreTransitive(Next(s, a), v, v) by { Same(v); } Same(v); }
        SameCoreTransitive(Next(s, a), v, w);
      }
    }
  }

  lemma Sizes(s: State, u: State)
    requires SameCore(s, u)
    ensures |s.nodes| == |u.nodes| == |s.servers| == |u.servers|
  {
  }

  lemma Same(v: State)
    requires |v.nodes| == |v.servers|
    ensures SameCore(v, v)
  {
  }

  /** The protocol actions from one point of a run to another, followed from a like state. */
  lemma {:induction false} FollowRun(n: nat, ss: seq<State>, acts: seq<Action>, hs: seq<History>, lo: nat, hi: nat,
                                     us: seq<State>, bcts: seq<Action>)
    returns (us': seq<State>, bcts': seq<Action>)
    requires IsRun(n, ss, acts) && Backs(ss, hs) && lo <= hi <= |acts| < |ss|
    requires Follows(n, us, bcts, ss[lo], Core(acts[..lo]))
    ensures Follows(n, us', bcts', ss[hi], Core(acts[..hi])) && Continues(us, bcts, us', bcts')
    decreases hi
  {
    hide IsRun, Backs, SameCore, Next, Enabled, Calm, Core, Inv, Rel, Grows, StepAt;
    if lo == hi {
      RunShape(n, us, bcts);
      us', bcts' := us, bcts;
    } else {
      var us1, bcts1 := FollowRun(n, ss, acts, hs, lo, hi - 1, us, bcts);
      RunStep(n, ss, acts, hs, hi - 1);
      AllWf(n, ss, acts, hs, hi - 1);
      us', bcts' := FollowStep(n, us1, bcts1, ss[hi - 1], acts[hi - 1], Core(acts[..hi - 1]));
      CoreUpTo(acts, hi - 1);
    }
  }

  // ----- applying -----

  /** Step x of the run applies this entry at this index on node i. */
  ghost predicate AppliesAt(us: seq<State>, bcts: seq<Action>, x: nat, i: nat, index: nat, e: LogEntry)
  {
    && x < |bcts| < |us| && bcts[x] == StoreFetched(i)
    && i < |us[x].servers| && us[x].servers[i].applier == Fetched(index, e)
  }

  /** Four steps of the applier of a node at rest. */
  lemma ApplyNext(u: State, i: nat)
    requires |u.servers| == |u.nodes| && Calm(u) && i < |u.nodes|
    requires u.nodes[i].lastApplied < u.nodes[i].commitIndex && u.nodes[i].lastApplied + 1 < |u.nodes[i].log|
    ensures Enabled(u, Fetch(i))
    ensures var u1 := Next(u, Fetch(i));
            && |u1.servers| == |u1.nodes| == |u.nodes| && Enabled(u1, StoreFetched(i))
            && u1.servers[i].applier == Fetched(u.nodes[i].lastApplied + 1, u.nodes[i].log[u.nodes[i].lastApplied + 1])
            && var u2 := Next(u1, StoreFetched(i));
               && |u2.servers| == |u2.nodes| && Enabled(u2, Notify(i))
               && var u3 := Next(u2, Notify(i));
                  && |u3.servers| == |u3.nodes| && Enabled(u3, Finish(i))
                  && var u4 := Next(u3, Finish(i));
                     && Calm(u4) && SameCore(u, u4)
                     && u4.nodes == u.nodes[i := u.nodes[i].(lastApplied := u.nodes[i].lastApplied + 1)]
  {
    hide Command.ApplyRaw;
  }

  lemma FourSteps(n: nat, us: seq<State>, bcts: seq<Action>, i: nat)
    returns (us': seq<State>, bcts': seq<Action>)
    requires IsRun(n, us, bcts) && |us| == |bcts| + 1
    requires var u := us[|bcts|];
             && |u.servers| == |u.nodes| && Calm(u) && i < |u.nodes|
             && u.nodes[i].lastApplied < u.nodes[i].commitIndex && u.nodes[i].lastApplied + 1 < |u.nodes[i].log|
    ensures var u := us[|bcts|];
            var x := u.nodes[i].lastApplied + 1;
            && IsRun(n, us', bcts') && |us'| == |bcts'| + 1 && us <= us' && bcts <= bcts' && Core(bcts') == Core(bcts)
            && AppliesAt(us', bcts', |bcts| + 1, i, x, u.nodes[i].log[x])
            && Calm(us'[|bcts'|]) && SameCore(u, us'[|bcts'|])
            && us'[|bcts'|].nodes == u.nodes[i := u.nodes[i].(lastApplied := x)]
  {
    hide IsRun, Next, Enabled, Calm, SameCore, Core;
    var u := us[|bcts|];
    ApplyNext(u, i);
    var u1 := Next(u, Fetch(i));
    var u2 := Next(u1, StoreFetched(i));
    var u3 := Next(u2, Notify(i));
    var u4 := Next(u3, Finish(i));
    GoQuietly(n, us, bcts, Fetch(i));
    var us1, bcts1 := us + [u1], bcts + [Fetch(i)];
    GoQuietly(n, us1, bcts1, StoreFetched(i));
    var us2, bcts2 := us1 + [u2], bcts1 + [StoreFetched(i)];
    GoQuietly(n, us2, bcts2, Notify(i));
    var us3, bcts3 := us2 + [u3], bcts2 + [Notify(i)];
    GoQuietly(n, us3, bcts3, Finish(i));
    us', bcts' := us3 + [u4], bcts3 + [Finish(i)];
    assert us1 <= us' && bcts2 <= bcts';
    assert us'[|bcts| + 1] == us1[|bcts| + 1] == u1 && bcts'[|bcts| + 1] == bcts2[|bcts| + 1] == StoreFetched(i);
  }

  /** One step that is no protocol action. */
  lemma GoQuietly(n: nat, us: seq<State>, bcts: seq<Action>, a: Action)
    requires IsRun(n, us, bcts) && |us| == |bcts| + 1 && !IsCore(a)
    requires |us[|bcts|].servers| == |us[|bcts|].nodes| && Enabled(us[|bcts|], a)
    ensures IsRun(n, us + [Next(us[|bcts|], a)], bcts + [a]) && Core(bcts + [a]) == Core(bcts)
  {
    hide IsRun, Next, Enabled, Core;
    RunGrows(n, us, bcts, a);
    CoreOne(bcts, a);
    assert Core(bcts) + [] == Core(bcts);
  }

  /** Node i applies on to index c. */
  lemma {:induction false} ApplyTo(n: nat, us: seq<State>, bcts: seq<Action>, s: State, core: seq<Action>, i: nat, c: nat)
    returns (us': seq<State>, bcts': seq<Action>, x: nat)
    requires Follows(n, us, bcts, s, core) && i < |s.nodes| && us[|bcts|].nodes[i].lastApplied < c
    requires c <= s.nodes[i].commitIndex && c < |s.nodes[i].log|
    ensures Follows(n, us', bcts', s, core) && AppliesAt(us', bcts', x, i, c, s.nodes[i].log[c])
    ensures |us'| == |bcts'| + 1 && |us| == |bcts| + 1 && us <= us' && bcts <= bcts'
    ensures |us'[|bcts'|].nodes| == |us[|bcts|].nodes|
    ensures forall p :: 0 <= p < |us[|bcts|].nodes| && p != i ==> us'[|bcts'|].nodes[p] == us[|bcts|].nodes[p]
    decreases c - us[|bcts|].nodes[i].lastApplied
  {
    hide IsRun, Next, Enabled, Calm, Core;
    RunShape(n, us, bcts);
    var u := us[|bcts|];
    assert SameNode(s.nodes[i], u.nodes[i]);
    x := |bcts| + 1;
    us', bcts' := FourSteps(n, us, bcts, i);
    SameCoreTransitive(s, u, us'[|bcts'|]);
    if u.nodes[i].lastApplied + 1 < c {
      us', bcts', x := ApplyTo(n, us', bcts', s, core, i, c);
    }
  }

  lemma AppliesStill(us: seq<State>, bcts: seq<Action>, us': seq<State>, bcts': seq<Action>, x: nat, i: nat, c: nat, e: LogEntry)
    requires AppliesAt(us, bcts, x, i, c, e) && us <= us' && bcts <= bcts' && |bcts'| < |us'|
    ensures AppliesAt(us', bcts', x, i, c, e)
  {
    assert us'[x] == us[x] && bcts'[x] == bcts[x];
  }

  // ----- the condition is necessary -----

  lemma FirstBreak(n: nat, ss: seq<State>, acts: seq<Action>) returns (k: nat)
    requires IsRun(n, ss, acts) && !TermMatchedRun(ss, acts)
    ensures |ss| == |acts| + 1 && k < |acts| && StepAt(ss, acts, k) && !TermMatched(ss, acts, k)
    ensures forall j :: 0 <= j < k ==> StepAt(ss, acts, j) && TermMatched(ss, acts, j)
  {
    hide StepAt, TermMatched;
    assert exists j :: 0 <= j < |acts| && StepAt(ss, acts, j) && !TermMatched(ss, acts, j);
    k := 0;
    while StepAt(ss, acts, k) && TermMatched(ss, acts, k)
      invariant k < |acts| && forall j :: 0 <= j < k ==> StepAt(ss, acts, j) && TermMatched(ss, acts, j)
      decreases |acts| - k
    {
      k := k + 1;
    }
  }

  lemma MatchedPrefix(n: nat, ss: seq<State>, acts: seq<Action>, k: nat)
    requires IsRun(n, ss, acts) && k <= |acts|
    requires forall j :: 0 <= j < k ==> StepAt(ss, acts, j) && TermMatched(ss, acts, j)
    ensures TermMatchedRun(ss[..k + 1], acts[..k])
  {
    hide Enabled, Next, RaisesToTermOf, BuildAppend;
    var ss', acts' := ss[..k + 1], acts[..k];
    forall j | 0 <= j < |acts'| ensures StepAt(ss', acts', j) && TermMatched(ss', acts', j) {
      assert StepAt(ss, acts, j) && TermMatched(ss, acts, j);
      if acts[j].Local? && acts[j].op.HandleAppend? {
        AppendStep(ss, acts, j);
        var a := acts[j].op.aargs;
        var x: nat :| x < j && SentAt(ss, acts, x, acts[j].call, acts[j].i, a)
                      && RaisesToTermOf(ss[j].nodes[acts[j].i], a, ss[x].nodes[a.leaderId].log);
        assert SentAt(ss', acts', x, acts'[j].call, acts'[j].i, a);
      }
    }
  }

  /** At the first step that breaks the condition, a follower p calls committed an entry that differs
      from the one its leader d had committed when it sent the request. */
  lemma BreakFacts(n: nat, ss: seq<State>, acts: seq<Action>, hs: seq<History>, k: nat)
    returns (j: nat, d: nat, p: nat, c: nat)
    requires IsRun(n, ss, acts) && Backs(ss, hs) && |ss| == |acts| + 1
    requires k < |acts| && StepAt(ss, acts, k) && !TermMatched(ss, acts, k)
    requires forall j :: 0 <= j < k ==> StepAt(ss, acts, j) && TermMatched(ss, acts, j)
    ensures j < k && d < |ss[j].nodes| && p < |ss[k + 1].nodes| && d != p && c > 0
    ensures c <= ss[j].nodes[d].commitIndex && c < |ss[j].nodes[d].log|
    ensures c <= ss[k + 1].nodes[p].commitIndex && c < |ss[k + 1].nodes[p].log|
    ensures ss[j].nodes[d].log[c].term != ss[k + 1].nodes[p].log[c].term
  {
    hide Inv, Rel, Grows, Backs, OnAppendEntries, StepAt, RaisesToTermOf, CommitsAgree, TermMatchedRun;
    AppendStep(ss, acts, k);
    var a := acts[k].op.aargs;
    p, d := acts[k].i, a.leaderId;
    j := RequestsAreSent(n, ss, acts, hs, k, acts[k].call, p, a);
    RaiseSeen(ss[k].nodes[p], a, ss[j].nodes[d]);
    MatchedPrefix(n, ss, acts, k);
    RunPrefix(n, ss, acts, k);
    CommitRuleExact(n, ss[..k + 1], acts[..k]);
    AgreedInLog(ss[..k + 1], j, d);
    assert ss[..k + 1][j] == ss[j];
    c := ss[k + 1].nodes[p].commitIndex;
    RaisedWithin(ss[k].nodes[p], a);
    RunStep(n, ss, acts, hs, j);
    SentElsewhere(ss[j], acts[j]);
    Backed(ss, hs, j);
    Backed(ss, hs, k + 1);
    Sentinel(ss[j], hs[j], d);
    Sentinel(ss[k + 1], hs[k + 1], p);
  }

  lemma AgreedInLog(ss: seq<State>, k: nat, i: nat)
    requires CommitsAgree(ss) && k < |ss| && i < |ss[k].nodes|
    ensures ss[k].nodes[i].commitIndex < |ss[k].nodes[i].log|
  {
    hide LogsAgree;
  }

  lemma RaisedWithin(m: Node, a: AppendArgs)
    requires m.Wf() && Raises(m, a)
    ensures var m' := OnAppendEntries(m, a).0; m'.commitIndex <= a.leaderCommit && m'.commitIndex < |m'.log|
  {
    hide FirstNew;
  }

  lemma SentElsewhere(s: State, a: Action)
    requires |s.servers| == |s.nodes| && Enabled(s, a) && a.Send?
    ensures a.i != a.peer
  {
  }

  lemma Sentinel(s: State, h: History, i: nat)
    requires Rel(s, h) && i < |s.nodes|
    ensures |s.nodes[i].log| >= 1 && s.nodes[i].log[0] == SENTINEL
  {
    assert NodeRel(s.nodes[i], h, i);
  }

  lemma StartFollowing(n: nat, ss: seq<State>, acts: seq<Action>)
    requires IsRun(n, ss, acts)
    ensures Follows(n, [Init(n)], [], ss[0], Core(acts[..0]))
    ensures forall i :: 0 <= i < n ==> Init(n).nodes[i].lastApplied == 0
    ensures |Init(n).nodes| == n
  {
    assert acts[..0] == [];
  }

  /** Where the condition fails, some schedule makes two nodes apply different entries. */
  lemma ConditionIsNeeded(n: nat, ss: seq<State>, acts: seq<Action>)
    requires IsRun(n, ss, acts) && !TermMatchedRun(ss, acts)
    ensures CanDiffer(n, Core(acts))
  {
    hide IsRun, Backs, CreditedRun, StepAt, TermMatched, Init, Core, SameCore, Calm, AppliesAt, Inv, Rel, Grows, TermMatchedRun;
    var hs := RunHasHistory(n, ss, acts);
    var k := FirstBreak(n, ss, acts);
    var j, d, p, c := BreakFacts(n, ss, acts, hs, k);
    SizeIs(n, ss, acts, hs, j);
    SizeIs(n, ss, acts, hs, k + 1);
    StartFollowing(n, ss, acts);
    var us, bcts := FollowRun(n, ss, acts, hs, 0, j, [Init(n)], []);
    var us1, bcts1, x := ApplyTo(n, us, bcts, ss[j], Core(acts[..j]), d, c);
    var us2, bcts2 := FollowRun(n, ss, acts, hs, j, k + 1, us1, bcts1);
    var us3, bcts3, y := ApplyTo(n, us2, bcts2, ss[k + 1], Core(acts[..k + 1]), p, c);
    var us4, bcts4 := FollowRun(n, ss, acts, hs, k + 1, |acts|, us3, bcts3);
    AppliesStill(us1, bcts1, us4, bcts4, x, d, c, ss[j].nodes[d].log[c]);
    AppliesStill(us3, bcts3, us4, bcts4, y, p, c, ss[k + 1].nodes[p].log[c]);
    BothApply(us4, bcts4, x, d, y, p, c, ss[j].nodes[d].log[c], ss[k + 1].nodes[p].log[c]);
    assert acts[..|acts|] == acts;
  }

  lemma BothApply(us: seq<State>, bcts: seq<Action>, x: nat, d: nat, y: nat, p: nat, c: nat, e: LogEntry, e': LogEntry)
    requires |us| == |bcts| + 1 && AppliesAt(us, bcts, x, d, c, e) && AppliesAt(us, bcts, y, p, c, e') && e != e'
    ensures AppliesDifferently(us, bcts, x, d, y, p)
  {
  }

  /**
   * State Machine Safety holds for all schedules around the protocol actions of a run if and only if
   * the run meets the commit condition.
   */
  lemma SafetyIsExact(n: nat, ss: seq<State>, acts: seq<Action>)
    requires IsRun(n, ss, acts)
    ensures CanDiffer(n, Core(acts)) <==> !TermMatchedRun(ss, acts)
  {
    hide IsRun, TermMatchedRun, CanDiffer;
    if TermMatchedRun(ss, acts) { ConditionSuffices(n, ss, acts); } else { ConditionIsNeeded(n, ss, acts); }
  }
}
