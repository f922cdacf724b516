/**
 * The retry loop of a leader towards one peer, over whole runs (src/raft.cpp:389-438): how often a
 * peer can turn the leader of a term back, whatever is lost, delayed, delivered twice or torn by
 * crashes meanwhile.
 */
module Replicator {
  import opened Types
  import opened Messages
  import opened Node
  import opened Cluster
  import opened Protocol
  import opened ProtocolSteps
  import opened Simulation
  import opened Runs
  import opened Commit
  import opened CommitRule
  import opened Service
  import opened Theorems
  import opened Repair
  import Command

  // ----- what is counted -----

  predicate Leading(s: State, i: nat, t: nat)
  {
    i < |s.nodes| && s.nodes[i].role == Leader && s.nodes[i].currentTerm == t
  }

  /** The action makes leader i of term t take an answer of peer p to a request of that term. */
  predicate Takes(s: State, a: Action, i: nat, p: nat, t: nat, success: bool)
  {
    && a.Local? && a.i == i && a.op.AppendReplied? && a.op.peer == p && Leading(s, i, t)
    && a.op.aargs.term == t && a.op.areply.term == t && a.op.areply.success == success
  }

  /** How many of the first k steps make leader i of term t take a rejection of peer p. */
  function Rejections(ss: seq<State>, acts: seq<Action>, k: nat, i: nat, p: nat, t: nat): nat
    requires k <= |acts| && k <= |ss|
  {
    if k == 0 then 0
    else Rejections(ss, acts, k - 1, i, p, t) + if Takes(ss[k - 1], acts[k - 1], i, p, t, false) then 1 else 0
  }

  /** The log with which node p entered term t, or its log at state k if it has not done so. */
  function EntryLog(ss: seq<State>, k: nat, p: nat, t: nat): Log
    requires k < |ss| && forall j :: 0 <= j <= k ==> p < |ss[j].nodes|
  {
    if k == 0 || ss[k].nodes[p].currentTerm < t then ss[k].nodes[p].log else EntryLog(ss, k - 1, p, t)
  }

  // ----- numbered calls -----

  /** Numbers are used once, and no answer is ahead of the node that gave it. */
  ghost predicate Numbered(s: State)
  {
    && (forall r :: r in s.sent && r.AppendReq? ==> r.call < s.serial)
    && (forall q :: q in s.replies && q.AppendResp? ==>
          q.call < s.serial && q.to < |s.nodes| && q.ar.term <= s.nodes[q.to].currentTerm)
  }

  lemma NumberedStep(s: State, h: History, a: Action, h': History)
    requires Rel(s, h) && Enabled(s, a) && Rel(Next(s, a), h') && Grows(h, h') && Numbered(s)
    ensures Numbered(Next(s, a))
  {
    hide Perform, Submit, Writes, ApplyWrites, BuildAppend, NetRel;
    var s' := Next(s, a);
    forall q | q in s'.replies && q.AppendResp?
      ensures q.call < s'.serial && q.to < |s'.nodes| && q.ar.term <= s'.nodes[q.to].currentTerm
    {
      TermsGrow(s, h, s', h', q.to);
      if q !in s.replies { AnswerTerm(s, a); }
    }
  }

  lemma TermsGrow(s: State, h: History, s': State, h': History, p: nat)
    requires Rel(s, h) && Rel(s', h') && Grows(h, h')
    ensures |s'.nodes| == |s.nodes| && (p < |s.nodes| ==> s.nodes[p].currentTerm <= s'.nodes[p].currentTerm)
  {
    if p < |s.nodes| { assert NodeRel(s.nodes[p], h, p) && NodeRel(s'.nodes[p], h', p); }
  }

  lemma AnswerTerm(s: State, a: Action)
    requires |s.servers| == |s.nodes| && Enabled(s, a) && a.Local? && a.op.HandleAppend?
    ensures a.i < |Next(s, a).nodes| && OnAppendEntries(s.nodes[a.i], a.op.aargs).1.term <= Next(s, a).nodes[a.i].currentTerm
    ensures AppendReq(a.call, a.i, a.op.aargs) in s.sent
  {
  }

  // ----- what is kept -----

  /** A call of leader i of term t to peer p whose thread still waits. */
  ghost predicate Waits(s: State, i: nat, p: nat, t: nat, r: Request)
  {
    r in s.calls && r.AppendReq? && r.to == p && r.a.leaderId == i && r.a.term == t
  }

  /** A call aims where the leader still aims; a rejection that lies ready was given by a node with
      log l, before any success. */
  ghost predicate CallOk(s: State, i: nat, p: nat, t: nat, l: Log, r: Request)
    requires r.AppendReq? && i < |s.nodes| && p < |s.nodes[i].nextIndex| && p < |s.nodes[i].matchIndex|
  {
    && r.a.prevLogIndex + 1 == s.nodes[i].nextIndex[p] && BatchEnd(r.a) >= 1
    && forall x :: AppendResp(r.call, p, r.a, x) in s.replies && x.term == t && !x.success ==>
         s.nodes[i].matchIndex[p] == 0 && Misses(l, r.a) && x.conflictIndex == Hint(l, r.a)
  }

  /** No request of term t to p builds on less than the next one. */
  ghost predicate AimsLowest(s: State, i: nat, p: nat, t: nat)
    requires i < |s.nodes| && p < |s.nodes[i].nextIndex|
  {
    forall r :: r in s.sent && r.AppendReq? && r.to == p && r.a.term == t ==>
      r.a.prevLogIndex + 1 >= s.nodes[i].nextIndex[p]
  }

  /** The state of the walk back while leader i of term t has had no success with p: count rejections
      so far, l being the log with which p entered the term. */
  ghost predicate WalkOk(s: State, i: nat, p: nat, t: nat, l: Log, count: nat)
    requires i < |s.nodes| && p < |s.nodes| && p < |s.nodes[i].nextIndex| && |l| >= 1
  {
    var m, f := s.nodes[i], s.nodes[p];
    && m.nextIndex[p] >= 1
    && AimsLowest(s, i, p, t)
    && (f.currentTerm >= t ==> count + Allowance(l, m.nextIndex[p]) <= 1 + Stretches(l, |l| - 1))
    && (f.currentTerm == t ==> f.log == l || Agree(f.log, m.log, m.nextIndex[p] - 1))
  }

  ghost predicate LeadOk(s: State, i: nat, p: nat, t: nat, l: Log, count: nat)
    requires i < |s.nodes| && p < |s.nodes| && |l| >= 1
  {
    var m := s.nodes[i];
    && p < |m.nextIndex| && p < |m.matchIndex|
    && (forall r :: Waits(s, i, p, t, r) ==> CallOk(s, i, p, t, l, r))
    && (forall r, r' :: Waits(s, i, p, t, r) && Waits(s, i, p, t, r') ==> r == r')
    && if m.matchIndex[p] > 0 then m.nextIndex[p] == m.matchIndex[p] + 1 else WalkOk(s, i, p, t, l, count)
  }

  ghost predicate RepairOk(s: State, h: History, i: nat, p: nat, t: nat, l: Log, count: nat)
  {
    && i < |s.nodes| && p < |s.nodes| && i != p && |l| >= 1 && l[0] == SENTINEL
    && (s.nodes[p].currentTerm < t ==> l == s.nodes[p].log && count == 0)
    && (t !in h.reigns ==> count == 0 && (s.nodes[p].currentTerm == t ==> s.nodes[p].log == l))
    && count <= 1 + Stretches(l, |l| - 1)
    && (Leading(s, i, t) ==> LeadOk(s, i, p, t, l, count))
  }

  // ----- steps that leave the walk alone -----

  /** Nothing that the walk of leader i towards p depends on has changed, except that the leader may
      have appended and the call may have been given up. */
  ghost predicate Quiet(s: State, s': State, i: nat, p: nat, t: nat)
  {
    && i < |s.nodes| == |s'.nodes| && p < |s.nodes|
    && s'.nodes[p].currentTerm == s.nodes[p].currentTerm && s'.nodes[p].log == s.nodes[p].log
    && (Leading(s', i, t) ==>
          var m, m' := s.nodes[i], s'.nodes[i];
          && Leading(s, i, t) && m.log <= m'.log
          && |m'.nextIndex| == |m.nextIndex| && |m'.matchIndex| == |m.matchIndex|
          && (p < |m.nextIndex| ==> m'.nextIndex[p] == m.nextIndex[p])
          && (p < |m.matchIndex| ==> m'.matchIndex[p] == m.matchIndex[p])
          && (forall r :: Waits(s', i, p, t, r) ==> Waits(s, i, p, t, r))
          && (forall r :: r in s'.sent && r.AppendReq? && r.to == p && r.a.term == t ==> r in s.sent)
          && (forall q :: q in s'.replies && q.AppendResp? && q.to == p ==> q in s.replies))
  }

  lemma QuietKeeps(s: State, h: History, s': State, h': History, i: nat, p: nat, t: nat, l: Log, count: nat)
    requires RepairOk(s, h, i, p, t, l, count) && Grows(h, h') && Quiet(s, s', i, p, t)
    ensures RepairOk(s', h', i, p, t, l, count)
  {
    hide Stretches, Allowance, Misses, Hint, Agree;
    if Leading(s', i, t) {
      forall r | Waits(s', i, p, t, r) ensures CallOk(s', i, p, t, l, r) {
        assert CallOk(s, i, p, t, l, r);
      }
      var m, f := s.nodes[i], s.nodes[p];
      if m.matchIndex[p] == 0 && f.currentTerm == t && f.log != l {
        AgreeExtends(f.log, m.log, f.log, s'.nodes[i].log, m.nextIndex[p] - 1);
      }
    }
  }

  // ----- what an operation can do to a node's log -----

  ghost predicate OnlyMeta(ws: seq<Write>)
  {
    forall k :: 0 <= k < |ws| ==> ws[k].SaveMeta?
  }

  lemma {:induction false} MetaKeepsLog(d: Durable, ws: seq<Write>)
    requires OnlyMeta(ws)
    ensures ApplyWrites(d, ws).entries == d.entries
    decreases |ws|
  {
    if ws != [] { MetaKeepsLog(d, ws[..|ws| - 1]); }
  }

  /** A candidate that wins finds no leader of its term. */
  lemma WinnerIsFirst(m: Node, h: History, i: nat, p: nat, a: VoteArgs, r: VoteReply)
    requires Inv(h) && NodeRel(m, h, i) && a.candidateId == i
    requires RequestRel(h, VoteReq(p, a)) && ResponseRel(h, VoteResp(p, a, r)) && CallRel(h, VoteReq(p, a))
    requires m.role == Candidate && m.currentTerm == a.term && r.term <= m.currentTerm && r.voteGranted
    requires m.votesReceived + 1 >= m.MajoritySize()
    ensures m.currentTerm !in h.reigns
  {
    hide Inv;
    var h1 := Count(h, i, p);
    CountKeeps(h, i, p);
    NodeFact(h1, i);
    ElectKeeps(h1, i, NoOp(m.currentTerm));
  }

  /** The log a node restarts with after k writes of an accepted request agrees with the leader's as
      far as the request builds on, unless it is unchanged. */
  lemma AppendLeaves(m: Node, h: History, p: nat, a: AppendArgs, k: nat)
    requires Inv(h) && NodeRel(m, h, p) && BatchRel(h, p, a) && k <= |Writes(m, HandleAppend(a))|
    ensures var d := ApplyWrites(DurableOf(m), Writes(m, HandleAppend(a))[..k]);
            || d.entries == m.log[1..]
            || (d.term == a.term >= m.currentTerm && Agree([SENTINEL] + d.entries, h.reigns[a.term].log, a.prevLogIndex))
  {
    hide Inv, MergeWrites, Merge, FirstNew, ApplyWrites;
    var ws := Writes(m, HandleAppend(a));
    var first := CatchUpWrites(m, a.term);
    if a.term >= m.currentTerm && Accepts(m, a) && k > |first| {
      var more := MergeWrites(m.log, a.prevLogIndex, a.entries);
      var c := k - |first|;
      assert ws[..k] == first + more[..c];
      ApplyAfter(DurableOf(m), first, more[..c]);
      var d1 := ApplyWrites(DurableOf(m), first);
      MetaKeepsLog(DurableOf(m), first);
      CaughtUp(m, a.term);
      MergePoint(m, h, p, a);
      var lead := h.reigns[a.term].log;
      var n := MergePrefix(d1, m.log, lead, a, c);
      ReignFact(h, a.term);
      PrefixAgain(lead, n, a.prevLogIndex);
    } else {
      assert OnlyMeta(ws[..k]);
      MetaKeepsLog(DurableOf(m), ws[..k]);
    }
  }

  lemma PrefixAgain(l: Log, n: nat, x: nat)
    requires x < n <= |l| && l[0] == SENTINEL
    ensures Agree([SENTINEL] + l[..n][1..], l, x)
  {
    assert [SENTINEL] + l[..n][1..] == l[..n];
    assert l[..n][..x + 1] == l[..x + 1];
  }

  lemma CaughtUp(m: Node, t: nat)
    requires |m.log| >= 1 && t >= m.currentTerm
    ensures ApplyWrites(DurableOf(m), CatchUpWrites(m, t)).term == t
  {
    if t > m.currentTerm { ApplyOne(DurableOf(m), SaveMeta(t, -1)); }
  }

  /** Durable state d differs from node m's in the log only by an accepted request of d's term ... */
  ghost predicate Adopts(s: State, h: History, p: nat, op: Op, call: nat, d: Durable)
  {
    && op.HandleAppend? && AppendReq(call, p, op.aargs) in s.sent
    && d.term == op.aargs.term && d.term in h.reigns
    && Agree([SENTINEL] + d.entries, h.reigns[d.term].log, op.aargs.prevLogIndex)
  }

  /** ... or by an entry of the node's own as the leader of d's term. */
  ghost predicate AppendsOwn(m: Node, h: History, d: Durable)
  {
    && d.term == m.currentTerm && |d.entries| == |m.log| >= 1 && d.entries[|m.log| - 1].term == d.term
    && (m.role == Leader || m.currentTerm !in h.reigns)
  }

  lemma WritesLeave(s: State, h: History, p: nat, op: Op, call: nat, k: nat)
    requires Inv(h) && Rel(s, h) && p < |s.nodes| && |s.nodes| >= 2 && OpEnabled(s, p, op, call)
    requires k <= |Writes(s.nodes[p], op)|
    ensures var d := ApplyWrites(DurableOf(s.nodes[p]), Writes(s.nodes[p], op)[..k]);
            d.entries == s.nodes[p].log[1..] || Adopts(s, h, p, op, call, d) || AppendsOwn(s.nodes[p], h, d)
  {
    hide Inv, ApplyWrites, MergeWrites, Grants;
    var m := s.nodes[p];
    assert NodeRel(m, h, p);
    var ws := Writes(m, op);
    if op.HandleAppend? {
      assert RequestRel(h, AppendReq(call, p, op.aargs));
      AppendLeaves(m, h, p, op.aargs, k);
    } else if OnlyMeta(ws[..k]) {
      MetaKeepsLog(DurableOf(m), ws[..k]);
    } else {
      assert k == 1 && ws[..1] == ws;
      if op.VoteReplied? {
        assert RequestRel(h, VoteReq(op.peer, op.vargs)) && ResponseRel(h, VoteResp(op.peer, op.vargs, op.vreply));
        assert CallRel(h, VoteReq(op.peer, op.vargs));
        WinnerIsFirst(m, h, p, op.peer, op.vargs, op.vreply);
      }
      ApplyOne(DurableOf(m), ws[0]);
    }
  }

  /** Every change of a node's term and log is made by some of the writes of one of its operations. */
  lemma DurableStep(s: State, a: Action, p: nat) returns (op: Op, call: nat, k: nat)
    requires |s.servers| == |s.nodes| && Enabled(s, a) && p < |s.nodes| && s.nodes[p].Wf()
    requires (a.Local? || a.Crash? || a.ClientSubmit?) && a.i == p
    ensures p < |Next(s, a).nodes| && |Next(s, a).nodes[p].log| >= 1
    ensures OpEnabled(s, p, op, call) && k <= |Writes(s.nodes[p], op)|
    ensures DurableOf(Next(s, a).nodes[p]) == ApplyWrites(DurableOf(s.nodes[p]), Writes(s.nodes[p], op)[..k])
    ensures a.Local? || a.Crash? ==> op == a.op && call == a.call
    ensures a.ClientSubmit? ==> op == SubmitCommand(Command.Encode(a.command))
    ensures Next(s, a).nodes[p].log[0] == SENTINEL
  {
    hide Perform, Writes, ApplyWrites, VoteRequests, Submit;
    var m := s.nodes[p];
    if a.Crash? {
      op, call, k := a.op, a.call, a.written;
      var d := ApplyWrites(DurableOf(m), Writes(m, op)[..k]);
      assert ([SENTINEL] + d.entries)[1..] == d.entries;
    } else {
      if a.Local? { op, call := a.op, a.call; } else { op, call := SubmitCommand(Command.Encode(a.command)), 0; }
      k := |Writes(m, op)|;
      PerformIsWritten(m, op);
      PerformWf(m, op);
      assert Writes(m, op)[..k] == Writes(m, op);
      if a.Local? { LocalNode(s, p, a.op, a.call); } else { SubmitNode(s, p, a.command); }
    }
  }

  // ----- steps of the peer -----

  function EntryAfter(s': State, p: nat, t: nat, l: Log): Log
    requires p < |s'.nodes|
  {
    if s'.nodes[p].currentTerm < t then s'.nodes[p].log else l
  }

  /** What an operation of p leaves in its log, seen from the leader of term t. */
  lemma PeerLog(s: State, h: History, a: Action, h': History, i: nat, p: nat, t: nat, l: Log, count: nat)
    requires Inv(h) && Rel(s, h) && Enabled(s, a) && Inv(h') && Rel(Next(s, a), h') && Grows(h, h')
    requires RepairOk(s, h, i, p, t, l, count) && (a.Local? || a.Crash? || a.ClientSubmit?) && a.i == p
    requires p < |Next(s, a).nodes| && Next(s, a).nodes[p].currentTerm == t
    ensures t !in h'.reigns ==> Next(s, a).nodes[p].log == l
    ensures Leading(s, i, t) && s.nodes[i].matchIndex[p] == 0 ==>
              var f := Next(s, a).nodes[p];
              f.log == l || Agree(f.log, s.nodes[i].log, s.nodes[i].nextIndex[p] - 1)
  {
    hide Inv, Next, Enabled, Writes, ApplyWrites, Stretches, Allowance, NetRel, Agree, LogOk;
    var s' := Next(s, a);
    NodeIsWf(s, h, p);
    var op, call, k := DurableStep(s, a, p);
    WritesLeave(s, h, p, op, call, k);
    TermsGrow(s, h, s', h', p);
    var f, f' := s.nodes[p], s'.nodes[p];
    var d := ApplyWrites(DurableOf(f), Writes(f, op)[..k]);
    assert f'.log == [SENTINEL] + d.entries && d.term == t;
    if Leading(s, i, t) { LeaderLogInReign(s, h, i); }
    if d.entries == f.log[1..] {
      assert f'.log == f.log;
    } else if Adopts(s, h, p, op, call, d) {
      if Leading(s, i, t) && s.nodes[i].matchIndex[p] == 0 {
        AgreeBelow(f'.log, s.nodes[i].log, op.aargs.prevLogIndex, s.nodes[i].nextIndex[p] - 1);
      }
    } else {
      NodeInHistory(s', h', p);
      EntryInReign(h', f'.log, |f'.log| - 1);
      if f.role == Leader { LeaderLogInReign(s, h, p); }
    }
  }

  /** A rejection that p gives to a waiting call of the leader comes from the log with which it
      entered the term, before any success. */
  lemma RefusedWithEntryLog(s: State, h: History, i: nat, p: nat, t: nat, l: Log, count: nat, r: Request)
    requires Inv(h) && Rel(s, h) && RepairOk(s, h, i, p, t, l, count) && Leading(s, i, t) && Waits(s, i, p, t, r)
    requires s.nodes[p].Wf()
    requires var x := OnAppendEntries(s.nodes[p], r.a).1; x.term == t && !x.success
    ensures s.nodes[i].matchIndex[p] == 0 && Misses(l, r.a)
    ensures OnAppendEntries(s.nodes[p], r.a).1.conflictIndex == Hint(l, r.a)
  {
    hide Inv, LogOk, Stretches, Allowance, Merge, ConflictStart;
    var m, f := s.nodes[i], s.nodes[p];
    assert CallOk(s, i, p, t, l, r) && RequestRel(h, r);
    LeaderLogInReign(s, h, i);
    AgreeingHas(f.log, m.log, r.a);
    if m.matchIndex[p] > 0 {
      GrowsSame(h);
      MatchHolds(s, h, i, s, h, p);
    }
  }

  lemma AgreeingHas(l: Log, m: Log, a: AppendArgs)
    requires SliceOf(m, a)
    ensures Agree(l, m, a.prevLogIndex) ==> !Misses(l, a)
  {
    if Agree(l, m, a.prevLogIndex) { AgreeBelow(l, m, a.prevLogIndex, a.prevLogIndex); }
  }

  lemma GrowsSame(h: History)
    requires Inv(h)
    ensures Grows(h, h)
  {
  }

  /** What an operation of p does to the network around the leader's calls. */
  lemma PeerNetwork(s: State, h: History, a: Action, i: nat, p: nat, t: nat)
    requires Rel(s, h) && Enabled(s, a) && (a.Local? || a.Crash? || a.ClientSubmit?) && a.i == p && i != p && i < |s.nodes|
    ensures var s' := Next(s, a);
            && |s'.nodes| == |s.nodes| && p < |s.nodes| && s'.nodes[i] == s.nodes[i]
            && (forall r :: Waits(s', i, p, t, r) ==> Waits(s, i, p, t, r))
            && (forall r :: r in s'.sent && r.AppendReq? ==> r in s.sent)
            && (forall q :: q in s'.replies && q.AppendResp? && q !in s.replies ==>
                  && a.Local? && a.op.HandleAppend?
                  && q == AppendResp(a.call, p, a.op.aargs, OnAppendEntries(s.nodes[p], a.op.aargs).1))
  {
    hide Perform, Writes, ApplyWrites, Submit, NodeRel, NetRel, OnAppendEntries, OnRequestVote;
  }

  lemma PeerActs(s: State, h: History, a: Action, h': History, i: nat, p: nat, t: nat, l: Log, count: nat)
    requires Inv(h) && Rel(s, h) && Enabled(s, a) && Inv(h') && Rel(Next(s, a), h') && Grows(h, h')
    requires Numbered(Next(s, a))
    requires RepairOk(s, h, i, p, t, l, count) && (a.Local? || a.Crash? || a.ClientSubmit?) && a.i == p
    ensures p < |Next(s, a).nodes|
    ensures RepairOk(Next(s, a), h', i, p, t, EntryAfter(Next(s, a), p, t, l), count)
  {
    hide Inv, Next, Enabled, Stretches, Allowance, NetRel, NodeRel, Agree, OnAppendEntries, Misses, Hint;
    var s' := Next(s, a);
    PeerNetwork(s, h, a, i, p, t);
    TermsGrow(s, h, s', h', p);
    NodeIsWf(s, h, p);
    NodeIsWf(s', h', p);
    if s'.nodes[p].currentTerm == t { PeerLog(s, h, a, h', i, p, t, l, count); }
    var l' := EntryAfter(s', p, t, l);
    if Leading(s', i, t) {
      var m := s.nodes[i];
      forall r | Waits(s', i, p, t, r) ensures CallOk(s', i, p, t, l', r) {
        assert CallOk(s, i, p, t, l, r);
        forall x | AppendResp(r.call, p, r.a, x) in s'.replies && x.term == t && !x.success
          ensures m.matchIndex[p] == 0 && Misses(l', r.a) && x.conflictIndex == Hint(l', r.a)
        {
          var q := AppendResp(r.call, p, r.a, x);
          assert q.ar.term <= s'.nodes[p].currentTerm;
          if q !in s.replies { RefusedWithEntryLog(s, h, i, p, t, l, count, r); }
        }
      }
      if m.matchIndex[p] == 0 { AllowanceBound(l, m.nextIndex[p]); }
    }
  }

  // ----- steps of the leader -----

  /** What an operation does to the bookkeeping of a node that leads after it, in a cluster of two or
      more: it led before and only grew, or it has just won. */
  lemma LeaderAfter(m: Node, op: Op, p: nat)
    requires Callable(m, op) && m.size >= 2 && p < m.size && p != m.id && Perform(m, op).role == Leader
    ensures m.role == Leader || (op.VoteReplied? && m.role == Candidate)
    ensures m.role == Leader ==>
              var m' := Perform(m, op);
              && m'.currentTerm == m.currentTerm && m.log <= m'.log
              && |m'.nextIndex| == |m'.matchIndex| == m.size
              && (!(op.AppendReplied? && op.peer == p) ==>
                    m'.nextIndex[p] == m.nextIndex[p] && m'.matchIndex[p] == m.matchIndex[p])
    ensures m.role != Leader ==>
              var m' := Perform(m, op);
              && m'.currentTerm == m.currentTerm == op.vargs.term && op.vreply.term <= m.currentTerm && op.vreply.voteGranted
              && m.votesReceived + 1 >= m.MajoritySize()
              && |m'.nextIndex| == |m'.matchIndex| == m.size && m'.nextIndex[p] == |m.log| && m'.matchIndex[p] == 0
  {
    hide ScanCommit, Merge, ConflictStart;
  }

  /** A node that leads term t after a step led it before, or has just won it as its first leader. */
  lemma LedBefore(s: State, h: History, a: Action, i: nat, p: nat, t: nat)
    requires Inv(h) && Rel(s, h) && Enabled(s, a) && i < |s.nodes| && p < |s.nodes| && i != p
    requires Leading(Next(s, a), i, t)
    ensures Leading(s, i, t) || (t !in h.reigns && Elects(s, a, i, p, t))
  {
    hide Inv, Perform, ScanCommit, Writes, ApplyWrites, NetRel;
    assert NodeRel(s.nodes[i], h, i);
    if a.Local? && a.i == i {
      LocalNode(s, i, a.op, a.call);
      LeaderAfter(s.nodes[i], a.op, p);
      if s.nodes[i].role != Leader { FirstToWin(s, h, i, a.op, a.call); }
    }
  }

  lemma FirstToWin(s: State, h: History, i: nat, op: Op, call: nat)
    requires Inv(h) && Rel(s, h) && i < |s.nodes| && OpEnabled(s, i, op, call) && op.VoteReplied?
    requires var m := s.nodes[i];
             && m.role == Candidate && m.currentTerm == op.vargs.term && op.vreply.term <= m.currentTerm
             && op.vreply.voteGranted && m.votesReceived + 1 >= m.MajoritySize()
    ensures s.nodes[i].currentTerm !in h.reigns
  {
    hide Inv;
    assert NodeRel(s.nodes[i], h, i);
    assert RequestRel(h, VoteReq(op.peer, op.vargs)) && ResponseRel(h, VoteResp(op.peer, op.vargs, op.vreply));
    assert CallRel(h, VoteReq(op.peer, op.vargs));
    WinnerIsFirst(s.nodes[i], h, i, op.peer, op.vargs, op.vreply);
  }

  /** The step elects i: it starts right behind its own log, with nothing known of p. */
  ghost predicate Elects(s: State, a: Action, i: nat, p: nat, t: nat)
    requires |s.servers| == |s.nodes| && Enabled(s, a)
  {
    var s' := Next(s, a);
    && a.Local? && a.i == i && a.op.VoteReplied? && i < |s'.nodes| == |s.nodes| && p < |s.nodes|
    && s'.nodes[p] == s.nodes[p] && s'.sent == s.sent && s'.calls <= s.calls
    && p < |s'.nodes[i].nextIndex| && p < |s'.nodes[i].matchIndex|
    && s'.nodes[i].nextIndex[p] >= 1 && s'.nodes[i].matchIndex[p] == 0
  }

  lemma ElectedKeeps(s: State, h: History, a: Action, h': History, i: nat, p: nat, t: nat, l: Log, count: nat)
    requires Inv(h) && Rel(s, h) && Enabled(s, a) && Grows(h, h') && RepairOk(s, h, i, p, t, l, count)
    requires t !in h.reigns && Elects(s, a, i, p, t)
    ensures RepairOk(Next(s, a), h', i, p, t, l, count)
  {
    hide Inv, Next, Enabled, Stretches, Allowance, NodeRel, Misses, Hint, Agree;
    var s' := Next(s, a);
    forall r | r in s'.sent && r.AppendReq? ensures r.a.term != t {
      assert RequestRel(h, r);
    }
    forall r ensures !Waits(s', i, p, t, r) {
      assert Waits(s', i, p, t, r) ==> r in s.sent;
    }
    AllowanceBound(l, s'.nodes[i].nextIndex[p]);
  }

  /** The call that is answered was the only one, so none waits any more. */
  lemma TakenCall(s: State, h: History, a: Action, i: nat, p: nat, t: nat, l: Log, count: nat)
    requires Rel(s, h) && Enabled(s, a) && RepairOk(s, h, i, p, t, l, count) && Leading(s, i, t)
    requires a.Local? && a.i == i && a.op.AppendReplied? && a.op.peer == p && a.op.aargs.term == t
    ensures Waits(s, i, p, t, AppendReq(a.call, p, a.op.aargs))
    ensures AppendResp(a.call, p, a.op.aargs, a.op.areply) in s.replies
    ensures var s' := Next(s, a);
            && |s'.nodes| == |s.nodes| && s'.nodes[p] == s.nodes[p] && s'.sent == s.sent && s'.replies == s.replies
            && s'.nodes[i] == OnAppendReply(s.nodes[i], p, a.op.aargs, a.op.areply)
            && forall r :: !Waits(s', i, p, t, r)
  {
    hide OnAppendReply, NodeRel, NetRel, Stretches, Allowance, WalkOk, CallOk;
    var s' := Next(s, a);
    assert Waits(s, i, p, t, AppendReq(a.call, p, a.op.aargs));
    forall r ensures !Waits(s', i, p, t, r) {
      assert Waits(s', i, p, t, r) ==> Waits(s, i, p, t, r);
    }
  }

  /** Taking an answer: a success ends the walk back, a rejection goes one stretch further. */
  lemma LeaderTakes(s: State, h: History, a: Action, h': History, i: nat, p: nat, t: nat, l: Log, count: nat)
    requires Inv(h) && Rel(s, h) && Enabled(s, a) && Grows(h, h') && Numbered(s)
    requires RepairOk(s, h, i, p, t, l, count) && Leading(s, i, t)
    requires a.Local? && a.i == i && a.op.AppendReplied? && a.op.peer == p && a.op.aargs.term == t
    ensures RepairOk(Next(s, a), h', i, p, t, l, count + if Takes(s, a, i, p, t, false) then 1 else 0)
    ensures Takes(s, a, i, p, t, false) ==>
              && i < |Next(s, a).nodes| && p < |Next(s, a).nodes[i].nextIndex| && p < |s.nodes[i].nextIndex|
              && Next(s, a).nodes[i].nextIndex[p] < s.nodes[i].nextIndex[p] && s.nodes[i].matchIndex[p] == 0
  {
    hide Inv, Next, Enabled, Stretches, Allowance, ScanCommit, Misses, Hint, Agree;
    var s' := Next(s, a);
    TakenCall(s, h, a, i, p, t, l, count);
    LeaderLogInReign(s, h, i);
    var m, r := s.nodes[i], AppendReq(a.call, p, a.op.aargs);
    assert CallOk(s, i, p, t, l, r) && RequestRel(h, r) && NodeRel(m, h, i);
    if Takes(s, a, i, p, t, false) {
      assert AppendResp(r.call, p, r.a, a.op.areply) in s.replies;
      RejectionMovesBack(l, r.a, m.log);
      var f := s.nodes[p];
      if f.currentTerm == t && f.log != l {
        AgreeBelow(f.log, m.log, m.nextIndex[p] - 1, s'.nodes[i].nextIndex[p] - 1);
      }
    }
  }

  lemma BuiltEnd(m: Node, p: nat)
    requires |m.log| >= 2 && p < |m.nextIndex| && 1 <= m.nextIndex[p] <= |m.log|
    ensures BatchEnd(BuildAppend(m, p)) >= 1
  {
  }

  /** A new call: aimed at the next index, and with no answer yet. */
  lemma LeaderSends(s: State, h: History, h': History, i: nat, p: nat, t: nat, l: Log, count: nat)
    requires Inv(h) && Rel(s, h) && Enabled(s, Send(i, p)) && Grows(h, h') && Numbered(s)
    requires RepairOk(s, h, i, p, t, l, count)
    ensures RepairOk(Next(s, Send(i, p)), h', i, p, t, l, count)
  {
    hide Inv, Stretches, Allowance, Misses, Hint, Agree, Majority;
    var s' := Next(s, Send(i, p));
    var m := s.nodes[i];
    var r := AppendReq(s.serial, p, BuildAppend(m, p));
    LeaderLogInReign(s, h, i);
    ReignFact(h, m.currentTerm);
    CandFact(h, m.currentTerm, i);
    BuiltEnd(m, p);
    if Leading(s', i, t) {
      forall q | Waits(s', i, p, t, q) ensures q == r {
        assert q != r ==> Waits(s, i, p, t, q);
      }
      forall x ensures AppendResp(r.call, p, r.a, x) !in s'.replies {
      }
      assert CallOk(s', i, p, t, l, r);
    }
  }

  // ----- all steps -----

  predicate ByPeer(a: Action, p: nat) { (a.Local? || a.Crash? || a.ClientSubmit?) && a.i == p }

  predicate TakesAny(a: Action, i: nat, p: nat, t: nat)
  {
    a.Local? && a.i == i && a.op.AppendReplied? && a.op.peer == p && a.op.aargs.term == t
  }

  lemma LeaderIsQuiet(s: State, h: History, a: Action, i: nat, p: nat, t: nat)
    requires Rel(s, h) && Enabled(s, a) && ByPeer(a, i) && i < |s.nodes| && p < |s.nodes| && i != p
    requires !TakesAny(a, i, p, t) && (Leading(Next(s, a), i, t) ==> Leading(s, i, t))
    ensures Quiet(s, Next(s, a), i, p, t)
  {
    hide Perform, Writes, ApplyWrites, NetRel, OnAppendEntries, OnRequestVote;
    var m := s.nodes[i];
    assert NodeRel(m, h, i);
    if a.Local? && Leading(Next(s, a), i, t) {
      LocalNode(s, i, a.op, a.call);
      LeaderAfter(m, a.op, p);
      if a.op.AppendReplied? && a.op.peer == p { IgnoredReply(m, p, a.op.aargs, a.op.areply); }
    } else if a.ClientSubmit? && Leading(Next(s, a), i, t) {
      SubmitNode(s, i, a.command);
      LeaderAfter(m, SubmitCommand(Command.Encode(a.command)), p);
    }
  }

  lemma IgnoredReply(m: Node, p: nat, a: AppendArgs, r: AppendReply)
    requires Callable(m, AppendReplied(p, a, r)) && a.term != m.currentTerm
    ensures Perform(m, AppendReplied(p, a, r)) == m
  {
  }

  lemma OthersAreQuiet(s: State, h: History, a: Action, i: nat, p: nat, t: nat)
    requires Inv(h) && Rel(s, h) && Enabled(s, a) && i < |s.nodes| && p < |s.nodes| && i != p
    requires !ByPeer(a, p) && !ByPeer(a, i) && a != Send(i, p)
    ensures Quiet(s, Next(s, a), i, p, t)
  {
    hide Inv, Perform, Writes, ApplyWrites, Submit, OnAppendEntries, OnRequestVote, NodeRel, NetRel;
    if a.Send? && Leading(s, a.i, t) && Leading(s, i, t) {
      LeaderLogInReign(s, h, i);
      LeaderLogInReign(s, h, a.i);
    }
  }

  lemma StepKeeps(s: State, h: History, a: Action, h': History, i: nat, p: nat, t: nat, l: Log, count: nat)
    requires Inv(h) && Rel(s, h) && Enabled(s, a) && Inv(h') && Rel(Next(s, a), h') && Grows(h, h')
    requires Numbered(s) && Numbered(Next(s, a)) && RepairOk(s, h, i, p, t, l, count)
    ensures p < |Next(s, a).nodes|
    ensures RepairOk(Next(s, a), h', i, p, t, EntryAfter(Next(s, a), p, t, l),
                     count + if Takes(s, a, i, p, t, false) then 1 else 0)
  {
    hide Inv, Rel, Next, Enabled, LeadOk, Stretches, Grows, Numbered, Elects;
    SizesAt(s, h);
    var s' := Next(s, a);
    SameSize(s, h, s', h');
    if ByPeer(a, p) {
      PeerActs(s, h, a, h', i, p, t, l, count);
    } else if TakesAny(a, i, p, t) && Leading(s, i, t) {
      LeaderTakes(s, h, a, h', i, p, t, l, count);
    } else if a == Send(i, p) {
      LeaderSends(s, h, h', i, p, t, l, count);
    } else if Leading(s', i, t) && !Leading(s, i, t) {
      LedBefore(s, h, a, i, p, t);
      ElectedKeeps(s, h, a, h', i, p, t, l, count);
    } else {
      if ByPeer(a, i) {
        if TakesAny(a, i, p, t) { NotLeading(s, h, a, i, p, t); } else { LeaderIsQuiet(s, h, a, i, p, t); }
      } else {
        OthersAreQuiet(s, h, a, i, p, t);
      }
      QuietKeeps(s, h, s', h', i, p, t, l, count);
    }
  }

  /** An answer that reaches a node which does not lead changes nothing here. */
  lemma NotLeading(s: State, h: History, a: Action, i: nat, p: nat, t: nat)
    requires Rel(s, h) && Enabled(s, a) && TakesAny(a, i, p, t) && i < |s.nodes| && p < |s.nodes| && i != p
    requires !Leading(s, i, t)
    ensures Quiet(s, Next(s, a), i, p, t)
  {
    hide Writes, ApplyWrites, NetRel;
    assert NodeRel(s.nodes[i], h, i);
  }

  // ----- runs -----

  lemma {:induction false} RepairAt(n: nat, ss: seq<State>, acts: seq<Action>, hs: seq<History>, k: nat,
                                    i: nat, p: nat, t: nat)
    requires IsRun(n, ss, acts) && Backs(ss, hs) && k < |ss| && i < n && p < n && i != p
    ensures forall j :: 0 <= j <= k ==> p < |ss[j].nodes|
    ensures Numbered(ss[k])
    ensures RepairOk(ss[k], hs[k], i, p, t, EntryLog(ss, k, p, t), Rejections(ss, acts, k, i, p, t))
    decreases k
  {
    hide Inv, Rel, Next, Enabled, LeadOk, Stretches, Grows, Backs, IsRun;
    RunShape(n, ss, acts);
    Backed(ss, hs, k);
    forall j | 0 <= j <= k ensures p < |ss[j].nodes| { SizeIs(n, ss, acts, hs, j); }
    if k == 0 {
      StartsWell(n, ss, acts, hs, i, p, t);
    } else {
      RepairAt(n, ss, acts, hs, k - 1, i, p, t);
      RunStep(n, ss, acts, hs, k - 1);
      NumberedStep(ss[k - 1], hs[k - 1], acts[k - 1], hs[k]);
      StepKeeps(ss[k - 1], hs[k - 1], acts[k - 1], hs[k], i, p, t, EntryLog(ss, k - 1, p, t),
                Rejections(ss, acts, k - 1, i, p, t));
    }
  }

  lemma StartsWell(n: nat, ss: seq<State>, acts: seq<Action>, hs: seq<History>, i: nat, p: nat, t: nat)
    requires IsRun(n, ss, acts) && i < n && p < n && i != p && |hs| == |ss|
    ensures Numbered(ss[0]) && RepairOk(ss[0], hs[0], i, p, t, ss[0].nodes[p].log, 0)
  {
  }

  lemma {:induction false} EntryLogIsALog(ss: seq<State>, k: nat, p: nat, t: nat) returns (j: nat)
    requires k < |ss| && forall j :: 0 <= j <= k ==> p < |ss[j].nodes|
    ensures j <= k && EntryLog(ss, k, p, t) == ss[j].nodes[p].log
    decreases k
  {
    if k == 0 || ss[k].nodes[p].currentTerm < t { j := k; } else { j := EntryLogIsALog(ss, k - 1, p, t); }
  }

  /**
   * In any run the leader of a term takes from a peer at most one rejection for each term in the log
   * with which the peer entered the leader's term, and one more.
   */
  lemma RejectionsAreFew(n: nat, ss: seq<State>, acts: seq<Action>, i: nat, p: nat, t: nat)
    requires IsRun(n, ss, acts) && i < n && p < n && i != p
    ensures forall j :: 0 <= j <= |acts| ==> p < |ss[j].nodes|
    ensures var l := EntryLog(ss, |acts|, p, t);
            |l| >= 1 && Rejections(ss, acts, |acts|, i, p, t) <= 1 + |TermsIn(l, |l| - 1)|
  {
    hide Inv, Rel, Grows, Backs, CreditedRun, IsRun, LeadOk, Stretches, TermsIn, EntryLog, Rejections, StepAt;
    var hs := RunHasHistory(n, ss, acts);
    RunShape(n, ss, acts);
    RepairAt(n, ss, acts, hs, |acts|, i, p, t);
    var j := EntryLogIsALog(ss, |acts|, p, t);
    LogsSorted(n, ss, acts, j, p);
    var l := EntryLog(ss, |acts|, p, t);
    StretchesAreTerms(l, |l| - 1);
  }

  /** Each rejection strictly lowers the next index. */
  lemma RejectionLowersNext(n: nat, ss: seq<State>, acts: seq<Action>, k: nat, i: nat, p: nat, t: nat)
    requires IsRun(n, ss, acts) && i < n && p < n && i != p
    requires k < |acts| && k < |ss| && Takes(ss[k], acts[k], i, p, t, false)
    ensures k + 1 < |ss| && i < |ss[k + 1].nodes| && p < |ss[k].nodes[i].nextIndex|
    ensures p < |ss[k + 1].nodes[i].nextIndex| && p < |ss[k].nodes[i].matchIndex|
    ensures ss[k + 1].nodes[i].nextIndex[p] < ss[k].nodes[i].nextIndex[p]
    ensures ss[k].nodes[i].matchIndex[p] == 0
  {
    hide Inv, Rel, Next, Enabled, Grows, Backs, CreditedRun, IsRun, LeadOk, Stretches, EntryLog, Rejections, StepAt;
    var hs := RunHasHistory(n, ss, acts);
    RunStep(n, ss, acts, hs, k);
    RepairAt(n, ss, acts, hs, k, i, p, t);
    LeaderTakes(ss[k], hs[k], acts[k], hs[k + 1], i, p, t, EntryLog(ss, k, p, t), Rejections(ss, acts, k, i, p, t));
    NodeIsWf(ss[k], hs[k], i);
    SizeIs(n, ss, acts, hs, k);
  }

  // ----- after a success -----

  /** As long as i leads term t, what it knows of p is never forgotten. */
  lemma MatchKept(s: State, h: History, a: Action, i: nat, p: nat, t: nat)
    requires Rel(s, h) && Enabled(s, a) && i < |s.nodes| && p < |s.nodes| && i != p
    requires Leading(s, i, t) && Leading(Next(s, a), i, t)
    ensures p < |s.nodes[i].matchIndex| && p < |Next(s, a).nodes[i].matchIndex|
    ensures s.nodes[i].matchIndex[p] <= Next(s, a).nodes[i].matchIndex[p]
    ensures Takes(s, a, i, p, t, true) ==> BatchEnd(a.op.aargs) <= Next(s, a).nodes[i].matchIndex[p]
  {
    hide Perform, Submit, Writes, ApplyWrites, NetRel, OnRequestVote, OnAppendEntries, VoteRequests, BuildAppend;
    var m := s.nodes[i];
    assert NodeRel(m, h, i);
    if a.Local? && a.i == i {
      LocalNode(s, i, a.op, a.call);
      LeaderAfter(m, a.op, p);
      if a.op.AppendReplied? && a.op.peer == p { MatchAfter(m, p, a.op.aargs, a.op.areply); }
    } else if a.ClientSubmit? && a.i == i {
      SubmitNode(s, i, a.command);
      LeaderAfter(m, SubmitCommand(Command.Encode(a.command)), p);
    }
  }

  lemma MatchAfter(m: Node, p: nat, a: AppendArgs, r: AppendReply)
    requires Callable(m, AppendReplied(p, a, r)) && m.role == Leader && Perform(m, AppendReplied(p, a, r)).role == Leader
    ensures var m' := Perform(m, AppendReplied(p, a, r));
            && p < |m'.matchIndex| && m.matchIndex[p] <= m'.matchIndex[p]
            && (a.term == r.term == m.currentTerm && r.success ==> BatchEnd(a) <= m'.matchIndex[p])
  {
    hide ScanCommit;
  }

  lemma {:induction false} MatchStays(n: nat, ss: seq<State>, acts: seq<Action>, hs: seq<History>, j: nat, k: nat,
                                      i: nat, p: nat, t: nat)
    requires IsRun(n, ss, acts) && Backs(ss, hs) && i < n && p < n && i != p
    requires j < k < |ss| == |acts| + 1 && Takes(ss[j], acts[j], i, p, t, true) && Leading(ss[k], i, t)
    ensures p < |ss[k].nodes[i].matchIndex| && ss[k].nodes[i].matchIndex[p] > 0
    decreases k
  {
    hide Inv, Rel, Next, Enabled, Grows, Backs, IsRun, Stretches, EntryLog, Rejections, StepAt;
    RunStep(n, ss, acts, hs, k - 1);
    SizeIs(n, ss, acts, hs, k - 1);
    var s, h := ss[k - 1], hs[k - 1];
    if k == j + 1 {
      MatchKept(s, h, acts[j], i, p, t);
      TakenEnd(n, ss, acts, hs, j, i, p, t);
    } else {
      Backed(ss, hs, j);
      Grown(ss, hs, j, k - 1);
      LeaderLogInReign(ss[j], hs[j], i);
      ReignStays(hs[j], h, t);
      LedBefore(s, h, acts[k - 1], i, p, t);
      MatchStays(n, ss, acts, hs, j, k - 1, i, p, t);
      MatchKept(s, h, acts[k - 1], i, p, t);
    }
  }

  lemma ReignStays(h: History, h': History, t: nat)
    requires Grows(h, h') && t in h.reigns
    ensures t in h'.reigns
  {
  }

  lemma TakenEnd(n: nat, ss: seq<State>, acts: seq<Action>, hs: seq<History>, k: nat, i: nat, p: nat, t: nat)
    requires IsRun(n, ss, acts) && Backs(ss, hs) && i < n && p < n && i != p
    requires k < |acts| < |ss| && Takes(ss[k], acts[k], i, p, t, true)
    ensures BatchEnd(acts[k].op.aargs) >= 1
  {
    hide Inv, Rel, Next, Enabled, Grows, Backs, IsRun, Stretches, EntryLog, Rejections, StepAt, WalkOk;
    RunStep(n, ss, acts, hs, k);
    RepairAt(n, ss, acts, hs, k, i, p, t);
    var l, count := EntryLog(ss, k, p, t), Rejections(ss, acts, k, i, p, t);
    TakenCall(ss[k], hs[k], acts[k], i, p, t, l, count);
    assert CallOk(ss[k], i, p, t, l, AppendReq(acts[k].call, p, acts[k].op.aargs));
  }

  /** Once the leader has taken a success of the peer, it takes no rejection of it any more. */
  lemma NoRejectionAfterSuccess(n: nat, ss: seq<State>, acts: seq<Action>, j: nat, k: nat, i: nat, p: nat, t: nat)
    requires IsRun(n, ss, acts) && i < n && p < n && i != p
    requires j < k < |acts| < |ss| && Takes(ss[j], acts[j], i, p, t, true)
    ensures !Takes(ss[k], acts[k], i, p, t, false)
  {
    hide Inv, Rel, Next, Enabled, Grows, Backs, CreditedRun, IsRun, StepAt;
    var hs := RunHasHistory(n, ss, acts);
    RunShape(n, ss, acts);
    if Takes(ss[k], acts[k], i, p, t, false) {
      MatchStays(n, ss, acts, hs, j, k, i, p, t);
      RejectionLowersNext(n, ss, acts, k, i, p, t);
    }
  }
}
