/** What a candidate counts (src/raft.cpp:123-171): distinct nodes, each with its vote on disk. */
module Elections {
  import opened Types
  import opened Messages
  import opened Node
  import opened Cluster
  import opened Protocol
  import opened Simulation
  import opened Runs
  import opened Commit
  import opened Service
  import opened Theorems

  /** In state j node v is in term t and has its vote for i written. */
  predicate VotedAt(ss: seq<State>, j: nat, v: nat, t: nat, i: nat)
  {
    j < |ss| && v < |ss[j].nodes| && ss[j].nodes[v].currentTerm == t && ss[j].nodes[v].votedFor == i
  }

  /** Some state up to k is such a state. */
  ghost predicate Wrote(ss: seq<State>, k: nat, v: nat, t: nat, i: nat)
  {
    exists j: nat :: j <= k && VotedAt(ss, j, v, t, i)
  }

  ghost predicate AllWrote(ss: seq<State>, k: nat, voters: set<nat>, t: nat, i: nat)
  {
    forall v :: v in voters ==> Wrote(ss, k, v, t, i)
  }

  /** A granted vote was written when it was granted. */
  lemma {:induction false} GrantWasWritten(n: nat, ss: seq<State>, acts: seq<Action>, hs: seq<History>, k: nat,
                                           v: nat, a: VoteArgs, r: VoteReply)
    returns (j: nat)
    requires IsRun(n, ss, acts) && Backs(ss, hs) && k < |ss| && VoteResp(v, a, r) in ss[k].replies && r.voteGranted
    ensures j <= k && VotedAt(ss, j, v, a.term, a.candidateId)
    decreases k
  {
    hide Next, Enabled, Inv, Rel, Grows, Backs;
    assert k > 0;
    RunStep(n, ss, acts, hs, k - 1);
    if VoteResp(v, a, r) in ss[k - 1].replies {
      j := GrantWasWritten(n, ss, acts, hs, k - 1, v, a, r);
    } else {
      j := k;
      GrantStep(ss[k - 1], hs[k - 1], acts[k - 1], v, a, r);
    }
  }

  lemma GrantStep(s: State, h: History, act: Action, v: nat, a: VoteArgs, r: VoteReply)
    requires Inv(h) && Rel(s, h) && Enabled(s, act) && r.voteGranted
    requires VoteResp(v, a, r) in Next(s, act).replies && VoteResp(v, a, r) !in s.replies
    ensures var s' := Next(s, act);
            v < |s'.nodes| && s'.nodes[v].currentTerm == a.term && s'.nodes[v].votedFor == a.candidateId
  {
    hide Inv, OnAppendEntries, Writes, ApplyWrites, Submit, BuildAppend;
    assert NodeRel(s.nodes[v], h, v) && RequestRel(h, VoteReq(v, a));
    CandFact(h, a.term, a.candidateId);
  }

  // ----- one candidacy -----

  /** The reply is counted: node m is a candidate of the request's term, and gets the vote. */
  predicate Counts(m: Node, op: Op)
  {
    && op.VoteReplied? && m.role == Candidate && m.currentTerm == op.vargs.term
    && op.vreply.term <= m.currentTerm && op.vreply.voteGranted
  }

  /** The nodes whose votes i has counted since it last stood for election. */
  function Counted(ss: seq<State>, acts: seq<Action>, k: nat, i: nat): set<nat>
    requires k <= |acts| && k <= |ss| && forall j :: 0 <= j < k ==> i < |ss[j].nodes|
  {
    if k == 0 then {}
    else
      var before := Counted(ss, acts, k - 1, i);
      var a := acts[k - 1];
      if !a.Local? || a.i != i then before
      else if a.op.Timeout? then {i}
      else if Counts(ss[k - 1].nodes[i], a.op) then before + {a.op.peer}
      else before
  }

  /** The counter is the size of the set, and no call that still waits goes to a node in it. */
  ghost predicate TallyOk(s: State, i: nat, voters: set<nat>)
  {
    && i < |s.nodes|
    && (s.nodes[i].role == Candidate ==>
          && |voters| == s.nodes[i].votesReceived
          && forall r :: r in s.calls && r.VoteReq? && r.v.candidateId == i && r.v.term == s.nodes[i].currentTerm ==>
               r.to !in voters)
  }

  lemma CandidateAfter(m: Node, op: Op)
    requires Callable(m, op) && Perform(m, op).role == Candidate
    ensures op.Timeout? ==> m.role == Leader || Perform(m, op).currentTerm == m.currentTerm + 1
    ensures op.Timeout? && m.role != Leader ==> Perform(m, op).votesReceived == 1 && Perform(m, op).votedFor == m.id
    ensures !op.Timeout? ==>
              && m.role == Candidate && Perform(m, op).currentTerm == m.currentTerm
              && Perform(m, op).votesReceived == m.votesReceived + if Counts(m, op) then 1 else 0
  {
    hide Merge, ConflictStart, ScanCommit;
  }

  /** Two requests of one candidacy to one node are the same. */
  lemma SameRequest(h: History, p: nat, a: VoteArgs, b: VoteArgs)
    requires RequestRel(h, VoteReq(p, a)) && RequestRel(h, VoteReq(p, b))
    requires a.term == b.term && a.candidateId == b.candidateId
    ensures a == b
  {
  }

  lemma OldCallsAreOlder(s: State, h: History, i: nat)
    requires Inv(h) && Rel(s, h) && i < |s.nodes|
    ensures forall r :: r in s.calls && r.VoteReq? && r.v.candidateId == i ==> r.v.term <= s.nodes[i].currentTerm
  {
    hide Inv;
    assert NodeRel(s.nodes[i], h, i);
    forall r | r in s.calls && r.VoteReq? && r.v.candidateId == i ensures r.v.term <= s.nodes[i].currentTerm {
      assert RequestRel(h, r);
      CandFact(h, r.v.term, i);
      VoteFact(h, r.v.term, i);
    }
  }

  /** New calls of node i are made when it stands. */
  lemma CallsAfter(s: State, h: History, a: Action, i: nat)
    requires Rel(s, h) && Enabled(s, a) && i < |s.nodes|
    ensures var s' := Next(s, a);
            forall r :: r in s'.calls && r.VoteReq? && r.v.candidateId == i ==>
              (r in s.calls && !(a.Local? && a.i == i && a.op.VoteReplied? && r == VoteReq(a.op.peer, a.op.vargs)))
              || (a.Local? && a.i == i && a.op.Timeout? && r.to != i)
  {
    hide Perform, Submit, Writes, ApplyWrites, OnAppendEntries, OnRequestVote, NetRel;
    if a.Local? { assert NodeRel(s.nodes[a.i], h, a.i); PerformWf(s.nodes[a.i], a.op); }
    if a.Local? && a.op.Timeout? { StandsAs(s.nodes[a.i]); }
  }

  lemma StandsAs(m: Node)
    requires m.Wf()
    ensures Perform(m, Timeout).id == m.id
  {
  }

  lemma TallyStep(s: State, h: History, a: Action, i: nat, voters: set<nat>)
    requires Inv(h) && Rel(s, h) && Enabled(s, a) && TallyOk(s, i, voters)
    ensures var voters' := if !a.Local? || a.i != i then voters
                           else if a.op.Timeout? then {i}
                           else if Counts(s.nodes[i], a.op) then voters + {a.op.peer} else voters;
            TallyOk(Next(s, a), i, voters')
  {
    hide Inv, NetRel, Next, Enabled, Perform;
    assert NodeRel(s.nodes[i], h, i);
    CallsAfter(s, h, a, i);
    OldCallsAreOlder(s, h, i);
    if a.Local? && a.i == i {
      LocalNode(s, i, a.op, a.call);
      if Perform(s.nodes[i], a.op).role == Candidate {
        CandidateAfter(s.nodes[i], a.op);
        StandsOnce(s, a);
        if Counts(s.nodes[i], a.op) { CountedOnce(s, h, i, a.op); }
      }
    } else {
      CandidacyKept(s, a, i);
    }
  }

  /** Only a node that does not lead stands, and only a reply of its own is counted. */
  lemma StandsOnce(s: State, a: Action)
    requires |s.servers| == |s.nodes| && Enabled(s, a) && a.Local?
    ensures a.i < |s.nodes| && (a.op.Timeout? ==> s.nodes[a.i].role != Leader)
    ensures a.op.VoteReplied? ==> OpEnabled(s, a.i, a.op, 0)
  {
  }

  /** No other action makes a candidate or changes what it has counted. */
  lemma CandidacyKept(s: State, a: Action, i: nat)
    requires |s.servers| == |s.nodes| && Enabled(s, a) && i < |s.nodes| && !(a.Local? && a.i == i)
    ensures i < |Next(s, a).nodes|
    ensures var m, m' := s.nodes[i], Next(s, a).nodes[i];
            m'.role == Candidate ==>
              m.role == Candidate && m'.currentTerm == m.currentTerm && m'.votesReceived == m.votesReceived
  {
    hide Perform, Writes, ApplyWrites, ScanCommit, OnAppendEntries, OnRequestVote, VoteRequests;
  }

  /** The call that is answered is the only one of its candidacy to that node. */
  lemma CountedOnce(s: State, h: History, i: nat, op: Op)
    requires Rel(s, h) && i < |s.nodes| && OpEnabled(s, i, op, 0) && Counts(s.nodes[i], op)
    ensures VoteReq(op.peer, op.vargs) in s.calls && op.vargs.candidateId == i
    ensures forall r ::
              r in s.calls && r.VoteReq? && r.to == op.peer && r.v.candidateId == i && r.v.term == s.nodes[i].currentTerm ==>
                r == VoteReq(op.peer, op.vargs)
  {
    forall r | r in s.calls && r.VoteReq? && r.to == op.peer && r.v.candidateId == i && r.v.term == s.nodes[i].currentTerm
      ensures r == VoteReq(op.peer, op.vargs)
    {
      assert RequestRel(h, r) && RequestRel(h, VoteReq(op.peer, op.vargs));
      SameRequest(h, op.peer, r.v, op.vargs);
    }
  }

  // ----- runs -----

  lemma {:induction false} TallyAt(n: nat, ss: seq<State>, acts: seq<Action>, hs: seq<History>, k: nat, i: nat)
    requires IsRun(n, ss, acts) && Backs(ss, hs) && k < |ss| && i < n
    ensures k <= |acts| && forall j :: 0 <= j <= k ==> i < |ss[j].nodes|
    ensures TallyOk(ss[k], i, Counted(ss, acts, k, i))
    ensures ss[k].nodes[i].role == Candidate ==>
              AllWrote(ss, k, Counted(ss, acts, k, i), ss[k].nodes[i].currentTerm, i)
    decreases k
  {
    hide Inv, Rel, Next, Enabled, Grows, Backs, TallyOk, StepAt;
    RunShape(n, ss, acts);
    forall j | 0 <= j <= k ensures i < |ss[j].nodes| { SizeIs(n, ss, acts, hs, j); }
    if k == 0 {
      NobodyStands(n, i);
    } else {
      TallyAt(n, ss, acts, hs, k - 1, i);
      RunStep(n, ss, acts, hs, k - 1);
      SizeIs(n, ss, acts, hs, k - 1);
      TallyStep(ss[k - 1], hs[k - 1], acts[k - 1], i, Counted(ss, acts, k - 1, i));
      if ss[k].nodes[i].role == Candidate {
        forall v | v in Counted(ss, acts, k, i)
          ensures Wrote(ss, k, v, ss[k].nodes[i].currentTerm, i)
        {
          VoterWrote(n, ss, acts, hs, k, i, v);
        }
      }
    }
  }

  lemma NobodyStands(n: nat, i: nat)
    requires i < n
    ensures TallyOk(Init(n), i, {}) && Init(n).nodes[i].role != Candidate
  {
  }

  /** A voter counted at step k wrote its vote at some state up to k. */
  lemma VoterWrote(n: nat, ss: seq<State>, acts: seq<Action>, hs: seq<History>, k: nat, i: nat, v: nat)
    requires IsRun(n, ss, acts) && Backs(ss, hs) && 0 < k <= |acts| < |ss|
    requires forall j :: 0 <= j <= k ==> i < |ss[j].nodes|
    requires ss[k].nodes[i].role == Candidate && v in Counted(ss, acts, k, i)
    requires ss[k - 1].nodes[i].role == Candidate ==>
               AllWrote(ss, k - 1, Counted(ss, acts, k - 1, i), ss[k - 1].nodes[i].currentTerm, i)
    ensures Wrote(ss, k, v, ss[k].nodes[i].currentTerm, i)
  {
    hide Inv, Next, Enabled, Perform, Grows, Backs, StepAt, NetRel, OpEnabled, IsRun;
    RunStep(n, ss, acts, hs, k - 1);
    SizeIs(n, ss, acts, hs, k - 1);
    var s, a := ss[k - 1], acts[k - 1];
    assert NodeRel(s.nodes[i], hs[k - 1], i);
    StandsOn(s, hs[k - 1], a, i);
    if a.Local? && a.i == i && a.op.Timeout? {
      assert VotedAt(ss, k, i, ss[k].nodes[i].currentTerm, i);
    } else if a.Local? && a.i == i && Counts(s.nodes[i], a.op) && v == a.op.peer {
      var j := GrantWasWritten(n, ss, acts, hs, k - 1, v, a.op.vargs, a.op.vreply);
    } else {
      assert Wrote(ss, k - 1, v, s.nodes[i].currentTerm, i);
      var j: nat :| j <= k - 1 && VotedAt(ss, j, v, s.nodes[i].currentTerm, i);
    }
  }

  /** A candidate stood just now or was a candidate of this term already. */
  lemma StandsOn(s: State, h: History, a: Action, i: nat)
    requires Rel(s, h) && Enabled(s, a) && i < |s.nodes|
    requires i < |Next(s, a).nodes| && Next(s, a).nodes[i].role == Candidate
    ensures a.Local? && a.i == i && a.op.Timeout? ==> Next(s, a).nodes[i].votedFor == i
    ensures !(a.Local? && a.i == i && a.op.Timeout?) ==>
              s.nodes[i].role == Candidate && s.nodes[i].currentTerm == Next(s, a).nodes[i].currentTerm
    ensures a.Local? && a.i == i && a.op.VoteReplied? ==>
              VoteResp(a.op.peer, a.op.vargs, a.op.vreply) in s.replies && a.op.vargs.candidateId == i
  {
    hide Perform, Writes, ApplyWrites, NetRel;
    assert NodeRel(s.nodes[i], h, i);
    if a.Local? && a.i == i {
      LocalNode(s, i, a.op, a.call);
      CandidateAfter(s.nodes[i], a.op);
    }
  }

  /**
   * In any run a candidate's counter is the number of distinct nodes whose votes it has counted, and
   * each of them was, at some moment up to now, in the candidate's term with its vote for the
   * candidate written.
   */
  lemma VotesAreDistinctVoters(n: nat, ss: seq<State>, acts: seq<Action>, k: nat, i: nat)
    requires IsRun(n, ss, acts) && k < |ss| && i < |ss[k].nodes| && ss[k].nodes[i].role == Candidate
    ensures k <= |acts| && forall j :: 0 <= j <= k ==> i < |ss[j].nodes|
    ensures |Counted(ss, acts, k, i)| == ss[k].nodes[i].votesReceived
    ensures AllWrote(ss, k, Counted(ss, acts, k, i), ss[k].nodes[i].currentTerm, i)
  {
    hide Inv, Rel, Grows, Backs, CreditedRun, IsRun, StepAt, Counted;
    var hs := RunHasHistory(n, ss, acts);
    SizeIs(n, ss, acts, hs, k);
    RunShape(n, ss, acts);
    TallyAt(n, ss, acts, hs, k, i);
  }
}
