/**
 * Every reachable cluster state stands over a history that satisfies the protocol invariants:
 * each action, and each crash between two durable writes of an action, is a few history steps.
 */
module Simulation {
  import opened Types
  import opened Messages
  import opened Node
  import opened Cluster
  import opened Protocol
  import opened ProtocolSteps

  // ----- the relation between a cluster and its history -----

  ghost predicate VoteRel(h: History, i: nat, t: nat, vote: int)
  {
    && (vote == -1 <==> (t, i) !in h.votes)
    && (vote != -1 ==> vote >= 0 && VotedFor(h, t, i, vote))
  }

  /** The leader's bookkeeping about its peers is backed by acknowledgements. */
  ghost predicate MatchRel(h: History, t: nat, p: nat, next: nat, match_: nat, len: nat)
  {
    && 1 <= next <= len
    && match_ < len
    && forall k :: 1 <= k <= match_ ==> Ack(t, p, k) in h.acks
  }

  ghost predicate NodeRel(m: Node, h: History, i: nat)
  {
    && Shape(h) && i < |h.term|
    && m.Wf() && m.id == i && m.size == |h.term|
    && m.currentTerm == h.term[i]
    && m.role == h.role[i]
    && m.log == h.log[i]
    && VoteRel(h, i, m.currentTerm, m.votedFor)
    && (m.role == Candidate ==> m.votesReceived == |h.tally[i]|)
    && (m.role == Leader ==>
          && m.matchIndex[i] == |m.log| - 1
          && forall p :: 0 <= p < m.size ==>
               MatchRel(h, m.currentTerm, p, m.nextIndex[p], m.matchIndex[p], |m.log|))
    && (m.leaderHint != -1 ==>
          m.currentTerm in h.reigns && h.reigns[m.currentTerm].leader == m.leaderHint)
  }

  /** a carries a stretch of the log l. */
  ghost predicate SliceOf(l: Log, a: AppendArgs)
  {
    && a.prevLogIndex + |a.entries| < |l|
    && a.prevLogTerm == l[a.prevLogIndex].term
    && a.entries == l[a.prevLogIndex + 1..a.prevLogIndex + 1 + |a.entries|]
  }

  /** The leader of the request's term has what the request carries. */
  ghost predicate BatchRel(h: History, to: nat, a: AppendArgs)
  {
    && to < |h.term|
    && a.term in h.reigns
    && h.reigns[a.term].leader == a.leaderId
    && SliceOf(h.reigns[a.term].log, a)
  }

  ghost predicate RequestRel(h: History, r: Request)
  {
    && r.to < |h.term|
    && match r
       case VoteReq(to, v) =>
         && to != v.candidateId
         && (v.term, v.candidateId) in h.cands
         && v.lastLogIndex + 1 == |h.cands[(v.term, v.candidateId)]|
         && v.lastLogTerm == Last(h.cands[(v.term, v.candidateId)]).term
       case AppendReq(_, to, a) => BatchRel(h, to, a)
  }

  /** A success is backed by acknowledgements of everything the request covers. */
  ghost predicate SuccessRel(h: History, to: nat, a: AppendArgs, r: AppendReply)
  {
    r.success ==>
      && r.term == a.term
      && forall k :: 0 <= k <= a.prevLogIndex + |a.entries| ==> Ack(a.term, to, k) in h.acks
  }

  ghost predicate ResponseRel(h: History, r: Response)
  {
    match r
    case VoteResp(to, v, vr) => vr.voteGranted ==> VotedFor(h, v.term, to, v.candidateId)
    case AppendResp(_, to, a, ar) => SuccessRel(h, to, a, ar)
  }

  /** A vote call that still waits has not been counted. */
  ghost predicate CallRel(h: History, r: Request)
    requires Shape(h)
  {
    (r.VoteReq? && r.v.candidateId < |h.term| && h.role[r.v.candidateId] == Candidate
     && h.term[r.v.candidateId] == r.v.term) ==> r.to !in h.tally[r.v.candidateId]
  }

  ghost predicate NetRel(s: State, h: History)
    requires Shape(h)
  {
    && (forall r :: r in s.sent ==> RequestRel(h, r))
    && (forall r :: r in s.replies ==> ResponseRel(h, r))
    && (forall r :: r in s.calls ==> r in s.sent && CallRel(h, r))
  }

  ghost predicate Rel(s: State, h: History)
  {
    && Shape(h)
    && |s.nodes| == |s.servers| == |h.term|
    && (forall i :: 0 <= i < |s.nodes| ==> NodeRel(s.nodes[i], h, i))
    && NetRel(s, h)
  }

  // ----- moves of one node -----

  ghost predicate OthersSame(h: History, h': History, i: nat)
    requires Shape(h) && Shape(h') && |h.term| == |h'.term|
  {
    && (forall j :: 0 <= j < |h.term| && j != i ==>
          && h'.term[j] == h.term[j] && h'.role[j] == h.role[j]
          && h'.log[j] == h.log[j] && h'.tally[j] == h.tally[j])
    && (forall t, j :: j != i && (t, j) in h'.votes ==> (t, j) in h.votes)
  }

  /** History steps of node i alone. */
  ghost predicate Moves(h: History, h': History, i: nat)
  {
    Kept(h, h') && OthersSame(h, h', i)
  }

  lemma MovesTransitive(a: History, b: History, c: History, i: nat)
    requires Moves(a, b, i) && Moves(b, c, i)
    ensures Moves(a, c, i)
  {
    GrowsTransitive(a, b, c);
  }

  lemma OthersRel(s: State, h: History, h': History, i: nat, j: nat)
    requires Inv(h) && Rel(s, h) && Moves(h, h', i) && j < |s.nodes| && j != i
    ensures NodeRel(s.nodes[j], h', j)
  {
    hide Inv;
    var m := s.nodes[j];
    assert NodeRel(m, h, j);
    if m.role == Leader {
      forall p | 0 <= p < m.size
        ensures MatchRel(h', m.currentTerm, p, m.nextIndex[p], m.matchIndex[p], |m.log|)
      {
        assert MatchRel(h, m.currentTerm, p, m.nextIndex[p], m.matchIndex[p], |m.log|);
      }
    }
  }

  lemma RequestRelGrows(h: History, h': History, r: Request)
    requires Grows(h, h') && RequestRel(h, r)
    ensures RequestRel(h', r)
  {
    if r.AppendReq? {
      SliceExtends(h.reigns[r.a.term].log, h'.reigns[r.a.term].log, r.a);
    }
  }

  lemma SliceExtends(l: Log, l': Log, a: AppendArgs)
    requires SliceOf(l, a) && l <= l'
    ensures SliceOf(l', a)
  {
    assert l'[a.prevLogIndex + 1..a.prevLogIndex + 1 + |a.entries|]
        == l[a.prevLogIndex + 1..a.prevLogIndex + 1 + |a.entries|];
  }

  lemma ResponseRelGrows(h: History, h': History, r: Response)
    requires Grows(h, h') && ResponseRel(h, r)
    ensures ResponseRel(h', r)
  {
  }

  /** The network side of a step of node i: what was there stays related, what is new must be. */
  lemma NetAfter(s: State, h: History, s': State, h': History, i: nat)
    requires Inv(h) && Rel(s, h) && Moves(h, h', i) && i < |h.term|
    requires forall r :: r in s'.sent && r !in s.sent ==> RequestRel(h', r)
    requires forall r :: r in s'.replies && r !in s.replies ==> ResponseRel(h', r)
    requires forall r :: r in s'.calls ==> r in s'.sent
    requires forall r :: r in s'.calls && r !in s.calls ==> CallRel(h', r)
    requires s.sent <= s'.sent
    requires forall r :: r in s'.calls && r in s.calls && Sender(r) == i ==> CallRel(h', r)
    ensures NetRel(s', h')
  {
    hide Inv;
    forall r | r in s'.sent ensures RequestRel(h', r) {
      if r in s.sent { RequestRelGrows(h, h', r); }
    }
    forall r | r in s'.replies ensures ResponseRel(h', r) {
      if r in s.replies { ResponseRelGrows(h, h', r); }
    }
    forall r | r in s'.calls ensures CallRel(h', r) {
      if r in s.calls && Sender(r) != i { assert CallRel(h, r); }
    }
  }

  // ----- small steps -----

  /** Term and vote of node i after it learns of term t. */
  lemma BumpMoves(m: Node, h: History, i: nat, t: nat) returns (h': History)
    requires Inv(h) && NodeRel(m, h, i) && t >= m.currentTerm
    ensures Moves(h, h', i)
    ensures NodeRel(BecomeFollower(m, t), h', i)
    ensures h' == Bump(h, i, t)
  {
    hide Inv;
    h' := Bump(h, i, t);
    BumpKeeps(h, i, t);
    if (t, i) in h.votes { VoteFact(h, t, i); }
  }

  /** A restart of node i keeps exactly what is on disk. */
  lemma RestartMoves(m: Node, h: History, i: nat) returns (h': History)
    requires Inv(h) && NodeRel(m, h, i)
    ensures Moves(h, h', i)
    ensures NodeRel(Restarted(m.id, m.size, DurableOf(m)), h', i)
    ensures h' == Bump(h, i, h.term[i])
  {
    hide Inv;
    h' := Bump(h, i, h.term[i]);
    BumpKeeps(h, i, h.term[i]);
    assert [SENTINEL] + m.log[1..] == m.log;
  }

  /** A candidate with a majority of counted votes becomes leader. */
  lemma LeaderMoves(m: Node, h: History, i: nat) returns (h': History)
    requires Inv(h) && NodeRel(m, h, i) && m.role == Candidate && m.votesReceived >= m.MajoritySize()
    ensures Moves(h, h', i)
    ensures NodeRel(BecomeLeader(m), h', i)
  {
    hide Inv;
    NodeFact(h, i);
    var e := NoOp(m.currentTerm);
    ElectKeeps(h, i, e);
    var h1 := Elect(h, i, e);
    NodeFact(h1, i);
    RecordKeeps(h1, i, |m.log|);
    h' := Record(h1, i, |m.log|);
    GrowsTransitive(h, h1, h');
    var m' := BecomeLeader(m);
    forall p | 0 <= p < m'.size
      ensures MatchRel(h', m'.currentTerm, p, m'.nextIndex[p], m'.matchIndex[p], |m'.log|)
    {
    }
  }

  lemma StandMoves(m: Node, h: History, i: nat) returns (h': History)
    requires Inv(h) && NodeRel(m, h, i)
    ensures Moves(h, h', i)
    ensures NodeRel(StartElection(m), h', i)
    ensures StartElection(m).role == Candidate ==> h' == Stand(h, i)
  {
    hide Inv;
    h' := Stand(h, i);
    StandKeeps(h, i);
    var m' := m.(role := Candidate, currentTerm := m.currentTerm + 1, votedFor := m.id,
                 leaderHint := -1, votesReceived := 1);
    assert NodeRel(m', h', i);
    if 1 >= m.MajoritySize() {
      var h1 := h';
      h' := LeaderMoves(m', h1, i);
      MovesTransitive(h, h1, h', i);
    }
  }

  /** Node i answers a vote request of its own term. */
  lemma CastMoves(m: Node, h: History, i: nat, a: VoteArgs) returns (h': History)
    requires Inv(h) && NodeRel(m, h, i) && a.term == m.currentTerm && Grants(m, a)
    requires RequestRel(h, VoteReq(i, a))
    ensures Moves(h, h', i)
    ensures NodeRel(m.(votedFor := Signed32(a.candidateId)), h', i)
    ensures VotedFor(h', a.term, i, a.candidateId)
    ensures h'.tally == h.tally && h'.role == h.role && h'.term == h.term
  {
    hide Inv;
    NodeFact(h, i);
    CandFact(h, a.term, a.candidateId);
    assert Signed32(a.candidateId) == a.candidateId;
    if m.votedFor == -1 {
      assert (m.currentTerm, i) !in h.votes;
      if (m.currentTerm, i) in h.cands { CandFact(h, m.currentTerm, i); }
      if m.currentTerm in h.reigns { ReignFact(h, m.currentTerm); }
      assert m.role == Follower;
      h' := Cast(h, i, a.candidateId);
      CastKeeps(h, i, a.candidateId);
    } else {
      h' := h;
    }
  }

  // ----- following a leader -----

  /** Terms compared position by position decide agreement with the leader's log m. */
  lemma {:induction false} FirstNewAgrees(rs: Reigns, l: Log, m: Log, a: AppendArgs, j: nat)
    requires LogOk(rs, l) && LogOk(rs, m) && SliceOf(m, a)
    requires a.prevLogIndex < |l| && j <= |a.entries| && a.prevLogIndex + j < |l|
    requires l[a.prevLogIndex + j].term == m[a.prevLogIndex + j].term
    ensures var r := FirstNew(l, a.prevLogIndex, a.entries, j);
            && Agree(l, m, a.prevLogIndex + r)
            && (r < |a.entries| && a.prevLogIndex + 1 + r < |l| ==>
                  l[a.prevLogIndex + 1 + r].term != m[a.prevLogIndex + 1 + r].term)
    decreases |a.entries| - j
  {
    hide LogOk, Agree, SliceOf;
    var prev := a.prevLogIndex;
    SliceAt(m, a, j);
    if j == |a.entries| || prev + 1 + j >= |l| || l[prev + 1 + j].term != a.entries[j].term {
      LogMatching(rs, l, m, prev + j);
    } else {
      FirstNewAgrees(rs, l, m, a, j + 1);
    }
  }

  lemma SliceAt(m: Log, a: AppendArgs, j: nat)
    requires SliceOf(m, a) && j <= |a.entries|
    ensures a.prevLogIndex + |a.entries| < |m| && (j < |a.entries| ==> a.entries[j] == m[a.prevLogIndex + 1 + j])
  {
  }

  /** The merged log is the follower's own when that already agrees through the batch, and
      otherwise the leader's log cut off at the end of the batch. */
  lemma MergeResult(rs: Reigns, l: Log, m: Log, a: AppendArgs)
    requires LogOk(rs, l) && LogOk(rs, m) && SliceOf(m, a)
    requires a.prevLogIndex < |l| && l[a.prevLogIndex].term == a.prevLogTerm
    ensures var end := a.prevLogIndex + |a.entries|;
            && Agree(Merge(l, a.prevLogIndex, a.entries), m, end)
            && Merge(l, a.prevLogIndex, a.entries) == (if Agree(l, m, end) then l else m[..end + 1])
  {
    hide LogOk, FirstNew, Merge, Agree;
    var prev := a.prevLogIndex;
    var end := prev + |a.entries|;
    SliceAt(m, a, 0);
    FirstNewAgrees(rs, l, m, a, 0);
    MergeValue(l, m, a);
    var i := FirstNew(l, prev, a.entries, 0);
    if i < |a.entries| {
      AgreesWithin(l, m, end);
      CutAgrees(m, end);
      if Agree(l, m, end) { AgreeBelow(l, m, end, prev + 1 + i); }
    }
  }

  /** The value of a merge with a stretch of m, given how far the two logs agree. */
  lemma MergeValue(l: Log, m: Log, a: AppendArgs)
    requires SliceOf(m, a) && a.prevLogIndex < |l|
    requires Agree(l, m, a.prevLogIndex + FirstNew(l, a.prevLogIndex, a.entries, 0))
    ensures Merge(l, a.prevLogIndex, a.entries)
            == if FirstNew(l, a.prevLogIndex, a.entries, 0) == |a.entries| then l
               else m[..a.prevLogIndex + |a.entries| + 1]
  {
    hide FirstNew, SliceOf, Merge, Agree;
    var i := FirstNew(l, a.prevLogIndex, a.entries, 0);
    MergeUnfolds(l, a.prevLogIndex, a.entries);
    SliceAt(m, a, 0);
    if i < |a.entries| {
      SliceTail(m, a, i);
      AgreeIsEqual(l, m, a.prevLogIndex + i);
    }
  }

  lemma MergeUnfolds(l: Log, prev: nat, entries: Log)
    requires prev < |l|
    ensures var i := FirstNew(l, prev, entries, 0);
            && (i < |entries| ==> prev + 1 + i <= |l|)
            && Merge(l, prev, entries) == if i == |entries| then l else l[..prev + 1 + i] + entries[i..]
  {
    hide FirstNew;
  }

  lemma AgreeIsEqual(l: Log, m: Log, x: nat)
    requires Agree(l, m, x)
    ensures x < |l| && x < |m| && l[..x + 1] == m[..x + 1]
  {
  }

  lemma AgreesWithin(l: Log, m: Log, x: nat)
    ensures Agree(l, m, x) ==> x < |l|
  {
  }

  lemma CutAgrees(m: Log, x: nat)
    requires x < |m|
    ensures Agree(m[..x + 1], m, x)
  {
  }

  lemma SliceTail(m: Log, a: AppendArgs, i: nat)
    requires SliceOf(m, a) && i <= |a.entries|
    ensures var pos := a.prevLogIndex + 1 + i;
            m[..pos] + a.entries[i..] == m[..a.prevLogIndex + |a.entries| + 1]
  {
    var pos, end := a.prevLogIndex + 1 + i, a.prevLogIndex + |a.entries|;
    assert a.entries[i..] == m[pos..end + 1];
  }

  /** Node i copies entries of its leader until its log has n of them. */
  lemma CopyMoves(h: History, i: nat, n: nat) returns (h': History)
    requires Inv(h) && i < |h.term| && h.role[i] == Follower && h.term[i] in h.reigns
    requires |h.log[i]| <= n <= |h.reigns[h.term[i]].log|
    requires h.log[i] == h.reigns[h.term[i]].log[..|h.log[i]|]
    ensures Moves(h, h', i)
    ensures h' == h.(log := h.log[i := h.reigns[h.term[i]].log[..n]])
    decreases n - |h.log[i]|
  {
    hide Inv;
    NodeFact(h, i);
    if |h.log[i]| == n {
      h' := h;
      assert h.log[i := h.reigns[h.term[i]].log[..n]] == h.log;
    } else {
      CopyKeeps(h, i);
      var h1 := Copy(h, i);
      h' := CopyMoves(h1, i, n);
      MovesTransitive(h, h1, h', i);
    }
  }

  /** On a follower of the log m, the first k writes of a merge leave a prefix of m, which starts
      with the part of the old log that agrees with m. */
  lemma MergePrefix(d: Durable, l: Log, m: Log, a: AppendArgs, k: nat) returns (n: nat)
    requires SliceOf(m, a) && a.prevLogIndex < |l|
    requires Agree(l, m, a.prevLogIndex + FirstNew(l, a.prevLogIndex, a.entries, 0))
    requires 1 <= k <= |MergeWrites(l, a.prevLogIndex, a.entries)| && d.entries == l[1..]
    ensures FirstNew(l, a.prevLogIndex, a.entries, 0) < |a.entries|
    ensures a.prevLogIndex + 1 + FirstNew(l, a.prevLogIndex, a.entries, 0) <= n <= |m|
    ensures ApplyWrites(d, MergeWrites(l, a.prevLogIndex, a.entries)[..k]) == d.(entries := m[..n][1..])
  {
    hide MergeWrites, ApplyWrites, FirstNew;
    var i := FirstNew(l, a.prevLogIndex, a.entries, 0);
    var c := MergeWritesPrefix(d, l, a.prevLogIndex, a.entries, k);
    n := a.prevLogIndex + 1 + i + c;
    SliceOnward(l, m, a, i, c);
  }

  lemma SliceOnward(l: Log, m: Log, a: AppendArgs, i: nat, c: nat)
    requires SliceOf(m, a) && i + c <= |a.entries| && Agree(l, m, a.prevLogIndex + i)
    ensures var pos := a.prevLogIndex + 1 + i;
            l[..pos] == m[..pos] && l[..pos][1..] + a.entries[i..i + c] == m[..pos + c][1..]
  {
    var pos := a.prevLogIndex + 1 + i;
    SliceOfSlice(m, a.prevLogIndex + 1, |a.entries|, i, c);
    assert m[..pos + c][1..] == m[..pos][1..] + m[pos..pos + c];
  }

  lemma SliceOfSlice(m: Log, from: nat, n: nat, i: nat, c: nat)
    requires from + n <= |m| && i + c <= n
    ensures m[from..from + n][i..i + c] == m[from + i..from + i + c]
  {
    var s := m[from..from + n];
    var x, y := s[i..i + c], m[from + i..from + i + c];
    forall k | 0 <= k < c ensures x[k] == y[k] {
      assert s[i + k] == m[from + i + k];
    }
  }

  /** Where a follower's log stops agreeing with an accepted batch. */
  lemma MergePoint(m: Node, h: History, i: nat, a: AppendArgs)
    requires Inv(h) && NodeRel(m, h, i) && BatchRel(h, i, a)
    requires a.prevLogIndex < |m.log| && m.log[a.prevLogIndex].term == a.prevLogTerm
    ensures var j := a.prevLogIndex + FirstNew(m.log, a.prevLogIndex, a.entries, 0);
            var lead := h.reigns[a.term].log;
            && Agree(m.log, lead, j)
            && (j < a.prevLogIndex + |a.entries| && j + 1 < |m.log| ==>
                  j + 1 < |lead| && m.log[j + 1].term != lead[j + 1].term)
  {
    hide Inv;
    NodeFact(h, i);
    ReignFact(h, a.term);
    FirstNewAgrees(h.reigns, m.log, h.reigns[a.term].log, a, 0);
  }

  /** The first k durable writes of a merge, as history steps. */
  lemma MergeMoves(m: Node, h: History, i: nat, a: AppendArgs, k: nat) returns (h': History)
    requires Inv(h) && NodeRel(m, h, i) && m.role == Follower && a.term == m.currentTerm
    requires BatchRel(h, i, a) && Accepts(m, a)
    requires k <= |MergeWrites(m.log, a.prevLogIndex, a.entries)|
    ensures Moves(h, h', i)
    ensures var d := ApplyWrites(DurableOf(m), MergeWrites(m.log, a.prevLogIndex, a.entries)[..k]);
            && d.term == m.currentTerm && d.vote == m.votedFor
            && NodeRel(m.(log := [SENTINEL] + d.entries), h', i)
    ensures h'.reigns == h.reigns && h'.term == h.term && h'.role == h.role
  {
    hide Inv;
    var ws := MergeWrites(m.log, a.prevLogIndex, a.entries);
    if k == 0 {
      h' := h;
      assert [SENTINEL] + m.log[1..] == m.log;
      assert ws[..0] == [];
    } else {
      MergePoint(m, h, i, a);
      var n := MergePrefix(DurableOf(m), m.log, h.reigns[a.term].log, a, k);
      h' := MergedMoves(m, h, i, a, n);
    }
  }

  lemma MergedMoves(m: Node, h: History, i: nat, a: AppendArgs, n: nat) returns (h': History)
    requires Inv(h) && NodeRel(m, h, i) && m.role == Follower && a.term == m.currentTerm
    requires BatchRel(h, i, a) && Accepts(m, a)
    requires FirstNew(m.log, a.prevLogIndex, a.entries, 0) < |a.entries|
    requires a.prevLogIndex + 1 + FirstNew(m.log, a.prevLogIndex, a.entries, 0) <= n <= |h.reigns[a.term].log|
    ensures Moves(h, h', i)
    ensures NodeRel(m.(log := [SENTINEL] + h.reigns[a.term].log[..n][1..]), h', i)
    ensures h'.reigns == h.reigns && h'.term == h.term && h'.role == h.role
  {
    hide Inv;
    var lead := h.reigns[a.term].log;
    MergePoint(m, h, i, a);
    var pos := a.prevLogIndex + 1 + FirstNew(m.log, a.prevLogIndex, a.entries, 0);
    h' := AdoptMoves(h, i, pos, n);
    assert lead[..n][0] == m.log[..pos][0];
    assert [SENTINEL] + lead[..n][1..] == lead[..n];
    NodeRelLog(m, h, h', i, lead[..n]);
  }

  /** Follower i keeps what agrees with its leader's log up to pos and copies on to length n. */
  lemma AdoptMoves(h: History, i: nat, pos: nat, n: nat) returns (h': History)
    requires Inv(h) && i < |h.term| && h.role[i] == Follower && h.term[i] in h.reigns
    requires 1 <= pos <= |h.log[i]| && pos <= n <= |h.reigns[h.term[i]].log|
    requires h.log[i][..pos] == h.reigns[h.term[i]].log[..pos]
    requires pos < |h.log[i]| ==>
               pos < |h.reigns[h.term[i]].log| && h.log[i][pos].term != h.reigns[h.term[i]].log[pos].term
    ensures Moves(h, h', i)
    ensures h' == h.(log := h.log[i := h.reigns[h.term[i]].log[..n]])
  {
    hide Inv;
    NodeFact(h, i);
    var h1 := h;
    if pos < |h.log[i]| {
      CutKeeps(h, i, pos);
      h1 := Cut(h, i, pos);
    } else {
      assert h.log[i][..pos] == h.log[i];
    }
    h' := CopyMoves(h1, i, n);
    MovesTransitive(h, h1, h', i);
    assert h1.log[i := h.reigns[h.term[i]].log[..n]] == h.log[i := h.reigns[h.term[i]].log[..n]];
  }

  lemma NodeRelLog(m: Node, h: History, h': History, i: nat, l: Log)
    requires NodeRel(m, h, i) && m.role == Follower && Grows(h, h')
    requires |l| >= 1 && l[0] == SENTINEL
    requires h' == h.(log := h.log[i := l])
    ensures NodeRel(m.(log := l), h', i)
  {
  }
}
