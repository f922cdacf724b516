/** The simulation, action by action, and its extension to whole runs. */
module Runs {
  import opened Types
  import opened Messages
  import opened Node
  import opened Cluster
  import opened Protocol
  import opened ProtocolSteps
  import opened Simulation

  // ----- operations of one node -----

  lemma HandleVoteMoves(m: Node, h: History, i: nat, a: VoteArgs) returns (h': History)
    requires Inv(h) && NodeRel(m, h, i) && RequestRel(h, VoteReq(i, a))
    ensures Moves(h, h', i)
    ensures NodeRel(OnRequestVote(m, a).0, h', i)
    ensures ResponseRel(h', VoteResp(i, a, OnRequestVote(m, a).1))
    ensures h'.tally == h.tally && (h'.role[i] == Candidate ==> h.role[i] == Candidate && h'.term[i] == h.term[i])
  {
    hide Inv;
    h' := h;
    if a.term >= m.currentTerm {
      var m1 := CatchUp(m, a.term);
      if a.term > m.currentTerm {
        h' := BumpMoves(m, h, i, a.term);
      }
      if Grants(m1, a) {
        var h1 := h';
        RequestRelGrows(h, h1, VoteReq(i, a));
        h' := CastMoves(m1, h1, i, a);
        MovesTransitive(h, h1, h', i);
      }
    }
  }

  lemma FollowMoves(m: Node, h: History, i: nat, a: AppendArgs) returns (h': History)
    requires Inv(h) && NodeRel(m, h, i) && BatchRel(h, i, a) && a.term >= m.currentTerm
    ensures Moves(h, h', i)
    ensures NodeRel(FollowLeader(m, a), h', i) && FollowLeader(m, a).role == Follower
    ensures FollowLeader(m, a).currentTerm == a.term && FollowLeader(m, a).log == m.log
    ensures BatchRel(h', i, a) && h'.reigns == h.reigns
  {
    hide Inv;
    h' := h;
    if a.term > m.currentTerm || m.role != Follower {
      h' := BumpMoves(m, h, i, a.term);
    }
    ReignFact(h, a.term);
    assert Signed32(a.leaderId) == a.leaderId;
    RequestRelGrows(h, h', AppendReq(0, i, a));
  }

  lemma HandleAppendMoves(m: Node, h: History, i: nat, a: AppendArgs) returns (h': History)
    requires Inv(h) && NodeRel(m, h, i) && BatchRel(h, i, a)
    ensures Moves(h, h', i)
    ensures NodeRel(OnAppendEntries(m, a).0, h', i)
    ensures SuccessRel(h', i, a, OnAppendEntries(m, a).1)
    ensures h'.reigns == h.reigns
    ensures h'.role[i] == Candidate ==> h' == h
    ensures OnAppendEntries(m, a).1.success ==>
              var m' := OnAppendEntries(m, a).0;
              Agree(m'.log, h'.reigns[a.term].log, m'.commitIndex) ==> Ack(a.term, i, m'.commitIndex) in h'.acks
  {
    hide Inv;
    h' := h;
    if a.term >= m.currentTerm {
      var m1 := FollowLeader(m, a);
      var h1 := FollowMoves(m, h, i, a);
      h' := h1;
      if Accepts(m, a) {
        h' := AcceptMoves(m1, h1, i, a, OnAppendEntries(m, a).0.commitIndex);
        MovesTransitive(h, h1, h', i);
      }
    }
  }

  /** An accepted batch: the log is merged and everything through its end acknowledged; the history
      also notes index c when the merged log agrees with the leader's up to there. */
  lemma AcceptMoves(m: Node, h: History, i: nat, a: AppendArgs, c: nat) returns (h': History)
    requires Inv(h) && NodeRel(m, h, i) && m.role == Follower && a.term == m.currentTerm
    requires BatchRel(h, i, a) && Accepts(m, a)
    ensures Moves(h, h', i)
    ensures NodeRel(m.(log := Merge(m.log, a.prevLogIndex, a.entries)), h', i)
    ensures forall k :: 0 <= k <= a.prevLogIndex + |a.entries| ==> Ack(a.term, i, k) in h'.acks
    ensures Agree(Merge(m.log, a.prevLogIndex, a.entries), h.reigns[a.term].log, c) ==>
              Ack(a.term, i, c) in h'.acks
    ensures h'.reigns == h.reigns && h'.role == h.role
  {
    hide Inv, Merge, MergeWrites;
    var l := Merge(m.log, a.prevLogIndex, a.entries);
    WholeMerge(m, a);
    var h1 := MergeMoves(m, h, i, a, |MergeWrites(m.log, a.prevLogIndex, a.entries)|);
    assert NodeRel(m.(log := l), h1, i);
    MergeAgrees(m, h, i, a);
    var end := a.prevLogIndex + |a.entries|;
    h' := RecordMoves(m.(log := l), h1, i, if Agree(l, h.reigns[a.term].log, c) && c > end then c else end);
    MovesTransitive(h, h1, h', i);
  }

  lemma MergeAgrees(m: Node, h: History, i: nat, a: AppendArgs)
    requires Inv(h) && NodeRel(m, h, i) && BatchRel(h, i, a)
    requires a.prevLogIndex < |m.log| && m.log[a.prevLogIndex].term == a.prevLogTerm
    ensures var lead := h.reigns[a.term].log;
            var end := a.prevLogIndex + |a.entries|;
            var l := Merge(m.log, a.prevLogIndex, a.entries);
            Agree(l, lead, end) && l == if Agree(m.log, lead, end) then m.log else lead[..end + 1]
  {
    hide Inv;
    NodeFact(h, i);
    ReignFact(h, a.term);
    MergeResult(h.reigns, m.log, h.reigns[a.term].log, a);
  }

  lemma RecordMoves(m: Node, h: History, i: nat, k: nat) returns (h': History)
    requires Inv(h) && NodeRel(m, h, i) && m.currentTerm in h.reigns && m.role == Follower
    requires Agree(m.log, h.reigns[m.currentTerm].log, k)
    ensures Moves(h, h', i) && NodeRel(m, h', i)
    ensures forall j :: 0 <= j <= k ==> Ack(m.currentTerm, i, j) in h'.acks
    ensures h'.reigns == h.reigns && h'.role == h.role
  {
    hide Inv;
    RecordKeeps(h, i, k);
    h' := Record(h, i, k);
  }

  lemma WholeMerge(m: Node, a: AppendArgs)
    requires m.Wf() && a.prevLogIndex < |m.log|
    ensures var ws := MergeWrites(m.log, a.prevLogIndex, a.entries);
            [SENTINEL] + ApplyWrites(DurableOf(m), ws[..|ws|]).entries == Merge(m.log, a.prevLogIndex, a.entries)
  {
    var ws := MergeWrites(m.log, a.prevLogIndex, a.entries);
    var l := Merge(m.log, a.prevLogIndex, a.entries);
    assert ws[..|ws|] == ws;
    MergeIsWritten(DurableOf(m), m.log, a.prevLogIndex, a.entries);
    MergeKeepsSentinel(m.log, a.prevLogIndex, a.entries);
    assert [SENTINEL] + l[1..] == l;
  }

  lemma MergeKeepsSentinel(log: Log, prev: nat, entries: Log)
    requires prev < |log|
    ensures |Merge(log, prev, entries)| >= 1 && Merge(log, prev, entries)[0] == log[0]
  {
  }

  lemma VoteRepliedMoves(m: Node, h: History, i: nat, p: nat, a: VoteArgs, r: VoteReply) returns (h': History)
    requires Inv(h) && NodeRel(m, h, i) && a.candidateId == i
    requires RequestRel(h, VoteReq(p, a)) && ResponseRel(h, VoteResp(p, a, r)) && CallRel(h, VoteReq(p, a))
    ensures Moves(h, h', i)
    ensures NodeRel(OnVoteReply(m, a, r), h', i)
    ensures h'.role[i] == Candidate ==>
              && h.role[i] == Candidate && h'.term == h.term && h'.cands == h.cands
              && (h'.tally[i] == h.tally[i] || (a.term == h.term[i] && h'.tally[i] == h.tally[i] + {p}))
  {
    hide Inv;
    h' := h;
    if r.term > m.currentTerm {
      h' := BumpMoves(m, h, i, r.term);
    } else if m.role == Candidate && m.currentTerm == a.term && r.voteGranted {
      var h1 := Count(h, i, p);
      CountKeeps(h, i, p);
      var m1 := m.(votesReceived := m.votesReceived + 1);
      assert NodeRel(m1, h1, i);
      h' := h1;
      if m1.votesReceived >= m.MajoritySize() {
        h' := LeaderMoves(m1, h1, i);
        MovesTransitive(h, h1, h', i);
      }
    }
  }

  lemma AppendRepliedMoves(m: Node, h: History, i: nat, p: nat, a: AppendArgs, r: AppendReply) returns (h': History)
    requires Inv(h) && NodeRel(m, h, i) && p < m.size
    requires BatchRel(h, p, a) && SuccessRel(h, p, a, r)
    ensures Moves(h, h', i)
    ensures NodeRel(OnAppendReply(m, p, a, r), h', i)
    ensures h'.role[i] == Candidate ==> h' == h
  {
    hide Inv;
    h' := h;
    if m.role == Leader && m.currentTerm == a.term {
      NodeFact(h, i);
      if r.term > m.currentTerm {
        h' := BumpMoves(m, h, i, r.term);
      } else if r.term == m.currentTerm && r.success {
        var m' := OnAppendReply(m, p, a, r);
        forall q | 0 <= q < m'.size
          ensures MatchRel(h, m'.currentTerm, q, m'.nextIndex[q], m'.matchIndex[q], |m'.log|)
        {
          assert MatchRel(h, m.currentTerm, q, m.nextIndex[q], m.matchIndex[q], |m.log|);
        }
      } else if r.term == m.currentTerm {
        var m' := OnAppendReply(m, p, a, r);
        forall q | 0 <= q < m'.size
          ensures MatchRel(h, m'.currentTerm, q, m'.nextIndex[q], m'.matchIndex[q], |m'.log|)
        {
          assert MatchRel(h, m.currentTerm, q, m.nextIndex[q], m.matchIndex[q], |m.log|);
        }
      }
    }
  }

  lemma SubmitMoves(m: Node, h: History, i: nat, c: Bytes) returns (h': History)
    requires Inv(h) && NodeRel(m, h, i)
    ensures Moves(h, h', i)
    ensures NodeRel(Submit(m, c), h', i)
    ensures m.role != Leader ==> h' == h
    ensures h'.role == h.role
  {
    hide Inv;
    h' := h;
    if m.role == Leader {
      var e := LogEntry(m.currentTerm, c);
      ExtendKeeps(h, i, e);
      var h1 := Extend(h, i, e);
      NodeFact(h1, i);
      RecordKeeps(h1, i, |m.log|);
      h' := Record(h1, i, |m.log|);
      GrowsTransitive(h, h1, h');
      var m' := Submit(m, c);
      forall q | 0 <= q < m'.size
        ensures MatchRel(h', m'.currentTerm, q, m'.nextIndex[q], m'.matchIndex[q], |m'.log|)
      {
        assert MatchRel(h, m.currentTerm, q, m.nextIndex[q], m.matchIndex[q], |m.log|);
      }
    }
  }

  /** Any operation of node i, completed. */
  lemma OpMoves(s: State, h: History, i: nat, op: Op, call: nat) returns (h': History)
    requires Inv(h) && Rel(s, h) && i < |s.nodes| && OpEnabled(s, i, op, call)
    ensures Moves(h, h', i)
    ensures NodeRel(Perform(s.nodes[i], op), h', i)
  {
    hide Inv;
    var m := s.nodes[i];
    assert NodeRel(m, h, i);
    match op {
      case Idle => h' := h;
      case Timeout => h' := StandMoves(m, h, i);
      case HandleVote(a) => h' := HandleVoteMoves(m, h, i, a);
      case HandleAppend(a) => h' := HandleAppendMoves(m, h, i, a);
      case VoteReplied(p, a, r) => h' := VoteRepliedMoves(m, h, i, p, a, r);
      case AppendReplied(p, a, r) => h' := AppendRepliedMoves(m, h, i, p, a, r);
      case SubmitCommand(c) => h' := SubmitMoves(m, h, i, c);
    }
  }

  // ----- crashes -----

  /** The durable state after the first k writes of an operation is one a history step reaches. */
  lemma WritesMoves(s: State, h: History, i: nat, op: Op, call: nat, k: nat) returns (h': History, m': Node)
    requires Inv(h) && Rel(s, h) && i < |s.nodes| && OpEnabled(s, i, op, call)
    requires k <= |Writes(s.nodes[i], op)|
    ensures Moves(h, h', i)
    ensures NodeRel(m', h', i)
    ensures DurableOf(m') == ApplyWrites(DurableOf(s.nodes[i]), Writes(s.nodes[i], op)[..k])
    ensures m'.id == s.nodes[i].id && m'.size == s.nodes[i].size
  {
    hide Inv, Perform, OnAppendEntries, OnRequestVote, StartElection, MergeWrites;
    var m := s.nodes[i];
    var ws := Writes(m, op);
    assert NodeRel(m, h, i);
    if k == |ws| {
      h' := OpMoves(s, h, i, op, call);
      m' := Perform(m, op);
      PerformIsWritten(m, op);
      assert ws[..k] == ws;
    } else if k == 0 {
      h', m' := h, m;
      assert ws[..0] == [];
    } else {
      match op {
        case Timeout =>
          h', m' := StandWrite(m, h, i);
          assert ws[..1] == [SaveMeta(m.currentTerm + 1, m.id)];
          ApplyOne(DurableOf(m), SaveMeta(m.currentTerm + 1, m.id));
        case HandleVote(a) =>
          h' := BumpMoves(m, h, i, a.term);
          m' := BecomeFollower(m, a.term);
          assert ws[..1] == [SaveMeta(a.term, -1)];
          ApplyOne(DurableOf(m), SaveMeta(a.term, -1));
        case HandleAppend(a) =>
          h', m' := AppendWritesMoves(m, h, i, a, k);
      }
    }
  }

  lemma StandWrite(m: Node, h: History, i: nat) returns (h': History, m': Node)
    requires Inv(h) && NodeRel(m, h, i)
    ensures Moves(h, h', i) && NodeRel(m', h', i)
    ensures m' == m.(role := Candidate, currentTerm := m.currentTerm + 1, votedFor := m.id,
                     leaderHint := -1, votesReceived := 1)
  {
    hide Inv;
    StandKeeps(h, i);
    h' := Stand(h, i);
    m' := m.(role := Candidate, currentTerm := m.currentTerm + 1, votedFor := m.id,
             leaderHint := -1, votesReceived := 1);
  }

  lemma AppendWritesMoves(m: Node, h: History, i: nat, a: AppendArgs, k: nat) returns (h': History, m': Node)
    requires Inv(h) && NodeRel(m, h, i) && BatchRel(h, i, a)
    requires 0 < k <= |Writes(m, HandleAppend(a))|
    ensures Moves(h, h', i) && NodeRel(m', h', i)
    ensures DurableOf(m') == ApplyWrites(DurableOf(m), Writes(m, HandleAppend(a))[..k])
    ensures m'.id == m.id && m'.size == m.size
  {
    hide Inv;
    var ws := Writes(m, HandleAppend(a));
    var first := CatchUpWrites(m, a.term);
    var h1 := FollowMoves(m, h, i, a);
    var m1 := FollowLeader(m, a);
    var d1 := ApplyWrites(DurableOf(m), first);
    if a.term > m.currentTerm { ApplyOne(DurableOf(m), SaveMeta(a.term, -1)); }
    assert d1 == DurableOf(m1);
    var c := k - |first|;
    if Accepts(m, a) {
      var more := MergeWrites(m.log, a.prevLogIndex, a.entries);
      assert ws == first + more;
      assert ws[..k] == first + more[..c];
      ApplyAfter(DurableOf(m), first, more[..c]);
      h' := MergeMoves(m1, h1, i, a, c);
      MovesTransitive(h, h1, h', i);
      m' := m1.(log := [SENTINEL] + ApplyWrites(d1, more[..c]).entries);
    } else {
      assert ws == first && ws[..k] == first;
      h', m' := h1, m1;
    }
  }

  // ----- actions -----

  /** A follower whose commit index lies where its log agrees with the leader's is on record for it. */
  ghost predicate Credited(s: State, a: Action, h': History)
    requires |s.servers| == |s.nodes| && Enabled(s, a)
  {
    a.Local? && a.op.HandleAppend? && OnAppendEntries(s.nodes[a.i], a.op.aargs).1.success ==>
      var m := Next(s, a).nodes[a.i];
      var t := a.op.aargs.term;
      t in h'.reigns && (Agree(m.log, h'.reigns[t].log, m.commitIndex) ==> Ack(t, a.i, m.commitIndex) in h'.acks)
  }

  /** One action of the cluster: the history moves along, and only one node's part of it moves. */
  lemma ActionSim(s: State, h: History, a: Action) returns (h': History)
    requires Inv(h) && Rel(s, h) && Enabled(s, a)
    ensures Inv(h') && Grows(h, h') && Rel(Next(s, a), h') && Credited(s, a, h')
  {
    hide Inv, NodeRel, NetRel, Next, Enabled;
    match a {
      case Local(i, op, call) => h' := LocalSim(s, h, i, op, call);
      case Crash(i, op, call, k) => h' := CrashSim(s, h, i, op, call, k);
      case Send(i, peer) => h' := h; SendSim(s, h, i, peer);
      case ClientSubmit(i, c) => h' := ClientSubmitSim(s, h, i, c);
      case _ => h' := h; QuietSim(s, h, a);
    }
  }

  /** Actions of servers and the loss of a call leave every node's part alone. */
  lemma QuietSim(s: State, h: History, a: Action)
    requires Rel(s, h) && Enabled(s, a) && !a.Local? && !a.Crash? && !a.Send? && !a.ClientSubmit?
    ensures Rel(Next(s, a), h)
  {
    if a.Finish? {
      var s' := Next(s, a);
      forall j | 0 <= j < |s'.nodes| ensures NodeRel(s'.nodes[j], h, j) {
        assert NodeRel(s.nodes[j], h, j);
      }
    }
  }

  lemma NodesAfter(s: State, h: History, s': State, h': History, i: nat)
    requires Inv(h) && Rel(s, h) && Moves(h, h', i) && i < |s.nodes|
    requires |s'.nodes| == |s.nodes| && s'.nodes == s.nodes[i := s'.nodes[i]] && NodeRel(s'.nodes[i], h', i)
    ensures forall j :: 0 <= j < |s'.nodes| ==> NodeRel(s'.nodes[j], h', j)
  {
    hide Inv;
    forall j | 0 <= j < |s'.nodes| ensures NodeRel(s'.nodes[j], h', j) {
      if j != i { OthersRel(s, h, h', i, j); }
    }
  }

  lemma CrashSim(s: State, h: History, i: nat, op: Op, call: nat, k: nat) returns (h': History)
    requires Inv(h) && Rel(s, h) && Enabled(s, Crash(i, op, call, k))
    ensures Inv(h') && Grows(h, h') && Rel(Next(s, Crash(i, op, call, k)), h')
  {
    hide Inv;
    var h1, m1 := WritesMoves(s, h, i, op, call, k);
    h' := RestartMoves(m1, h1, i);
    MovesTransitive(h, h1, h', i);
    var s' := Next(s, Crash(i, op, call, k));
    NodesAfter(s, h, s', h', i);
    NetAfter(s, h, s', h', i);
  }

  lemma SendSim(s: State, h: History, i: nat, peer: nat)
    requires Inv(h) && Rel(s, h) && Enabled(s, Send(i, peer))
    ensures Rel(Next(s, Send(i, peer)), h)
  {
    hide Inv;
    var m := s.nodes[i];
    var s' := Next(s, Send(i, peer));
    BuiltRequest(m, h, i, peer);
    forall r | r in s'.sent ensures RequestRel(h, r) { }
    forall r | r in s'.calls ensures r in s'.sent && CallRel(h, r) { }
  }

  lemma BuiltRequest(m: Node, h: History, i: nat, peer: nat)
    requires Inv(h) && NodeRel(m, h, i) && m.role == Leader && peer < |h.term|
    requires peer < |m.nextIndex| && 1 <= m.nextIndex[peer] <= |m.log|
    ensures BatchRel(h, peer, BuildAppend(m, peer))
  {
    hide Inv;
    NodeFact(h, i);
    var a := BuildAppend(m, peer);
    assert a.entries == m.log[a.prevLogIndex + 1..a.prevLogIndex + 1 + |a.entries|];
  }

  lemma ClientSubmitSim(s: State, h: History, i: nat, c: Command.Command) returns (h': History)
    requires Inv(h) && Rel(s, h) && Enabled(s, ClientSubmit(i, c))
    ensures Inv(h') && Grows(h, h') && Rel(Next(s, ClientSubmit(i, c)), h')
  {
    hide Inv;
    assert NodeRel(s.nodes[i], h, i);
    h' := SubmitMoves(s.nodes[i], h, i, Command.Encode(c));
    var s' := Next(s, ClientSubmit(i, c));
    NodesAfter(s, h, s', h', i);
    forall r | r in s'.calls ensures r in s'.sent && CallRel(h', r) {
      assert CallRel(h, r);
    }
    NetAfter(s, h, s', h', i);
  }

  lemma LocalSim(s: State, h: History, i: nat, op: Op, call: nat) returns (h': History)
    requires Inv(h) && Rel(s, h) && Enabled(s, Local(i, op, call))
    ensures Inv(h') && Grows(h, h') && Rel(Next(s, Local(i, op, call)), h') && Credited(s, Local(i, op, call), h')
  {
    hide Inv;
    match op {
      case Idle => h' := h; assert s.nodes[i := s.nodes[i]] == s.nodes;
      case Timeout => h' := TimeoutSim(s, h, i, call);
      case HandleVote(a) => h' := HandleVoteSim(s, h, i, a, call);
      case HandleAppend(a) => h' := HandleAppendSim(s, h, i, a, call);
      case VoteReplied(p, a, r) => h' := VoteRepliedSim(s, h, i, p, a, r, call);
      case AppendReplied(p, a, r) => h' := AppendRepliedSim(s, h, i, p, a, r, call);
    }
  }

  lemma HandleVoteSim(s: State, h: History, i: nat, a: VoteArgs, call: nat) returns (h': History)
    requires Inv(h) && Rel(s, h) && Enabled(s, Local(i, HandleVote(a), call))
    ensures Inv(h') && Grows(h, h') && Rel(Next(s, Local(i, HandleVote(a), call)), h')
  {
    hide Inv;
    assert NodeRel(s.nodes[i], h, i);
    h' := HandleVoteMoves(s.nodes[i], h, i, a);
    var s' := Next(s, Local(i, HandleVote(a), call));
    NodesAfter(s, h, s', h', i);
    OwnCalls(s, h, s', h', i);
    NetAfter(s, h, s', h', i);
  }

  lemma HandleAppendSim(s: State, h: History, i: nat, a: AppendArgs, call: nat) returns (h': History)
    requires Inv(h) && Rel(s, h) && Enabled(s, Local(i, HandleAppend(a), call))
    ensures Inv(h') && Grows(h, h') && Rel(Next(s, Local(i, HandleAppend(a), call)), h')
    ensures Credited(s, Local(i, HandleAppend(a), call), h')
  {
    hide Inv;
    assert NodeRel(s.nodes[i], h, i);
    h' := HandleAppendMoves(s.nodes[i], h, i, a);
    var s' := Next(s, Local(i, HandleAppend(a), call));
    NodesAfter(s, h, s', h', i);
    OwnCalls(s, h, s', h', i);
    NetAfter(s, h, s', h', i);
  }

  lemma AppendRepliedSim(s: State, h: History, i: nat, p: nat, a: AppendArgs, r: AppendReply, call: nat) returns (h': History)
    requires Inv(h) && Rel(s, h) && Enabled(s, Local(i, AppendReplied(p, a, r), call))
    ensures Inv(h') && Grows(h, h') && Rel(Next(s, Local(i, AppendReplied(p, a, r), call)), h')
  {
    hide Inv;
    assert NodeRel(s.nodes[i], h, i);
    h' := AppendRepliedMoves(s.nodes[i], h, i, p, a, r);
    var s' := Next(s, Local(i, AppendReplied(p, a, r), call));
    NodesAfter(s, h, s', h', i);
    OwnCalls(s, h, s', h', i);
    NetAfter(s, h, s', h', i);
  }

  /** A node that did not start or join an election has the same votes left to count. */
  lemma OwnCalls(s: State, h: History, s': State, h': History, i: nat)
    requires Rel(s, h) && Shape(h') && |h'.term| == |h.term| && i < |h.term| && s'.calls <= s.calls
    requires h'.role[i] == Candidate ==>
               h.role[i] == Candidate && h'.term[i] == h.term[i] && h'.tally[i] == h.tally[i]
    ensures forall r :: r in s'.calls && Sender(r) == i ==> CallRel(h', r)
  {
    forall r | r in s'.calls && Sender(r) == i ensures CallRel(h', r) {
      assert CallRel(h, r);
    }
  }

  lemma TimeoutSim(s: State, h: History, i: nat, call: nat) returns (h': History)
    requires Inv(h) && Rel(s, h) && Enabled(s, Local(i, Timeout, call))
    ensures Inv(h') && Grows(h, h') && Rel(Next(s, Local(i, Timeout, call)), h')
  {
    hide Inv;
    var m := s.nodes[i];
    assert NodeRel(m, h, i);
    h' := StandMoves(m, h, i);
    var s' := Next(s, Local(i, Timeout, call));
    NodesAfter(s, h, s', h', i);
    StaleCalls(s, h, h', i);
    if s'.nodes[i].role == Candidate {
      NewVoteRequests(s'.nodes[i], h', i);
    }
    NetAfter(s, h, s', h', i);
  }

  /** Calls of earlier elections cannot be counted in a new one. */
  lemma StaleCalls(s: State, h: History, h': History, i: nat)
    requires Inv(h) && Rel(s, h) && i < |h.term| && Shape(h') && |h'.term| == |h.term|
    requires h'.term[i] > h.term[i]
    ensures forall r :: r in s.calls && Sender(r) == i ==> CallRel(h', r)
  {
    hide Inv;
    forall r | r in s.calls && Sender(r) == i ensures CallRel(h', r) {
      assert RequestRel(h, r);
      if r.VoteReq? {
        CandFact(h, r.v.term, i);
        VoteFact(h, r.v.term, i);
      }
    }
  }

  lemma NewVoteRequests(m: Node, h: History, i: nat)
    requires Inv(h) && NodeRel(m, h, i) && m.role == Candidate && h.tally[i] == {i}
    ensures forall r :: r in VoteRequests(m, |h.term|) ==> RequestRel(h, r) && CallRel(h, r)
  {
    hide Inv;
    NodeFact(h, i);
  }

  lemma VoteRepliedSim(s: State, h: History, i: nat, p: nat, a: VoteArgs, r: VoteReply, call: nat) returns (h': History)
    requires Inv(h) && Rel(s, h) && Enabled(s, Local(i, VoteReplied(p, a, r), call))
    ensures Inv(h') && Grows(h, h') && Rel(Next(s, Local(i, VoteReplied(p, a, r), call)), h')
  {
    hide Inv;
    var m := s.nodes[i];
    assert NodeRel(m, h, i);
    h' := VoteRepliedMoves(m, h, i, p, a, r);
    var s' := Next(s, Local(i, VoteReplied(p, a, r), call));
    NodesAfter(s, h, s', h', i);
    forall q | q in s'.calls && Sender(q) == i ensures CallRel(h', q) {
      assert CallRel(h, q) && RequestRel(h, q) && RequestRel(h, VoteReq(p, a));
    }
    NetAfter(s, h, s', h', i);
  }

  // ----- runs -----

  ghost function InitHistory(n: nat): History
  {
    History(seq(n, i => 0), seq(n, i => Follower), seq(n, i => [SENTINEL]), seq(n, i => {}),
            map[], map[], map[], {})
  }

  lemma InitSim(n: nat)
    requires n <= MAX_NODES
    ensures Inv(InitHistory(n)) && Rel(Init(n), InitHistory(n))
  {
    var h := InitHistory(n);
    forall i | 0 <= i < n ensures NodeOk(h, i) && NodeRel(Init(n).nodes[i], h, i) {
    }
  }

  /** hs is a history for every state of the run, and it only grows. */
  ghost predicate Backs(ss: seq<State>, hs: seq<History>)
  {
    && |hs| == |ss|
    && (forall k :: 0 <= k < |ss| ==> Inv(hs[k]) && Rel(ss[k], hs[k]))
    && (forall j, k :: 0 <= j <= k < |hs| ==> Grows(hs[j], hs[k]))
  }

  lemma RunPrefix(n: nat, ss: seq<State>, acts: seq<Action>, k: nat)
    requires IsRun(n, ss, acts) && k <= |acts|
    ensures IsRun(n, ss[..k + 1], acts[..k])
  {
    var ss', acts' := ss[..k + 1], acts[..k];
    forall j | 0 <= j < |acts'| ensures StepAt(ss', acts', j) {
      assert StepAt(ss, acts, j);
    }
  }

  /** Every step of the run credits followers as above. */
  ghost predicate CreditedRun(ss: seq<State>, acts: seq<Action>, hs: seq<History>)
  {
    && |ss| == |acts| + 1 && |hs| == |ss|
    && forall k :: 0 <= k < |acts| ==> StepAt(ss, acts, k) && Credited(ss[k], acts[k], hs[k + 1])
  }

  lemma CreditedOneMore(ss: seq<State>, acts: seq<Action>, hs: seq<History>, k: nat, h: History)
    requires |acts| == k + 1 && |ss| == |acts| + 1 && |hs| == k + 1
    requires CreditedRun(ss[..k + 1], acts[..k], hs)
    requires StepAt(ss, acts, k) && Credited(ss[k], acts[k], h)
    ensures CreditedRun(ss, acts, hs + [h])
  {
    var hs' := hs + [h];
    forall j | 0 <= j < |acts| ensures StepAt(ss, acts, j) && Credited(ss[j], acts[j], hs'[j + 1]) {
      if j < k {
        assert StepAt(ss[..k + 1], acts[..k], j);
        assert ss[..k + 1][j] == ss[j] && acts[..k][j] == acts[j] && ss[..k + 1][j + 1] == ss[j + 1];
      }
    }
  }

  lemma BacksOneMore(ss: seq<State>, hs: seq<History>, s: State, h: History)
    requires Backs(ss, hs) && |ss| > 0 && Inv(h) && Rel(s, h) && Grows(hs[|hs| - 1], h)
    ensures Backs(ss + [s], hs + [h])
  {
    hide Inv;
    var hs' := hs + [h];
    forall i, j | 0 <= i <= j < |hs'| ensures Grows(hs'[i], hs'[j]) {
      if i < |hs| && j == |hs| { GrowsTransitive(hs[i], hs[|hs| - 1], h); }
    }
  }

  lemma InitBacks(n: nat)
    requires n <= MAX_NODES
    ensures Backs([Init(n)], [InitHistory(n)]) && |InitHistory(n).term| == n
  {
    InitSim(n);
  }

  lemma StepSim(ss: seq<State>, acts: seq<Action>, k: nat, h: History) returns (h': History)
    requires |ss| == |acts| + 1 && k < |acts| && StepAt(ss, acts, k) && Inv(h) && Rel(ss[k], h)
    ensures Inv(h') && Grows(h, h') && Rel(ss[k + 1], h') && Credited(ss[k], acts[k], h')
  {
    hide Inv;
    h' := ActionSim(ss[k], h, acts[k]);
  }

  /** Every run has a history that satisfies the protocol invariants throughout. */
  lemma {:induction false} RunHasHistory(n: nat, ss: seq<State>, acts: seq<Action>) returns (hs: seq<History>)
    requires IsRun(n, ss, acts)
    ensures Backs(ss, hs) && |hs[0].term| == n && CreditedRun(ss, acts, hs)
    decreases |acts|
  {
    hide Inv, Rel, Grows, Init, InitHistory, Credited, StepAt;
    if acts == [] {
      InitBacks(n);
      hs := [InitHistory(n)];
      assert ss == [Init(n)];
    } else {
      var k := |acts| - 1;
      RunPrefix(n, ss, acts, k);
      var ss' := ss[..k + 1];
      var gs := RunHasHistory(n, ss', acts[..k]);
      assert ss == ss' + [ss[k + 1]];
      assert Rel(ss'[k], gs[k]) && Inv(gs[k]);
      assert StepAt(ss, acts, k);
      var h := StepSim(ss, acts, k, gs[k]);
      CreditedOneMore(ss, acts, gs, k, h);
      BacksOneMore(ss', gs, ss[k + 1], h);
      hs := gs + [h];
    }
  }
}
