/**
 * The condition of CommitRule cannot be dropped: a run of three nodes, with the batch cap of the
 * source, in which two nodes apply different entries at one index.
 *
 * Node 0 leads term 1 and gives the others its first 100 entries, then appends one more alone.
 * Node 1 leads term 2 and gives node 2 its first entry, at the same index. Node 2 leads term 3,
 * commits, is turned back by node 0 to index 1, and ships entries 1 to 100, which all match.
 * Node 0 then takes over a commit index that lies past those entries, on its own stray entry.
 */
module Witness {
  import opened Types
  import opened Messages
  import opened Node
  import opened Command
  import opened Cluster
  import opened CommitRule
  import opened Theorems

  const STRAY := Command(Set, [0], [1])

  /** The entries of term 1 that all three nodes share. */
  predicate Shared(e: Log)
  {
    |e| == MAX_BATCH && forall x :: 0 <= x < |e| ==> e[x].term == 1
  }

  function Log0(e: Log): Log { [SENTINEL] + e + [LogEntry(1, Encode(STRAY))] }

  function Log1(e: Log): Log { [SENTINEL] + e + [NoOp(2)] }

  function Log2(e: Log): Log { [SENTINEL] + e + [NoOp(2)] + [NoOp(3)] }

  // ----- runs, extended one action at a time -----

  function End(ss: seq<State>): State
    requires |ss| > 0
  {
    ss[|ss| - 1]
  }

  /** A run of three nodes that currently looks like this; nobody holds a wait mutex and no applier
      is at work. */
  ghost predicate Looks(ss: seq<State>, acts: seq<Action>, a: Node, b: Node, c: Node)
  {
    && IsRun(3, ss, acts)
    && End(ss).nodes == [a, b, c]
    && |End(ss).servers| == 3
    && forall i :: 0 <= i < 3 ==> Calm(End(ss).servers[i])
  }

  /** No replicator waits for an answer either. */
  ghost predicate At(ss: seq<State>, acts: seq<Action>, a: Node, b: Node, c: Node)
  {
    Looks(ss, acts, a, b, c) && forall r :: r in End(ss).calls ==> r.VoteReq?
  }

  predicate Calm(v: Server) { v.holder.None? && v.applier.Resting? }

  ghost predicate Extends(ss: seq<State>, acts: seq<Action>, ss': seq<State>, acts': seq<Action>)
  {
    ss <= ss' && acts <= acts' && |ss'| == |acts'| + 1 && |ss| == |acts| + 1 && |ss| > 0
    && End(ss).sent <= End(ss').sent && End(ss).replies <= End(ss').replies
  }

  lemma Go(ss: seq<State>, acts: seq<Action>, a: Action) returns (ss': seq<State>, acts': seq<Action>)
    requires IsRun(3, ss, acts) && |End(ss).servers| == |End(ss).nodes| && Enabled(End(ss), a)
    ensures IsRun(3, ss', acts') && Extends(ss, acts, ss', acts') && End(ss') == Next(End(ss), a)
    ensures ss' == ss + [Next(End(ss), a)] && acts' == acts + [a]
  {
    ss' := ss + [Next(End(ss), a)];
    acts' := acts + [a];
    forall k | 0 <= k < |acts'| ensures StepAt(ss', acts', k) {
      if k < |acts| { assert StepAt(ss, acts, k); }
    }
  }

  /** One local operation of node i. */
  lemma GoLocal(ss: seq<State>, acts: seq<Action>, a: Node, b: Node, c: Node, i: nat, op: Op, call: nat)
    returns (ss': seq<State>, acts': seq<Action>)
    requires Looks(ss, acts, a, b, c) && i < 3 && !op.SubmitCommand? && OpEnabled(End(ss), i, op, call)
    ensures Extends(ss, acts, ss', acts')
    ensures var m := Perform([a, b, c][i], op);
            Looks(ss', acts', if i == 0 then m else a, if i == 1 then m else b, if i == 2 then m else c)
    ensures End(ss') == Next(End(ss), Local(i, op, call))
  {
    ss', acts' := Go(ss, acts, Local(i, op, call));
  }

  // ----- elections -----

  /** Node i stands for election in the next term and asks p for its vote. */
  lemma GoStand(ss: seq<State>, acts: seq<Action>, a: Node, b: Node, c: Node, i: nat, p: nat)
    returns (ss': seq<State>, acts': seq<Action>, v: VoteArgs)
    requires At(ss, acts, a, b, c) && i < 3 && p < 3 && p != i
    requires var m := [a, b, c][i]; m.Wf() && m.id == i && m.size == 3 && m.role != Leader
    ensures Extends(ss, acts, ss', acts')
    ensures var m := StartElection([a, b, c][i]);
            && At(ss', acts', if i == 0 then m else a, if i == 1 then m else b, if i == 2 then m else c)
            && v == VoteArgs(m.currentTerm, i, |m.log| - 1, m.LastTerm())
    ensures VoteReq(p, v) in End(ss').sent && VoteReq(p, v) in End(ss').calls
  {
    ss', acts' := GoLocal(ss, acts, a, b, c, i, Timeout, 0);
    var m := StartElection([a, b, c][i]);
    v := VoteArgs(m.currentTerm, i, |m.log| - 1, m.LastTerm());
    assert VoteReq(p, v) in VoteRequests(m, 3);
  }

  /** Node p answers a vote request, and node i takes the answer. */
  lemma GoVote(ss: seq<State>, acts: seq<Action>, a: Node, b: Node, c: Node, i: nat, p: nat, v: VoteArgs)
    returns (ss': seq<State>, acts': seq<Action>)
    requires At(ss, acts, a, b, c) && i < 3 && p < 3 && p != i && v.candidateId == i
    requires [a, b, c][i].Wf() && [a, b, c][p].Wf()
    requires VoteReq(p, v) in End(ss).sent && VoteReq(p, v) in End(ss).calls
    ensures Extends(ss, acts, ss', acts')
    ensures var y := OnRequestVote([a, b, c][p], v);
            var x := OnVoteReply([a, b, c][i], v, y.1);
            At(ss', acts', if i == 0 then x else if p == 0 then y.0 else a,
                           if i == 1 then x else if p == 1 then y.0 else b,
                           if i == 2 then x else if p == 2 then y.0 else c)
  {
    var y := OnRequestVote([a, b, c][p], v);
    var ss1, acts1 := GoLocal(ss, acts, a, b, c, p, HandleVote(v), 0);
    ss', acts' := GoLocal(ss1, acts1, if p == 0 then y.0 else a, if p == 1 then y.0 else b,
                          if p == 2 then y.0 else c, i, VoteReplied(p, v, y.1), 0);
  }

  // ----- replication -----

  /** Leader i sends p a request and p handles it. */
  lemma GoAppend(ss: seq<State>, acts: seq<Action>, a: Node, b: Node, c: Node, i: nat, p: nat)
    returns (ss': seq<State>, acts': seq<Action>)
    requires At(ss, acts, a, b, c) && i < 3 && p < 3 && p != i
    requires var m := [a, b, c][i];
             m.Wf() && m.id == i && m.size == 3 && m.role == Leader && 1 <= m.nextIndex[p] <= |m.log|
    requires [a, b, c][p].Wf()
    ensures Extends(ss, acts, ss', acts')
    ensures var r := BuildAppend([a, b, c][i], p);
            var y := OnAppendEntries([a, b, c][p], r);
            && Looks(ss', acts', if p == 0 then y.0 else a, if p == 1 then y.0 else b, if p == 2 then y.0 else c)
            && AppendResp(End(ss).serial, p, r, y.1) in End(ss').replies
            && End(ss').calls == End(ss).calls + {AppendReq(End(ss).serial, p, r)}
  {
    var r := BuildAppend([a, b, c][i], p);
    var ss1, acts1 := Go(ss, acts, Send(i, p));
    ss', acts' := GoLocal(ss1, acts1, a, b, c, p, HandleAppend(r), End(ss).serial);
  }

  /** The same, with the answer lost on its way back. */
  lemma GoShip(ss: seq<State>, acts: seq<Action>, a: Node, b: Node, c: Node, i: nat, p: nat)
    returns (ss': seq<State>, acts': seq<Action>)
    requires At(ss, acts, a, b, c) && i < 3 && p < 3 && p != i
    requires var m := [a, b, c][i];
             m.Wf() && m.id == i && m.size == 3 && m.role == Leader && 1 <= m.nextIndex[p] <= |m.log|
    requires [a, b, c][p].Wf()
    ensures Extends(ss, acts, ss', acts')
    ensures var y := OnAppendEntries([a, b, c][p], BuildAppend([a, b, c][i], p)).0;
            At(ss', acts', if p == 0 then y else a, if p == 1 then y else b, if p == 2 then y else c)
  {
    var ss1, acts1 := GoAppend(ss, acts, a, b, c, i, p);
    ss', acts' := Go(ss1, acts1, Lose(AppendReq(End(ss).serial, p, BuildAppend([a, b, c][i], p))));
  }

  /** The same, with the answer taken by leader i. */
  lemma GoExchange(ss: seq<State>, acts: seq<Action>, a: Node, b: Node, c: Node, i: nat, p: nat)
    returns (ss': seq<State>, acts': seq<Action>)
    requires At(ss, acts, a, b, c) && i < 3 && p < 3 && p != i
    requires var m := [a, b, c][i];
             m.Wf() && m.id == i && m.size == 3 && m.role == Leader && 1 <= m.nextIndex[p] <= |m.log|
    requires [a, b, c][p].Wf()
    ensures Extends(ss, acts, ss', acts')
    ensures var r := BuildAppend([a, b, c][i], p);
            var y := OnAppendEntries([a, b, c][p], r);
            var x := OnAppendReply([a, b, c][i], p, r, y.1);
            At(ss', acts', if i == 0 then x else if p == 0 then y.0 else a,
                           if i == 1 then x else if p == 1 then y.0 else b,
                           if i == 2 then x else if p == 2 then y.0 else c)
  {
    var r := BuildAppend([a, b, c][i], p);
    var y := OnAppendEntries([a, b, c][p], r);
    var ss1, acts1 := GoAppend(ss, acts, a, b, c, i, p);
    ss', acts' := GoLocal(ss1, acts1, if p == 0 then y.0 else a, if p == 1 then y.0 else b,
                          if p == 2 then y.0 else c, i, AppendReplied(p, r, y.1), End(ss).serial);
  }

  /** A client's command on leader 0, its handler parked. */
  lemma GoSubmit(ss: seq<State>, acts: seq<Action>, a: Node, b: Node, c: Node, command: Command)
    returns (ss': seq<State>, acts': seq<Action>)
    requires At(ss, acts, a, b, c) && a.Wf() && a.role == Leader && Fits(command)
    ensures Extends(ss, acts, ss', acts')
    ensures At(ss', acts', Submit(a, Encode(command)), b, c)
  {
    var ss1, acts1 := Go(ss, acts, ClientSubmit(0, command));
    ss', acts' := Go(ss1, acts1, ClientPark(0));
    assert Extends(ss, acts, ss', acts');
  }

  // ----- the run -----

  function Fresh(i: nat, t: nat, vote: int, l: Log, hint: int): Node
  {
    Node(i, 3, Follower, t, vote, l, 0, 0, hint, 0, [1, 1, 1], [0, 0, 0])
  }

  function Leader0(l: Log): Node
    requires |l| >= 1
  {
    Node(0, 3, Leader, 1, 0, l, 0, 0, 0, 2, [1, 1, 1], [|l| - 1, 0, 0])
  }

  lemma InitNodes()
    ensures Init(3).nodes == [Fresh(0, 0, -1, [SENTINEL], -1), Fresh(1, 0, -1, [SENTINEL], -1), Fresh(2, 0, -1, [SENTINEL], -1)]
  {
    var ns := Init(3).nodes;
    forall i | 0 <= i < 3 ensures ns[i] == Fresh(i, 0, -1, [SENTINEL], -1) {
      assert ns[i].nextIndex == [1, 1, 1] && ns[i].matchIndex == [0, 0, 0];
      assert ns[i].log == [SENTINEL];
    }
  }

  /** Few copies of an index are no majority of three. */
  lemma OneReplica(m: Node, n: nat)
    requires m.size == 3 && |m.matchIndex| == 3 && m.id < 3 && n >= 1
    requires forall p :: 0 <= p < 3 && p != m.id ==> m.matchIndex[p] < n
    ensures |Replicas(m.matchIndex, n)| < m.MajoritySize()
  {
    assert Replicas(m.matchIndex, n) <= {m.id};
    SubsetSize(Replicas(m.matchIndex, n), {m.id});
  }

  /** A leader nobody has answered yet commits nothing. */
  lemma {:induction false} AloneCommitsNothing(m: Node, n: nat)
    requires m.size == 3 && |m.matchIndex| == 3 && m.id < 3 && m.commitIndex == 0 && n < |m.log|
    requires forall p :: 0 <= p < 3 && p != m.id ==> m.matchIndex[p] == 0
    ensures ScanCommit(m, n) == 0
  {
    if n > 0 {
      OneReplica(m, n);
      AloneCommitsNothing(m, n - 1);
    }
  }

  /** The leader that comes out of an election, in terms of the candidate. */
  lemma ElectedAlone(m: Node)
    requires m.Wf() && m.size == 3 && m.commitIndex == 0 && m.id < 3
    ensures BecomeLeader(m) == m.(role := Leader, leaderHint := m.id, log := m.log + [NoOp(m.currentTerm)],
                                  nextIndex := [|m.log|, |m.log|, |m.log|],
                                  matchIndex := [0, 0, 0][m.id := |m.log|])
  {
    var m' := m.(role := Leader, leaderHint := m.id, log := m.log + [NoOp(m.currentTerm)],
                 nextIndex := [|m.log|, |m.log|, |m.log|], matchIndex := [0, 0, 0][m.id := |m.log|]);
    assert seq(3, i => |m.log|) == m'.nextIndex && seq(3, i => 0) == [0, 0, 0];
    AloneCommitsNothing(m', |m'.log| - 1);
  }

  lemma FirstTerm() returns (ss: seq<State>, acts: seq<Action>)
    ensures At(ss, acts, Leader0([SENTINEL, NoOp(1)]), Fresh(1, 1, 0, [SENTINEL], -1), Fresh(2, 0, -1, [SENTINEL], -1))
  {
    var a, b, c := Fresh(0, 0, -1, [SENTINEL], -1), Fresh(1, 0, -1, [SENTINEL], -1), Fresh(2, 0, -1, [SENTINEL], -1);
    InitNodes();
    ss, acts := [Init(3)], [];
    var v: VoteArgs;
    ss, acts, v := GoStand(ss, acts, a, b, c, 0, 1);
    var a1 := StartElection(a);
    assert a1 == a.(role := Candidate, currentTerm := 1, votedFor := 0, votesReceived := 1);
    ss, acts := GoVote(ss, acts, a1, b, c, 0, 1, v);
    assert OnRequestVote(b, v) == (Fresh(1, 1, 0, [SENTINEL], -1), VoteReply(1, true));
    ElectedAlone(a1.(votesReceived := 2));
    assert OnVoteReply(a1, v, VoteReply(1, true)) == BecomeLeader(a1.(votesReceived := 2));
    assert [SENTINEL] + [NoOp(1)] == [SENTINEL, NoOp(1)];
    assert [0, 0, 0][0 := 1] == [1, 0, 0];
  }

  lemma SubmitAlone(l: Log, command: Command)
    requires |l| >= 1 && l[0] == SENTINEL
    ensures Submit(Leader0(l), Encode(command)) == Leader0(l + [LogEntry(1, Encode(command))])
  {
    var m := Leader0(l + [LogEntry(1, Encode(command))]);
    AloneCommitsNothing(m, |m.log| - 1);
    assert [|l| - 1, 0, 0][0 := |l|] == [|l|, 0, 0];
  }

  /** Node 0 collects n entries of term 1. */
  lemma {:induction false} Collect(n: nat) returns (ss: seq<State>, acts: seq<Action>, e: Log)
    requires n >= 1
    ensures |e| == n && forall x :: 0 <= x < n ==> e[x].term == 1
    ensures At(ss, acts, Leader0([SENTINEL] + e), Fresh(1, 1, 0, [SENTINEL], -1), Fresh(2, 0, -1, [SENTINEL], -1))
  {
    var b, c := Fresh(1, 1, 0, [SENTINEL], -1), Fresh(2, 0, -1, [SENTINEL], -1);
    if n == 1 {
      ss, acts := FirstTerm();
      e := [NoOp(1)];
      assert [SENTINEL] + e == [SENTINEL, NoOp(1)];
    } else {
      ss, acts, e := Collect(n - 1);
      var l := [SENTINEL] + e;
      ss, acts := GoSubmit(ss, acts, Leader0(l), b, c, STRAY);
      SubmitAlone(l, STRAY);
      var entry := LogEntry(1, Encode(STRAY));
      assert l + [entry] == [SENTINEL] + (e + [entry]);
      e := e + [entry];
    }
  }

  /** A follower with an empty log takes over a whole first batch. */
  lemma FirstBatch(l: Log, e: Log, p: nat, t: nat, vote: int)
    requires Shared(e) && l == [SENTINEL] + e && p < 3 && t <= 1
    ensures BuildAppend(Leader0(l), p).entries == e
    ensures OnAppendEntries(Fresh(p, t, vote, [SENTINEL], -1), BuildAppend(Leader0(l), p)).0
            == Fresh(p, 1, if t == 1 then vote else -1, l, 0)
  {
    var r := BuildAppend(Leader0(l), p);
    assert l[1..101] == e;
    assert Merge([SENTINEL], 0, e) == [SENTINEL] + e;
  }

  /** Term 1 is over: the others have its first 100 entries, node 0 one more. */
  lemma SecondStage() returns (ss: seq<State>, acts: seq<Action>, e: Log)
    ensures Shared(e)
    ensures At(ss, acts, Leader0(Log0(e)), Fresh(1, 1, 0, [SENTINEL] + e, 0), Fresh(2, 1, -1, [SENTINEL] + e, 0))
  {
    ss, acts, e := Collect(MAX_BATCH);
    var l := [SENTINEL] + e;
    var a, b, c := Leader0(l), Fresh(1, 1, 0, [SENTINEL], -1), Fresh(2, 0, -1, [SENTINEL], -1);
    ss, acts := GoShip(ss, acts, a, b, c, 0, 1);
    FirstBatch(l, e, 1, 1, 0);
    b := Fresh(1, 1, 0, l, 0);
    ss, acts := GoShip(ss, acts, a, b, c, 0, 2);
    FirstBatch(l, e, 2, 0, -1);
    c := Fresh(2, 1, -1, l, 0);
    ss, acts := GoSubmit(ss, acts, a, b, c, STRAY);
    SubmitAlone(l, STRAY);
  }

  /** A vote that is granted: the voter and the candidate afterwards. */
  lemma Granted(voter: Node, candidate: Node, v: VoteArgs)
    requires voter.Wf() && candidate.Wf() && candidate.size == 3 && candidate.role == Candidate
    requires v == VoteArgs(candidate.currentTerm, candidate.id, |candidate.log| - 1, candidate.LastTerm())
    requires v.term > voter.currentTerm && CandidateLogOk(voter, v) && candidate.votesReceived == 1
    requires candidate.commitIndex == 0 && candidate.id < 3
    ensures var y := OnRequestVote(voter, v);
            && y.0 == voter.(role := Follower, currentTerm := v.term, votedFor := v.candidateId, leaderHint := -1)
            && OnVoteReply(candidate, v, y.1)
               == candidate.(role := Leader, leaderHint := candidate.id, votesReceived := 2,
                             log := candidate.log + [NoOp(candidate.currentTerm)],
                             nextIndex := [|candidate.log|, |candidate.log|, |candidate.log|],
                             matchIndex := [0, 0, 0][candidate.id := |candidate.log|])
  {
    ElectedAlone(candidate.(votesReceived := 2));
  }

  function Leader1(e: Log): Node
  {
    Node(1, 3, Leader, 2, 1, Log1(e), 0, 0, 1, 2, [|e| + 1, |e| + 1, |e| + 1], [0, |e| + 1, 0])
  }

  /** Node 1 leads term 2 and gives node 2 its first entry. */
  lemma ThirdStage() returns (ss: seq<State>, acts: seq<Action>, e: Log)
    ensures Shared(e)
    ensures At(ss, acts, Leader0(Log0(e)), Leader1(e), Fresh(2, 2, 1, Log1(e), 1))
  {
    ss, acts, e := SecondStage();
    var l := [SENTINEL] + e;
    var a, b, c := Leader0(Log0(e)), Fresh(1, 1, 0, l, 0), Fresh(2, 1, -1, l, 0);
    var v: VoteArgs;
    ss, acts, v := GoStand(ss, acts, a, b, c, 1, 2);
    b := b.(role := Candidate, currentTerm := 2, votedFor := 1, leaderHint := -1, votesReceived := 1);
    ss, acts := GoVote(ss, acts, a, b, c, 1, 2, v);
    Granted(c, b, v);
    assert [0, 0, 0][1 := |l|] == [0, |e| + 1, 0];
    b := Leader1(e);
    c := Fresh(2, 2, 1, l, -1);
    ss, acts := GoShip(ss, acts, a, b, c, 1, 2);
    OneEntry(b, c, 2, l, NoOp(2));
  }

  /** A follower whose log l is the leader's without the last entry x takes over x. */
  lemma OneEntry(leader: Node, follower: Node, p: nat, l: Log, x: LogEntry)
    requires leader.Wf() && follower.Wf() && p < leader.size && leader.role == Leader && |l| >= 1
    requires leader.log == l + [x] && leader.nextIndex[p] == |l| && follower.log == l
    requires follower.currentTerm == leader.currentTerm && follower.role == Follower
    requires follower.commitIndex == 0 && leader.commitIndex == 0
    ensures var r := BuildAppend(leader, p);
            && r.prevLogIndex == |l| - 1 && r.entries == [x] && r.leaderCommit == 0
            && OnAppendEntries(follower, r).0 == follower.(log := l + [x], leaderHint := leader.id)
            && OnAppendEntries(follower, r).1 == AppendReply(leader.currentTerm, true, 0)
  {
    var r := BuildAppend(leader, p);
    assert leader.log[|l|..|l| + 1] == [x];
    assert FirstNew(l, |l| - 1, [x], 0) == 0;
    assert l[..|l|] + [x][0..] == l + [x];
  }

  function Leader2(e: Log, c: nat, next: nat): Node
  {
    Node(2, 3, Leader, 3, 2, Log2(e), c, 0, 2, 2, [next, |e| + 2, |e| + 2], [0, 0, |e| + 2])
  }

  function Follower1(e: Log): Node
  {
    Node(1, 3, Follower, 3, 2, Log1(e), 0, 0, -1, 2, [|e| + 1, |e| + 1, |e| + 1], [0, |e| + 1, 0])
  }

  /** Node 2 leads term 3 on the log of node 1. */
  lemma FourthStage() returns (ss: seq<State>, acts: seq<Action>, e: Log)
    ensures Shared(e)
    ensures At(ss, acts, Leader0(Log0(e)), Follower1(e), Leader2(e, 0, |e| + 2))
  {
    ss, acts, e := ThirdStage();
    var a, b, c := Leader0(Log0(e)), Leader1(e), Fresh(2, 2, 1, Log1(e), 1);
    var v: VoteArgs;
    ss, acts, v := GoStand(ss, acts, a, b, c, 2, 1);
    c := c.(role := Candidate, currentTerm := 3, votedFor := 2, leaderHint := -1, votesReceived := 1);
    ss, acts := GoVote(ss, acts, a, b, c, 2, 1, v);
    Granted(b, c, v);
    assert [0, 0, 0][2 := |Log1(e)|] == [0, 0, |e| + 2];
  }

  /** Node 2 after node 1 has acknowledged everything: its log is committed to the end. */
  function Committed2(e: Log, next: nat): Node
  {
    Node(2, 3, Leader, 3, 2, Log2(e), |e| + 2, 0, 2, 2, [next, |e| + 3, |e| + 2], [0, |e| + 2, |e| + 2])
  }

  lemma TwoReplicas(e: Log)
    ensures |Replicas([0, |e| + 2, |e| + 2], |e| + 2)| == 2
  {
    assert Replicas([0, |e| + 2, |e| + 2], |e| + 2) == {1, 2};
  }

  lemma CommitsAll(e: Log)
    ensures var m := Leader2(e, 0, |e| + 2);
            var r := BuildAppend(m, 1);
            r.prevLogIndex + |r.entries| == |e| + 2 ==>
            OnAppendReply(m, 1, r, AppendReply(3, true, 0)) == Committed2(e, |e| + 2)
  {
    var m := Leader2(e, 0, |e| + 2);
    var m' := m.(matchIndex := [0, |e| + 2, |e| + 2], nextIndex := [|e| + 2, |e| + 3, |e| + 2]);
    TwoReplicas(e);
    assert ScanCommit(m', |e| + 2) == |e| + 2;
    assert [0, 0, |e| + 2][1 := |e| + 2] == [0, |e| + 2, |e| + 2];
    assert [|e| + 2, |e| + 2, |e| + 2][1 := |e| + 3] == [|e| + 2, |e| + 3, |e| + 2];
  }

  lemma FifthStage() returns (ss: seq<State>, acts: seq<Action>, e: Log, b: Node)
    ensures Shared(e)
    ensures At(ss, acts, Leader0(Log0(e)), b, Committed2(e, |e| + 2)) && b.Wf()
  {
    ss, acts, e := FourthStage();
    var a, c := Leader0(Log0(e)), Leader2(e, 0, |e| + 2);
    b := Follower1(e);
    ss, acts := GoExchange(ss, acts, a, b, c, 2, 1);
    OneEntry(c, b, 1, Log1(e), NoOp(3));
    CommitsAll(e);
    b := b.(log := Log2(e), leaderHint := 2);
  }

  /** Node 0, turned into a follower of term 3. */
  function Follower0(e: Log, c: nat): Node
  {
    Node(0, 3, Follower, 3, -1, Log0(e), c, 0, 2, 2, [1, 1, 1], [|e| + 1, 0, 0])
  }

  lemma {:induction false} ConflictGoesToOne(e: Log, k: nat)
    requires Shared(e) && 1 <= k <= |e| + 1
    ensures ConflictStart(Log0(e), k) == 1
  {
    var l := Log0(e);
    assert forall x :: 1 <= x <= |e| + 1 ==> l[x].term == 1;
    if k > 1 { ConflictGoesToOne(e, k - 1); }
  }

  /** Node 0 turns node 2 back to index 1. */
  lemma TurnedBack(e: Log)
    requires Shared(e)
    ensures var r := BuildAppend(Committed2(e, |e| + 2), 0);
            && OnAppendEntries(Leader0(Log0(e)), r) == (Follower0(e, 0), AppendReply(3, false, 1))
            && OnAppendReply(Committed2(e, |e| + 2), 0, r, AppendReply(3, false, 1)) == Committed2(e, 1)
  {
    var r := BuildAppend(Committed2(e, |e| + 2), 0);
    assert r.prevLogIndex == |e| + 1 && r.prevLogTerm == 2;
    ConflictGoesToOne(e, |e| + 1);
    assert [|e| + 2, |e| + 3, |e| + 2][0 := 1] == [1, |e| + 3, |e| + 2];
  }

  lemma {:induction false} AllMatch(e: Log, j: nat)
    requires Shared(e) && j <= |e|
    ensures FirstNew(Log0(e), 0, e, j) == |e|
    decreases |e| - j
  {
    if j < |e| { AllMatch(e, j + 1); }
  }

  /** The batch that matches, and the commit index that does not. */
  lemma Overshoots(e: Log)
    requires Shared(e)
    ensures OnAppendEntries(Follower0(e, 0), BuildAppend(Committed2(e, 1), 0)).0 == Follower0(e, |e| + 1)
  {
    var r := BuildAppend(Committed2(e, 1), 0);
    assert Log2(e)[1..101] == e;
    assert r.entries == e && r.prevLogIndex == 0 && r.prevLogTerm == 0 && r.leaderCommit == |e| + 2;
    AllMatch(e, 0);
  }

  /** Both commit indexes reach index 101, where the logs differ. */
  lemma SixthStage() returns (ss: seq<State>, acts: seq<Action>, e: Log, b: Node)
    ensures Shared(e)
    ensures At(ss, acts, Follower0(e, |e| + 1), b, Committed2(e, 1))
  {
    ss, acts, e, b := FifthStage();
    ss, acts := GoExchange(ss, acts, Leader0(Log0(e)), b, Committed2(e, |e| + 2), 2, 0);
    TurnedBack(e);
    ss, acts := GoShip(ss, acts, Follower0(e, 0), b, Committed2(e, 1), 2, 0);
    Overshoots(e);
  }

  // ----- applying -----

  /** Node i applies one more entry; nothing but its server and its count changes. */
  lemma GoApply(ss: seq<State>, acts: seq<Action>, a: Node, b: Node, c: Node, i: nat)
    returns (ss': seq<State>, acts': seq<Action>)
    requires At(ss, acts, a, b, c) && i < 3
    requires var m := [a, b, c][i]; m.lastApplied < m.commitIndex < |m.log|
    ensures Extends(ss, acts, ss', acts')
    ensures var m := [a, b, c][i].(lastApplied := [a, b, c][i].lastApplied + 1);
            At(ss', acts', if i == 0 then m else a, if i == 1 then m else b, if i == 2 then m else c)
    ensures var k, m := |acts|, [a, b, c][i];
            && |acts'| == k + 4 && acts'[k + 1] == StoreFetched(i)
            && i < |ss'[k + 1].servers|
            && ss'[k + 1].servers[i].applier == Fetched(m.lastApplied + 1, m.log[m.lastApplied + 1])
  {
    var ss1, acts1 := Go(ss, acts, Fetch(i));
    var ss2, acts2 := Go(ss1, acts1, StoreFetched(i));
    var ss3, acts3 := Go(ss2, acts2, Notify(i));
    ss', acts' := Go(ss3, acts3, Finish(i));
    assert ss'[|acts| + 1] == End(ss1);
  }

  lemma {:induction false} GoApplyTo(ss: seq<State>, acts: seq<Action>, a: Node, b: Node, c: Node, i: nat, n: nat)
    returns (ss': seq<State>, acts': seq<Action>)
    requires At(ss, acts, a, b, c) && i < 3
    requires var m := [a, b, c][i]; m.lastApplied <= n <= m.commitIndex < |m.log|
    ensures Extends(ss, acts, ss', acts')
    ensures var m := [a, b, c][i].(lastApplied := n);
            At(ss', acts', if i == 0 then m else a, if i == 1 then m else b, if i == 2 then m else c)
    decreases n - [a, b, c][i].lastApplied
  {
    var m := [a, b, c][i];
    if m.lastApplied == n {
      ss', acts' := ss, acts;
    } else {
      var ss1, acts1 := GoApply(ss, acts, a, b, c, i);
      var m1 := m.(lastApplied := m.lastApplied + 1);
      ss', acts' := GoApplyTo(ss1, acts1, if i == 0 then m1 else a, if i == 1 then m1 else b,
                              if i == 2 then m1 else c, i, n);
    }
  }

  /** State machine safety fails in some run of three nodes. */
  lemma StateMachineSafetyCanFail() returns (ss: seq<State>, acts: seq<Action>, j: nat, k: nat)
    ensures IsRun(3, ss, acts) && AppliesDifferently(ss, acts, j, 2, k, 0)
  {
    var e: Log, b: Node;
    ss, acts, e, b := SixthStage();
    var a, c := Follower0(e, |e| + 1), Committed2(e, 1);
    ss, acts := GoApplyTo(ss, acts, a, b, c, 2, |e|);
    c := c.(lastApplied := |e|);
    j := |acts| + 1;
    ss, acts := GoApply(ss, acts, a, b, c, 2);
    c := c.(lastApplied := |e| + 1);
    var ss1, acts1 := ss, acts;
    ss, acts := GoApplyTo(ss, acts, a, b, c, 0, |e|);
    a := a.(lastApplied := |e|);
    k := |acts| + 1;
    var ss2, acts2 := ss, acts;
    ss, acts := GoApply(ss, acts, a, b, c, 0);
    assert ss1[j] == ss2[j] == ss[j] && acts1[j] == acts2[j] == acts[j];
    assert Log2(e)[|e| + 1] == NoOp(2) && Log0(e)[|e| + 1].term == 1;
  }

  /** The same run breaks the condition of CommitRule. */
  lemma CommitsCanDisagree() returns (ss: seq<State>, acts: seq<Action>)
    ensures IsRun(3, ss, acts) && !CommitsAgree(ss) && !TermMatchedRun(ss, acts)
  {
    var e: Log, b: Node;
    ss, acts, e, b := SixthStage();
    var k := |ss| - 1;
    var m, m' := ss[k].nodes[0], ss[k].nodes[2];
    assert m.log[|e| + 1].term == 1 && m'.log[|e| + 1].term == 2;
    if LogsAgree(m, m') {
      AgreeBelow(m.log, m'.log, |e| + 1, |e| + 1);
    }
    assert !CommitsAgree(ss);
    CommitRuleExact(3, ss, acts);
  }
}
