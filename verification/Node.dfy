/**
 * One Raft node as a value, and what each mutex-held region of src/raft.cpp does to it.
 * The imperative class in RaftNode.dfy is proved to compute these functions.
 */
module Node {
  import opened Types
  import opened Messages

  /** Cap on the entries of one AppendEntries call. */
  const MAX_BATCH: nat := 100

  /** Ids up to here survive the cast to the signed 32-bit numbers that votes and hints are kept in. */
  const MAX_NODES: nat := 0x8000_0000

  /** The cast: the low 32 bits as a signed number. */
  function Signed32(id: nat): (r: int)
    ensures -0x8000_0000 <= r < 0x8000_0000
    ensures id < MAX_NODES ==> r == id
    ensures (id - r) % 0x1_0000_0000 == 0
  {
    var low := id % 0x1_0000_0000;
    if low >= 0x8000_0000 then low - 0x1_0000_0000 else low
  }

  datatype Node = Node(
    id: nat,
    size: nat,
    role: Role,
    currentTerm: nat,
    votedFor: int,
    log: Log,
    commitIndex: nat,
    lastApplied: nat,
    leaderHint: int,
    votesReceived: nat,
    nextIndex: seq<nat>,
    matchIndex: seq<nat>)
  {
    function LastIndex(): int { |log| - 1 }

    function LastTerm(): nat
      requires |log| >= 1
    {
      log[|log| - 1].term
    }

    function MajoritySize(): nat { size / 2 + 1 }

    /** The shape the constructor establishes and every handler keeps. */
    predicate Wf()
    {
      && id < size <= MAX_NODES
      && |log| >= 1
      && log[0] == SENTINEL
      && |nextIndex| == size
      && |matchIndex| == size
    }
  }

  // ----- persistent state -----

  /** What the meta file and the write-ahead log hold. */
  datatype Durable = Durable(term: nat, vote: int, entries: Log)

  datatype Write = SaveMeta(term: nat, vote: int) | AppendEntry(entry: LogEntry) | TruncateFrom(index: nat)

  function ApplyWrite(d: Durable, w: Write): Durable
  {
    match w
    case SaveMeta(t, v) => d.(term := t, vote := v)
    case AppendEntry(e) => d.(entries := d.entries + [e])
    case TruncateFrom(k) => if k < 1 || k > |d.entries| then d else d.(entries := d.entries[..k - 1])
  }

  function ApplyWrites(d: Durable, ws: seq<Write>): Durable
  {
    if ws == [] then d else ApplyWrite(ApplyWrites(d, ws[..|ws| - 1]), ws[|ws| - 1])
  }

  function DurableOf(s: Node): Durable
    requires |s.log| >= 1
  {
    Durable(s.currentTerm, s.votedFor, s.log[1..])
  }

  /** The constructor: volatile state starts over, the rest is read back. */
  function Restarted(id: nat, size: nat, d: Durable): Node
  {
    Node(id, size, Follower, d.term, d.vote, [SENTINEL] + d.entries, 0, 0, -1, 0,
         seq(size, i => 1), seq(size, i => 0))
  }

  // ----- role changes -----

  function BecomeFollower(s: Node, t: nat): Node
  {
    var s' := if t > s.currentTerm
              then s.(currentTerm := t, votedFor := -1, leaderHint := -1)
              else s;
    s'.(role := Follower)
  }

  function NoOp(t: nat): LogEntry { LogEntry(t, []) }

  function BecomeLeader(s: Node): Node
    requires s.Wf()
  {
    var l := s.log + [NoOp(s.currentTerm)];
    AdvanceCommit(s.(role := Leader,
                     leaderHint := Signed32(s.id),
                     nextIndex := seq(s.size, i => |s.log|),
                     matchIndex := seq(s.size, i => 0)[s.id := |s.log|],
                     log := l))
  }

  /** The peers recorded as holding the leader's log through index n. */
  function Replicas(m: seq<nat>, n: nat): set<nat>
  {
    set p: nat | p < |m| && m[p] >= n
  }

  /** The downward scan of advanceCommit, from index n. */
  function ScanCommit(s: Node, n: nat): (r: nat)
    requires n < |s.log|
  {
    if n <= s.commitIndex then s.commitIndex
    else if s.log[n].term != s.currentTerm then s.commitIndex
    else if |Replicas(s.matchIndex, n)| >= s.MajoritySize() then n
    else ScanCommit(s, n - 1)
  }

  function AdvanceCommit(s: Node): Node
    requires |s.log| >= 1
  {
    if s.role != Leader then s else s.(commitIndex := ScanCommit(s, |s.log| - 1))
  }

  function StartElection(s: Node): Node
    requires s.Wf()
  {
    var s' := s.(role := Candidate, currentTerm := s.currentTerm + 1, votedFor := Signed32(s.id),
                 leaderHint := -1, votesReceived := 1);
    if 1 >= s.MajoritySize() then BecomeLeader(s') else s'
  }

  // ----- handlers -----

  function Submit(s: Node, command: Bytes): Node
    requires s.Wf()
  {
    if s.role != Leader then s else
      AdvanceCommit(s.(log := s.log + [LogEntry(s.currentTerm, command)],
                       matchIndex := s.matchIndex[s.id := |s.log|]))
  }

  predicate CandidateLogOk(s: Node, a: VoteArgs)
    requires |s.log| >= 1
  {
    a.lastLogTerm > s.LastTerm() || (a.lastLogTerm == s.LastTerm() && a.lastLogIndex >= s.LastIndex())
  }

  /** The answer once the node's term has caught up with the request's. */
  predicate Grants(s: Node, a: VoteArgs)
    requires |s.log| >= 1
  {
    CandidateLogOk(s, a) && (s.votedFor == -1 || s.votedFor == Signed32(a.candidateId))
  }

  function CatchUp(s: Node, t: nat): Node
  {
    if t > s.currentTerm then BecomeFollower(s, t) else s
  }

  function OnRequestVote(s: Node, a: VoteArgs): (Node, VoteReply)
    requires |s.log| >= 1
  {
    if a.term < s.currentTerm then (s, VoteReply(s.currentTerm, false))
    else
      var s' := CatchUp(s, a.term);
      if Grants(s', a) then (s'.(votedFor := Signed32(a.candidateId)), VoteReply(s'.currentTerm, true))
      else (s', VoteReply(s'.currentTerm, false))
  }

  function OnVoteReply(s: Node, a: VoteArgs, r: VoteReply): Node
    requires s.Wf()
  {
    if r.term > s.currentTerm then BecomeFollower(s, r.term)
    else if s.role != Candidate || s.currentTerm != a.term || !r.voteGranted then s
    else
      var s' := s.(votesReceived := s.votesReceived + 1);
      if s'.votesReceived >= s.MajoritySize() then BecomeLeader(s') else s'
  }

  /** First position of `entries`, from i on, that the log does not already hold by term. */
  function FirstNew(log: Log, prev: nat, entries: Log, i: nat): (r: nat)
    requires prev < |log| && i <= |entries|
    ensures i <= r <= |entries|
    ensures r > i ==> prev + r < |log|
    decreases |entries| - i
  {
    if i == |entries| || prev + 1 + i >= |log| || log[prev + 1 + i].term != entries[i].term then i
    else FirstNew(log, prev, entries, i + 1)
  }

  /** The log after the two loops of onAppendEntries. */
  function Merge(log: Log, prev: nat, entries: Log): Log
    requires prev < |log|
  {
    var i := FirstNew(log, prev, entries, 0);
    if i == |entries| then log else log[..prev + 1 + i] + entries[i..]
  }

  /** Start of the run of equal terms that ends at index k, never below 1 when k is not. */
  function ConflictStart(log: Log, k: nat): (r: nat)
    requires k < |log|
    ensures r <= k
  {
    if k > 1 && log[k - 1].term == log[k].term then ConflictStart(log, k - 1) else k
  }

  function FollowLeader(s: Node, a: AppendArgs): Node
  {
    var s' := if a.term > s.currentTerm || s.role != Follower then BecomeFollower(s, a.term) else s;
    s'.(leaderHint := Signed32(a.leaderId))
  }

  predicate Accepts(s: Node, a: AppendArgs)
  {
    && a.term >= s.currentTerm
    && a.prevLogIndex < |s.log|
    && s.log[a.prevLogIndex].term == a.prevLogTerm
  }

  /** src/raft.cpp:332-335: clamped to the last index of the log, not to the last index the
      request covers. */
  function FollowerCommit(commitIndex: nat, leaderCommit: nat, log: Log): nat
    requires |log| >= 1
  {
    if leaderCommit > commitIndex then Min(leaderCommit, |log| - 1) else commitIndex
  }

  function OnAppendEntries(s: Node, a: AppendArgs): (Node, AppendReply)
    requires |s.log| >= 1
  {
    if a.term < s.currentTerm then (s, AppendReply(s.currentTerm, false, 0))
    else
      var s' := FollowLeader(s, a);
      if a.prevLogIndex >= |s.log| then (s', AppendReply(a.term, false, |s.log|))
      else if s.log[a.prevLogIndex].term != a.prevLogTerm then
        (s', AppendReply(a.term, false, ConflictStart(s.log, a.prevLogIndex)))
      else
        var l := Merge(s.log, a.prevLogIndex, a.entries);
        (s'.(log := l, commitIndex := FollowerCommit(s.commitIndex, a.leaderCommit, l)),
         AppendReply(a.term, true, 0))
  }

  // ----- replication, leader side -----

  function BuildAppend(s: Node, peer: nat): AppendArgs
    requires peer < |s.nextIndex| && 1 <= s.nextIndex[peer] <= |s.log|
  {
    var next := s.nextIndex[peer];
    AppendArgs(s.currentTerm, s.id, next - 1, s.log[next - 1].term, s.commitIndex,
               s.log[next..Min(next + MAX_BATCH, |s.log|)])
  }

  function OnAppendReply(s: Node, peer: nat, a: AppendArgs, r: AppendReply): Node
    requires |s.log| >= 1 && peer < |s.nextIndex| && peer < |s.matchIndex|
  {
    if s.role != Leader || s.currentTerm != a.term then s
    else if r.term > s.currentTerm then BecomeFollower(s, r.term)
    else if r.term < s.currentTerm then s
    else if r.success then
      var m: nat := Max(s.matchIndex[peer], a.prevLogIndex + |a.entries|);
      AdvanceCommit(s.(matchIndex := s.matchIndex[peer := m], nextIndex := s.nextIndex[peer := m + 1]))
    else
      s.(nextIndex := s.nextIndex[peer := Min(Max(r.conflictIndex, 1), |s.log|)])
  }

  // ----- all local operations, and what each writes to disk -----

  datatype Op =
    | Idle
    | Timeout
    | HandleVote(vargs: VoteArgs)
    | HandleAppend(aargs: AppendArgs)
    | VoteReplied(peer: nat, vargs: VoteArgs, vreply: VoteReply)
    | AppendReplied(peer: nat, aargs: AppendArgs, areply: AppendReply)
    | SubmitCommand(command: Bytes)

  predicate Callable(s: Node, op: Op)
  {
    s.Wf() && (op.AppendReplied? ==> op.peer < s.size)
  }

  function Perform(s: Node, op: Op): Node
    requires Callable(s, op)
  {
    match op
    case Idle => s
    case Timeout => if s.role != Leader then StartElection(s) else s
    case HandleVote(a) => OnRequestVote(s, a).0
    case HandleAppend(a) => OnAppendEntries(s, a).0
    case VoteReplied(p, a, r) => OnVoteReply(s, a, r)
    case AppendReplied(p, a, r) => OnAppendReply(s, p, a, r)
    case SubmitCommand(c) => Submit(s, c)
  }

  function CatchUpWrites(s: Node, t: nat): seq<Write>
  {
    if t > s.currentTerm then [SaveMeta(t, -1)] else []
  }

  function AppendWrites(entries: Log): (ws: seq<Write>)
    ensures |ws| == |entries|
  {
    seq(|entries|, i requires 0 <= i < |entries| => AppendEntry(entries[i]))
  }

  function MergeWrites(log: Log, prev: nat, entries: Log): seq<Write>
    requires prev < |log|
  {
    var i := FirstNew(log, prev, entries, 0);
    (if i < |entries| && prev + 1 + i < |log| then [TruncateFrom(prev + 1 + i)] else [])
    + AppendWrites(entries[i..])
  }

  /** The durable writes of an operation, in order; each is synced before the next. */
  function Writes(s: Node, op: Op): seq<Write>
    requires Callable(s, op)
  {
    match op
    case Idle => []
    case Timeout =>
      if s.role == Leader then []
      else [SaveMeta(s.currentTerm + 1, Signed32(s.id))]
           + if 1 >= s.MajoritySize() then [AppendEntry(NoOp(s.currentTerm + 1))] else []
    case HandleVote(a) =>
      if a.term < s.currentTerm then []
      else CatchUpWrites(s, a.term)
           + if Grants(CatchUp(s, a.term), a) then [SaveMeta(a.term, Signed32(a.candidateId))] else []
    case HandleAppend(a) =>
      if a.term < s.currentTerm then []
      else CatchUpWrites(s, a.term)
           + if Accepts(s, a) then MergeWrites(s.log, a.prevLogIndex, a.entries) else []
    case VoteReplied(p, a, r) =>
      if r.term > s.currentTerm then [SaveMeta(r.term, -1)]
      else if s.role != Candidate || s.currentTerm != a.term || !r.voteGranted then []
      else if s.votesReceived + 1 >= s.MajoritySize() then [AppendEntry(NoOp(s.currentTerm))] else []
    case AppendReplied(p, a, r) =>
      if s.role == Leader && s.currentTerm == a.term && r.term > s.currentTerm
      then [SaveMeta(r.term, -1)] else []
    case SubmitCommand(c) =>
      if s.role == Leader then [AppendEntry(LogEntry(s.currentTerm, c))] else []
  }

  lemma {:induction false} ApplyAfter(d: Durable, a: seq<Write>, b: seq<Write>)
    ensures ApplyWrites(d, a + b) == ApplyWrites(ApplyWrites(d, a), b)
  {
    if b == [] {
      assert a + b == a;
    } else {
      assert (a + b)[..|a + b| - 1] == a + b[..|b| - 1];
      ApplyAfter(d, a, b[..|b| - 1]);
    }
  }

  lemma ApplyOne(d: Durable, w: Write)
    ensures ApplyWrites(d, [w]) == ApplyWrite(d, w)
  {
    assert [w][..0] == [];
  }

  lemma {:induction false} ApplyAppends(d: Durable, entries: Log, j: nat)
    requires j <= |entries|
    ensures ApplyWrites(d, AppendWrites(entries)[..j]) == d.(entries := d.entries + entries[..j])
  {
    if j > 0 {
      var ws := AppendWrites(entries)[..j];
      assert ws[..j - 1] == AppendWrites(entries)[..j - 1];
      ApplyAppends(d, entries, j - 1);
      assert ws[j - 1] == AppendEntry(entries[j - 1]);
      assert d.entries + entries[..j - 1] + [entries[j - 1]] == d.entries + entries[..j];
    } else {
      assert AppendWrites(entries)[..0] == [] && d.entries + entries[..0] == d.entries;
    }
  }

  /** What truncating at pos leaves, as a sequence without the sentinel. */
  lemma TruncatedLog(d: Durable, log: Log, pos: nat)
    requires 1 <= pos < |log| && d.entries == log[1..]
    ensures ApplyWrites(d, [TruncateFrom(pos)]) == d.(entries := log[..pos][1..])
  {
    ApplyOne(d, TruncateFrom(pos));
    assert log[1..][..pos - 1] == log[..pos][1..];
  }

  /** What the first k writes of a merge leave: the log itself for k = 0, and otherwise the part
      in front of the first new position, followed by the first of the new entries. */
  lemma MergeWritesPrefix(d: Durable, log: Log, prev: nat, entries: Log, k: nat) returns (c: nat)
    requires prev < |log| && d.entries == log[1..]
    requires 1 <= k <= |MergeWrites(log, prev, entries)|
    ensures var i := FirstNew(log, prev, entries, 0);
            && i + c <= |entries| && (k == |MergeWrites(log, prev, entries)| ==> i + c == |entries|)
            && i < |entries|
            && ApplyWrites(d, MergeWrites(log, prev, entries)[..k])
               == d.(entries := log[..prev + 1 + i][1..] + entries[i..i + c])
  {
    hide FirstNew, AppendWrites, ApplyWrites;
    var i := FirstNew(log, prev, entries, 0);
    var pos := prev + 1 + i;
    var rest := entries[i..];
    var appends := AppendWrites(rest);
    var ws := MergeWrites(log, prev, entries);
    if pos < |log| {
      c := k - 1;
      assert ws == [TruncateFrom(pos)] + appends;
      assert ws[..k] == [TruncateFrom(pos)] + appends[..c];
      TruncatedLog(d, log, pos);
      ApplyAfter(d, [TruncateFrom(pos)], appends[..c]);
      ApplyAppends(d.(entries := log[..pos][1..]), rest, c);
    } else {
      c := k;
      assert ws == appends;
      assert log[..pos] == log;
      ApplyAppends(d, rest, c);
    }
    assert rest[..c] == entries[i..i + c];
  }

  lemma MergeIsWritten(d: Durable, log: Log, prev: nat, entries: Log)
    requires prev < |log| && d.entries == log[1..]
    ensures ApplyWrites(d, MergeWrites(log, prev, entries)) == d.(entries := Merge(log, prev, entries)[1..])
  {
    hide FirstNew, AppendWrites;
    var i := FirstNew(log, prev, entries, 0);
    var ws := MergeWrites(log, prev, entries);
    if i < |entries| {
      var c := MergeWritesPrefix(d, log, prev, entries, |ws|);
      assert ws[..|ws|] == ws;
      assert (log[..prev + 1 + i] + entries[i..])[1..] == log[..prev + 1 + i][1..] + entries[i..];
    } else {
      assert ws == [];
    }
  }

  lemma AppendIsWritten(s: Node, a: AppendArgs)
    requires s.Wf()
    ensures |OnAppendEntries(s, a).0.log| >= 1
    ensures DurableOf(OnAppendEntries(s, a).0) == ApplyWrites(DurableOf(s), Writes(s, HandleAppend(a)))
  {
    hide FirstNew, Merge, MergeWrites;
    var d := DurableOf(s);
    if a.term >= s.currentTerm {
      ApplyOne(d, SaveMeta(a.term, -1));
      if Accepts(s, a) {
        var d' := ApplyWrites(d, CatchUpWrites(s, a.term));
        ApplyAfter(d, CatchUpWrites(s, a.term), MergeWrites(s.log, a.prevLogIndex, a.entries));
        MergeIsWritten(d', s.log, a.prevLogIndex, a.entries);
        MergeNotEmpty(s.log, a.prevLogIndex, a.entries);
      }
    }
  }

  lemma MergeNotEmpty(log: Log, prev: nat, entries: Log)
    requires prev < |log|
    ensures |Merge(log, prev, entries)| >= 1
  {
    hide FirstNew;
  }

  /** When an operation returns, everything it changed in term, vote and log has been written. */
  lemma PerformIsWritten(s: Node, op: Op)
    requires Callable(s, op)
    ensures DurableOf(Perform(s, op)) == ApplyWrites(DurableOf(s), Writes(s, op))
  {
    hide FirstNew, Merge, MergeWrites, OnAppendEntries;
    var d := DurableOf(s);
    match op {
      case Timeout =>
        ApplyOne(d, SaveMeta(s.currentTerm + 1, Signed32(s.id)));
        ApplyAfter(d, [SaveMeta(s.currentTerm + 1, Signed32(s.id))], [AppendEntry(NoOp(s.currentTerm + 1))]);
        ApplyOne(ApplyWrites(d, [SaveMeta(s.currentTerm + 1, Signed32(s.id))]), AppendEntry(NoOp(s.currentTerm + 1)));
      case HandleVote(a) =>
        if a.term >= s.currentTerm {
          ApplyOne(d, SaveMeta(a.term, -1));
          ApplyAfter(d, CatchUpWrites(s, a.term), [SaveMeta(a.term, Signed32(a.candidateId))]);
          ApplyOne(ApplyWrites(d, CatchUpWrites(s, a.term)), SaveMeta(a.term, Signed32(a.candidateId)));
        }
      case HandleAppend(a) => AppendIsWritten(s, a);
      case VoteReplied(p, a, r) =>
        ApplyOne(d, SaveMeta(r.term, -1));
        ApplyOne(d, AppendEntry(NoOp(s.currentTerm)));
      case AppendReplied(p, a, r) =>
        ApplyOne(d, SaveMeta(r.term, -1));
      case SubmitCommand(c) =>
        ApplyOne(d, AppendEntry(LogEntry(s.currentTerm, c)));
      case Idle =>
    }
  }
}
