/**
 * The RaftNode object of src/raft.cpp: its fields, its mutex-held regions as methods, and its
 * storage. Every method is proved to compute the function of module Node that the protocol proofs
 * are about, to leave storage and memory holding the same term, vote and log, and to have made
 * exactly the durable writes that the crash model of the cluster lets fail part way.
 */
module RaftNode {
  import opened Types
  import opened Codec
  import opened Messages
  import opened N = Node
  import opened Wal
  import opened Disk
  import opened St = Storage

  datatype SubmitResult = SubmitResult(accepted: bool, leaderHint: int, index: nat, term: nat)

  class RaftNode {
    const id: nat
    const clusterSize: nat
    const storage: Storage

    var role: Role
    var currentTerm: nat
    var votedFor: int
    var log: Log
    var commitIndex: nat
    var lastApplied: nat
    var leaderHint: int
    var votesReceived: nat
    var nextIndex: seq<nat>
    var matchIndex: seq<nat>

    ghost function Abs(): N.Node
      reads this
    {
      N.Node(id, clusterSize, role, currentTerm, votedFor, log, commitIndex, lastApplied, leaderHint,
           votesReceived, nextIndex, matchIndex)
    }

    /** Well formed, and nothing in term, vote or log is ahead of or behind the files. */
    ghost predicate Valid()
      reads this, storage
    {
      && Abs().Wf()
      && storage.Valid()
      && storage.State() == DurableOf(Abs())
    }

    constructor (id: nat, clusterSize: nat, storage: Storage)
      requires id < clusterSize <= MAX_NODES && storage.Valid()
      ensures Valid() && this.storage == storage
      ensures Abs() == Restarted(id, clusterSize, storage.State())
    {
      hide St.Storage.Valid;
      this.id, this.clusterSize, this.storage := id, clusterSize, storage;
      role, commitIndex, lastApplied, leaderHint, votesReceived := Follower, 0, 0, -1, 0;
      nextIndex, matchIndex := seq(clusterSize, i => 1), seq(clusterSize, i => 0);
      currentTerm, votedFor := storage.currentTerm, storage.votedFor;
      log := [SENTINEL];
      new;
      var k := 0;
      while k < |storage.entries|
        invariant k <= |storage.entries|
        invariant this.log == [SENTINEL] + storage.entries[..k]
        invariant Abs().(log := []) == Restarted(id, clusterSize, storage.State()).(log := [])
        invariant storage.Valid() && this.storage == storage && storage.State() == old(storage.State())
        modifies this
      {
        this.log := this.log + [storage.entries[k]];
        k := k + 1;
      }
      assert this.log == [SENTINEL] + storage.entries;
    }

    method BecomeFollower(term: nat)
      requires Valid() && term < U64
      modifies this, storage
      ensures Valid() && Abs() == N.BecomeFollower(old(Abs()), term)
      ensures storage.journal == old(storage.journal) + CatchUpWrites(old(Abs()), term)
    {
      hide St.Storage.Valid, Describes, OffsetsOf, Written;
      if term > currentTerm {
        currentTerm, votedFor := term, -1;
        storage.SaveMeta(currentTerm, votedFor);
        leaderHint := -1;
      }
      role := Follower;
    }

    /** The ticker's step once the election deadline has passed. */
    method Tick()
      requires Valid() && currentTerm + 1 < U64
      modifies this, storage
      ensures Valid() && Abs() == Perform(old(Abs()), Timeout)
      ensures storage.journal == old(storage.journal) + Writes(old(Abs()), Timeout)
    {
      hide St.Storage.Valid, Describes, OffsetsOf, Written;
      if role != Leader { StartElection(); }
    }

    method StartElection()
      requires Valid() && role != Leader && currentTerm + 1 < U64
      modifies this, storage
      ensures Valid() && Abs() == N.StartElection(old(Abs()))
      ensures storage.journal == old(storage.journal) + Writes(old(Abs()), Timeout)
    {
      hide St.Storage.Valid, Describes, OffsetsOf, Written;
      role := Candidate;
      currentTerm := currentTerm + 1;
      votedFor := Signed32(id);
      storage.SaveMeta(currentTerm, votedFor);
      leaderHint := -1;
      votesReceived := 1;
      if votesReceived >= clusterSize / 2 + 1 { BecomeLeader(); }
    }

    method BecomeLeader()
      requires Valid()
      modifies this, storage
      ensures Valid() && Abs() == N.BecomeLeader(old(Abs()))
      ensures storage.journal == old(storage.journal) + [AppendEntry(NoOp(old(currentTerm)))]
    {
      hide St.Storage.Valid, Describes, OffsetsOf, Written;
      role := Leader;
      leaderHint := Signed32(id);
      var last := |log|;
      nextIndex := seq(clusterSize, i => last);
      matchIndex := seq(clusterSize, i => 0);
      var noop := LogEntry(currentTerm, []);
      Persist(noop);
      matchIndex := matchIndex[id := |log| - 1];
      AdvanceCommit();
    }

    /** Appending to memory and to storage, as every caller does it. */
    method Persist(e: LogEntry)
      requires Valid()
      modifies this`log, storage
      ensures Valid() && log == old(log) + [e]
      ensures storage.journal == old(storage.journal) + [AppendEntry(e)]
    {
      hide St.Storage.Valid, Describes, OffsetsOf, Written;
      assert (log + [e])[1..] == log[1..] + [e];
      log := log + [e];
      storage.Append(e);
    }

    method CountReplicas(n: nat) returns (replicas: nat)
      requires |matchIndex| == clusterSize
      ensures replicas == |Replicas(matchIndex, n)|
    {
      replicas := 0;
      var p := 0;
      while p < clusterSize
        invariant p <= clusterSize && replicas == |Replicas(matchIndex[..p], n)|
      {
        ReplicasStep(matchIndex, n, p);
        if matchIndex[p] >= n { replicas := replicas + 1; }
        p := p + 1;
      }
      assert matchIndex[..p] == matchIndex;
    }

    method AdvanceCommit()
      requires Valid()
      modifies this`commitIndex
      ensures Valid() && Abs() == N.AdvanceCommit(old(Abs()))
    {
      hide St.Storage.Valid, Replicas;
      if role != Leader { return; }
      var n := |log| - 1;
      while n > commitIndex
        invariant 0 <= n < |log| && Abs() == old(Abs())
        invariant ScanCommit(Abs(), |log| - 1) == ScanCommit(Abs(), n)
      {
        if log[n].term != currentTerm { return; }
        var replicas := CountReplicas(n);
        if replicas >= clusterSize / 2 + 1 {
          commitIndex := n;
          return;
        }
        n := n - 1;
      }
    }

    method Submit(command: Bytes) returns (r: SubmitResult)
      requires Valid()
      modifies this, storage
      ensures Valid() && Abs() == N.Submit(old(Abs()), command)
      ensures storage.journal == old(storage.journal) + Writes(old(Abs()), SubmitCommand(command))
      ensures r == if old(role) != Leader then SubmitResult(false, leaderHint, 0, 0)
                   else SubmitResult(true, Signed32(id), |log| - 1, currentTerm)
    {
      hide St.Storage.Valid, Describes, OffsetsOf, Written;
      if role != Leader { return SubmitResult(false, leaderHint, 0, 0); }
      Persist(LogEntry(currentTerm, command));
      matchIndex := matchIndex[id := |log| - 1];
      AdvanceCommit();
      r := SubmitResult(true, Signed32(id), |log| - 1, currentTerm);
    }

    method OnRequestVote(a: VoteArgs) returns (reply: VoteReply)
      requires Valid() && a.term < U64
      modifies this, storage
      ensures Valid() && (Abs(), reply) == N.OnRequestVote(old(Abs()), a)
      ensures storage.journal == old(storage.journal) + Writes(old(Abs()), HandleVote(a))
    {
      hide St.Storage.Valid, Describes, OffsetsOf, Written;
      reply := VoteReply(currentTerm, false);
      if a.term < currentTerm { return; }
      if a.term > currentTerm { BecomeFollower(a.term); }
      reply := VoteReply(currentTerm, false);
      var lastTerm, lastIndex := log[|log| - 1].term, |log| - 1;
      var logOk := a.lastLogTerm > lastTerm || (a.lastLogTerm == lastTerm && a.lastLogIndex >= lastIndex);
      var canVote := votedFor == -1 || votedFor == Signed32(a.candidateId);
      if logOk && canVote {
        votedFor := Signed32(a.candidateId);
        storage.SaveMeta(currentTerm, votedFor);
        reply := VoteReply(currentTerm, true);
      }
    }

    /** The region of startElection's reply closure. */
    method OnVoteReply(peer: nat, a: VoteArgs, r: VoteReply)
      requires Valid() && r.term < U64
      modifies this, storage
      ensures Valid() && Abs() == N.OnVoteReply(old(Abs()), a, r)
      ensures storage.journal == old(storage.journal) + Writes(old(Abs()), VoteReplied(peer, a, r))
    {
      hide St.Storage.Valid, Describes, OffsetsOf, Written;
      if r.term > currentTerm {
        BecomeFollower(r.term);
        return;
      }
      if role != Candidate || currentTerm != a.term || !r.voteGranted { return; }
      votesReceived := votesReceived + 1;
      if votesReceived >= clusterSize / 2 + 1 { BecomeLeader(); }
    }

    method FindConflict(k: nat) returns (ci: nat)
      requires k < |log|
      ensures ci == ConflictStart(log, k)
    {
      var conflictTerm := log[k].term;
      ci := k;
      while ci > 1 && log[ci - 1].term == conflictTerm
        invariant ci <= k && log[ci].term == conflictTerm && ConflictStart(log, ci) == ConflictStart(log, k)
      {
        ci := ci - 1;
      }
    }

    /** The first loop over the entries: skip what is held, cut at the first divergence. */
    method SkipHeld(prev: nat, entries: Log) returns (i: nat)
      requires Valid() && prev < |log|
      modifies this`log, storage
      ensures Valid() && i == FirstNew(old(log), prev, entries, 0)
      ensures i < |entries| ==> prev + 1 + i <= |old(log)|
      ensures log == if i == |entries| then old(log) else old(log)[..prev + 1 + i]
      ensures storage.journal == old(storage.journal)
              + if i < |entries| && prev + 1 + i < |old(log)| then [TruncateFrom(prev + 1 + i)] else []
    {
      hide St.Storage.Valid, Describes, OffsetsOf, Written;
      i := 0;
      while i < |entries|
        invariant i <= |entries| && (i > 0 ==> prev + i < |log|)
        invariant FirstNew(log, prev, entries, 0) == FirstNew(log, prev, entries, i)
        invariant Valid() && Abs() == old(Abs()) && storage.journal == old(storage.journal)
      {
        var pos := prev + 1 + i;
        if pos > |log| - 1 {
          assert log[..pos] == log;
          return;
        }
        if log[pos].term != entries[i].term {
          assert log[1..][..pos - 1] == log[..pos][1..];
          storage.TruncateFrom(pos);
          log := log[..pos];
          return;
        }
        i := i + 1;
      }
    }

    /** The second loop: append the rest one by one. */
    method AppendRest(entries: Log, first: nat)
      requires Valid() && first <= |entries|
      modifies this`log, storage
      ensures Valid() && log == old(log) + entries[first..]
      ensures storage.journal == old(storage.journal) + AppendWrites(entries[first..])
    {
      hide St.Storage.Valid, Describes, OffsetsOf, Written;
      var i := first;
      while i < |entries|
        invariant first <= i <= |entries|
        invariant Valid() && log == old(log) + entries[first..i]
        invariant storage.journal == old(storage.journal) + AppendWrites(entries[first..i])
      {
        Persist(entries[i]);
        assert entries[first..i + 1] == entries[first..i] + [entries[i]];
        AppendWritesStep(entries[first..i], entries[i]);
        i := i + 1;
      }
      assert entries[first..i] == entries[first..];
    }

    method MergeEntries(prev: nat, entries: Log)
      requires Valid() && prev < |log|
      modifies this`log, storage
      ensures Valid() && log == Merge(old(log), prev, entries)
      ensures storage.journal == old(storage.journal) + MergeWrites(old(log), prev, entries)
    {
      hide St.Storage.Valid, St.Storage.State, FirstNew, AppendWrites, Merge, MergeWrites;
      MergeParts(log, prev, entries);
      var i := SkipHeld(prev, entries);
      AppendRest(entries, i);
    }

    method OnAppendEntries(a: AppendArgs) returns (reply: AppendReply)
      requires Valid() && a.term < U64
      modifies this, storage
      ensures Valid() && (Abs(), reply) == N.OnAppendEntries(old(Abs()), a)
      ensures storage.journal == old(storage.journal) + Writes(old(Abs()), HandleAppend(a))
    {
      hide St.Storage.Valid, Merge, MergeWrites, ConflictStart;
      reply := AppendReply(currentTerm, false, 0);
      if a.term < currentTerm { return; }
      if a.term > currentTerm || role != Follower { BecomeFollower(a.term); }
      reply := AppendReply(currentTerm, false, 0);
      leaderHint := Signed32(a.leaderId);
      if a.prevLogIndex > |log| - 1 {
        return AppendReply(currentTerm, false, |log|);
      }
      if log[a.prevLogIndex].term != a.prevLogTerm {
        var ci := FindConflict(a.prevLogIndex);
        return AppendReply(currentTerm, false, ci);
      }
      MergeEntries(a.prevLogIndex, a.entries);
      if a.leaderCommit > commitIndex {
        commitIndex := Min(a.leaderCommit, |log| - 1);
      }
      reply := AppendReply(currentTerm, true, 0);
    }

    /** The request the replicator of a peer builds under the lock. */
    method BuildAppend(peer: nat) returns (a: AppendArgs)
      requires Valid() && peer < clusterSize && 1 <= nextIndex[peer] <= |log|
      ensures a == N.BuildAppend(Abs(), peer)
      ensures a.term == currentTerm && a.leaderId == id && a.leaderCommit == commitIndex
      ensures a.prevLogIndex == nextIndex[peer] - 1 && a.prevLogTerm == log[nextIndex[peer] - 1].term
      ensures a.entries <= log[nextIndex[peer]..]
      ensures |a.entries| == 100 || (|a.entries| < 100 && a.entries == log[nextIndex[peer]..])
    {
      hide St.Storage.Valid, St.Storage.State;
      var next := nextIndex[peer];
      var entries: Log := [];
      var i := next;
      while i <= |log| - 1 && i - next < MAX_BATCH
        invariant next <= i <= Min(next + MAX_BATCH, |log|) && entries == log[next..i]
      {
        entries := entries + [log[i]];
        i := i + 1;
      }
      a := AppendArgs(currentTerm, id, next - 1, log[next - 1].term, commitIndex, entries);
    }

    /** The region of the replicator after its call returned. */
    method OnAppendReply(peer: nat, a: AppendArgs, r: AppendReply)
      requires Valid() && peer < clusterSize && r.term < U64
      modifies this, storage
      ensures Valid() && Abs() == N.OnAppendReply(old(Abs()), peer, a, r)
      ensures storage.journal == old(storage.journal) + Writes(old(Abs()), AppendReplied(peer, a, r))
    {
      hide St.Storage.Valid, Describes, OffsetsOf, Written;
      if role != Leader || currentTerm != a.term { return; }
      if r.term > currentTerm {
        BecomeFollower(r.term);
        return;
      }
      if r.term == currentTerm {
        if r.success {
          var newMatch := a.prevLogIndex + |a.entries|;
          matchIndex := matchIndex[peer := Max(matchIndex[peer], newMatch)];
          nextIndex := nextIndex[peer := matchIndex[peer] + 1];
          AdvanceCommit();
        } else {
          var hint := Max(r.conflictIndex, 1);
          nextIndex := nextIndex[peer := Min(hint, |log|)];
        }
      }
    }
  }

  lemma ReplicasStep(m: seq<nat>, n: nat, p: nat)
    requires p < |m|
    ensures |Replicas(m[..p + 1], n)| == |Replicas(m[..p], n)| + if m[p] >= n then 1 else 0
  {
    var before, after := Replicas(m[..p], n), Replicas(m[..p + 1], n);
    assert p !in before;
    assert after == before + if m[p] >= n then {p} else {};
  }

  /** A merge is a cut and a concatenation, in the log and in the writes. */
  lemma MergeParts(log: Log, prev: nat, entries: Log)
    requires prev < |log|
    ensures var i := FirstNew(log, prev, entries, 0);
            var pos := prev + 1 + i;
            && (i < |entries| ==> pos <= |log|)
            && Merge(log, prev, entries) == (if i == |entries| then log else log[..pos]) + entries[i..]
            && MergeWrites(log, prev, entries)
               == (if i < |entries| && pos < |log| then [TruncateFrom(pos)] else []) + AppendWrites(entries[i..])
  {
    hide FirstNew, AppendWrites;
  }

  lemma AppendWritesStep(es: Log, e: LogEntry)
    ensures AppendWrites(es + [e]) == AppendWrites(es) + [AppendEntry(e)]
  {
  }
}
