/**
 * A cluster whose nodes live on byte files: operations write bytes, a crash leaves any part of what
 * was being written, and a restart knows nothing but what it loads from the bytes left. Every run of
 * it is a run of Cluster, so everything proved there holds of the bytes.
 */
module Files {
  import opened Types
  import opened Node
  import opened Cluster
  import opened Protocol
  import opened Simulation
  import opened Runs
  import opened Commit
  import opened Theorems
  import opened Wal
  import opened D = Disk
  import Command

  datatype ByteState = ByteState(cluster: State, disks: seq<Disk>)

  /** A completed action, or a crash of node i in an operation. The crash leaves the first of these
      files behind; each further one is what an attempt to restart left that did not come to its end,
      and the last is loaded. */
  datatype ByteAction = Step(a: Action) | Fail(i: nat, op: Op, call: nat, written: nat, left: seq<Disk>)

  function ByteInit(n: nat): ByteState
  {
    ByteState(Init(n), seq(n, i => Disk(None, [])))
  }

  /** The writes an action makes on the disk of the node it names. */
  function WritesOf(s: State, a: Action): seq<Write>
    requires |s.servers| == |s.nodes| && Enabled(s, a)
  {
    match a
    case Local(i, op, _) => Writes(s.nodes[i], op)
    case ClientSubmit(i, c) => Writes(s.nodes[i], SubmitCommand(Command.Encode(c)))
    case _ => []
  }

  /** An attempt to load may end before or after it has cut off the torn tail. */
  predicate Attempts(left: seq<Disk>)
  {
    && |left| >= 1
    && forall k :: 0 < k < |left| ==> left[k] == left[k - 1] || left[k] == Trimmed(left[k - 1])
  }

  /** Terms are below 2^64, as their type has it. A node is restarted only if its entries, and those
      it was writing, fit their records; it may write and serve others. */
  ghost predicate ByteEnabled(b: ByteState, x: ByteAction)
  {
    && |b.cluster.servers| == |b.cluster.nodes| == |b.disks|
    && match x
       case Step(a) => Enabled(b.cluster, a) && !a.Crash? && AllRepresentable(WritesOf(b.cluster, a))
       case Fail(i, op, call, k, left) =>
         && i < |b.cluster.nodes| && OpEnabled(b.cluster, i, op, call)
         && var m := b.cluster.nodes[i];
            && AllFit(DurableOf(m).entries) && AllWritesFit(Writes(m, op)) && k <= |Writes(m, op)|
            && Attempts(left) && CrashLeaves(b.disks[i], DurableOf(m), Writes(m, op), k, left[0])
  }

  /** A node whose files cannot be loaded does not come back. */
  ghost function ByteNext(b: ByteState, x: ByteAction): Option<ByteState>
    requires ByteEnabled(b, x)
  {
    match x
    case Step(a) =>
      var ws := WritesOf(b.cluster, a);
      Some(ByteState(Next(b.cluster, a),
                     if ws == [] then b.disks
                     else b.disks[a.i := WrittenAll(b.disks[a.i], DurableOf(b.cluster.nodes[a.i]), ws)]))
    case Fail(i, _, _, _, left) =>
      var s, m := b.cluster, b.cluster.nodes[i];
      match LoadFiles(left[|left| - 1])
      case None => None
      case Some(d) =>
        Some(ByteState(s.(nodes := s.nodes[i := Restarted(m.id, m.size, d)],
                          servers := s.servers[i := FRESH_SERVER],
                          calls := set r | r in s.calls && Sender(r) != i),
                       b.disks[i := Trimmed(left[|left| - 1])]))
  }

  ghost predicate IsByteRun(n: nat, bs: seq<ByteState>, xs: seq<ByteAction>)
  {
    && n <= MAX_NODES
    && |bs| == |xs| + 1
    && bs[0] == ByteInit(n)
    && forall k :: 0 <= k < |xs| ==> ByteStepAt(bs, xs, k)
  }

  ghost predicate ByteStepAt(bs: seq<ByteState>, xs: seq<ByteAction>, k: nat)
    requires k < |xs| && |bs| == |xs| + 1
  {
    ByteEnabled(bs[k], xs[k]) && ByteNext(bs[k], xs[k]) == Some(bs[k + 1])
  }

  // ----- what the files hold -----

  ghost predicate DisksHold(b: ByteState)
  {
    && |b.disks| == |b.cluster.nodes|
    && forall i :: 0 <= i < |b.disks| ==>
         |b.cluster.nodes[i].log| >= 1 && Describes(b.disks[i], DurableOf(b.cluster.nodes[i]))
  }

  /** Only the writes of an action change what its node has to keep. */
  lemma DurableAfter(s: State, h: History, a: Action, j: nat)
    requires Rel(s, h) && Enabled(s, a) && !a.Crash? && j < |s.nodes|
    ensures j < |Next(s, a).nodes| && |Next(s, a).nodes[j].log| >= 1 && |s.nodes[j].log| >= 1
    ensures var ws := WritesOf(s, a);
            DurableOf(Next(s, a).nodes[j])
            == if ws != [] && a.i == j then ApplyWrites(DurableOf(s.nodes[j]), ws) else DurableOf(s.nodes[j])
  {
    hide Perform, Writes, Submit, VoteRequests, NetRel;
    assert NodeRel(s.nodes[j], h, j);
    if a.Local? && a.i == j {
      LocalNode(s, j, a.op, a.call);
      PerformIsWritten(s.nodes[j], a.op);
      PerformWf(s.nodes[j], a.op);
    } else if a.ClientSubmit? && a.i == j {
      var op := SubmitCommand(Command.Encode(a.command));
      SubmitNode(s, j, a.command);
      PerformIsWritten(s.nodes[j], op);
      PerformWf(s.nodes[j], op);
    }
  }

  lemma StepHolds(b: ByteState, h: History, a: Action)
    requires Rel(b.cluster, h) && DisksHold(b) && ByteEnabled(b, Step(a))
    ensures ByteNext(b, Step(a)).Some? && DisksHold(ByteNext(b, Step(a)).value)
  {
    hide Rel, Next, Enabled, Describes, ApplyWrites, WrittenAll, WritesOf, DurableOf;
    SameCount(b.cluster, h, a);
    var s, b' := b.cluster, ByteNext(b, Step(a)).value;
    var ws := WritesOf(s, a);
    forall j | 0 <= j < |b'.disks|
      ensures |b'.cluster.nodes[j].log| >= 1 && Describes(b'.disks[j], DurableOf(b'.cluster.nodes[j]))
    {
      DurableAfter(s, h, a, j);
      if ws != [] && a.i == j { WrittenAllHolds(b.disks[j], DurableOf(s.nodes[j]), ws); }
    }
  }

  lemma SameCount(s: State, h: History, a: Action)
    requires Rel(s, h) && Enabled(s, a)
    ensures |Next(s, a).nodes| == |s.nodes| && (WritesOf(s, a) != [] ==> (a.Local? || a.ClientSubmit?) && a.i < |s.nodes|)
  {
    hide Perform, Writes, Submit, VoteRequests, NetRel, NodeRel;
  }

  /** A crash with its restart on the bytes it left is a crash of the cluster, and finds files to load. */
  lemma FailIsACrash(b: ByteState, h: History, x: ByteAction) returns (a: Action)
    requires Rel(b.cluster, h) && DisksHold(b) && ByteEnabled(b, x) && x.Fail?
    ensures Enabled(b.cluster, a) && ByteNext(b, x).Some? && ByteNext(b, x).value.cluster == Next(b.cluster, a)
    ensures DisksHold(ByteNext(b, x).value)
  {
    hide NodeRel, NetRel, Describes, AllFit, Writes, ApplyWrites, LoadFiles, Trimmed, WrittenAll, CrashLeaves;
    var m := b.cluster.nodes[x.i];
    var j := CrashInOperation(b.disks[x.i], DurableOf(m), Writes(m, x.op), x.written, x.left[0]);
    a := Crash(x.i, x.op, x.call, j);
    var d := ApplyWrites(DurableOf(m), Writes(m, x.op)[..j]);
    AttemptsReload(x.left, d);
    RestartedKeeps(m.id, m.size, d);
  }

  /** However often a restart is cut short, the next one finds the same state. */
  lemma {:induction false} AttemptsReload(left: seq<Disk>, d: Durable)
    requires Attempts(left) && Reloads(left[0], d)
    ensures Reloads(left[|left| - 1], d)
    decreases |left|
  {
    hide Reloads, Trimmed;
    if |left| > 1 {
      var n := |left| - 1;
      AttemptsReload(left[..n], d);
      ReloadsAgain(left[n - 1], d);
    }
  }

  lemma RestartedKeeps(id: nat, size: nat, d: Durable)
    ensures |Restarted(id, size, d).log| >= 1 && DurableOf(Restarted(id, size, d)) == d
  {
    assert ([SENTINEL] + d.entries)[1..] == d.entries;
  }

  // ----- runs -----

  ghost function Clusters(bs: seq<ByteState>): (ss: seq<State>)
    ensures |ss| == |bs| && forall k :: 0 <= k < |bs| ==> ss[k] == bs[k].cluster
  {
    seq(|bs|, k requires 0 <= k < |bs| => bs[k].cluster)
  }

  lemma ByteRunPrefix(n: nat, bs: seq<ByteState>, xs: seq<ByteAction>, k: nat)
    requires IsByteRun(n, bs, xs) && k <= |xs|
    ensures IsByteRun(n, bs[..k + 1], xs[..k])
  {
    var bs', xs' := bs[..k + 1], xs[..k];
    forall j | 0 <= j < |xs'| ensures ByteStepAt(bs', xs', j) {
      assert ByteStepAt(bs, xs, j);
    }
  }

  /**
   * Every run on byte files, with torn writes and reloads anywhere, is a run of the cluster; and at
   * every moment the files of every node are exactly what is written for its term, vote and log.
   */
  lemma {:induction false} BytesRefineCluster(n: nat, bs: seq<ByteState>, xs: seq<ByteAction>) returns (acts: seq<Action>)
    requires IsByteRun(n, bs, xs)
    ensures IsRun(n, Clusters(bs), acts)
    ensures forall k :: 0 <= k < |bs| ==> DisksHold(bs[k])
    decreases |xs|
  {
    hide Rel, Next, Enabled, Init, DisksHold, ByteEnabled, ByteNext, StepAt, Backs, CreditedRun, Inv;
    if xs == [] {
      acts := [];
      assert Clusters(bs) == [Init(n)];
      FreshFiles(n);
    } else {
      var k := |xs| - 1;
      ByteRunPrefix(n, bs, xs, k);
      var bs' := bs[..k + 1];
      var acts' := BytesRefineCluster(n, bs', xs[..k]);
      var ss := Clusters(bs');
      RunShape(n, ss, acts');
      var hs := RunHasHistory(n, ss, acts');
      Backed(ss, hs, k);
      var b := bs[k];
      assert bs'[k] == b && ByteStepAt(bs, xs, k);
      var a := ByteStepIs(b, hs[k], xs[k], bs[k + 1]);
      RunGrows(n, ss, acts', a);
      acts := acts' + [a];
      assert Clusters(bs) == ss + [bs[k + 1].cluster];
      forall j | 0 <= j < |bs| ensures DisksHold(bs[j]) {
        if j <= k { assert bs'[j] == bs[j]; }
      }
    }
  }

  lemma ByteStepIs(b: ByteState, h: History, x: ByteAction, b': ByteState) returns (a: Action)
    requires Rel(b.cluster, h) && DisksHold(b) && ByteEnabled(b, x) && ByteNext(b, x) == Some(b')
    ensures |b.cluster.servers| == |b.cluster.nodes| && Enabled(b.cluster, a) && b'.cluster == Next(b.cluster, a)
    ensures DisksHold(b')
  {
    hide Rel, Next, Enabled, DisksHold, WritesOf, LoadFiles, CrashLeaves, WrittenAll;
    match x {
      case Step(a0) => a := a0; StepHolds(b, h, a0);
      case Fail(_, _, _, _, _) => a := FailIsACrash(b, h, x);
    }
  }

  lemma FreshFiles(n: nat)
    ensures DisksHold(ByteInit(n))
  {
    forall i | 0 <= i < n ensures |Init(n).nodes[i].log| >= 1 && Describes(Disk(None, []), DurableOf(Init(n).nodes[i])) {
    }
  }

  /** No crash ever leaves files that a restart cannot load. */
  lemma RestartsAlwaysLoad(n: nat, bs: seq<ByteState>, xs: seq<ByteAction>, x: ByteAction)
    requires IsByteRun(n, bs, xs) && ByteEnabled(bs[|xs|], x) && x.Fail?
    ensures |x.left| >= 1 && LoadFiles(x.left[|x.left| - 1]).Some?
  {
    hide Rel, Next, Enabled, Init, DisksHold, CrashLeaves, Writes, OpEnabled, StepAt, Backs, CreditedRun, Inv, LoadFiles, ByteStepAt, IsRun;
    var acts := BytesRefineCluster(n, bs, xs);
    var ss := Clusters(bs);
    RunShape(n, ss, acts);
    var hs := RunHasHistory(n, ss, acts);
    Backed(ss, hs, |xs|);
    var a := FailIsACrash(bs[|xs|], hs[|xs|], x);
  }
}
