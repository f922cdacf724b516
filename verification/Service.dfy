/**
 * The applier and the client handlers (src/raft.cpp:370-387, src/server.cpp:215-302), in runs whose
 * follower commit indexes match their leaders' logs: what the map, the waiter table and the handlers
 * say is what the committed log says.
 */
module Service {
  import opened Types
  import opened Messages
  import opened Node
  import opened Command
  import opened Cluster
  import opened Protocol
  import opened Simulation
  import opened Runs
  import opened Commit
  import opened CommitRule

  /** What applying index k of log l yields when everything before it was applied first. */
  function OutcomeAt(l: Log, k: nat): Outcome
    requires k < |l|
  {
    ApplyRaw(Replay(l[..k]), l[k].command).1
  }

  lemma ReplayNext(l: Log, k: nat)
    requires k < |l|
    ensures Replay(l[..k + 1]) == ApplyRaw(Replay(l[..k]), l[k].command).0
  {
    assert l[..k + 1][..k] == l[..k];
  }

  /** The applier works on the entry after the last applied one, and the map is the replayed log. */
  predicate ApplierOk(m: Node, v: Server)
  {
    && m.lastApplied <= m.commitIndex < |m.log|
    && match v.applier
       case Resting => v.store == Replay(m.log[..m.lastApplied + 1])
       case Fetched(k, e) =>
         && k == m.lastApplied + 1 <= m.commitIndex && e == m.log[k]
         && v.store == Replay(m.log[..k])
       case Stored(k, e, o) =>
         && k == m.lastApplied + 1 <= m.commitIndex && e == m.log[k]
         && v.store == Replay(m.log[..k + 1]) && o == OutcomeAt(m.log, k)
       case Notified(k, e) =>
         && k == m.lastApplied + 1 <= m.commitIndex && e == m.log[k]
         && v.store == Replay(m.log[..k + 1])
  }

  predicate SlotOk(m: Node, k: nat, p: Pending)
  {
    p.applied ==>
      k <= m.commitIndex < |m.log| && p.appliedTerm == m.log[k].term && p.outcome == OutcomeAt(m.log, k)
  }

  /** The entry a handler submitted is in the log of the leader it submitted to. */
  ghost predicate HandlerOk(h: History, c: Handler)
  {
    && c.term in h.reigns
    && 1 <= c.index < |h.reigns[c.term].log|
    && h.reigns[c.term].log[c.index] == LogEntry(c.term, Encode(c.command))
    && Fits(c.command)
  }

  /** While a handler holds the wait mutex, its entry has not been applied and its slot not filled. */
  predicate HolderOk(m: Node, v: Server)
  {
    v.holder.Some? ==>
      && v.holder.value in v.handlers
      && !v.handlers[v.holder.value].parked
      && m.lastApplied < v.handlers[v.holder.value].index
      && (v.applier.Notified? ==> v.applier.index < v.handlers[v.holder.value].index)
  }

  ghost predicate ServerOk(m: Node, v: Server, h: History, tickets: nat)
  {
    && ApplierOk(m, v)
    && (forall k :: k in v.waiters ==> SlotOk(m, k, v.waiters[k]))
    && (forall t :: t in v.handlers ==> t < tickets && HandlerOk(h, v.handlers[t]))
    && HolderOk(m, v)
  }

  ghost predicate ServerRel(s: State, h: History)
    requires |s.servers| == |s.nodes|
  {
    forall i :: 0 <= i < |s.nodes| ==> ServerOk(s.nodes[i], s.servers[i], h, s.tickets)
  }

  // ----- frames -----

  lemma HandlerGrows(h: History, h': History, c: Handler)
    requires Grows(h, h') && HandlerOk(h, c)
    ensures HandlerOk(h', c)
  {
  }

  lemma SamePrefix(a: Log, b: Log, c: nat, k: nat)
    requires Agree(a, b, c) && k <= c
    ensures a[..k] == b[..k] && a[..k + 1] == b[..k + 1] && a[k] == b[k] && OutcomeAt(a, k) == OutcomeAt(b, k)
  {
    AgreeBelow(a, b, c, k);
    assert a[..k] == a[..k + 1][..k] && b[..k] == b[..k + 1][..k];
  }

  /** A log that keeps its committed prefix keeps everything said about it. */
  lemma ServerKeeps(m: Node, m': Node, v: Server, h: History, h': History, n: nat, n': nat)
    requires ServerOk(m, v, h, n) && Grows(h, h') && n <= n'
    requires m'.lastApplied == m.lastApplied && m.commitIndex <= m'.commitIndex < |m'.log|
    requires Agree(m.log, m'.log, m.commitIndex)
    ensures ServerOk(m', v, h', n')
  {
    SamePrefix(m.log, m'.log, m.commitIndex, m.lastApplied);
    if m.lastApplied < m.commitIndex { SamePrefix(m.log, m'.log, m.commitIndex, m.lastApplied + 1); }
    forall k | k in v.waiters ensures SlotOk(m', k, v.waiters[k]) {
      assert SlotOk(m, k, v.waiters[k]);
      if k <= m.commitIndex { SamePrefix(m.log, m'.log, m.commitIndex, k); }
    }
    forall t | t in v.handlers ensures t < n' && HandlerOk(h', v.handlers[t]) {
      HandlerGrows(h, h', v.handlers[t]);
    }
  }

  lemma FreshServerOk(id: nat, size: nat, d: Durable, h: History, tickets: nat)
    ensures ServerOk(Restarted(id, size, d), FRESH_SERVER, h, tickets)
  {
    var m := Restarted(id, size, d);
    assert m.log[..1] == [SENTINEL];
    assert m.log[..1][..0] == [];
    assert Replay([]) == map[];
  }

  // ----- commit indexes only rise -----

  lemma CommitRises(m: Node, op: Op)
    requires Callable(m, op) && !op.HandleAppend?
    ensures Perform(m, op).commitIndex >= m.commitIndex
  {
    if Perform(m, op).commitIndex != m.commitIndex {
      if Perform(m, op).role != Leader { CommitUnchanged(m, op); }
      RaisedByLeader(m, op);
    }
  }

  lemma LastAppliedKept(m: Node, op: Op)
    requires Callable(m, op)
    ensures Perform(m, op).lastApplied == m.lastApplied
  {
  }

  /** Node j between two states of a run, when it did not crash and its applier did not move. */
  lemma NodeAdvances(s: State, h: History, s': State, h': History, j: nat)
    requires Inv(h) && Rel(s, h) && CommitRel(s, h) && Inv(h') && Rel(s', h') && CommitRel(s', h') && Grows(h, h')
    requires j < |s.nodes|
    ensures Agree(s.nodes[j].log, s'.nodes[j].log, s.nodes[j].commitIndex)
    ensures s'.nodes[j].commitIndex < |s'.nodes[j].log|
  {
    hide Inv, Rel;
    assert |s'.nodes| == |s.nodes| by { SameSize(s, h, s', h'); }
    NodeInHistory(s, h, j);
    NodeInHistory(s', h', j);
    SafeIsStable(h, h', j, s.nodes[j].commitIndex);
    SafeInLog(h', j, s'.nodes[j].commitIndex);
  }

  lemma SameSize(s: State, h: History, s': State, h': History)
    requires Rel(s, h) && Rel(s', h') && Grows(h, h')
    ensures |s'.nodes| == |s.nodes|
  {
  }

  // ----- one step -----

  lemma LocalServer(s: State, h: History, i: nat, op: Op, call: nat, h': History)
    requires Inv(h) && Rel(s, h) && CommitRel(s, h) && ServerRel(s, h) && Enabled(s, Local(i, op, call))
    requires Inv(h') && Rel(Next(s, Local(i, op, call)), h') && CommitRel(Next(s, Local(i, op, call)), h') && Grows(h, h')
    requires Matched(s, Local(i, op, call), h') && Credited(s, Local(i, op, call), h')
    ensures ServerOk(Next(s, Local(i, op, call)).nodes[i], s.servers[i], h', s.tickets)
  {
    hide Inv, ServerOk;
    var s' := Next(s, Local(i, op, call));
    var m := s.nodes[i];
    assert NodeRel(m, h, i) && s'.nodes[i] == Perform(m, op);
    LastAppliedKept(m, op);
    if op.HandleAppend? {
      FollowerCommitSafe(s, h, i, op.aargs, call, h');
    } else {
      CommitRises(m, op);
    }
    NodeAdvances(s, h, s', h', i);
    ServerKeeps(m, s'.nodes[i], s.servers[i], h, h', s.tickets, s.tickets);
  }

  lemma OtherServer(s: State, h: History, s': State, h': History, j: nat)
    requires Inv(h) && Rel(s, h) && CommitRel(s, h) && ServerRel(s, h)
    requires Inv(h') && Rel(s', h') && CommitRel(s', h') && Grows(h, h')
    requires j < |s.nodes| && |s'.nodes| == |s.nodes| && s'.nodes[j] == s.nodes[j] && s.tickets <= s'.tickets
    ensures ServerOk(s'.nodes[j], s.servers[j], h', s'.tickets)
  {
    hide Inv, Rel, ServerOk;
    SizesAt(s, h);
    NodeAdvances(s, h, s', h', j);
    ServerKeeps(s.nodes[j], s'.nodes[j], s.servers[j], h, h', s.tickets, s'.tickets);
  }

  lemma SubmitServer(s: State, h: History, i: nat, c: Command, h': History)
    requires Inv(h) && Rel(s, h) && CommitRel(s, h) && ServerRel(s, h) && Enabled(s, ClientSubmit(i, c))
    requires Inv(h') && Rel(Next(s, ClientSubmit(i, c)), h') && CommitRel(Next(s, ClientSubmit(i, c)), h')
    requires Grows(h, h')
    ensures var s' := Next(s, ClientSubmit(i, c)); ServerOk(s'.nodes[i], s'.servers[i], h', s'.tickets)
  {
    hide Inv, ServerOk, HandlerOk;
    var s' := Next(s, ClientSubmit(i, c));
    var m, m' := s.nodes[i], s'.nodes[i];
    var v := s.servers[i];
    LastAppliedKept(m, SubmitCommand(Encode(c)));
    CommitRises(m, SubmitCommand(Encode(c)));
    NodeAdvances(s, h, s', h', i);
    assert ServerOk(m, v, h, s.tickets);
    AppliedBelowEnd(m, v, h, s.tickets);
    ServerKeeps(m, m', v, h, h', s.tickets, s.tickets);
    SubmittedHandler(s', h', i, m, c);
    NewHandlerOk(m', v, h', s.tickets, Handler(c, |m.log|, m.currentTerm, false));
  }

  lemma AppliedBelowEnd(m: Node, v: Server, h: History, n: nat)
    requires ServerOk(m, v, h, n)
    ensures m.lastApplied < |m.log| && (v.applier.Notified? ==> v.applier.index < |m.log|)
  {
  }

  lemma NewHandlerOk(m: Node, v: Server, h: History, n: nat, c: Handler)
    requires ServerOk(m, v, h, n) && v.holder.None? && HandlerOk(h, c) && !c.parked
    requires m.lastApplied < c.index && (v.applier.Notified? ==> v.applier.index < c.index)
    ensures ServerOk(m, v.(handlers := v.handlers[n := c], holder := Some(n)), h, n + 1)
  {
    hide Replay, ApplyRaw, SlotOk;
  }

  lemma SubmittedHandler(s': State, h': History, i: nat, m: Node, c: Command)
    requires Inv(h') && Rel(s', h') && m.Wf() && m.role == Leader && i < |s'.nodes| && Fits(c)
    requires s'.nodes[i] == Submit(m, Encode(c))
    ensures HandlerOk(h', Handler(c, |m.log|, m.currentTerm, false))
  {
    hide Inv, Rel;
    LeaderLogInReign(s', h', i);
  }

  lemma ParkOk(m: Node, v: Server, h: History, n: nat)
    requires ServerOk(m, v, h, n) && v.holder.Some? && v.holder.value in v.handlers
    ensures ServerOk(m, Park(v), h, n)
  {
    hide Replay, ApplyRaw;
    var v' := Park(v);
    forall k | k in v'.waiters ensures SlotOk(m, k, v'.waiters[k]) {
      if k in v.waiters { assert SlotOk(m, k, v.waiters[k]); }
    }
    forall t | t in v'.handlers ensures t < n && HandlerOk(h, v'.handlers[t]) {
      assert HandlerOk(h, v.handlers[t]);
    }
  }

  lemma LeaveOk(m: Node, v: Server, h: History, n: nat, ticket: nat)
    requires ServerOk(m, v, h, n) && v.holder.None? && ticket in v.handlers
    ensures ServerOk(m, Leave(v, ticket), h, n)
  {
    hide Replay, ApplyRaw;
    var v' := Leave(v, ticket);
    forall k | k in v'.waiters ensures SlotOk(m, k, v'.waiters[k]) {
      assert SlotOk(m, k, v.waiters[k]);
    }
    forall t | t in v'.handlers ensures t < n && HandlerOk(h, v'.handlers[t]) {
      assert HandlerOk(h, v.handlers[t]);
    }
  }

  lemma FetchOk(m: Node, v: Server, h: History, n: nat)
    requires ServerOk(m, v, h, n) && v.applier.Resting? && m.lastApplied < m.commitIndex
    ensures ServerOk(m, v.(applier := Fetched(m.lastApplied + 1, m.log[m.lastApplied + 1])), h, n)
  {
    hide Replay, ApplyRaw, SlotOk, HandlerOk;
  }

  lemma StoreOk(m: Node, v: Server, h: History, n: nat)
    requires ServerOk(m, v, h, n) && v.applier.Fetched?
    ensures ServerOk(m, StoreEntry(v), h, n)
  {
    hide Replay, ApplyRaw, SlotOk, HandlerOk;
    ReplayNext(m.log, v.applier.index);
  }

  lemma FillOk(m: Node, v: Server, h: History, n: nat)
    requires ServerOk(m, v, h, n) && v.applier.Stored? && v.holder.None?
    ensures ServerOk(m, FillSlot(v), h, n)
  {
    hide Replay, ApplyRaw, HandlerOk;
    var v' := FillSlot(v);
    forall k | k in v'.waiters ensures SlotOk(m, k, v'.waiters[k]) {
      assert SlotOk(m, k, v.waiters[k]);
    }
  }

  lemma FinishOk(m: Node, v: Server, h: History, n: nat)
    requires ServerOk(m, v, h, n) && v.applier.Notified?
    ensures ServerOk(m.(lastApplied := v.applier.index), v.(applier := Resting), h, n)
  {
    hide Replay, ApplyRaw, HandlerOk;
    forall k | k in v.waiters ensures SlotOk(m.(lastApplied := v.applier.index), k, v.waiters[k]) {
      assert SlotOk(m, k, v.waiters[k]);
    }
  }

  lemma AppliedServer(s: State, h: History, a: Action)
    requires |s.servers| == |s.nodes| && ServerRel(s, h) && Enabled(s, a)
    requires a.ClientPark? || a.ClientLeave? || a.Fetch? || a.StoreFetched? || a.Notify? || a.Finish?
    ensures var s' := Next(s, a); ServerOk(s'.nodes[a.i], s'.servers[a.i], h, s'.tickets)
  {
    hide ServerOk, Park, Leave, StoreEntry, FillSlot;
    var m, v, n := s.nodes[a.i], s.servers[a.i], s.tickets;
    assert ServerOk(m, v, h, n);
    match a {
      case ClientPark(i) => ParkOk(m, v, h, n);
      case ClientLeave(i, t) => LeaveOk(m, v, h, n, t);
      case Fetch(i) => FetchOk(m, v, h, n);
      case StoreFetched(i) => StoreOk(m, v, h, n);
      case Notify(i) => FillOk(m, v, h, n);
      case Finish(i) => FinishOk(m, v, h, n);
    }
  }

  lemma ServerStep(s: State, h: History, a: Action, h': History)
    requires Inv(h) && Rel(s, h) && CommitRel(s, h) && ServerRel(s, h) && Enabled(s, a)
    requires Inv(h') && Grows(h, h') && Rel(Next(s, a), h') && CommitRel(Next(s, a), h')
    requires Matched(s, a, h') && Credited(s, a, h')
    ensures ServerRel(Next(s, a), h')
  {
    hide Inv, ServerOk;
    var s' := Next(s, a);
    forall j | 0 <= j < |s'.nodes| ensures ServerOk(s'.nodes[j], s'.servers[j], h', s'.tickets) {
      ServerStepAt(s, h, a, h', j);
    }
  }

  lemma ServerStepAt(s: State, h: History, a: Action, h': History, j: nat)
    requires Inv(h) && Rel(s, h) && CommitRel(s, h) && ServerRel(s, h) && Enabled(s, a)
    requires Inv(h') && Grows(h, h') && Rel(Next(s, a), h') && CommitRel(Next(s, a), h')
    requires Matched(s, a, h') && Credited(s, a, h')
    requires j < |s.nodes|
    ensures var s' := Next(s, a); ServerOk(s'.nodes[j], s'.servers[j], h', s'.tickets)
  {
    hide Inv, ServerOk, CommitRel, Matched, Credited;
    var s' := Next(s, a);
    if a.Send? || a.Lose? || a.i != j {
      OtherServer(s, h, s', h', j);
    } else if a.Local? {
      LocalServer(s, h, j, a.op, a.call, h');
    } else if a.Crash? {
      var m := s.nodes[j];
      FreshServerOk(m.id, m.size, ApplyWrites(DurableOf(m), Writes(m, a.op)[..a.written]), h', s'.tickets);
    } else if a.ClientSubmit? {
      SubmitServer(s, h, j, a.command, h');
    } else {
      AppliedServer(s, h, a);
      HandlersGrow(s'.nodes[j], s'.servers[j], h, h', s'.tickets);
    }
  }

  lemma HandlersGrow(m: Node, v: Server, h: History, h': History, n: nat)
    requires ServerOk(m, v, h, n) && Grows(h, h')
    ensures ServerOk(m, v, h', n)
  {
    forall t | t in v.handlers ensures t < n && HandlerOk(h', v.handlers[t]) {
      HandlerGrows(h, h', v.handlers[t]);
    }
  }

  // ----- runs -----

  lemma {:induction false} ServerRelAt(n: nat, ss: seq<State>, acts: seq<Action>, hs: seq<History>, k: nat)
    requires IsRun(n, ss, acts) && Backs(ss, hs) && CreditedRun(ss, acts, hs) && CommitBacks(ss, hs) && k < |ss|
    requires TermMatchedRun(ss, acts)
    ensures |ss[k].servers| == |ss[k].nodes| && ServerRel(ss[k], hs[k])
  {
    hide Inv, Rel, Grows, Credited, TermMatched, Matched, CommitRel, ServerRel, StepAt, Init;
    if k == 0 {
      InitServers(n, hs[0]);
    } else {
      ServerRelAt(n, ss, acts, hs, k - 1);
      StepIsEnabled(ss, acts, k - 1);
      assert TermMatched(ss, acts, k - 1) && Credited(ss[k - 1], acts[k - 1], hs[k]);
      TermsMakeMatch(n, ss, acts, hs, k - 1);
      ServerStepRun(ss, acts, hs, k - 1);
    }
  }

  lemma StepIsEnabled(ss: seq<State>, acts: seq<Action>, k: nat)
    requires k < |acts| && |ss| == |acts| + 1 && StepAt(ss, acts, k)
    ensures |ss[k].servers| == |ss[k].nodes| && Enabled(ss[k], acts[k])
  {
  }

  lemma ServerStepRun(ss: seq<State>, acts: seq<Action>, hs: seq<History>, k: nat)
    requires Backs(ss, hs) && CommitBacks(ss, hs) && |ss| == |acts| + 1 && k < |acts| && StepAt(ss, acts, k)
    requires Matched(ss[k], acts[k], hs[k + 1]) && Credited(ss[k], acts[k], hs[k + 1]) && ServerRel(ss[k], hs[k])
    ensures |ss[k + 1].servers| == |ss[k + 1].nodes| && ServerRel(ss[k + 1], hs[k + 1])
  {
    hide Inv, Rel, Grows, Credited, Matched, CommitRel, ServerRel, Next, Enabled;
    SizesAt(ss[k + 1], hs[k + 1]);
    ServerStep(ss[k], hs[k], acts[k], hs[k + 1]);
  }

  lemma SizesAt(s: State, h: History)
    requires Rel(s, h)
    ensures |s.servers| == |s.nodes|
  {
  }

  lemma InitServers(n: nat, h: History)
    ensures |Init(n).servers| == |Init(n).nodes| && ServerRel(Init(n), h)
  {
    forall i | 0 <= i < n ensures ServerOk(Init(n).nodes[i], Init(n).servers[i], h, 0) {
      FreshServerOk(i, n, Durable(0, -1, []), h, 0);
    }
  }

  ghost predicate ServerBacks(ss: seq<State>, hs: seq<History>)
  {
    |hs| == |ss| && forall k :: 0 <= k < |ss| ==> |ss[k].servers| == |ss[k].nodes| && ServerRel(ss[k], hs[k])
  }

  /** A run that meets the commit condition has a history that backs its servers as well. */
  lemma ServedHistory(n: nat, ss: seq<State>, acts: seq<Action>) returns (hs: seq<History>)
    requires IsRun(n, ss, acts) && TermMatchedRun(ss, acts)
    ensures Backs(ss, hs) && CommitBacks(ss, hs) && ServerBacks(ss, hs)
  {
    hide Inv, Rel, Credited, TermMatched, CommitRel, ServerRel;
    hs := RunHasHistory(n, ss, acts);
    forall k | 0 <= k < |ss| ensures CommitRel(ss[k], hs[k]) {
      CommitRelAt(n, ss, acts, hs, k);
    }
    forall k | 0 <= k < |ss| ensures |ss[k].servers| == |ss[k].nodes| && ServerRel(ss[k], hs[k]) {
      ServerRelAt(n, ss, acts, hs, k);
    }
  }
}
