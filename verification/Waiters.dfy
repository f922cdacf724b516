/**
 * What a waiting client gets to hear (src/server.cpp:215-302): from registration on its slot stays
 * until a handler of that index leaves, an entry applied meanwhile is in the slot, and the reply says
 * so.
 */
module Waiters {
  import opened Types
  import opened Node
  import opened Command
  import opened Cluster
  import opened Protocol
  import opened Simulation
  import opened Runs
  import opened Commit
  import opened CommitRule
  import opened Service
  import opened Theorems

  /** Step k lets handler t of node i register and wait. */
  predicate Parks(ss: seq<State>, acts: seq<Action>, k: nat, i: nat, t: nat)
  {
    && k < |acts| && k < |ss| && acts[k] == ClientPark(i)
    && i < |ss[k].servers| && ss[k].servers[i].holder == Some(t)
  }

  /** From step lo to step hi node i does not crash and no handler of index x leaves. */
  predicate Undisturbed(ss: seq<State>, acts: seq<Action>, lo: nat, hi: nat, i: nat, x: nat)
  {
    hi <= |acts| && hi <= |ss| && forall k :: lo <= k < hi ==> !Disturbs(ss[k], acts[k], i, x)
  }

  predicate Disturbs(s: State, a: Action, i: nat, x: nat)
  {
    || (a.Crash? && a.i == i)
    || (a.ClientLeave? && a.i == i && i < |s.servers| && a.ticket in s.servers[i].handlers
        && s.servers[i].handlers[a.ticket].index == x)
  }

  /** Step k tells the waiters of node i about the entry applied at index x. */
  predicate Tells(ss: seq<State>, acts: seq<Action>, k: nat, i: nat, x: nat, e: LogEntry)
  {
    && k < |acts| && k < |ss| && acts[k] == Notify(i) && i < |ss[k].servers|
    && ss[k].servers[i].applier.Stored? && ss[k].servers[i].applier.index == x && ss[k].servers[i].applier.entry == e
  }

  // ----- one step -----

  /** Registering leaves a slot for the handler's index, and does not touch any other. */
  lemma ParkRegisters(s: State, i: nat)
    requires |s.servers| == |s.nodes| && Enabled(s, ClientPark(i))
    ensures i < |s.servers| && s.servers[i].holder.Some? && s.servers[i].holder.value in s.servers[i].handlers
    ensures var t := s.servers[i].holder.value;
            var x := s.servers[i].handlers[t].index;
            var v := Next(s, ClientPark(i)).servers[i];
            && x in v.waiters && v.waiters.Keys == s.servers[i].waiters.Keys + {x}
            && (forall y :: y in s.servers[i].waiters ==> v.waiters[y] == s.servers[i].waiters[y])
            && t in v.handlers && v.handlers[t].parked && v.handlers[t].index == x && v.holder == None
  {
  }

  /** Leaving frees the slot. */
  lemma LeaveFrees(s: State, i: nat, t: nat)
    requires |s.servers| == |s.nodes| && Enabled(s, ClientLeave(i, t))
    ensures var x := s.servers[i].handlers[t].index;
            var v := Next(s, ClientLeave(i, t)).servers[i];
            x !in v.waiters && v.waiters.Keys == s.servers[i].waiters.Keys - {x} && t !in v.handlers
  {
  }

  /** A slot stays, and once filled stays filled. */
  lemma SlotStays(s: State, a: Action, i: nat, x: nat)
    requires |s.servers| == |s.nodes| && Enabled(s, a) && i < |s.servers| && x in s.servers[i].waiters
    requires !Disturbs(s, a, i, x)
    ensures i < |Next(s, a).servers| && x in Next(s, a).servers[i].waiters
    ensures s.servers[i].waiters[x].applied ==> Next(s, a).servers[i].waiters[x].applied
  {
    hide Perform, Submit, Writes, ApplyWrites, OnRequestVote, OnAppendEntries, VoteRequests, BuildAppend, ApplyRaw;
  }

  /** Being told of an index fills its slot. */
  lemma TellingFills(s: State, i: nat, x: nat)
    requires |s.servers| == |s.nodes| && Enabled(s, Notify(i)) && x in s.servers[i].waiters
    requires s.servers[i].applier.index == x
    ensures var v := Next(s, Notify(i)).servers[i];
            && x in v.waiters && v.waiters[x].applied
            && v.waiters[x].appliedTerm == s.servers[i].applier.entry.term
            && v.waiters[x].outcome == s.servers[i].applier.outcome
  {
  }

  // ----- runs -----

  lemma {:induction false} SlotStaysAlong(n: nat, ss: seq<State>, acts: seq<Action>, hs: seq<History>,
                                          lo: nat, hi: nat, i: nat, x: nat)
    requires IsRun(n, ss, acts) && Backs(ss, hs) && lo <= hi < |ss| && i < |ss[lo].servers|
    requires x in ss[lo].servers[i].waiters && Undisturbed(ss, acts, lo, hi, i, x)
    ensures i < |ss[hi].servers| && x in ss[hi].servers[i].waiters
    ensures ss[lo].servers[i].waiters[x].applied ==> ss[hi].servers[i].waiters[x].applied
    decreases hi
  {
    hide Inv, Rel, Next, Enabled, Grows, Backs, IsRun, StepAt, Disturbs;
    if lo < hi {
      SlotStaysAlong(n, ss, acts, hs, lo, hi - 1, i, x);
      RunStep(n, ss, acts, hs, hi - 1);
      SlotStays(ss[hi - 1], acts[hi - 1], i, x);
    }
  }

  /** A handler is the same for as long as it is there. */
  lemma {:induction false} HandlerKept(n: nat, ss: seq<State>, acts: seq<Action>, hs: seq<History>,
                                       j: nat, k: nat, i: nat, t: nat)
    requires IsRun(n, ss, acts) && Backs(ss, hs) && ServerBacks(ss, hs) && j <= k < |ss|
    requires i < |ss[j].servers| && t in ss[j].servers[i].handlers
    requires i < |ss[k].servers| && t in ss[k].servers[i].handlers
    ensures var c, c' := ss[j].servers[i].handlers[t], ss[k].servers[i].handlers[t];
            c'.index == c.index && c'.term == c.term && c'.command == c.command
    decreases k
  {
    hide Inv, Rel, Next, Enabled, Grows, Backs, ServerBacks, ServerRel, IsRun, StepAt;
    if j < k {
      RunShape(n, ss, acts);
      RunStep(n, ss, acts, hs, k - 1);
      Served(ss, hs, j);
      HandlerInReign(ss[j], hs[j], i, t);
      LaterAt(n, ss, acts, hs, j, k - 1);
      HandlersBefore(ss[k - 1], acts[k - 1], i, t);
      HandlerKept(n, ss, acts, hs, j, k - 1, i, t);
    }
  }

  /** The index of a handler that waits has a slot until a handler of that index leaves. */
  lemma WaitersAreRegistered(n: nat, ss: seq<State>, acts: seq<Action>, j: nat, k: nat, i: nat, t: nat)
    requires IsRun(n, ss, acts) && Parks(ss, acts, j, i, t) && j < k < |ss| && t in ss[j].servers[i].handlers
    requires Undisturbed(ss, acts, j + 1, k, i, ss[j].servers[i].handlers[t].index)
    ensures i < |ss[k].servers| && ss[j].servers[i].handlers[t].index in ss[k].servers[i].waiters
  {
    hide Inv, Rel, Next, Enabled, Grows, Backs, CreditedRun, IsRun, StepAt, Disturbs;
    var hs := RunHasHistory(n, ss, acts);
    RunStep(n, ss, acts, hs, j);
    ParkRegisters(ss[j], i);
    NextSizes(n, ss, acts, hs, j);
    NextSizes(n, ss, acts, hs, j + 1);
    SlotStaysAlong(n, ss, acts, hs, j + 1, k, i, ss[j].servers[i].handlers[t].index);
  }

  lemma NextSizes(n: nat, ss: seq<State>, acts: seq<Action>, hs: seq<History>, k: nat)
    requires IsRun(n, ss, acts) && Backs(ss, hs) && k < |ss|
    ensures |ss[k].servers| == |ss[k].nodes| == n && |ss[0].servers| == n
  {
    hide Inv, Rel, Grows, StepAt;
    SizeIs(n, ss, acts, hs, 0);
    SizeIs(n, ss, acts, hs, k);
  }

  /**
   * In every run that meets the commit condition: a handler that waits when its node tells of its
   * index, no handler of that index having left meanwhile, is not answered with a timeout. It is
   * answered without error if the entry applied has the term of its submission, and told that it lost
   * leadership if not.
   */
  lemma AppliedIsReported(n: nat, ss: seq<State>, acts: seq<Action>, j: nat, m: nat, k: nat,
                          i: nat, t: nat, e: LogEntry, c: Handler, r: Answer)
    requires IsRun(n, ss, acts) && TermMatchedRun(ss, acts)
    requires Parks(ss, acts, j, i, t) && j < m < k && Tells(ss, acts, m, i, c.index, e)
    requires Answers(ss, acts, k, i, c, r) && acts[k].ticket == t
    requires Undisturbed(ss, acts, j + 1, k, i, c.index)
    ensures r != CommitTimeout
    ensures IsError(r) <==> e.term != c.term
    ensures r == LostLeadership <==> e.term != c.term
  {
    hide Inv, Rel, Next, Enabled, IsRun, StepAt, Backs, CommitBacks, ServerBacks, TermMatchedRun, Disturbs,
         ServerRel, CommitsAgree, Agree, AnswerFor;
    var x := c.index;
    var hs := ServedHistory(n, ss, acts);
    RunShape(n, ss, acts);
    RunStep(n, ss, acts, hs, j);
    ParkRegisters(ss[j], i);
    HandlerKept(n, ss, acts, hs, j, k, i, t);
    assert Undisturbed(ss, acts, j + 1, m, i, x) && Undisturbed(ss, acts, m + 1, k, i, x);
    WaitersAreRegistered(n, ss, acts, j, m, i, t);
    RunStep(n, ss, acts, hs, m);
    TellingFills(ss[m], i, x);
    NextSizes(n, ss, acts, hs, m);
    NextSizes(n, ss, acts, hs, m + 1);
    SlotStaysAlong(n, ss, acts, hs, m + 1, k, i, x);
    Served(ss, hs, m);
    Served(ss, hs, k);
    AppliedThere(ss[m], hs[m], i);
    SlotThere(ss[k], hs[k], i, x);
    CommitRuleExact(n, ss, acts);
    CommitsAgreeAt(ss, m, i, k, i);
    var a, b := ss[m].nodes[i], ss[k].nodes[i];
    AgreeBelow(a.log, b.log, Min(a.commitIndex, b.commitIndex), x);
    NoErrorFor(c.command.verb, ss[k].servers[i].waiters[x].outcome);
  }

  lemma NoErrorFor(v: Verb, o: Outcome)
    ensures !IsError(AnswerFor(v, o))
  {
  }

  lemma AppliedThere(s: State, h: History, i: nat)
    requires |s.servers| == |s.nodes| && ServerRel(s, h) && i < |s.nodes| && s.servers[i].applier.Stored?
    ensures var x := s.servers[i].applier.index;
            x <= s.nodes[i].commitIndex < |s.nodes[i].log| && s.servers[i].applier.entry == s.nodes[i].log[x]
  {
    assert ServerOk(s.nodes[i], s.servers[i], h, s.tickets);
  }

  lemma SlotThere(s: State, h: History, i: nat, x: nat)
    requires |s.servers| == |s.nodes| && ServerRel(s, h) && i < |s.nodes|
    requires x in s.servers[i].waiters && s.servers[i].waiters[x].applied
    ensures x <= s.nodes[i].commitIndex < |s.nodes[i].log|
    ensures s.servers[i].waiters[x].appliedTerm == s.nodes[i].log[x].term
  {
    assert ServerOk(s.nodes[i], s.servers[i], h, s.tickets);
    assert SlotOk(s.nodes[i], x, s.servers[i].waiters[x]);
  }

  // ----- the applier -----

  /** Between its step with index x and its next one the applier is done with x and at most has copied
      the entry behind it. */
  predicate Past(m: Node, v: Server, x: nat)
  {
    match v.applier
    case Resting => m.lastApplied == x
    case Fetched(y, _) => m.lastApplied == x && y == x + 1
    case Stored(y, _, _) => y == x
    case Notified(y, _) => y == x
  }

  lemma PastStep(s: State, a: Action, i: nat, x: nat)
    requires |s.servers| == |s.nodes| && Enabled(s, a) && i < |s.nodes| && Past(s.nodes[i], s.servers[i], x)
    requires !(a.Crash? && a.i == i) && a != StoreFetched(i)
    requires (a.Local? || a.ClientSubmit?) && a.i == i ==> Next(s, a).nodes[i].lastApplied == s.nodes[i].lastApplied
    ensures i < |Next(s, a).nodes| && i < |Next(s, a).servers| && Past(Next(s, a).nodes[i], Next(s, a).servers[i], x)
  {
    hide Perform, Submit, Writes, ApplyWrites, OnRequestVote, OnAppendEntries, VoteRequests, BuildAppend, ApplyRaw;
  }

  lemma AppliedUntouched(s: State, h: History, a: Action, i: nat)
    requires Rel(s, h) && Enabled(s, a) && i < |s.nodes| && (a.Local? || a.ClientSubmit?) && a.i == i
    ensures i < |Next(s, a).nodes| && Next(s, a).nodes[i].lastApplied == s.nodes[i].lastApplied
  {
    hide Perform, Next, Enabled, NetRel;
    assert NodeRel(s.nodes[i], h, i);
    if a.Local? {
      LocalNode(s, i, a.op, a.call);
      LastAppliedKept(s.nodes[i], a.op);
    } else {
      SubmitNode(s, i, a.command);
      LastAppliedKept(s.nodes[i], SubmitCommand(Encode(a.command)));
    }
  }

  /** Node i neither crashes nor applies from step lo to step hi. */
  predicate Idles(acts: seq<Action>, lo: nat, hi: nat, i: nat)
  {
    hi <= |acts| && forall k :: lo <= k < hi ==> !(acts[k].Crash? && acts[k].i == i) && acts[k] != StoreFetched(i)
  }

  lemma {:induction false} PastAlong(n: nat, ss: seq<State>, acts: seq<Action>, hs: seq<History>,
                                     lo: nat, hi: nat, i: nat, x: nat)
    requires IsRun(n, ss, acts) && Backs(ss, hs) && lo <= hi < |ss| && i < n && Idles(acts, lo, hi, i)
    requires i < |ss[lo].nodes| && i < |ss[lo].servers| && Past(ss[lo].nodes[i], ss[lo].servers[i], x)
    ensures i < |ss[hi].nodes| && i < |ss[hi].servers| && Past(ss[hi].nodes[i], ss[hi].servers[i], x)
    decreases hi
  {
    hide Inv, Rel, Next, Enabled, Grows, Backs, IsRun, StepAt, Past;
    if lo < hi {
      PastAlong(n, ss, acts, hs, lo, hi - 1, i, x);
      RunStep(n, ss, acts, hs, hi - 1);
      SizeIs(n, ss, acts, hs, hi - 1);
      var s, a := ss[hi - 1], acts[hi - 1];
      if (a.Local? || a.ClientSubmit?) && a.i == i { AppliedUntouched(s, hs[hi - 1], a, i); }
      PastStep(s, a, i, x);
    }
  }

  /** In any run a node applies every index once and in order: of two of its applier steps, with no
      crash and no other between them, the second has the next index. */
  lemma AppliesInOrder(n: nat, ss: seq<State>, acts: seq<Action>, j: nat, k: nat, i: nat)
    requires IsRun(n, ss, acts) && j < k < |acts| && acts[j] == StoreFetched(i) && acts[k] == StoreFetched(i)
    requires Idles(acts, j + 1, k, i)
    ensures k < |ss| && i < |ss[j].servers| && i < |ss[k].servers|
    ensures ss[j].servers[i].applier.Fetched? && ss[k].servers[i].applier.Fetched?
    ensures ss[k].servers[i].applier.index == ss[j].servers[i].applier.index + 1
  {
    hide Inv, Rel, Next, Enabled, Grows, Backs, CreditedRun, IsRun, StepAt;
    var hs := RunHasHistory(n, ss, acts);
    RunShape(n, ss, acts);
    RunStep(n, ss, acts, hs, j);
    RunStep(n, ss, acts, hs, k);
    StoresNow(ss[j], i);
    StoresNow(ss[k], i);
    SizeIs(n, ss, acts, hs, j);
    SizeIs(n, ss, acts, hs, j + 1);
    PastAlong(n, ss, acts, hs, j + 1, k, i, ss[j].servers[i].applier.index);
  }

  lemma StoresNow(s: State, i: nat)
    requires |s.servers| == |s.nodes| && Enabled(s, StoreFetched(i))
    ensures i < |s.servers| && s.servers[i].applier.Fetched?
    ensures var s' := Next(s, StoreFetched(i));
            i < |s'.servers| && i < |s'.nodes| && Past(s'.nodes[i], s'.servers[i], s.servers[i].applier.index)
  {
    hide ApplyRaw;
  }

  /** While something is committed and not applied the applier can go on: it waits for nothing but a
      handler that is about to register. From rest it takes the entry behind the last one applied. */
  lemma ApplierGoesOn(n: nat, ss: seq<State>, acts: seq<Action>, k: nat, i: nat)
    requires IsRun(n, ss, acts) && TermMatchedRun(ss, acts) && k < |ss| && i < |ss[k].nodes|
    requires ss[k].nodes[i].lastApplied < ss[k].nodes[i].commitIndex
    ensures |ss[k].servers| == |ss[k].nodes|
    ensures var s, v := ss[k], ss[k].servers[i];
            || Enabled(s, Fetch(i)) || Enabled(s, StoreFetched(i)) || Enabled(s, Notify(i)) || Enabled(s, Finish(i))
            || Enabled(s, ClientPark(i))
    ensures ss[k].servers[i].applier.Resting? ==>
              && Enabled(ss[k], Fetch(i))
              && Next(ss[k], Fetch(i)).servers[i].applier
                 == Fetched(ss[k].nodes[i].lastApplied + 1, ss[k].nodes[i].log[ss[k].nodes[i].lastApplied + 1])
  {
    hide Inv, Rel, IsRun, TermMatchedRun, Backs, CommitBacks, ServerBacks, Replay;
    var hs := ServedHistory(n, ss, acts);
    Served(ss, hs, k);
    assert ServerOk(ss[k].nodes[i], ss[k].servers[i], hs[k], ss[k].tickets);
  }
}
