/**
 * How a leader brings a follower's log in line (src/raft.cpp:296-329, 417-438): late and repeated
 * batches do no harm, and the walk back to the point of agreement is short.
 */
module Repair {
  import opened Types
  import opened Messages
  import opened Node
  import opened Cluster
  import opened Protocol
  import opened Simulation
  import opened Runs
  import opened Commit
  import opened CommitRule
  import opened Theorems

  // ----- retransmission -----

  function BatchEnd(a: AppendArgs): nat { a.prevLogIndex + |a.entries| }

  function Merged(l: Log, a: AppendArgs): Log
    requires a.prevLogIndex < |l|
  {
    Merge(l, a.prevLogIndex, a.entries)
  }

  predicate Extends(l: Log, a: AppendArgs)
  {
    a.prevLogIndex < |l| && l[a.prevLogIndex].term == a.prevLogTerm
  }

  lemma LogOkPrefix(rs: Reigns, l: Log, k: nat)
    requires LogOk(rs, l) && k < |l|
    ensures LogOk(rs, l[..k + 1])
  {
    var p := l[..k + 1];
    forall j | 1 <= j < |p| ensures Anchored(rs, p, j) {
      assert Anchored(rs, l, j);
      assert p[..j + 1] == l[..j + 1];
    }
  }

  /** A merged log is as well formed as the two logs it comes from, and still extends every batch
      of the same leader that the follower's log extended. */
  lemma MergedOk(rs: Reigns, l: Log, m: Log, a: AppendArgs, b: AppendArgs)
    requires LogOk(rs, l) && LogOk(rs, m) && SliceOf(m, a) && SliceOf(m, b) && Extends(l, a) && Extends(l, b)
    ensures LogOk(rs, Merged(l, a)) && Extends(Merged(l, a), b)
  {
    hide LogOk, Merge;
    MergeResult(rs, l, m, a);
    LogMatching(rs, l, m, a.prevLogIndex);
    LogMatching(rs, l, m, b.prevLogIndex);
    if !Agree(l, m, BatchEnd(a)) {
      LogOkPrefix(rs, m, BatchEnd(a));
      KeepsAgreement(rs, l, m, a, b.prevLogIndex);
    }
  }

  /** What a merge cuts off lies behind its batch, or disagreed with the leader. */
  lemma KeepsAgreement(rs: Reigns, l: Log, m: Log, a: AppendArgs, x: nat)
    requires LogOk(rs, l) && LogOk(rs, m) && SliceOf(m, a) && Extends(l, a) && Agree(l, m, x)
    ensures Agree(Merged(l, a), m, x)
  {
    hide LogOk, Merge;
    MergeResult(rs, l, m, a);
    if !Agree(l, m, BatchEnd(a)) {
      if x >= BatchEnd(a) { AgreeBelow(l, m, x, BatchEnd(a)); }
      assert m[..BatchEnd(a) + 1][..x + 1] == m[..x + 1];
    }
  }

  /** Two batches of one leader's log lead to one log whatever their order; the one that reaches
      less far changes nothing after the other. */
  lemma BatchesCommute(rs: Reigns, l: Log, m: Log, a: AppendArgs, b: AppendArgs)
    requires LogOk(rs, l) && LogOk(rs, m) && SliceOf(m, a) && SliceOf(m, b) && Extends(l, a) && Extends(l, b)
    ensures Extends(Merged(l, a), b) && Extends(Merged(l, b), a)
    ensures Merged(Merged(l, a), b) == Merged(Merged(l, b), a)
    ensures BatchEnd(b) <= BatchEnd(a) ==> Merged(Merged(l, a), b) == Merged(l, a)
  {
    hide LogOk, Merge;
    MergedOk(rs, l, m, a, b);
    MergedOk(rs, l, m, b, a);
    MergeResult(rs, l, m, a);
    MergeResult(rs, l, m, b);
    MergeResult(rs, Merged(l, a), m, b);
    MergeResult(rs, Merged(l, b), m, a);
    var x, y := BatchEnd(a), BatchEnd(b);
    if Agree(l, m, x) && y <= x { AgreeBelow(l, m, x, y); }
    if Agree(l, m, y) && x <= y { AgreeBelow(l, m, y, x); }
    PrefixAgrees(m, x, y);
    PrefixAgrees(m, y, x);
  }

  lemma PrefixAgrees(m: Log, x: nat, y: nat)
    requires x < |m| && y < |m|
    ensures Agree(m[..x + 1], m, y) <==> y <= x
  {
    if y <= x { assert m[..x + 1][..y + 1] == m[..y + 1]; }
  }

  /**
   * In any run: two requests of one term that a node would accept leave it the same log in either
   * order, the second is accepted after the first, and one that reaches no further than the other
   * leaves the log as the other left it. In particular a request delivered twice acts once.
   */
  lemma RetransmissionIsHarmless(n: nat, ss: seq<State>, acts: seq<Action>, k: nat, i: nat,
                                 x: nat, a: AppendArgs, y: nat, b: AppendArgs)
    requires IsRun(n, ss, acts) && k < |ss| && i < |ss[k].nodes|
    requires AppendReq(x, i, a) in ss[k].sent && AppendReq(y, i, b) in ss[k].sent && a.term == b.term
    requires Accepts(ss[k].nodes[i], a) && Accepts(ss[k].nodes[i], b)
    ensures ss[k].nodes[i].Wf()
    ensures var m := ss[k].nodes[i];
            var ma, mb := OnAppendEntries(m, a).0, OnAppendEntries(m, b).0;
            && ma.Wf() && mb.Wf() && Accepts(ma, b) && Accepts(mb, a)
            && OnAppendEntries(ma, b).0.log == OnAppendEntries(mb, a).0.log
            && (BatchEnd(b) <= BatchEnd(a) ==> OnAppendEntries(ma, b).0.log == ma.log)
  {
    hide IsRun, Inv, Rel, Backs, CreditedRun, LogOk, Merge;
    var hs := RunHasHistory(n, ss, acts);
    Backed(ss, hs, k);
    NodeInHistory(ss[k], hs[k], i);
    NodeIsWf(ss[k], hs[k], i);
    BatchOfReign(ss[k], hs[k], i, x, a);
    BatchOfReign(ss[k], hs[k], i, y, b);
    var m := ss[k].nodes[i];
    BatchesCommute(hs[k].reigns, m.log, hs[k].reigns[a.term].log, a, b);
    PerformWf(m, HandleAppend(a));
    PerformWf(m, HandleAppend(b));
  }

  lemma NodeIsWf(s: State, h: History, i: nat)
    requires Rel(s, h) && i < |s.nodes|
    ensures s.nodes[i].Wf()
  {
    assert NodeRel(s.nodes[i], h, i);
  }

  lemma BatchOfReign(s: State, h: History, i: nat, call: nat, a: AppendArgs)
    requires Inv(h) && Rel(s, h) && AppendReq(call, i, a) in s.sent
    ensures a.term in h.reigns && SliceOf(h.reigns[a.term].log, a) && LogOk(h.reigns, h.reigns[a.term].log)
  {
    hide Inv, LogOk;
    assert RequestRel(h, AppendReq(call, i, a));
    ReignFact(h, a.term);
  }

  // ----- walking back -----

  /** The number of stretches of equal terms among the entries 1..k. */
  function Stretches(l: Log, k: nat): nat
    requires k < |l|
  {
    if k == 0 then 0
    else Stretches(l, k - 1) + if k == 1 || l[k].term != l[k - 1].term then 1 else 0
  }

  /** The hint of a rejection is the start of the stretch, so everything before it has one less. */
  lemma {:induction false} HintSkipsAStretch(l: Log, k: nat)
    requires 1 <= k < |l|
    ensures 1 <= ConflictStart(l, k) <= k && Stretches(l, ConflictStart(l, k) - 1) + 1 == Stretches(l, k)
    decreases k
  {
    if k > 1 && l[k - 1].term == l[k].term { HintSkipsAStretch(l, k - 1); }
  }

  lemma {:induction false} StretchesMonotone(l: Log, j: nat, k: nat)
    requires j <= k < |l|
    ensures Stretches(l, j) <= Stretches(l, k)
    decreases k
  {
    if j < k { StretchesMonotone(l, j, k - 1); }
  }

  /** How many more rejections the position of the next request allows. */
  function Allowance(l: Log, next: nat): nat
    requires |l| >= 1 && next >= 1
  {
    if next - 1 >= |l| then 1 + Stretches(l, |l| - 1) else Stretches(l, next - 1)
  }

  /** A log without the entry the request builds on. */
  predicate Misses(l: Log, a: AppendArgs)
  {
    a.prevLogIndex >= |l| || l[a.prevLogIndex].term != a.prevLogTerm
  }

  /** The conflict index of a node with this log. */
  function Hint(l: Log, a: AppendArgs): nat
  {
    if a.prevLogIndex >= |l| then |l| else ConflictStart(l, a.prevLogIndex)
  }

  /** A rejection by a node with log l moves a leader with log lead strictly back and uses up some of
      the allowance. */
  lemma RejectionMovesBack(l: Log, a: AppendArgs, lead: Log)
    requires |l| >= 1 && l[0] == SENTINEL && SliceOf(lead, a) && lead[0] == SENTINEL && Misses(l, a)
    ensures var next, next' := a.prevLogIndex + 1, Min(Max(Hint(l, a), 1), |lead|);
            1 <= next' < next && Allowance(l, next') < Allowance(l, next)
  {
    hide ConflictStart, Stretches;
    if a.prevLogIndex < |l| {
      HintSkipsAStretch(l, a.prevLogIndex);
    }
  }

  function TermsIn(l: Log, k: nat): set<nat>
    requires k < |l|
  {
    set j | 1 <= j <= k :: l[j].term
  }

  /** One more entry adds its term, which is new unless the entry before has it too. */
  lemma TermsStep(l: Log, k: nat)
    requires Sorted(l) && 1 <= k < |l|
    ensures TermsIn(l, k) == TermsIn(l, k - 1) + {l[k].term}
    ensures l[k].term in TermsIn(l, k - 1) <==> k > 1 && l[k].term == l[k - 1].term
  {
  }

  lemma {:induction false} StretchesAreTerms(l: Log, k: nat)
    requires Sorted(l) && k < |l|
    ensures Stretches(l, k) == |TermsIn(l, k)|
    decreases k
  {
    if k == 0 {
      assert TermsIn(l, 0) == {};
    } else {
      hide TermsIn;
      StretchesAreTerms(l, k - 1);
      TermsStep(l, k);
      if k > 1 && l[k].term == l[k - 1].term {
        assert TermsIn(l, k) == TermsIn(l, k - 1);
      }
    }
  }

  lemma AllowanceBound(l: Log, next: nat)
    requires |l| >= 1 && next >= 1
    ensures Allowance(l, next) <= 1 + Stretches(l, |l| - 1)
  {
    hide Stretches;
    if next - 1 < |l| { StretchesMonotone(l, next - 1, |l| - 1); }
  }

  predicate LeaderOf(m: Node, peer: nat, t: nat)
  {
    m.Wf() && m.role == Leader && m.currentTerm == t && peer < m.size && 1 <= m.nextIndex[peer] <= |m.log|
  }

  /** In any run, once a leader aims right behind the match it has recorded for a peer, the peer
      accepts the request at every later moment, unless it has moved on to a later term. */
  lemma AcceptedOnceMatched(n: nat, ss: seq<State>, acts: seq<Action>, j: nat, i: nat, k: nat, p: nat)
    requires IsRun(n, ss, acts) && j <= k < |ss| && i < |ss[j].nodes| && p < |ss[k].nodes|
    requires LeaderOf(ss[j].nodes[i], p, ss[j].nodes[i].currentTerm)
    requires ss[j].nodes[i].nextIndex[p] == ss[j].nodes[i].matchIndex[p] + 1
    requires ss[k].nodes[p].currentTerm <= ss[j].nodes[i].currentTerm
    ensures Accepts(ss[k].nodes[p], BuildAppend(ss[j].nodes[i], p))
  {
    hide IsRun, Inv, Rel, Backs, CreditedRun;
    var x := ss[j].nodes[i].matchIndex[p];
    if x > 0 {
      AcknowledgementsHold(n, ss, acts, j, i, k, p);
      AgreeBelow(ss[k].nodes[p].log, ss[j].nodes[i].log, x, x);
    } else {
      var hs := RunHasHistory(n, ss, acts);
      Backed(ss, hs, k);
      NodeIsWf(ss[k], hs[k], p);
    }
  }
}
