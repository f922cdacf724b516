/**
 * The voting and replication history behind a cluster, as a step system of its own.
 *
 * A `History` keeps, besides the current term, role and log of every node, what a proof has to
 * remember: who voted for whom and with which log, the log each candidate stood with, the log of
 * each term's leader, and which log positions each node has acknowledged. Every durable write of
 * the real handlers is one of the steps below, so what the steps keep holds in the middle of a
 * handler as well.
 */
module Protocol {
  import opened Types

  datatype Vote = Vote(candidate: nat, log: Log)

  /** The leader of one term: who voted it in, its log as a candidate, its log so far. */
  datatype Reign = Reign(leader: nat, voters: set<nat>, base: Log, log: Log)

  /** `node` held the leader's log of `term` through `index`. */
  datatype Ack = Ack(term: nat, node: nat, index: nat)

  type Reigns = map<nat, Reign>

  datatype History = History(
    term: seq<nat>,
    role: seq<Role>,
    log: seq<Log>,
    tally: seq<set<nat>>,
    votes: map<(nat, nat), Vote>,
    cands: map<(nat, nat), Log>,
    reigns: Reigns,
    acks: set<Ack>)

  function Last(l: Log): LogEntry
    requires |l| >= 1
  {
    l[|l| - 1]
  }

  /** Section 5.4.1 of the Raft paper: a is at least as up to date as b. */
  ghost predicate UpToDate(a: Log, b: Log)
    requires |a| >= 1 && |b| >= 1
  {
    Last(a).term > Last(b).term || (Last(a).term == Last(b).term && |a| >= |b|)
  }

  // ----- invariants -----

  /** Up to index k the log is the log of the leader of the term found at k. */
  ghost predicate Anchored(rs: Reigns, l: Log, k: nat)
    requires k < |l|
  {
    l[k].term in rs && Agree(l, rs[l[k].term].log, k)
  }

  ghost predicate LogOk(rs: Reigns, l: Log)
  {
    && |l| >= 1
    && l[0] == SENTINEL
    && forall k :: 1 <= k < |l| ==> Anchored(rs, l, k)
  }

  ghost predicate TermsBelow(l: Log, t: nat)
  {
    forall k :: 0 <= k < |l| ==> l[k].term < t
  }

  ghost predicate VotedFor(h: History, t: nat, v: nat, c: nat)
  {
    (t, v) in h.votes && h.votes[(t, v)].candidate == c
  }

  ghost predicate ReignOk(h: History, t: nat)
    requires t in h.reigns
  {
    var r := h.reigns[t];
    && r.leader < |h.term|
    && (t, r.leader) in h.cands
    && h.cands[(t, r.leader)] == r.base
    && r.base < r.log
    && (forall k :: |r.base| <= k < |r.log| ==> r.log[k].term == t)
    && LogOk(h.reigns, r.log)
    && Majority(r.voters, |h.term|)
    && forall v :: v in r.voters ==> VotedFor(h, t, v, r.leader)
  }

  ghost predicate CandOk(h: History, t: nat, c: nat)
    requires (t, c) in h.cands
  {
    && c < |h.term|
    && VotedFor(h, t, c, c)
    && LogOk(h.reigns, h.cands[(t, c)])
    && TermsBelow(h.cands[(t, c)], t)
  }

  ghost predicate VoteOk(h: History, t: nat, v: nat)
    requires (t, v) in h.votes
  {
    var b := h.votes[(t, v)];
    && v < |h.term|
    && t <= h.term[v]
    && (t, b.candidate) in h.cands
    && |h.cands[(t, b.candidate)]| >= 1
    && LogOk(h.reigns, b.log)
    && UpToDate(h.cands[(t, b.candidate)], b.log)
  }

  ghost predicate NodeOk(h: History, i: nat)
    requires Shape(h) && i < |h.term|
  {
    && LogOk(h.reigns, h.log[i])
    && TermsBelow(h.log[i], h.term[i] + 1)
    && (h.role[i] == Candidate ==> CandidateOk(h, i))
    && (h.role[i] == Leader ==>
          && h.term[i] in h.reigns
          && h.reigns[h.term[i]].leader == i
          && h.reigns[h.term[i]].log == h.log[i])
  }

  ghost predicate CandidateOk(h: History, i: nat)
    requires Shape(h) && i < |h.term|
  {
    && (h.term[i], i) in h.cands
    && h.cands[(h.term[i], i)] == h.log[i]
    && (forall v :: v in h.tally[i] ==> v < |h.term| && VotedFor(h, h.term[i], v, i))
    && !(h.term[i] in h.reigns && h.reigns[h.term[i]].leader == i)
  }

  /** The leader of `later` was elected without the entries of `t`'s leader through `index`. */
  ghost predicate Lacks(rs: Reigns, t: nat, index: nat, later: nat)
  {
    t in rs && later in rs && t < later && !Agree(rs[later].base, rs[t].log, index)
  }

  /** l holds what was acknowledged, or a leader of a term in (t, bound] was elected without it. */
  ghost predicate HeldOrLacked(rs: Reigns, t: nat, index: nat, l: Log, bound: nat)
    requires t in rs
  {
    Agree(l, rs[t].log, index) || exists u: nat :: u <= bound && Lacks(rs, t, index, u)
  }

  ghost predicate AckOk(h: History, a: Ack)
    requires Shape(h)
  {
    && a.node < |h.term|
    && a.term in h.reigns
    && a.index < |h.reigns[a.term].log|
    && a.term <= h.term[a.node]
    && HeldOrLacked(h.reigns, a.term, a.index, h.log[a.node], h.term[a.node])
  }

  /** A vote that elected the leader of term t (or may still do so) was cast with every
      acknowledged entry of earlier terms, unless an earlier leader already lacked it. */
  ghost predicate BallotOk(h: History, t: nat, v: nat, a: Ack)
    requires (t, v) in h.votes
  {
    a in h.acks && a.node == v && a.term < t && (t in h.reigns ==> v in h.reigns[t].voters) ==>
      a.term in h.reigns && HeldOrLacked(h.reigns, a.term, a.index, h.votes[(t, v)].log, t - 1)
  }

  ghost predicate Shape(h: History)
  {
    |h.term| == |h.role| == |h.log| == |h.tally|
  }

  ghost predicate Inv(h: History)
  {
    && Shape(h)
    && (forall t :: t in h.reigns ==> ReignOk(h, t))
    && (forall t, c :: (t, c) in h.cands ==> CandOk(h, t, c))
    && (forall t, v :: (t, v) in h.votes ==> VoteOk(h, t, v))
    && (forall i :: 0 <= i < |h.term| ==> NodeOk(h, i))
    && (forall a :: a in h.acks ==> AckOk(h, a))
    && (forall t, v, a :: (t, v) in h.votes && a in h.acks ==> BallotOk(h, t, v, a))
  }

  lemma ShapeFact(h: History)
    requires Inv(h)
    ensures Shape(h)
  {
  }

  lemma NodeFact(h: History, i: nat)
    requires Inv(h) && i < |h.term|
    ensures Shape(h) && NodeOk(h, i)
  {
  }

  lemma ReignFact(h: History, t: nat)
    requires Inv(h) && t in h.reigns
    ensures ReignOk(h, t)
  {
  }

  lemma CandFact(h: History, t: nat, c: nat)
    requires Inv(h) && (t, c) in h.cands
    ensures CandOk(h, t, c)
  {
  }

  lemma VoteFact(h: History, t: nat, v: nat)
    requires Inv(h) && (t, v) in h.votes
    ensures VoteOk(h, t, v)
  {
  }

  lemma AckFact(h: History, a: Ack)
    requires Inv(h) && a in h.acks
    ensures Shape(h) && AckOk(h, a)
  {
  }

  lemma BallotFact(h: History, t: nat, v: nat, a: Ack)
    requires Inv(h) && (t, v) in h.votes && a in h.acks
    ensures BallotOk(h, t, v, a)
  {
  }

  lemma InvIntro(h: History)
    requires Shape(h)
    requires forall t :: t in h.reigns ==> ReignOk(h, t)
    requires forall t, c :: (t, c) in h.cands ==> CandOk(h, t, c)
    requires forall t, v :: (t, v) in h.votes ==> VoteOk(h, t, v)
    requires forall i :: 0 <= i < |h.term| ==> NodeOk(h, i)
    requires forall a :: a in h.acks ==> AckOk(h, a)
    requires forall t, v, a :: (t, v) in h.votes && a in h.acks ==> BallotOk(h, t, v, a)
    ensures Inv(h)
  {
  }

  // ----- growth -----

  ghost predicate ReignsGrow(a: Reigns, b: Reigns)
  {
    forall t :: t in a ==>
      && t in b
      && b[t].leader == a[t].leader
      && b[t].voters == a[t].voters
      && b[t].base == a[t].base
      && a[t].log <= b[t].log
  }

  /** Nothing recorded is ever forgotten. */
  ghost predicate Grows(a: History, b: History)
  {
    && Shape(a) && Shape(b)
    && |a.term| == |b.term|
    && (forall i :: 0 <= i < |a.term| ==> a.term[i] <= b.term[i])
    && (forall k :: k in a.votes ==> k in b.votes && a.votes[k] == b.votes[k])
    && (forall k :: k in a.cands ==> k in b.cands && a.cands[k] == b.cands[k])
    && ReignsGrow(a.reigns, b.reigns)
    && a.acks <= b.acks
  }

  lemma GrowsTransitive(a: History, b: History, c: History)
    requires Grows(a, b) && Grows(b, c)
    ensures Grows(a, c)
  {
    forall t | t in a.reigns
      ensures t in c.reigns && c.reigns[t].leader == a.reigns[t].leader
      ensures c.reigns[t].voters == a.reigns[t].voters && c.reigns[t].base == a.reigns[t].base
      ensures a.reigns[t].log <= c.reigns[t].log
    {
      assert t in b.reigns;
    }
  }

  lemma LogOkGrows(a: Reigns, b: Reigns, l: Log)
    requires ReignsGrow(a, b) && LogOk(a, l)
    ensures LogOk(b, l)
  {
    forall k | 1 <= k < |l| ensures Anchored(b, l, k) {
      assert Anchored(a, l, k);
      AgreeExtends(l, a[l[k].term].log, l, b[l[k].term].log, k);
    }
  }

  lemma HeldOrLackedGrows(a: Reigns, b: Reigns, t: nat, index: nat, l: Log, l': Log, bound: nat, bound': nat)
    requires ReignsGrow(a, b) && t in a && index < |a[t].log|
    requires HeldOrLacked(a, t, index, l, bound) && bound <= bound'
    requires Agree(l, a[t].log, index) ==> Agree(l', a[t].log, index)
    ensures HeldOrLacked(b, t, index, l', bound')
  {
    if Agree(l, a[t].log, index) {
      AgreeExtends(l', a[t].log, l', b[t].log, index);
    } else {
      var u: nat :| u <= bound && Lacks(a, t, index, u);
      assert b[t].log[..index + 1] == a[t].log[..index + 1];
      assert u <= bound' && Lacks(b, t, index, u);
    }
  }

  // ----- facts about logs -----

  /** Terms never fall along a log of the system. */
  lemma TermsSorted(h: History, l: Log, j: nat, k: nat)
    requires Inv(h) && LogOk(h.reigns, l) && j <= k < |l|
    ensures l[j].term <= l[k].term
  {
    hide Inv;
    if 1 <= j < k {
      assert Anchored(h.reigns, l, k);
      var t := l[k].term;
      AgreeBelow(l, h.reigns[t].log, k, j);
      var r := h.reigns[t];
      ReignFact(h, t);
      if j < |r.base| {
        CandFact(h, t, r.leader);
        assert r.base[j] == r.log[j];
      }
    }
  }

  /** Log Matching: one common term at one index makes the logs equal through it. */
  lemma LogMatching(rs: Reigns, a: Log, b: Log, k: nat)
    requires LogOk(rs, a) && LogOk(rs, b)
    requires k < |a| && k < |b| && a[k].term == b[k].term
    ensures Agree(a, b, k)
  {
    if k > 0 {
      assert Anchored(rs, a, k) && Anchored(rs, b, k);
    }
  }

  /** Election Safety: two sets of voters of one term that are majorities name one candidate. */
  lemma OneWinner(h: History, t: nat, a: set<nat>, c: nat, b: set<nat>, d: nat)
    requires Inv(h)
    requires Majority(a, |h.term|) && (forall v :: v in a ==> VotedFor(h, t, v, c))
    requires Majority(b, |h.term|) && (forall v :: v in b ==> VotedFor(h, t, v, d))
    ensures c == d
  {
    hide Inv;
    var v := MajoritiesMeet(a, b, |h.term|);
    assert VotedFor(h, t, v, c) && VotedFor(h, t, v, d);
  }

  // ----- Leader Completeness -----

  ghost predicate HeldBy(h: History, t: nat, n: nat, q: set<nat>)
  {
    forall v :: v in q ==> Ack(t, v, n) in h.acks
  }

  /** A majority acknowledged index n to the leader of term t, and the entry there is of term t. */
  ghost predicate Committed(h: History, t: nat, n: nat)
  {
    && t in h.reigns
    && n < |h.reigns[t].log|
    && h.reigns[t].log[n].term == t
    && exists q :: Majority(q, |h.term|) && HeldBy(h, t, n, q)
  }

  lemma CommittedGrows(a: History, b: History, t: nat, n: nat)
    requires Grows(a, b) && Committed(a, t, n)
    ensures Committed(b, t, n)
    ensures Agree(a.reigns[t].log, b.reigns[t].log, n)
  {
    var q :| Majority(q, |a.term|) && HeldBy(a, t, n, q);
    assert HeldBy(b, t, n, q);
    assert b.reigns[t].log[..n + 1] == a.reigns[t].log[..n + 1];
    assert b.reigns[t].log[n] == a.reigns[t].log[n];
  }

  /** Every leader of a later term was elected with every committed entry. */
  lemma {:induction false} LeaderCompleteness(h: History, t: nat, n: nat, u: nat)
    requires Inv(h) && Committed(h, t, n) && t < u && u in h.reigns
    ensures Agree(h.reigns[u].base, h.reigns[t].log, n)
    decreases u, 1
  {
    hide Inv;
    var r := h.reigns[u];
    var q :| Majority(q, |h.term|) && HeldBy(h, t, n, q);
    ReignFact(h, u);
    CandFact(h, u, r.leader);
    var v := MajoritiesMeet(q, r.voters, |h.term|);
    assert Ack(t, v, n) in h.acks && VotedFor(h, u, v, r.leader);
    var ballot := h.votes[(u, v)].log;
    VoteFact(h, u, v);
    BallotFact(h, u, v, Ack(t, v, n));
    if !Agree(ballot, h.reigns[t].log, n) {
      var w: nat :| w <= u - 1 && Lacks(h.reigns, t, n, w);
      LeaderCompleteness(h, t, n, w);
      assert false;
    }
    AgreeBelow(ballot, h.reigns[t].log, n, n);
    TermsSorted(h, ballot, n, |ballot| - 1);
    LastTermSuffices(h, t, n, u);
  }

  /** A candidate log that ends in a term of t or later holds t's committed entries, given that
      the leaders of the terms in between do. */
  lemma {:induction false} LastTermSuffices(h: History, t: nat, n: nat, u: nat)
    requires Inv(h) && Committed(h, t, n) && t < u && u in h.reigns
    requires |h.reigns[u].base| >= 1
    requires Last(h.reigns[u].base).term >= t
    requires Last(h.reigns[u].base).term == t ==> |h.reigns[u].base| > n
    ensures Agree(h.reigns[u].base, h.reigns[t].log, n)
    decreases u, 0
  {
    hide Inv;
    var base := h.reigns[u].base;
    var k := |base| - 1;
    var w := base[k].term;
    ReignFact(h, u);
    CandFact(h, u, h.reigns[u].leader);
    ReignFact(h, t);
    CandFact(h, t, h.reigns[t].leader);
    assert k != 0;
    assert Anchored(h.reigns, base, k);
    if w == t {
      AgreeBelow(base, h.reigns[t].log, k, n);
    } else {
      LeaderCompleteness(h, t, n, w);
      var earlier := h.reigns[w];
      ReignFact(h, w);
      CandFact(h, w, earlier.leader);
      assert base[k] == earlier.log[k] by { AgreeBelow(base, earlier.log, k, k); }
      assert forall j :: 0 <= j < |earlier.base| ==> earlier.log[j] == earlier.base[j];
      assert k >= |earlier.base|;
      AgreeExtends(earlier.base, h.reigns[t].log, earlier.log, h.reigns[t].log, n);
      AgreeBelow(base, earlier.log, k, n);
      AgreeTransitive(base, earlier.log, h.reigns[t].log, n);
    }
  }
}
