/**
 * The steps of a history and the proof that each keeps the invariants and only adds to what is
 * recorded. The cluster proof maps every durable write of a handler to one of these steps.
 */
module ProtocolSteps {
  import opened Types
  import opened Protocol

  /** What every step promises. */
  ghost predicate Kept(h: History, h': History)
  {
    Inv(h') && Grows(h, h')
  }

  /** Node i learns of a higher term and forgets its vote. */
  ghost function Bump(h: History, i: nat, t: nat): History
    requires Shape(h) && i < |h.term|
  {
    h.(term := h.term[i := t], role := h.role[i := Follower])
  }

  lemma BumpKeeps(h: History, i: nat, t: nat)
    requires Inv(h) && i < |h.term| && t >= h.term[i]
    ensures Kept(h, Bump(h, i, t))
  {
    hide Inv;
    ShapeFact(h);
    var h' := Bump(h, i, t);
    FrameRecords(h, h');
    forall j | 0 <= j < |h'.term| ensures NodeOk(h', j) {
      NodeFact(h, j);
    }
    forall a | a in h'.acks ensures AckOk(h', a) {
      AckFact(h, a);
      HeldOrLackedGrows(h.reigns, h'.reigns, a.term, a.index, h.log[a.node], h.log[a.node],
                        h.term[a.node], h'.term[a.node]);
    }
    InvIntro(h');
  }

  /** Steps that leave votes, candidacies, reigns and acknowledgements alone keep what is said
      about them. */
  lemma FrameRecords(h: History, h': History)
    requires Inv(h) && Shape(h') && |h'.term| == |h.term|
    requires h'.votes == h.votes && h'.cands == h.cands && h'.reigns == h.reigns && h'.acks == h.acks
    requires forall i :: 0 <= i < |h.term| ==> h.term[i] <= h'.term[i]
    ensures Grows(h, h')
    ensures forall t :: t in h'.reigns ==> ReignOk(h', t)
    ensures forall t, c :: (t, c) in h'.cands ==> CandOk(h', t, c)
    ensures forall t, v :: (t, v) in h'.votes ==> VoteOk(h', t, v)
    ensures forall t, v, a :: (t, v) in h'.votes && a in h'.acks ==> BallotOk(h', t, v, a)
  {
    hide Inv;
    ShapeFact(h);
    forall t | t in h'.reigns ensures ReignOk(h', t) {
      ReignFact(h, t);
      forall v | v in h.reigns[t].voters ensures VotedFor(h', t, v, h.reigns[t].leader) {
        assert VotedFor(h, t, v, h.reigns[t].leader);
      }
    }
    forall t, c | (t, c) in h'.cands ensures CandOk(h', t, c) {
      CandFact(h, t, c);
    }
    forall t, v | (t, v) in h'.votes ensures VoteOk(h', t, v) {
      VoteFact(h, t, v);
    }
    forall t, v, a | (t, v) in h'.votes && a in h'.acks ensures BallotOk(h', t, v, a) {
      BallotFact(h, t, v, a);
    }
  }

  /** A vote and a candidacy recorded for a node and term that had none keep what is said about
      the older ones. */
  lemma FrameNewVote(h: History, h': History, t0: nat, v0: nat)
    requires Inv(h) && Shape(h') && |h'.term| == |h.term|
    requires (t0, v0) !in h.votes && (t0, v0) in h'.votes
    requires h'.votes == h.votes[(t0, v0) := h'.votes[(t0, v0)]]
    requires h'.cands == h.cands || h'.cands == h.cands[(t0, v0) := h'.votes[(t0, v0)].log]
    requires h'.reigns == h.reigns && h'.acks == h.acks
    requires forall i :: 0 <= i < |h.term| ==> h.term[i] <= h'.term[i]
    ensures Grows(h, h')
    ensures forall t :: t in h'.reigns ==> ReignOk(h', t)
    ensures forall t, c :: (t, c) in h.cands ==> CandOk(h', t, c)
    ensures forall t, v :: (t, v) in h.votes ==> VoteOk(h', t, v)
    ensures forall t, v, a :: (t, v) in h.votes && a in h'.acks ==> BallotOk(h', t, v, a)
  {
    hide Inv, LogOk, HeldOrLacked, UpToDate, Majority, TermsBelow;
    ShapeFact(h);
    if (t0, v0) in h.cands { CandFact(h, t0, v0); }
    forall t | t in h'.reigns ensures ReignOk(h', t) {
      ReignFact(h, t);
      forall v | v in h.reigns[t].voters ensures VotedFor(h', t, v, h.reigns[t].leader) {
        assert VotedFor(h, t, v, h.reigns[t].leader);
      }
    }
    forall t, c | (t, c) in h.cands ensures CandOk(h', t, c) {
      CandFact(h, t, c);
    }
    forall t, v | (t, v) in h.votes ensures VoteOk(h', t, v) {
      VoteFact(h, t, v);
    }
    forall t, v, a | (t, v) in h.votes && a in h'.acks ensures BallotOk(h', t, v, a) {
      BallotFact(h, t, v, a);
    }
  }

  /** What a node may still say about its acknowledgements when it votes in term t. */
  lemma FreshBallot(h: History, h': History, t: nat, v: nat, a: Ack)
    requires Inv(h) && a in h.acks && v < |h.term| && h.term[v] <= t
    requires (t, v) !in h.votes && (t, v) in h'.votes && h'.votes[(t, v)].log == h.log[v]
    requires h'.reigns == h.reigns
    ensures BallotOk(h', t, v, a)
  {
    hide Inv;
    ShapeFact(h);
    AckFact(h, a);
    if a.node == v && a.term < t && (t in h.reigns ==> v in h.reigns[t].voters) {
      if t in h.reigns { ReignFact(h, t); }
      if !Agree(h.log[v], h.reigns[a.term].log, a.index) {
        var u: nat :| u <= h.term[v] && Lacks(h.reigns, a.term, a.index, u);
        assert u <= t - 1 && Lacks(h'.reigns, a.term, a.index, u);
      }
    }
  }

  /** Node i starts an election in the next term and votes for itself. */
  ghost function Stand(h: History, i: nat): History
    requires Shape(h) && i < |h.term|
  {
    var t := h.term[i] + 1;
    h.(term := h.term[i := t],
       role := h.role[i := Candidate],
       tally := h.tally[i := {i}],
       votes := h.votes[(t, i) := Vote(i, h.log[i])],
       cands := h.cands[(t, i) := h.log[i]])
  }

  lemma StandKeeps(h: History, i: nat)
    requires Inv(h) && i < |h.term|
    ensures Kept(h, Stand(h, i))
  {
    hide Inv;
    NodeFact(h, i);
    assert |h.log[i]| >= 1;
    hide LogOk;
    var h' := Stand(h, i);
    var t := h.term[i] + 1;
    if (t, i) in h.votes { VoteFact(h, t, i); }
    if (t, i) in h.cands { CandFact(h, t, i); }
    if t in h.reigns { ReignFact(h, t); }
    FrameNewVote(h, h', t, i);
    assert CandOk(h', t, i);
    assert VoteOk(h', t, i);
    AcksAfterStand(h, i);
    NodesAfterVote(h, h', t, i);
    InvIntro(h');
  }

  lemma AcksAfterStand(h: History, i: nat)
    requires Inv(h) && Shape(h) && i < |h.term| && (h.term[i] + 1, i) !in h.votes
    ensures var h' := Stand(h, i);
            forall a :: a in h'.acks ==> BallotOk(h', h.term[i] + 1, i, a) && AckOk(h', a)
  {
    hide Inv, LogOk, HeldOrLacked, BallotOk;
    var h', t := Stand(h, i), h.term[i] + 1;
    forall a | a in h'.acks ensures BallotOk(h', t, i, a) && AckOk(h', a) {
      FreshBallot(h, h', t, i, a);
      AckFact(h, a);
      HeldOrLackedGrows(h.reigns, h'.reigns, a.term, a.index, h.log[a.node], h.log[a.node],
                        h.term[a.node], h'.term[a.node]);
    }
  }

  lemma NodesAfterVote(h: History, h': History, t: nat, i: nat)
    requires Inv(h) && Shape(h') && |h'.term| == |h.term| && i < |h.term|
    requires h'.reigns == h.reigns && h'.log == h.log
    requires forall k :: k in h.votes ==> k in h'.votes && h'.votes[k] == h.votes[k]
    requires forall k :: k in h.cands ==> k in h'.cands && h'.cands[k] == h.cands[k]
    requires forall j :: 0 <= j < |h.term| && j != i ==>
               h'.term[j] == h.term[j] && h'.role[j] == h.role[j] && h'.tally[j] == h.tally[j]
    requires h'.term[i] >= h.term[i] && h'.role[i] != Leader
    requires h'.role[i] == Candidate ==> CandidateOk(h', i)
    ensures forall j :: 0 <= j < |h'.term| ==> NodeOk(h', j)
  {
    hide Inv;
    ShapeFact(h);
    forall j | 0 <= j < |h'.term| ensures NodeOk(h', j) {
      NodeFact(h, j);
      if j != i && h.role[j] == Candidate {
        forall v | v in h'.tally[j] ensures v < |h.term| && VotedFor(h', h'.term[j], v, j) {
          assert VotedFor(h, h.term[j], v, j);
        }
      }
    }
  }

  /** Node i, which has not voted in its term, votes for candidate c. */
  ghost function Cast(h: History, i: nat, c: nat): History
    requires Shape(h) && i < |h.term|
  {
    h.(votes := h.votes[(h.term[i], i) := Vote(c, h.log[i])])
  }

  lemma CastKeeps(h: History, i: nat, c: nat)
    requires Inv(h) && i < |h.term| && (h.term[i], i) !in h.votes
    requires h.role[i] == Follower
    requires (h.term[i], c) in h.cands && |h.cands[(h.term[i], c)]| >= 1 && |h.log[i]| >= 1
    requires UpToDate(h.cands[(h.term[i], c)], h.log[i])
    ensures Kept(h, Cast(h, i, c))
  {
    hide Inv;
    ShapeFact(h);
    var h' := Cast(h, i, c);
    var t := h.term[i];
    NodeFact(h, i);
    FrameNewVote(h, h', t, i);
    assert VoteOk(h', t, i);
    forall a | a in h'.acks ensures BallotOk(h', t, i, a) && AckOk(h', a) {
      FreshBallot(h, h', t, i, a);
      AckFact(h, a);
    }
    NodesAfterVote(h, h', t, i);
    InvIntro(h');
  }

  /** Candidate i receives the vote of v. */
  ghost function Count(h: History, i: nat, v: nat): History
    requires Shape(h) && i < |h.term|
  {
    h.(tally := h.tally[i := h.tally[i] + {v}])
  }

  lemma CountKeeps(h: History, i: nat, v: nat)
    requires Inv(h) && i < |h.term| && v < |h.term| && VotedFor(h, h.term[i], v, i)
    ensures Kept(h, Count(h, i, v))
  {
    hide Inv;
    ShapeFact(h);
    var h' := Count(h, i, v);
    FrameRecords(h, h');
    forall j | 0 <= j < |h'.term| ensures NodeOk(h', j) {
      NodeFact(h, j);
      if h.role[j] == Candidate {
        forall w | w in h'.tally[j] ensures w < |h.term| && VotedFor(h', h'.term[j], w, j) {
          assert w in h.tally[j] ==> VotedFor(h, h.term[j], w, j);
          assert VotedFor(h, h.term[i], v, i);
        }
      }
    }
    forall a | a in h'.acks ensures AckOk(h', a) {
      AckFact(h, a);
    }
    InvIntro(h');
  }

  /** Candidate i, with a majority, becomes leader and appends the first entry of its term. */
  ghost function Elect(h: History, i: nat, e: LogEntry): History
    requires Shape(h) && i < |h.term|
  {
    var l := h.log[i] + [e];
    h.(role := h.role[i := Leader],
       log := h.log[i := l],
       reigns := h.reigns[h.term[i] := Reign(i, h.tally[i], h.log[i], l)])
  }

  lemma ElectKeeps(h: History, i: nat, e: LogEntry)
    requires Inv(h) && i < |h.term| && h.role[i] == Candidate && Majority(h.tally[i], |h.term|)
    requires e.term == h.term[i]
    ensures Kept(h, Elect(h, i, e))
    ensures h.term[i] !in h.reigns
  {
    hide Inv;
    ShapeFact(h);
    var h' := Elect(h, i, e);
    var t := h.term[i];
    NodeFact(h, i);
    CandFact(h, t, i);
    assert forall v :: v in h.tally[i] ==> VotedFor(h, t, v, i);
    assert t !in h.reigns by {
      if t in h.reigns {
        ReignFact(h, t);
        OneWinner(h, t, h.tally[i], i, h.reigns[t].voters, h.reigns[t].leader);
      }
    }
    assert ReignsGrow(h.reigns, h'.reigns);
    LogsAfterReign(h, h', i, t);
  }

  /** h' differs from h in one more entry of the log of node i, which is, or now becomes, the
      leader of its term t. */
  ghost predicate LeaderGrew(h: History, h': History, i: nat, t: nat)
  {
    && Shape(h) && Shape(h') && i < |h.term| && h.term[i] == t
    && h'.term == h.term && h'.votes == h.votes && h'.cands == h.cands
    && h'.acks == h.acks && h'.tally == h.tally
    && |h'.log| == |h.log| && h.log[i] < h'.log[i] && h'.log == h.log[i := h'.log[i]]
    && |h'.log[i]| == |h.log[i]| + 1 && Last(h'.log[i]).term == t
    && h'.role == h.role[i := Leader]
    && t in h'.reigns && h'.reigns == h.reigns[t := h'.reigns[t]]
    && ReignsGrow(h.reigns, h'.reigns)
    && h'.reigns[t].log == h'.log[i] && h'.reigns[t].leader == i
    && (t in h.reigns ==> h.role[i] == Leader)
    && (t !in h.reigns ==>
          && h.role[i] == Candidate
          && h'.reigns[t].base == h.log[i]
          && h'.reigns[t].voters == h.tally[i]
          && Majority(h.tally[i], |h.term|))
  }

  lemma LogsAfterReign(h: History, h': History, i: nat, t: nat)
    requires Inv(h) && LeaderGrew(h, h', i, t)
    ensures Kept(h, h')
  {
    hide Inv;
    LeaderLogAfter(h, h', i, t);
    ReignsAfter(h, h', i, t);
    RecordsAfterReign(h, h', i, t);
    AcksAfterReign(h, h', i, t);
    NodesAfterReign(h, h', i, t);
    InvIntro(h');
  }

  lemma LeaderLogAfter(h: History, h': History, i: nat, t: nat)
    requires Inv(h) && LeaderGrew(h, h', i, t)
    ensures LogOk(h'.reigns, h'.log[i])
  {
    hide Inv;
    NodeFact(h, i);
    var l := h'.log[i];
    LogOkGrows(h.reigns, h'.reigns, h.log[i]);
    forall k | 1 <= k < |l| ensures Anchored(h'.reigns, l, k) {
      if k < |h.log[i]| {
        assert Anchored(h'.reigns, h.log[i], k);
        AgreeExtends(h.log[i], h'.reigns[l[k].term].log, l, h'.reigns[l[k].term].log, k);
      }
    }
  }

  lemma ReignsAfter(h: History, h': History, i: nat, t: nat)
    requires Inv(h) && LeaderGrew(h, h', i, t) && LogOk(h'.reigns, h'.log[i])
    ensures forall u :: u in h'.reigns ==> ReignOk(h', u)
  {
    hide Inv;
    forall u | u in h'.reigns ensures ReignOk(h', u) {
      if u == t {
        TopReignAfter(h, h', i, t);
      } else {
        ReignFact(h, u);
        LogOkGrows(h.reigns, h'.reigns, h.reigns[u].log);
        forall v | v in h.reigns[u].voters ensures VotedFor(h', u, v, h.reigns[u].leader) {
          assert VotedFor(h, u, v, h.reigns[u].leader);
        }
      }
    }
  }

  lemma TopReignAfter(h: History, h': History, i: nat, t: nat)
    requires Inv(h) && LeaderGrew(h, h', i, t) && LogOk(h'.reigns, h'.log[i])
    ensures ReignOk(h', t)
  {
    hide Inv;
    hide LogOk;
    NodeFact(h, i);
    var voters := h'.reigns[t].voters;
    if t in h.reigns {
      ReignFact(h, t);
      forall v | v in voters ensures VotedFor(h', t, v, i) {
        assert VotedFor(h, t, v, i);
      }
    } else {
      forall v | v in voters ensures VotedFor(h', t, v, i) {
        assert VotedFor(h, t, v, i);
      }
    }
  }

  lemma RecordsAfterReign(h: History, h': History, i: nat, t: nat)
    requires Inv(h) && LeaderGrew(h, h', i, t)
    ensures forall u, c :: (u, c) in h'.cands ==> CandOk(h', u, c)
    ensures forall u, v :: (u, v) in h'.votes ==> VoteOk(h', u, v)
  {
    hide Inv;
    forall u, c | (u, c) in h'.cands ensures CandOk(h', u, c) {
      CandFact(h, u, c);
      LogOkGrows(h.reigns, h'.reigns, h.cands[(u, c)]);
    }
    forall u, v | (u, v) in h'.votes ensures VoteOk(h', u, v) {
      VoteFact(h, u, v);
      LogOkGrows(h.reigns, h'.reigns, h.votes[(u, v)].log);
    }
  }

  lemma NodesAfterReign(h: History, h': History, i: nat, t: nat)
    requires Inv(h) && LeaderGrew(h, h', i, t) && LogOk(h'.reigns, h'.log[i])
    ensures forall j :: 0 <= j < |h'.term| ==> NodeOk(h', j)
  {
    hide Inv;
    forall j | 0 <= j < |h'.term| ensures NodeOk(h', j) {
      NodeFact(h, j);
      if j != i {
        LogOkGrows(h.reigns, h'.reigns, h.log[j]);
        if h.role[j] == Candidate {
          forall v | v in h'.tally[j] ensures v < |h.term| && VotedFor(h', h'.term[j], v, j) {
            assert VotedFor(h, h.term[j], v, j);
          }
        }
      }
    }
  }

  lemma AcksAfterReign(h: History, h': History, i: nat, t: nat)
    requires Inv(h) && LeaderGrew(h, h', i, t)
    ensures forall a :: a in h'.acks ==> AckOk(h', a)
    ensures forall u, v, a :: (u, v) in h'.votes && a in h'.acks ==> BallotOk(h', u, v, a)
  {
    hide Inv;
    forall a | a in h'.acks ensures AckOk(h', a) {
      AckFact(h, a);
      var l, l' := h.log[a.node], h'.log[a.node];
      if Agree(l, h.reigns[a.term].log, a.index) {
        AgreeExtends(l, h.reigns[a.term].log, l', h.reigns[a.term].log, a.index);
      }
      HeldOrLackedGrows(h.reigns, h'.reigns, a.term, a.index, l, l', h.term[a.node], h.term[a.node]);
    }
    forall u, v, a | (u, v) in h'.votes && a in h'.acks ensures BallotOk(h', u, v, a) {
      AckFact(h, a);
      BallotFact(h, u, v, a);
      if a.node == v && a.term < u && (u in h'.reigns ==> v in h'.reigns[u].voters) {
        HeldOrLackedGrows(h.reigns, h'.reigns, a.term, a.index, h.votes[(u, v)].log,
                          h.votes[(u, v)].log, u - 1, u - 1);
      }
    }
  }

  /** Leader i appends an entry of its own term. */
  ghost function Extend(h: History, i: nat, e: LogEntry): History
    requires Shape(h) && i < |h.term| && h.term[i] in h.reigns
  {
    var l := h.log[i] + [e];
    h.(log := h.log[i := l],
       reigns := h.reigns[h.term[i] := h.reigns[h.term[i]].(log := l)])
  }

  lemma ExtendKeeps(h: History, i: nat, e: LogEntry)
    requires Inv(h) && i < |h.term| && h.role[i] == Leader && e.term == h.term[i]
    ensures h.term[i] in h.reigns
    ensures Kept(h, Extend(h, i, e))
  {
    hide Inv;
    ShapeFact(h);
    NodeFact(h, i);
    ReignFact(h, h.term[i]);
    var h' := Extend(h, i, e);
    assert h'.role == h.role[i := Leader];
    assert ReignsGrow(h.reigns, h'.reigns);
    LogsAfterReign(h, h', i, h.term[i]);
  }

  /** Follower i drops its entries from pos on: the entry there is not the leader's. */
  ghost function Cut(h: History, i: nat, pos: nat): History
    requires Shape(h) && i < |h.term| && pos <= |h.log[i]|
  {
    h.(log := h.log[i := h.log[i][..pos]])
  }

  lemma CutKeeps(h: History, i: nat, pos: nat)
    requires Inv(h) && i < |h.term| && h.role[i] == Follower && h.term[i] in h.reigns
    requires 1 <= pos < |h.log[i]| && pos < |h.reigns[h.term[i]].log|
    requires h.log[i][pos].term != h.reigns[h.term[i]].log[pos].term
    ensures Kept(h, Cut(h, i, pos))
  {
    hide Inv;
    ShapeFact(h);
    var h' := Cut(h, i, pos);
    var l, l' := h.log[i], h.log[i][..pos];
    var t := h.term[i];
    NodeFact(h, i);
    ReignFact(h, t);
    FrameRecords(h, h');
    forall k | 1 <= k < |l'| ensures Anchored(h'.reigns, l', k) {
      assert Anchored(h.reigns, l, k);
      assert l'[..k + 1] == l[..k + 1];
    }
    forall j | 0 <= j < |h'.term| ensures NodeOk(h', j) {
      NodeFact(h, j);
    }
    AcksAfterCut(h, i, pos);
    InvIntro(h');
  }

  lemma AcksAfterCut(h: History, i: nat, pos: nat)
    requires Inv(h) && Shape(h) && i < |h.term| && h.term[i] in h.reigns
    requires 1 <= pos < |h.log[i]| && pos < |h.reigns[h.term[i]].log|
    requires h.log[i][pos].term != h.reigns[h.term[i]].log[pos].term
    ensures var h' := Cut(h, i, pos);
            forall a :: a in h'.acks ==> AckOk(h', a)
  {
    hide Inv, LogOk;
    var h' := Cut(h, i, pos);
    var l, l', t := h.log[i], h.log[i][..pos], h.term[i];
    forall a | a in h'.acks ensures AckOk(h', a) {
      AckFact(h, a);
      if a.node == i {
        var m := h.reigns[a.term].log;
        if Agree(l, m, a.index) {
          if a.index < pos {
            assert l'[..a.index + 1] == l[..a.index + 1];
          } else {
            CutLosesOnlyLacked(h, i, pos, a);
            assert t <= h.term[i] && Lacks(h'.reigns, a.term, a.index, t);
          }
        } else {
          var u: nat :| u <= h.term[i] && Lacks(h.reigns, a.term, a.index, u);
          assert u <= h'.term[i] && Lacks(h'.reigns, a.term, a.index, u);
        }
      }
    }
  }

  /** An acknowledged entry that a conflict removes was missing from the new leader's log. */
  lemma CutLosesOnlyLacked(h: History, i: nat, pos: nat, a: Ack)
    requires Inv(h) && i < |h.term| && h.term[i] in h.reigns
    requires pos < |h.log[i]| && pos < |h.reigns[h.term[i]].log|
    requires h.log[i][pos].term != h.reigns[h.term[i]].log[pos].term
    requires a in h.acks && a.node == i && pos <= a.index && a.term in h.reigns
    requires Agree(h.log[i], h.reigns[a.term].log, a.index)
    ensures Lacks(h.reigns, a.term, a.index, h.term[i])
  {
    hide Inv;
    ShapeFact(h);
    var t := h.term[i];
    var r := h.reigns[t];
    AckFact(h, a);
    ReignFact(h, t);
    AgreeBelow(h.log[i], h.reigns[a.term].log, a.index, pos);
    assert a.term != t;
    assert Agree(r.base, h.reigns[a.term].log, a.index) ==> r.base[pos] == h.reigns[a.term].log[pos] by {
      if Agree(r.base, h.reigns[a.term].log, a.index) {
        AgreeBelow(r.base, h.reigns[a.term].log, a.index, pos);
      }
    }
    assert pos < |r.base| ==> r.base[pos] == r.log[pos];
  }

  /** Follower i, whose log is a prefix of the leader's, takes over the leader's next entry. */
  ghost function Copy(h: History, i: nat): History
    requires Shape(h) && i < |h.term| && h.term[i] in h.reigns
    requires |h.log[i]| < |h.reigns[h.term[i]].log|
  {
    h.(log := h.log[i := h.reigns[h.term[i]].log[..|h.log[i]| + 1]])
  }

  lemma CopyKeeps(h: History, i: nat)
    requires Inv(h) && i < |h.term| && h.role[i] == Follower && h.term[i] in h.reigns
    requires h.log[i] < h.reigns[h.term[i]].log
    ensures Kept(h, Copy(h, i))
  {
    hide Inv;
    ShapeFact(h);
    var h' := Copy(h, i);
    var t := h.term[i];
    var l, l', m := h.log[i], h'.log[i], h.reigns[t].log;
    NodeFact(h, i);
    ReignFact(h, t);
    CandFact(h, t, h.reigns[t].leader);
    FrameRecords(h, h');
    forall k | 1 <= k < |l'| ensures Anchored(h'.reigns, l', k) {
      assert Anchored(h.reigns, m, k);
      assert l'[..k + 1] == m[..k + 1];
    }
    forall k | 0 <= k < |l'| ensures l'[k].term < t + 1 {
      assert k < |h.reigns[t].base| ==> l'[k] == h.reigns[t].base[k];
    }
    forall j | 0 <= j < |h'.term| ensures NodeOk(h', j) {
      NodeFact(h, j);
    }
    AcksAfterCopy(h, i);
    InvIntro(h');
  }

  lemma AcksAfterCopy(h: History, i: nat)
    requires Inv(h) && Shape(h) && i < |h.term| && h.term[i] in h.reigns && h.log[i] < h.reigns[h.term[i]].log
    ensures var h' := Copy(h, i);
            forall a :: a in h'.acks ==> AckOk(h', a)
  {
    hide Inv, LogOk, HeldOrLacked;
    var h' := Copy(h, i);
    var l, l' := h.log[i], h'.log[i];
    forall a | a in h'.acks ensures AckOk(h', a) {
      AckFact(h, a);
      var o := h.reigns[a.term].log;
      if a.node == i && Agree(l, o, a.index) {
        AgreeExtends(l, o, l', o, a.index);
      }
      HeldOrLackedGrows(h.reigns, h'.reigns, a.term, a.index, h.log[a.node], h'.log[a.node],
                        h.term[a.node], h.term[a.node]);
    }
  }

  /** Node i acknowledges to its term's leader everything through index m. */
  ghost function Record(h: History, i: nat, m: nat): History
    requires Shape(h) && i < |h.term|
  {
    h.(acks := h.acks + (set k | 0 <= k <= m :: Ack(h.term[i], i, k)))
  }

  lemma RecordKeeps(h: History, i: nat, m: nat)
    requires Inv(h) && i < |h.term| && h.term[i] in h.reigns
    requires Agree(h.log[i], h.reigns[h.term[i]].log, m)
    ensures Kept(h, Record(h, i, m))
    ensures forall k :: 0 <= k <= m ==> Ack(h.term[i], i, k) in Record(h, i, m).acks
  {
    hide Inv;
    ShapeFact(h);
    var h' := Record(h, i, m);
    forall t | t in h'.reigns ensures ReignOk(h', t) {
      ReignFact(h, t);
      forall v | v in h.reigns[t].voters ensures VotedFor(h', t, v, h.reigns[t].leader) {
        assert VotedFor(h, t, v, h.reigns[t].leader);
      }
    }
    forall t, c | (t, c) in h'.cands ensures CandOk(h', t, c) {
      CandFact(h, t, c);
    }
    forall t, v | (t, v) in h'.votes ensures VoteOk(h', t, v) {
      VoteFact(h, t, v);
    }
    forall j | 0 <= j < |h'.term| ensures NodeOk(h', j) {
      NodeFact(h, j);
      if h.role[j] == Candidate {
        forall v | v in h'.tally[j] ensures v < |h.term| && VotedFor(h', h'.term[j], v, j) {
          assert VotedFor(h, h.term[j], v, j);
        }
      }
    }
    forall a | a in h'.acks ensures AckOk(h', a) {
      if a in h.acks {
        AckFact(h, a);
      } else {
        AgreeBelow(h.log[i], h.reigns[h.term[i]].log, m, a.index);
      }
    }
    forall t, v, a | (t, v) in h'.votes && a in h'.acks ensures BallotOk(h', t, v, a) {
      VoteFact(h, t, v);
      if a in h.acks {
        BallotFact(h, t, v, a);
      }
    }
    InvIntro(h');
  }
}
