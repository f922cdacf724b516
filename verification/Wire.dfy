/** The four Raft messages as bytes (src/raft_msgs.cpp). A decoder accepts a whole message only. */
module Wire {
  import opened Types
  import opened Codec
  import opened Messages

  const VOTE_ARGS: nat := 1
  const VOTE_REPLY: nat := 2
  const APPEND_ARGS: nat := 3
  const APPEND_REPLY: nat := 4

  // ----- what the fields can carry -----

  predicate FitsVoteArgs(a: VoteArgs)
  {
    a.term < U64 && a.candidateId < U32 && a.lastLogIndex < U64 && a.lastLogTerm < U64
  }

  predicate FitsEntries(es: Log)
  {
    forall k :: 0 <= k < |es| ==> es[k].term < U64 && |es[k].command| < U32
  }

  predicate FitsAppendArgs(a: AppendArgs)
  {
    && a.term < U64 && a.leaderId < U32 && a.prevLogIndex < U64 && a.prevLogTerm < U64
    && a.leaderCommit < U64 && |a.entries| < U32 && FitsEntries(a.entries)
  }

  predicate FitsAppendReply(r: AppendReply) { r.term < U64 && r.conflictIndex < U64 }

  // ----- writing -----

  function PutBool(v: bool): Bytes { PutU8(if v then 1 else 0) }

  function EncodeVoteArgs(a: VoteArgs): Bytes
  {
    PutU8(VOTE_ARGS) + (PutU64(a.term) + (PutU32(a.candidateId) + (PutU64(a.lastLogIndex) + PutU64(a.lastLogTerm))))
  }

  function EncodeVoteReply(r: VoteReply): Bytes
  {
    PutU8(VOTE_REPLY) + (PutU64(r.term) + PutBool(r.voteGranted))
  }

  function EncodeEntries(es: Log): Bytes
  {
    if es == [] then [] else PutU64(es[0].term) + (PutStr(es[0].command) + EncodeEntries(es[1..]))
  }

  function EncodeAppendArgs(a: AppendArgs): Bytes
  {
    PutU8(APPEND_ARGS) + (PutU64(a.term) + (PutU32(a.leaderId) + (PutU64(a.prevLogIndex) + (PutU64(a.prevLogTerm)
    + (PutU64(a.leaderCommit) + (PutU32(|a.entries|) + EncodeEntries(a.entries)))))))
  }

  function EncodeAppendReply(r: AppendReply): Bytes
  {
    PutU8(APPEND_REPLY) + (PutU64(r.term) + (PutBool(r.success) + PutU64(r.conflictIndex)))
  }

  // ----- reading -----

  /** The bytes behind the given tag. */
  function Body(b: Bytes, tag: nat): Option<Bytes>
  {
    match TakeUint(b, 1)
    case None => None
    case Some(t) => if t.value == tag then Some(t.rest) else None
  }

  function DecodeVoteArgs(b: Bytes): Option<VoteArgs>
  {
    match Body(b, VOTE_ARGS) case None => None case Some(b0) =>
    match TakeUint(b0, 8) case None => None case Some(term) =>
    match TakeUint(term.rest, 4) case None => None case Some(candidate) =>
    match TakeUint(candidate.rest, 8) case None => None case Some(lastIdx) =>
    match TakeUint(lastIdx.rest, 8) case None => None case Some(lastTerm) =>
    if lastTerm.rest != [] then None
    else Some(VoteArgs(term.value, candidate.value, lastIdx.value, lastTerm.value))
  }

  function DecodeVoteReply(b: Bytes): Option<VoteReply>
  {
    match Body(b, VOTE_REPLY) case None => None case Some(b0) =>
    match TakeUint(b0, 8) case None => None case Some(term) =>
    match TakeUint(term.rest, 1) case None => None case Some(granted) =>
    if granted.rest != [] then None else Some(VoteReply(term.value, granted.value != 0))
  }

  function DecodeEntries(b: Bytes, count: nat): Option<Read<Log>>
  {
    if count == 0 then Some(Read([], b)) else
    match TakeUint(b, 8) case None => None case Some(term) =>
    match TakeStr(term.rest) case None => None case Some(cmd) =>
    match DecodeEntries(cmd.rest, count - 1) case None => None case Some(others) =>
    Some(Read([LogEntry(term.value, cmd.value)] + others.value, others.rest))
  }

  function DecodeAppendArgs(b: Bytes): Option<AppendArgs>
  {
    match Body(b, APPEND_ARGS) case None => None case Some(b0) =>
    match TakeUint(b0, 8) case None => None case Some(term) =>
    match TakeUint(term.rest, 4) case None => None case Some(leader) =>
    match TakeUint(leader.rest, 8) case None => None case Some(prevIdx) =>
    match TakeUint(prevIdx.rest, 8) case None => None case Some(prevTerm) =>
    match TakeUint(prevTerm.rest, 8) case None => None case Some(commit) =>
    match TakeUint(commit.rest, 4) case None => None case Some(count) =>
    match DecodeEntries(count.rest, count.value) case None => None case Some(es) =>
    if es.rest != [] then None
    else Some(AppendArgs(term.value, leader.value, prevIdx.value, prevTerm.value, commit.value, es.value))
  }

  function DecodeAppendReply(b: Bytes): Option<AppendReply>
  {
    match Body(b, APPEND_REPLY) case None => None case Some(b0) =>
    match TakeUint(b0, 8) case None => None case Some(term) =>
    match TakeUint(term.rest, 1) case None => None case Some(success) =>
    match TakeUint(success.rest, 8) case None => None case Some(conflict) =>
    if conflict.rest != [] then None else Some(AppendReply(term.value, success.value != 0, conflict.value))
  }

  // ----- round trips -----

  /** Reading a last field back leaves nothing. */
  lemma TakeLast(v: nat, k: nat)
    requires v < Pow256(k)
    ensures TakeUint(BigEndian(v, k), k) == Some(Read(v, []))
  {
    TakePutUint(v, k, []);
    assert BigEndian(v, k) + [] == BigEndian(v, k);
  }

  lemma VoteArgsRoundTrip(a: VoteArgs)
    requires FitsVoteArgs(a)
    ensures DecodeVoteArgs(EncodeVoteArgs(a)) == Some(a)
  {
    hide TakeUint, BigEndian, Pow256;
    Powers();
    var d := PutU64(a.lastLogIndex) + PutU64(a.lastLogTerm);
    TakePutUint(VOTE_ARGS, 1, PutU64(a.term) + (PutU32(a.candidateId) + d));
    TakePutUint(a.term, 8, PutU32(a.candidateId) + d);
    TakePutUint(a.candidateId, 4, d);
    TakePutUint(a.lastLogIndex, 8, PutU64(a.lastLogTerm));
    TakeLast(a.lastLogTerm, 8);
  }

  lemma VoteReplyRoundTrip(r: VoteReply)
    requires r.term < U64
    ensures DecodeVoteReply(EncodeVoteReply(r)) == Some(r)
  {
    hide TakeUint, BigEndian, Pow256;
    Powers();
    TakePutUint(VOTE_REPLY, 1, PutU64(r.term) + PutBool(r.voteGranted));
    TakePutUint(r.term, 8, PutBool(r.voteGranted));
    TakeLast(if r.voteGranted then 1 else 0, 1);
  }

  lemma {:induction false} EntriesRoundTrip(es: Log, rest: Bytes)
    requires FitsEntries(es)
    ensures DecodeEntries(EncodeEntries(es) + rest, |es|) == Some(Read(es, rest))
    decreases |es|
  {
    hide TakeUint, BigEndian, Pow256, TakeStr, PutStr;
    if es == [] {
      assert EncodeEntries(es) + rest == rest;
    } else {
      Powers();
      var tail := EncodeEntries(es[1..]) + rest;
      var c := PutStr(es[0].command);
      assert EncodeEntries(es) + rest == PutU64(es[0].term) + (c + tail);
      TakePutUint(es[0].term, 8, c + tail);
      TakePutStr(es[0].command, tail);
      EntriesRoundTrip(es[1..], rest);
      assert [es[0]] + es[1..] == es;
    }
  }

  lemma AppendArgsRoundTrip(a: AppendArgs)
    requires FitsAppendArgs(a)
    ensures DecodeAppendArgs(EncodeAppendArgs(a)) == Some(a)
  {
    hide TakeUint, BigEndian, Pow256, EncodeEntries, DecodeEntries, FitsEntries;
    Powers();
    var es := EncodeEntries(a.entries);
    var f := PutU32(|a.entries|) + es;
    var e := PutU64(a.leaderCommit) + f;
    var d := PutU64(a.prevLogTerm) + e;
    var c := PutU64(a.prevLogIndex) + d;
    TakePutUint(APPEND_ARGS, 1, PutU64(a.term) + (PutU32(a.leaderId) + c));
    TakePutUint(a.term, 8, PutU32(a.leaderId) + c);
    TakePutUint(a.leaderId, 4, c);
    TakePutUint(a.prevLogIndex, 8, d);
    TakePutUint(a.prevLogTerm, 8, e);
    TakePutUint(a.leaderCommit, 8, f);
    TakePutUint(|a.entries|, 4, es);
    EntriesRoundTrip(a.entries, []);
    assert es + [] == es;
  }

  lemma AppendReplyRoundTrip(r: AppendReply)
    requires FitsAppendReply(r)
    ensures DecodeAppendReply(EncodeAppendReply(r)) == Some(r)
  {
    hide TakeUint, BigEndian, Pow256;
    Powers();
    var c := PutU64(r.conflictIndex);
    TakePutUint(APPEND_REPLY, 1, PutU64(r.term) + (PutBool(r.success) + c));
    TakePutUint(r.term, 8, PutBool(r.success) + c);
    TakePutUint(if r.success then 1 else 0, 1, c);
    TakeLast(r.conflictIndex, 8);
  }

  // ----- only encoded messages decode -----

  lemma BodyCanonical(b: Bytes, tag: nat)
    requires Body(b, tag).Some?
    ensures b == PutU8(tag) + Body(b, tag).value
  {
    TakeUintCanonical(b, 1);
  }

  /** Both request decoders accept exactly the encodings of representable requests. */
  lemma VoteArgsCanonical(b: Bytes)
    requires DecodeVoteArgs(b).Some?
    ensures FitsVoteArgs(DecodeVoteArgs(b).value) && b == EncodeVoteArgs(DecodeVoteArgs(b).value)
  {
    hide TakeUint, BigEndian, Pow256, Body;
    Powers();
    BodyCanonical(b, VOTE_ARGS);
    var b0 := Body(b, VOTE_ARGS).value;
    var b1 := TakeUint(b0, 8).value.rest;
    var b2 := TakeUint(b1, 4).value.rest;
    var b3 := TakeUint(b2, 8).value.rest;
    TakeUintCanonical(b0, 8);
    TakeUintCanonical(b1, 4);
    TakeUintCanonical(b2, 8);
    TakeUintCanonical(b3, 8);
    var a := DecodeVoteArgs(b).value;
    assert PutU64(a.lastLogTerm) + [] == PutU64(a.lastLogTerm);
  }

  lemma {:induction false} EntriesCanonical(b: Bytes, count: nat)
    requires DecodeEntries(b, count).Some?
    ensures var r := DecodeEntries(b, count).value;
            |r.value| == count && FitsEntries(r.value) && b == EncodeEntries(r.value) + r.rest
    decreases count
  {
    hide TakeUint, BigEndian, Pow256, TakeStr, PutStr;
    if count == 0 {
      assert EncodeEntries([]) + b == b;
    } else {
      Powers();
      TakeUintCanonical(b, 8);
      var term := TakeUint(b, 8).value;
      TakeStrCanonical(term.rest);
      var cmd := TakeStr(term.rest).value;
      EntriesCanonical(cmd.rest, count - 1);
      var others := DecodeEntries(cmd.rest, count - 1).value;
      var es := DecodeEntries(b, count).value.value;
      assert es[1..] == others.value;
      assert PutU64(term.value) + (PutStr(cmd.value) + (EncodeEntries(others.value) + others.rest))
          == PutU64(term.value) + (PutStr(cmd.value) + EncodeEntries(others.value)) + others.rest;
    }
  }

  lemma AppendArgsCanonical(b: Bytes)
    requires DecodeAppendArgs(b).Some?
    ensures FitsAppendArgs(DecodeAppendArgs(b).value) && b == EncodeAppendArgs(DecodeAppendArgs(b).value)
  {
    hide TakeUint, BigEndian, Pow256, Body, DecodeEntries, EncodeEntries, FitsEntries;
    Powers();
    BodyCanonical(b, APPEND_ARGS);
    var b0 := Body(b, APPEND_ARGS).value;
    var b1 := TakeUint(b0, 8).value.rest;
    var b2 := TakeUint(b1, 4).value.rest;
    var b3 := TakeUint(b2, 8).value.rest;
    var b4 := TakeUint(b3, 8).value.rest;
    var b5 := TakeUint(b4, 8).value.rest;
    var count := TakeUint(b5, 4).value;
    TakeUintCanonical(b0, 8);
    TakeUintCanonical(b1, 4);
    TakeUintCanonical(b2, 8);
    TakeUintCanonical(b3, 8);
    TakeUintCanonical(b4, 8);
    TakeUintCanonical(b5, 4);
    EntriesCanonical(count.rest, count.value);
    var es := EncodeEntries(DecodeAppendArgs(b).value.entries);
    assert es + [] == es;
  }

  /** A reply decoder reads any nonzero byte as true: false has one encoding, true has 255. */
  lemma VoteReplyAccepts(b: Bytes, r: VoteReply)
    ensures DecodeVoteReply(b) == Some(r) <==>
            r.term < U64 && exists g: byte :: (g != 0) == r.voteGranted && b == PutU8(VOTE_REPLY) + (PutU64(r.term) + [g])
  {
    hide TakeUint, BigEndian, Pow256, Body;
    Powers();
    if DecodeVoteReply(b) == Some(r) {
      BodyCanonical(b, VOTE_REPLY);
      var b0 := Body(b, VOTE_REPLY).value;
      var b1 := TakeUint(b0, 8).value.rest;
      TakeUintCanonical(b0, 8);
      var g := OneByte(b1);
      assert (g != 0) == r.voteGranted && b == PutU8(VOTE_REPLY) + (PutU64(r.term) + [g]);
    }
    if r.term < U64 {
      forall g: byte | (g != 0) == r.voteGranted && b == PutU8(VOTE_REPLY) + (PutU64(r.term) + [g])
        ensures DecodeVoteReply(b) == Some(r)
      {
        TagRead(VOTE_REPLY, PutU64(r.term) + [g]);
        TakePutUint(r.term, 8, [g]);
        ByteRead(g, []);
        assert [g] + [] == [g];
      }
    }
  }

  /** The bytes of a reply whose success byte is g. */
  function ReplyBytes(r: AppendReply, g: byte): Bytes
  {
    PutU8(APPEND_REPLY) + (PutU64(r.term) + ([g] + PutU64(r.conflictIndex)))
  }

  lemma AppendReplyAccepts(b: Bytes, r: AppendReply)
    ensures DecodeAppendReply(b) == Some(r) <==>
            FitsAppendReply(r) && exists g: byte :: (g != 0) == r.success && b == ReplyBytes(r, g)
  {
    hide TakeUint, BigEndian, Pow256, Body;
    Powers();
    if DecodeAppendReply(b) == Some(r) {
      BodyCanonical(b, APPEND_REPLY);
      var b0 := Body(b, APPEND_REPLY).value;
      var b1 := TakeUint(b0, 8).value.rest;
      var b2 := TakeUint(b1, 1).value.rest;
      TakeUintCanonical(b0, 8);
      TakeUintCanonical(b2, 8);
      assert PutU64(r.conflictIndex) + [] == PutU64(r.conflictIndex);
      var g := FirstByte(b1);
      assert (g != 0) == r.success && b == ReplyBytes(r, g);
    }
    if FitsAppendReply(r) {
      forall g: byte | (g != 0) == r.success && b == ReplyBytes(r, g)
        ensures DecodeAppendReply(b) == Some(r)
      {
        var c := PutU64(r.conflictIndex);
        TagRead(APPEND_REPLY, PutU64(r.term) + ([g] + c));
        TakePutUint(r.term, 8, [g] + c);
        ByteRead(g, c);
        TakeLast(r.conflictIndex, 8);
      }
    }
  }

  lemma TagRead(tag: nat, rest: Bytes)
    requires tag < 256
    ensures Body(PutU8(tag) + rest, tag) == Some(rest)
  {
    Powers();
    TakePutUint(tag, 1, rest);
  }

  lemma ByteRead(g: byte, rest: Bytes)
    ensures TakeUint([g] + rest, 1) == Some(Read(g as nat, rest))
  {
    assert ([g] + rest)[..1] == [g];
    assert Value([g][..0]) == 0;
  }

  lemma FirstByte(b: Bytes) returns (g: byte)
    requires TakeUint(b, 1).Some?
    ensures g as nat == TakeUint(b, 1).value.value && b == [g] + TakeUint(b, 1).value.rest
  {
    g := b[0];
    assert b[..1] == [g] && b == [g] + b[1..];
    assert Value([g][..0]) == 0;
  }

  lemma OneByte(b: Bytes) returns (g: byte)
    requires TakeUint(b, 1).Some? && TakeUint(b, 1).value.rest == []
    ensures g as nat == TakeUint(b, 1).value.value && b == [g]
  {
    g := FirstByte(b);
  }

  // ----- kinds -----

  /** No bytes decode as messages of two kinds. */
  lemma OneKind(b: Bytes)
    ensures DecodeVoteArgs(b).Some? ==> DecodeVoteReply(b).None? && DecodeAppendArgs(b).None? && DecodeAppendReply(b).None?
    ensures DecodeVoteReply(b).Some? ==> DecodeAppendArgs(b).None? && DecodeAppendReply(b).None?
    ensures DecodeAppendArgs(b).Some? ==> DecodeAppendReply(b).None?
  {
  }
}
