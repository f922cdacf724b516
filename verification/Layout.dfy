/**
 * Every byte of every format, by its position (src/raft_msgs.cpp, src/command.cpp, src/storage.cpp:172-226,
 * include/dkvs/raft_msgs.hpp:17-22). Integers have the most significant byte first.
 */
module Layout {
  import opened Types
  import opened Codec
  import opened Messages
  import opened Wire
  import opened Crc
  import opened Node
  import opened Wal
  import opened Disk
  import C = Command

  // ----- integers -----

  lemma {:induction false} MostSignificantFirst(b: Bytes)
    requires b != []
    ensures Value(b) == b[0] as nat * Pow256(|b| - 1) + Value(b[1..])
    decreases |b|
  {
    var n := |b| - 1;
    if n == 0 {
      assert b[..0] == [] && b[1..] == [];
    } else {
      MostSignificantFirst(b[..n]);
      assert b[..n][1..] == b[1..][..n - 1];
      assert Value(b[1..]) == Value(b[1..][..n - 1]) * 256 + b[n] as nat;
      Spread(b[0] as nat, Pow256(n - 1), Value(b[1..][..n - 1]), b[n] as nat);
    }
  }

  lemma Spread(a: nat, p: nat, v: nat, x: nat)
    ensures (a * p + v) * 256 + x == a * (256 * p) + (v * 256 + x)
  {
  }

  /** A field of k bytes at the given place holds the number. */
  predicate FieldAt(b: Bytes, at: nat, k: nat, v: nat)
  {
    at + k <= |b| && Value(b[at..at + k]) == v
  }

  lemma FieldBehind(pre: Bytes, v: nat, k: nat, post: Bytes, at: nat)
    requires v < Pow256(k) && at == |pre|
    ensures FieldAt(pre + (BigEndian(v, k) + post), at, k, v)
  {
    hide Value, BigEndian, Pow256;
    ValueOfBigEndian(v, k);
    var f := BigEndian(v, k);
    assert (pre + (f + post))[at..at + k] == f;
  }

  lemma OneByteField(b: Bytes, at: nat, v: nat)
    requires FieldAt(b, at, 1, v)
    ensures b[at] as nat == v
  {
    var f := b[at..at + 1];
    assert f[..0] == [] && f[0] == b[at];
    assert Value(f) == Value(f[..0]) * 256 + f[0] as nat;
  }

  lemma Joined(a: Bytes, b: Bytes, c: Bytes)
    ensures a + (b + c) == (a + b) + c
  {
  }

  // ----- messages -----

  /** 1, then term, candidate, last index, last term. */
  lemma VoteArgsLayout(a: VoteArgs)
    requires FitsVoteArgs(a)
    ensures var b := EncodeVoteArgs(a);
            && |b| == 29 && b[0] == 1
            && FieldAt(b, 1, 8, a.term) && FieldAt(b, 9, 4, a.candidateId)
            && FieldAt(b, 13, 8, a.lastLogIndex) && FieldAt(b, 21, 8, a.lastLogTerm)
  {
    hide FieldAt, BigEndian, Pow256;
    Powers();
    var b := EncodeVoteArgs(a);
    var t, c, i, l := PutU64(a.term), PutU32(a.candidateId), PutU64(a.lastLogIndex), PutU64(a.lastLogTerm);
    var tag := PutU8(VOTE_ARGS);
    FieldBehind([], 1, 1, t + (c + (i + l)), 0);
    assert [] + (tag + (t + (c + (i + l)))) == b;
    OneByteField(b, 0, 1);
    FieldBehind(tag, a.term, 8, c + (i + l), 1);
    FieldBehind(tag + t, a.candidateId, 4, i + l, 9);
    Joined(tag, t, c + (i + l));
    FieldBehind(tag + t + c, a.lastLogIndex, 8, l, 13);
    Joined(tag + t, c, i + l);
    FieldBehind(tag + t + c + i, a.lastLogTerm, 8, [], 21);
    Joined(tag + t + c, i, l);
    assert l + [] == l;
  }

  /** 2, then term and one byte for the vote. */
  lemma VoteReplyLayout(r: VoteReply)
    requires r.term < U64
    ensures var b := EncodeVoteReply(r);
            |b| == 10 && b[0] == 2 && FieldAt(b, 1, 8, r.term) && b[9] == if r.voteGranted then 1 else 0
  {
    hide FieldAt, BigEndian, Pow256;
    Powers();
    var b := EncodeVoteReply(r);
    var tag, t, g := PutU8(VOTE_REPLY), PutU64(r.term), PutBool(r.voteGranted);
    FieldBehind([], 2, 1, t + g, 0);
    assert [] + (tag + (t + g)) == b;
    OneByteField(b, 0, 2);
    FieldBehind(tag, r.term, 8, g, 1);
    FieldBehind(tag + t, if r.voteGranted then 1 else 0, 1, [], 9);
    Joined(tag, t, g);
    assert g + [] == g;
    OneByteField(b, 9, if r.voteGranted then 1 else 0);
  }

  /** 3, then term, leader, previous index and term, commit index, count, and the entries. */
  lemma AppendArgsLayout(a: AppendArgs)
    requires FitsAppendArgs(a)
    ensures var b := EncodeAppendArgs(a);
            && |b| >= 41 && b[0] == 3
            && FieldAt(b, 1, 8, a.term) && FieldAt(b, 9, 4, a.leaderId)
            && FieldAt(b, 13, 8, a.prevLogIndex) && FieldAt(b, 21, 8, a.prevLogTerm)
            && FieldAt(b, 29, 8, a.leaderCommit) && FieldAt(b, 37, 4, |a.entries|)
            && EntriesAt(b, 41, a.entries)
  {
    hide FieldAt, BigEndian, Pow256, EncodeEntries, FitsEntries, EntriesAt;
    Powers();
    var b := EncodeAppendArgs(a);
    var tag, t, l, p := PutU8(APPEND_ARGS), PutU64(a.term), PutU32(a.leaderId), PutU64(a.prevLogIndex);
    var q, c, n, es := PutU64(a.prevLogTerm), PutU64(a.leaderCommit), PutU32(|a.entries|), EncodeEntries(a.entries);
    FieldBehind([], 3, 1, t + (l + (p + (q + (c + (n + es))))), 0);
    assert [] + b == b;
    OneByteField(b, 0, 3);
    FieldBehind(tag, a.term, 8, l + (p + (q + (c + (n + es)))), 1);
    var b1 := tag + t;
    Joined(tag, t, l + (p + (q + (c + (n + es)))));
    FieldBehind(b1, a.leaderId, 4, p + (q + (c + (n + es))), 9);
    var b2 := b1 + l;
    Joined(b1, l, p + (q + (c + (n + es))));
    FieldBehind(b2, a.prevLogIndex, 8, q + (c + (n + es)), 13);
    var b3 := b2 + p;
    Joined(b2, p, q + (c + (n + es)));
    FieldBehind(b3, a.prevLogTerm, 8, c + (n + es), 21);
    var b4 := b3 + q;
    Joined(b3, q, c + (n + es));
    FieldBehind(b4, a.leaderCommit, 8, n + es, 29);
    var b5 := b4 + c;
    Joined(b4, c, n + es);
    FieldBehind(b5, |a.entries|, 4, es, 37);
    var b6 := b5 + n;
    Joined(b5, n, es);
    EntriesLayout(b6, a.entries);
  }

  /** From this place to the end: of each entry the term, the length of the command, and the command. */
  predicate EntriesAt(b: Bytes, at: nat, es: Log)
    decreases |es|
  {
    if es == [] then at == |b|
    else
      var e, n := es[0], |es[0].command|;
      && FieldAt(b, at, 8, e.term) && FieldAt(b, at + 8, 4, n)
      && at + 12 + n <= |b| && b[at + 12..at + 12 + n] == e.command && EntriesAt(b, at + 12 + n, es[1..])
  }

  lemma {:induction false} EntriesLayout(pre: Bytes, es: Log)
    requires FitsEntries(es)
    ensures EntriesAt(pre + EncodeEntries(es), |pre|, es)
    decreases |es|
  {
    hide FieldAt, BigEndian, Pow256;
    if es == [] {
      assert pre + [] == pre;
    } else {
      Powers();
      var e := es[0];
      var t, n, tail := PutU64(e.term), PutU32(|e.command|), EncodeEntries(es[1..]);
      var b := pre + EncodeEntries(es);
      assert PutStr(e.command) + tail == n + (e.command + tail);
      assert b == pre + (t + (n + (e.command + tail)));
      FieldBehind(pre, e.term, 8, n + (e.command + tail), |pre|);
      Joined(pre, t, n + (e.command + tail));
      FieldBehind(pre + t, |e.command|, 4, e.command + tail, |pre| + 8);
      Joined(pre + t, n, e.command + tail);
      var front := pre + t + n;
      Joined(front, e.command, tail);
      EntriesLayout(front + e.command, es[1..]);
      assert b == front + e.command + tail;
      assert b[|pre| + 12..|pre| + 12 + |e.command|] == e.command;
    }
  }

  /** 4, then term, one byte for success, and the conflict index. */
  lemma AppendReplyLayout(r: AppendReply)
    requires FitsAppendReply(r)
    ensures var b := EncodeAppendReply(r);
            && |b| == 18 && b[0] == 4 && FieldAt(b, 1, 8, r.term)
            && b[9] == (if r.success then 1 else 0) && FieldAt(b, 10, 8, r.conflictIndex)
  {
    hide FieldAt, BigEndian, Pow256;
    Powers();
    var b := EncodeAppendReply(r);
    var tag, t, g, c := PutU8(APPEND_REPLY), PutU64(r.term), PutBool(r.success), PutU64(r.conflictIndex);
    FieldBehind([], 4, 1, t + (g + c), 0);
    assert [] + b == b;
    OneByteField(b, 0, 4);
    FieldBehind(tag, r.term, 8, g + c, 1);
    FieldBehind(tag + t, if r.success then 1 else 0, 1, c, 9);
    Joined(tag, t, g + c);
    OneByteField(b, 9, if r.success then 1 else 0);
    FieldBehind(tag + t + g, r.conflictIndex, 8, [], 10);
    Joined(tag + t, g, c);
    assert c + [] == c;
  }

  /** 1 for SET, 2 for GET, 3 for DEL, then key and value, each behind its length. */
  lemma CommandLayout(c: C.Command)
    requires C.Fits(c)
    ensures var b, k, v := C.Encode(c), |c.key|, |c.value|;
            && |b| == 9 + k + v
            && b[0] == (if c.verb == C.Set then 1 else if c.verb == C.Get then 2 else 3)
            && FieldAt(b, 1, 4, k) && b[5..5 + k] == c.key
            && FieldAt(b, 5 + k, 4, v) && b[9 + k..] == c.value
  {
    hide FieldAt, BigEndian, Pow256;
    Powers();
    var b, n := C.Encode(c), C.Tag(c.verb);
    var tag, k, v := PutU8(n), PutU32(|c.key|), PutU32(|c.value|);
    var rest := c.key + (v + c.value);
    assert b == tag + (k + rest);
    FieldBehind([], n, 1, k + rest, 0);
    assert [] + b == b;
    OneByteField(b, 0, n);
    FieldBehind(tag, |c.key|, 4, rest, 1);
    Joined(tag, k, rest);
    Joined(tag + k, c.key, v + c.value);
    FieldBehind(tag + k + c.key, |c.value|, 4, c.value, 5 + |c.key|);
    assert b[5..5 + |c.key|] == c.key && b[9 + |c.key|..] == c.value;
  }

  // ----- files -----

  /** Length of the payload; term, length of the command, command; checksum of the payload. */
  lemma RecordLayout(e: LogEntry)
    requires FitsRecord(e)
    ensures var r, n := Record(e), |e.command|;
            && |r| == 20 + n
            && FieldAt(r, 0, 4, 12 + n) && FieldAt(r, 4, 8, e.term) && FieldAt(r, 12, 4, n)
            && r[16..16 + n] == e.command && FieldAt(r, 16 + n, 4, Crc32(r[4..16 + n]))
  {
    hide FieldAt, BigEndian, Pow256, Crc32;
    Powers();
    var r, n, p := Record(e), |e.command|, Payload(e);
    var len, t, c, crc := PutU32(|p|), PutU64(e.term), PutU32(n), PutU32(Crc32(p));
    assert p == t + (c + e.command);
    assert r == len + (t + (c + (e.command + crc)));
    FieldBehind([], |p|, 4, t + (c + (e.command + crc)), 0);
    assert [] + r == r;
    FieldBehind(len, e.term, 8, c + (e.command + crc), 4);
    Joined(len, t, c + (e.command + crc));
    FieldBehind(len + t, n, 4, e.command + crc, 12);
    Joined(len + t, c, e.command + crc);
    Joined(len + t + c, e.command, crc);
    FieldBehind(len + t + c + e.command, Crc32(p), 4, [], 16 + n);
    assert crc + [] == crc;
    assert r[4..16 + n] == p && r[16..16 + n] == e.command;
  }

  const MAGIC_TEXT: string := "DKVSMETA"

  /** The text DKVSMETA, the term, the vote in two's complement, and the checksum of all that. */
  lemma MetaLayout(t: nat, v: int)
    requires FitsMeta(t, v)
    ensures var m := MetaBytes(t, v);
            && |m| == 24 && (forall k :: 0 <= k < 8 ==> m[k] as int == MAGIC_TEXT[k] as int)
            && FieldAt(m, 8, 8, t) && FieldAt(m, 16, 4, v % 0x1_0000_0000) && FieldAt(m, 20, 4, Crc32(m[..20]))
  {
    hide FieldAt, BigEndian, Pow256, Crc32;
    Powers();
    var m, u := MetaBytes(t, v), Unsigned(v);
    var term, vote := PutU64(t), PutU32(u);
    var body := MetaBody(t, v);
    var crc := PutU32(Crc32(body));
    assert m == MAGIC + (term + (vote + crc));
    FieldBehind(MAGIC, t, 8, vote + crc, 8);
    Joined(MAGIC, term, vote + crc);
    FieldBehind(MAGIC + term, u, 4, crc, 16);
    Joined(MAGIC + term, vote, crc);
    FieldBehind(MAGIC + term + vote, Crc32(body), 4, [], 20);
    assert crc + [] == crc;
    assert m[..20] == body;
    forall k | 0 <= k < 8 ensures m[k] as int == MAGIC_TEXT[k] as int { assert m[k] == MAGIC[k]; }
  }
}
