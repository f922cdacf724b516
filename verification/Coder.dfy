/**
 * The Encoder and Decoder objects of src/codec.cpp and the message and command coders built on
 * them (src/raft_msgs.cpp, src/command.cpp), proved to compute the functions of Wire and Command.
 */
module Coder {
  import opened Types
  import opened Codec
  import opened Messages
  import C = Command
  import W = Wire

  /** v shifted right by k bytes. */
  function Shifted(v: nat, k: nat): nat
  {
    if k == 0 then v else Shifted(v, k - 1) / 256
  }

  class Encoder {
    var buf: Bytes

    constructor ()
      ensures buf == []
    {
      buf := [];
    }

    /** The loops of u32 and u64: most significant byte first. */
    method Uint(v: nat, k: nat)
      modifies this
      ensures buf == old(buf) + BigEndian(v, k)
    {
      var left := k;
      while left > 0
        invariant 0 <= left <= k && buf == old(buf) + BigEndian(Shifted(v, left), k - left)
      {
        buf := buf + [(Shifted(v, left - 1) % 256) as byte];
        left := left - 1;
      }
    }

    method U8(v: nat)
      modifies this
      ensures buf == old(buf) + PutU8(v)
    {
      Uint(v, 1);
    }

    method U32(v: nat)
      modifies this
      ensures buf == old(buf) + PutU32(v)
    {
      Uint(v, 4);
    }

    method U64(v: nat)
      modifies this
      ensures buf == old(buf) + PutU64(v)
    {
      Uint(v, 8);
    }

    /** The length field keeps only the low 32 bits of the length. */
    method Str(s: Bytes)
      modifies this
      ensures buf == old(buf) + PutStr(s)
    {
      hide PutU32;
      U32(|s|);
      buf := buf + s;
    }
  }

  class Decoder {
    const data: Bytes
    var pos: nat

    ghost predicate Valid()
      reads this
    {
      pos <= |data|
    }

    /** The unread bytes. */
    ghost function Rest(): Bytes
      requires Valid()
      reads this
    {
      data[pos..]
    }

    constructor (data: Bytes)
      ensures Valid() && Rest() == data
    {
      this.data, pos := data, 0;
    }

    /** The loops of u8, u32 and u64. On failure nothing is consumed. */
    method Uint(k: nat) returns (r: Option<nat>)
      requires Valid()
      modifies this
      ensures Valid()
      ensures match TakeUint(old(Rest()), k)
              case None => r == None && pos == old(pos)
              case Some(t) => r == Some(t.value) && Rest() == t.rest
    {
      hide Value;
      if |data| - pos < k { return None; }
      ghost var from := Rest();
      var v := 0;
      var i := 0;
      EmptyValue();
      while i < k
        invariant i <= k && pos == old(pos) + i && pos <= |data| && v == Value(from[..i])
      {
        ValueStep(from[..i], data[pos]);
        assert from[..i + 1] == from[..i] + [data[pos]];
        v := v * 256 + data[pos] as nat;
        pos := pos + 1;
        i := i + 1;
      }
      r := Some(v);
    }

    /** On failure the length field may have been consumed. */
    method Str() returns (r: Option<Bytes>)
      requires Valid()
      modifies this
      ensures Valid()
      ensures match TakeStr(old(Rest()))
              case None => r == None
              case Some(t) => r == Some(t.value) && Rest() == t.rest
    {
      hide TakeUint;
      var len := Uint(4);
      if len.None? || |data| - pos < len.value { return None; }
      r := Some(data[pos..pos + len.value]);
      assert Rest()[..len.value] == data[pos..pos + len.value];
      pos := pos + len.value;
    }

    method Done() returns (r: bool)
      requires Valid()
      ensures r <==> Rest() == []
    {
      r := pos == |data|;
    }
  }

  lemma EmptyValue()
    ensures Value([]) == 0
  {
  }

  lemma ValueStep(b: Bytes, x: byte)
    ensures Value(b + [x]) == Value(b) * 256 + x as nat
  {
    assert (b + [x])[..|b|] == b;
  }

  // ----- messages -----

  method EncodeVoteArgs(a: VoteArgs) returns (b: Bytes)
    ensures b == W.EncodeVoteArgs(a)
  {
    hide PutU8, PutU32, PutU64;
    var enc := new Encoder();
    enc.U8(W.VOTE_ARGS);
    enc.U64(a.term);
    enc.U32(a.candidateId);
    enc.U64(a.lastLogIndex);
    enc.U64(a.lastLogTerm);
    b := enc.buf;
  }

  method DecodeVoteArgs(b: Bytes) returns (r: Option<VoteArgs>)
    ensures r == W.DecodeVoteArgs(b)
  {
    hide TakeUint;
    var dec := new Decoder(b);
    var tag := dec.Uint(1);
    if tag.None? || tag.value != W.VOTE_ARGS { return None; }
    var term := dec.Uint(8);
    var candidate := dec.Uint(4);
    var lastIdx := dec.Uint(8);
    var lastTerm := dec.Uint(8);
    var done := dec.Done();
    if term.None? || candidate.None? || lastIdx.None? || lastTerm.None? || !done { return None; }
    r := Some(VoteArgs(term.value, candidate.value, lastIdx.value, lastTerm.value));
  }

  method EncodeVoteReply(r: VoteReply) returns (b: Bytes)
    ensures b == W.EncodeVoteReply(r)
  {
    hide PutU8, PutU64;
    var enc := new Encoder();
    enc.U8(W.VOTE_REPLY);
    enc.U64(r.term);
    enc.U8(if r.voteGranted then 1 else 0);
    b := enc.buf;
  }

  method DecodeVoteReply(b: Bytes) returns (r: Option<VoteReply>)
    ensures r == W.DecodeVoteReply(b)
  {
    hide TakeUint;
    var dec := new Decoder(b);
    var tag := dec.Uint(1);
    if tag.None? || tag.value != W.VOTE_REPLY { return None; }
    var term := dec.Uint(8);
    var granted := dec.Uint(1);
    var done := dec.Done();
    if term.None? || granted.None? || !done { return None; }
    r := Some(VoteReply(term.value, granted.value != 0));
  }

  method EncodeEntries(enc: Encoder, es: Log)
    modifies enc
    ensures enc.buf == old(enc.buf) + W.EncodeEntries(es)
  {
    hide PutU64, PutStr;
    var i := 0;
    assert es[0..] == es;
    while i < |es|
      invariant i <= |es|
      invariant enc.buf + W.EncodeEntries(es[i..]) == old(enc.buf) + W.EncodeEntries(es)
    {
      ghost var before := enc.buf;
      assert es[i..][1..] == es[i + 1..];
      enc.U64(es[i].term);
      enc.Str(es[i].command);
      assert enc.buf + W.EncodeEntries(es[i + 1..])
          == before + (PutU64(es[i].term) + (PutStr(es[i].command) + W.EncodeEntries(es[i + 1..])));
      i := i + 1;
    }
    assert es[i..] == [] && enc.buf + [] == enc.buf;
  }

  method EncodeAppendArgs(a: AppendArgs) returns (b: Bytes)
    ensures b == W.EncodeAppendArgs(a)
  {
    hide PutU8, PutU32, PutU64, W.EncodeEntries;
    var enc := new Encoder();
    enc.U8(W.APPEND_ARGS);
    enc.U64(a.term);
    enc.U32(a.leaderId);
    enc.U64(a.prevLogIndex);
    enc.U64(a.prevLogTerm);
    enc.U64(a.leaderCommit);
    enc.U32(|a.entries|);
    EncodeEntries(enc, a.entries);
    b := enc.buf;
  }

  /** Entries already read, in front of the outcome of reading the others. */
  ghost function After(es: Log, r: Option<Read<Log>>): Option<Read<Log>>
  {
    match r
    case None => None
    case Some(t) => Some(Read(es + t.value, t.rest))
  }

  method DecodeEntries(dec: Decoder, count: nat) returns (r: Option<Log>)
    requires dec.Valid()
    modifies dec
    ensures dec.Valid()
    ensures match W.DecodeEntries(old(dec.Rest()), count)
            case None => r == None
            case Some(t) => r == Some(t.value) && dec.Rest() == t.rest
  {
    hide TakeUint, TakeStr;
    var es: Log := [];
    var i := 0;
    AfterNothing(W.DecodeEntries(dec.Rest(), count));
    while i < count
      invariant i <= count && dec.Valid()
      invariant W.DecodeEntries(old(dec.Rest()), count) == After(es, W.DecodeEntries(dec.Rest(), count - i))
    {
      ghost var rest := W.DecodeEntries(dec.Rest(), count - i);
      var term := dec.Uint(8);
      var cmd := dec.Str();
      if term.None? || cmd.None? { return None; }
      AfterOne(es, LogEntry(term.value, cmd.value), W.DecodeEntries(dec.Rest(), count - i - 1));
      es := es + [LogEntry(term.value, cmd.value)];
      i := i + 1;
    }
    assert es + [] == es;
    r := Some(es);
  }

  lemma AfterNothing(r: Option<Read<Log>>)
    ensures After([], r) == r
  {
    if r.Some? { assert [] + r.value.value == r.value.value; }
  }

  lemma AfterOne(es: Log, e: LogEntry, r: Option<Read<Log>>)
    ensures After(es, After([e], r)) == After(es + [e], r)
  {
    if r.Some? { assert es + ([e] + r.value.value) == es + [e] + r.value.value; }
  }

  method DecodeAppendArgs(b: Bytes) returns (r: Option<AppendArgs>)
    ensures r == W.DecodeAppendArgs(b)
  {
    hide TakeUint, W.DecodeEntries;
    var dec := new Decoder(b);
    var tag := dec.Uint(1);
    if tag.None? || tag.value != W.APPEND_ARGS { return None; }
    var term := dec.Uint(8);
    var leader := dec.Uint(4);
    var prevIdx := dec.Uint(8);
    var prevTerm := dec.Uint(8);
    var commit := dec.Uint(8);
    var count := dec.Uint(4);
    if term.None? || leader.None? || prevIdx.None? || prevTerm.None? || commit.None? || count.None? { return None; }
    var es := DecodeEntries(dec, count.value);
    if es.None? { return None; }
    var done := dec.Done();
    if !done { return None; }
    r := Some(AppendArgs(term.value, leader.value, prevIdx.value, prevTerm.value, commit.value, es.value));
  }

  method EncodeAppendReply(r: AppendReply) returns (b: Bytes)
    ensures b == W.EncodeAppendReply(r)
  {
    hide PutU8, PutU64;
    var enc := new Encoder();
    enc.U8(W.APPEND_REPLY);
    enc.U64(r.term);
    enc.U8(if r.success then 1 else 0);
    enc.U64(r.conflictIndex);
    b := enc.buf;
  }

  method DecodeAppendReply(b: Bytes) returns (r: Option<AppendReply>)
    ensures r == W.DecodeAppendReply(b)
  {
    hide TakeUint;
    var dec := new Decoder(b);
    var tag := dec.Uint(1);
    if tag.None? || tag.value != W.APPEND_REPLY { return None; }
    var term := dec.Uint(8);
    var success := dec.Uint(1);
    var conflict := dec.Uint(8);
    var done := dec.Done();
    if term.None? || success.None? || conflict.None? || !done { return None; }
    r := Some(AppendReply(term.value, success.value != 0, conflict.value));
  }

  // ----- commands -----

  method EncodeCommand(c: C.Command) returns (b: Bytes)
    ensures b == C.Encode(c)
  {
    hide PutU8, PutStr;
    var enc := new Encoder();
    enc.U8(C.Tag(c.verb));
    enc.Str(c.key);
    enc.Str(c.value);
    b := enc.buf;
  }

  method DecodeCommand(b: Bytes) returns (r: Option<C.Command>)
    ensures r == C.Decode(b)
  {
    hide TakeUint, TakeStr;
    var dec := new Decoder(b);
    var op := dec.Uint(1);
    var key := dec.Str();
    var value := dec.Str();
    var done := dec.Done();
    if op.None? || key.None? || value.None? || !done { return None; }
    if op.value < 1 || op.value > 3 { return None; }
    r := Some(C.Command(if op.value == 1 then C.Set else if op.value == 2 then C.Get else C.Del, key.value, value.value));
  }
}
