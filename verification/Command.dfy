/** State-machine commands (src/command.cpp) and what they do to the key-value map (src/kv_store.cpp,
    src/server.cpp:268-291). */
module Command {
  import opened Types
  import opened Codec

  datatype Verb = Set | Get | Del

  datatype Command = Command(verb: Verb, key: Bytes, value: Bytes)

  /** Key and value lengths are representable in the 32-bit length fields. */
  predicate Fits(c: Command)
  {
    |c.key| < U32 && |c.value| < U32
  }

  function Tag(v: Verb): nat
  {
    match v case Set => 1 case Get => 2 case Del => 3
  }

  function Encode(c: Command): Bytes
  {
    PutU8(Tag(c.verb)) + PutStr(c.key) + PutStr(c.value)
  }

  function Decode(b: Bytes): Option<Command>
  {
    match TakeUint(b, 1)
    case None => None
    case Some(tag) =>
      match TakeStr(tag.rest)
      case None => None
      case Some(key) =>
        match TakeStr(key.rest)
        case None => None
        case Some(value) =>
          if value.rest != [] || tag.value < 1 || tag.value > 3 then None
          else Some(Command(if tag.value == 1 then Set else if tag.value == 2 then Get else Del,
                            key.value, value.value))
  }

  lemma RoundTrip(c: Command)
    requires Fits(c)
    ensures Decode(Encode(c)) == Some(c)
  {
    hide TakeUint, TakeStr, PutStr, BigEndian, Pow256;
    Powers();
    var tail := PutStr(c.key) + PutStr(c.value);
    assert Encode(c) == PutU8(Tag(c.verb)) + tail;
    TakePutUint(Tag(c.verb), 1, tail);
    TakePutStr(c.key, PutStr(c.value));
    assert PutStr(c.value) == PutStr(c.value) + [];
    TakePutStr(c.value, []);
  }

  /** Only the bytes of an encoded command decode, and none of them is the empty no-op. */
  lemma Canonical(b: Bytes)
    requires Decode(b).Some?
    ensures Fits(Decode(b).value) && b == Encode(Decode(b).value) && b != []
  {
    hide TakeUint, TakeStr, PutStr, Pow256;
    Powers();
    TakeUintCanonical(b, 1);
    var tag := TakeUint(b, 1).value;
    TakeStrCanonical(tag.rest);
    var key := TakeStr(tag.rest).value;
    TakeStrCanonical(key.rest);
    var value := TakeStr(key.rest).value;
    var c := Decode(b).value;
    assert key.rest == PutStr(c.value);
    assert tag.value == Tag(c.verb);
    assert b == PutU8(Tag(c.verb)) + (PutStr(c.key) + PutStr(c.value));
  }

  // ----- the replicated state machine -----

  type Store = map<Bytes, Bytes>

  datatype Outcome = Outcome(value: Option<Bytes>, existed: bool)

  const NOTHING := Outcome(None, false)

  /** One command on the map. */
  function Execute(m: Store, c: Command): (Store, Outcome)
  {
    match c.verb
    case Set => (m[c.key := c.value], NOTHING)
    case Get => (m, Outcome(if c.key in m then Some(m[c.key]) else None, false))
    case Del => (m - {c.key}, Outcome(None, c.key in m))
  }

  /** One log entry on the map: no-ops and undecodable commands change nothing. */
  function ApplyRaw(m: Store, raw: Bytes): (Store, Outcome)
  {
    if raw == [] then (m, NOTHING) else
      match Decode(raw)
      case None => (m, NOTHING)
      case Some(c) => Execute(m, c)
  }

  /** The map after a whole log, started empty. */
  function Replay(l: Log): Store
  {
    if l == [] then map[] else ApplyRaw(Replay(l[..|l| - 1]), l[|l| - 1].command).0
  }
}
