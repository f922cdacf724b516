/**
 * The write-ahead log as bytes (src/storage.cpp:121-158, 212-252): how entries are written, what a
 * recovery scan makes of arbitrary bytes, and which bytes a crash can leave behind.
 */
module Wal {
  import opened Types
  import opened Codec
  import opened Crc
  import opened Node

  // ----- writing -----

  function Payload(e: LogEntry): Bytes { PutU64(e.term) + PutStr(e.command) }

  function Frame(p: Bytes): Bytes { PutU32(|p|) + p + PutU32(Crc32(p)) }

  function Record(e: LogEntry): Bytes { Frame(Payload(e)) }

  /** Lengths from here on overflow the 32-bit sum 4 + len + 4 of the recovery scan. */
  const WRAP: nat := U32 - 8

  /** Term and lengths are representable, and the length field stays below WRAP. */
  predicate FitsRecord(e: LogEntry)
  {
    e.term < U64 && |e.command| < WRAP - 12
  }

  predicate AllFit(es: Log)
  {
    forall k :: 0 <= k < |es| ==> FitsRecord(es[k])
  }

  function Serialize(es: Log): Bytes
  {
    if es == [] then [] else Serialize(es[..|es| - 1]) + Record(es[|es| - 1])
  }

  // ----- scanning -----

  /** What the scan does at one position: stop there, throw or never return, or take an entry and
      move on by `size` bytes. */
  datatype Scan = Stop | Fail | Take(entry: LogEntry, size: nat)

  function DecodePayload(p: Bytes): Option<LogEntry>
  {
    match TakeUint(p, 8)
    case None => None
    case Some(term) =>
      match TakeStr(term.rest)
      case None => None
      case Some(cmd) => if cmd.rest != [] then None else Some(LogEntry(term.value, cmd.value))
  }

  /** The bytes of the checksum field behind a payload of the given length, as far as there are any. */
  function ChecksumField(rest: Bytes, len: nat): Bytes
    requires 4 + len <= |rest|
  {
    rest[4 + len..Min(8 + len, |rest|)]
  }

  /** One round of the loop of Storage::load on the unread bytes. The needed length and the step are
      computed in 32 bits; the position of the checksum is not, and lies past the end of the file
      when they wrapped, which throws. */
  function ScanRecord(rest: Bytes): Scan
  {
    match TakeUint(rest, 4)
    case None => Stop
    case Some(header) =>
      var len := header.value;
      var need := (len + 8) % U32;
      if |rest| < need then Stop
      else if 4 + len > |rest| then Fail
      else
        var p := rest[4..4 + len];
        match TakeUint(ChecksumField(rest, len), 4)
        case None => Stop
        case Some(crc) =>
          if crc.value != Crc32(p) then Stop
          else match DecodePayload(p)
               case None => Stop
               case Some(e) => if need == 0 then Fail else Take(e, need)
  }

  datatype Recovery = Recovered(entries: Log, end: nat) | Failed

  /** The loop of Storage::load, from position pos with the entries found so far. */
  function Recover(raw: Bytes, pos: nat, found: Log): Recovery
    requires pos <= |raw|
    decreases |raw| - pos
  {
    if pos == |raw| then Recovered(found, pos)
    else
      match ScanRecord(raw[pos..])
      case Stop => Recovered(found, pos)
      case Fail => Failed
      case Take(e, n) =>
        TakeInside(raw[pos..]);
        Recover(raw, pos + n, found + [e])
  }

  lemma TakeInside(rest: Bytes)
    requires ScanRecord(rest).Take?
    ensures 0 < ScanRecord(rest).size <= |rest|
  {
  }

  // ----- one record -----

  lemma PayloadRoundTrip(e: LogEntry)
    requires e.term < U64 && |e.command| < U32
    ensures |Payload(e)| == 12 + |e.command| && DecodePayload(Payload(e)) == Some(e)
  {
    Powers();
    TakePutUint(e.term, 8, PutStr(e.command));
    assert PutStr(e.command) + [] == PutStr(e.command);
    TakePutStr(e.command, []);
  }

  lemma PayloadCanonical(p: Bytes)
    requires DecodePayload(p).Some?
    ensures var e := DecodePayload(p).value; p == Payload(e) && e.term < U64 && |p| == 12 + |e.command|
  {
    Powers();
    TakeUintCanonical(p, 8);
    var term := TakeUint(p, 8).value;
    TakeStrCanonical(term.rest);
    var cmd := TakeStr(term.rest).value;
    assert PutStr(cmd.value) + [] == PutStr(cmd.value);
  }

  /** The parts of a framed payload, with anything behind it. */
  lemma FrameParts(p: Bytes, tail: Bytes)
    requires |p| < U32
    ensures var rest := Frame(p) + tail;
            && |Frame(p)| == |p| + 8
            && TakeUint(rest, 4) == Some(Read(|p| as nat, rest[4..]))
            && rest[4..4 + |p|] == p
            && ChecksumField(rest, |p|) == PutU32(Crc32(p))
            && TakeUint(ChecksumField(rest, |p|), 4) == Some(Read(Crc32(p), []))
  {
    hide Crc32, Value, BigEndian;
    Powers();
    var rest := Frame(p) + tail;
    var behind := p + PutU32(Crc32(p)) + tail;
    assert rest == PutU32(|p|) + behind;
    TakePutUint(|p|, 4, behind);
    assert PutU32(Crc32(p)) + [] == PutU32(Crc32(p));
    TakePutUint(Crc32(p), 4, []);
  }

  /** The scan takes a written record whatever follows it. */
  lemma ScanOfRecord(e: LogEntry, tail: Bytes)
    requires FitsRecord(e)
    ensures ScanRecord(Record(e) + tail) == Take(e, |Record(e)|)
  {
    hide Crc32, TakeUint, Payload, Frame;
    PayloadRoundTrip(e);
    FrameParts(Payload(e), tail);
  }

  /** A length field that makes the scan's 32-bit sum wrap to something the file still holds. */
  predicate WrapHit(rest: Bytes)
  {
    TakeUint(rest, 4).Some? && TakeUint(rest, 4).value.value >= WRAP
    && |rest| >= TakeUint(rest, 4).value.value + 8 - U32
  }

  /** Bytes on which the scan neither stops nor lacks the checksum start with a written record. */
  lemma ScannedFrame(rest: Bytes) returns (e: LogEntry)
    requires TakeUint(rest, 4).Some? && 4 + TakeUint(rest, 4).value.value <= |rest| && !ScanRecord(rest).Stop?
    ensures e.term < U64 && |Payload(e)| == 12 + |e.command| == TakeUint(rest, 4).value.value && Record(e) <= rest
    ensures ScanRecord(rest).Take? ==> ScanRecord(rest).entry == e
  {
    hide Crc32, Payload, Value, BigEndian;
    Powers();
    var len := TakeUint(rest, 4).value.value;
    TakeUintCanonical(rest, 4);
    var p := rest[4..4 + len];
    PayloadCanonical(p);
    e := DecodePayload(p).value;
    var field := ChecksumField(rest, len);
    TakeUintCanonical(field, 4);
    assert field == PutU32(Crc32(p));
    assert rest[..4] == PutU32(len);
    Fields(rest, len);
  }

  lemma Fields(rest: Bytes, len: nat)
    requires 8 + len <= |rest|
    ensures rest[..8 + len] == rest[..4] + rest[4..4 + len] + ChecksumField(rest, len)
  {
  }

  /** What the scan takes is exactly a written record. */
  lemma TakeIsRecord(rest: Bytes)
    requires ScanRecord(rest).Take? && !WrapHit(rest)
    ensures var t := ScanRecord(rest);
            FitsRecord(t.entry) && t.size == |Record(t.entry)| && rest[..t.size] == Record(t.entry)
  {
    hide Crc32, Payload, Value, BigEndian;
    Powers();
    TakeUintCanonical(rest, 4);
    var e := ScannedFrame(rest);
  }

  /** A record whose length field is too long for the scan's sum. */
  predicate Giant(rest: Bytes, e: LogEntry)
  {
    e.term < U64 && WRAP <= 12 + |e.command| < U32 && Record(e) <= rest
  }

  /** The scan takes a giant record but moves on by the wrapped sum only, into its payload; or by
      nothing at all, and then it never returns. */
  lemma ScanOfGiant(rest: Bytes, e: LogEntry)
    requires Giant(rest, e)
    ensures ScanRecord(rest) == if 12 + |e.command| == WRAP then Fail else Take(e, 12 + |e.command| - WRAP)
  {
    hide Crc32, TakeUint, Payload, Frame;
    PayloadRoundTrip(e);
    PrefixRest(Record(e), rest);
    FrameParts(Payload(e), rest[|Record(e)|..]);
  }

  // ----- sequences of records -----

  lemma SerializeAppend(es: Log, e: LogEntry)
    ensures Serialize(es + [e]) == Serialize(es) + Record(e)
  {
    assert (es + [e])[..|es|] == es;
  }

  lemma {:induction false} SerializePrefix(es: Log, k: nat)
    requires k <= |es|
    ensures Serialize(es[..k]) <= Serialize(es)
  {
    hide Record;
    if k < |es| {
      SerializePrefix(es[..|es| - 1], k);
      assert es[..|es| - 1][..k] == es[..k];
    } else {
      assert es[..k] == es;
    }
  }

  /** The entry at index k is written where the entries before it end. */
  lemma RecordAt(es: Log, k: nat, raw: Bytes)
    requires k < |es| && Serialize(es) <= raw
    ensures Serialize(es[..k]) <= raw && Record(es[k]) <= raw[|Serialize(es[..k])|..]
  {
    hide Record;
    SerializePrefix(es, k);
    SerializePrefix(es, k + 1);
    assert es[..k + 1] == es[..k] + [es[k]];
    SerializeAppend(es[..k], es[k]);
    var n := |Serialize(es[..k])|;
    assert Serialize(es[..k + 1]) <= raw;
    assert raw[n..][..|Record(es[k])|] == Serialize(es[..k + 1])[n..];
  }

  lemma PrefixRest(a: Bytes, b: Bytes)
    requires a <= b
    ensures a + b[|a|..] == b
  {
  }

  lemma RecoverStep(raw: Bytes, n: nat, found: Log, e: LogEntry)
    requires n <= |raw| && FitsRecord(e) && Record(e) <= raw[n..]
    ensures n + |Record(e)| <= |raw|
    ensures Recover(raw, n, found) == Recover(raw, n + |Record(e)|, found + [e])
  {
    hide Record, ScanRecord;
    var rest := raw[n..];
    RecordNotEmpty(e);
    PrefixRest(Record(e), rest);
    ScanOfRecord(e, rest[|Record(e)|..]);
  }

  /** The scan walks over written records one by one. */
  lemma {:induction false} RecoverAlong(raw: Bytes, es: Log, k: nat)
    requires AllFit(es) && Serialize(es) <= raw && k <= |es|
    ensures |Serialize(es[..k])| <= |raw|
    ensures Recover(raw, 0, []) == Recover(raw, |Serialize(es[..k])|, es[..k])
  {
    hide Record, Recover;
    SerializePrefix(es, k);
    if k == 0 {
      assert es[..0] == [];
    } else {
      RecoverAlong(raw, es, k - 1);
      RecordAt(es, k - 1, raw);
      RecoverStep(raw, |Serialize(es[..k - 1])|, es[..k - 1], es[k - 1]);
      assert es[..k] == es[..k - 1] + [es[k - 1]];
      SerializeAppend(es[..k - 1], es[k - 1]);
    }
  }

  // ----- recovery is exact -----

  /** es is the longest run of well-formed records at the start of the file. */
  ghost predicate Longest(es: Log, raw: Bytes)
  {
    && AllFit(es)
    && Serialize(es) <= raw
    && forall e :: FitsRecord(e) ==> !(Record(e) <= raw[|Serialize(es)|..])
  }

  /** Every other run of well-formed records is a part of the longest one. */
  lemma {:induction false} LongestIsMaximal(raw: Bytes, es: Log, other: Log)
    requires Longest(es, raw) && AllFit(other) && Serialize(other) <= raw
    ensures other <= es
    decreases |other|
  {
    hide Record, Serialize, FitsRecord;
    if other != [] {
      var k := |other| - 1;
      var front := other[..k];
      SerializePrefix(other, k);
      LongestIsMaximal(raw, es, front);
      RecordAt(other, k, raw);
      assert k == |es| ==> es == front;
      if k < |es| {
        RecordAt(es, k, raw);
        assert es[..k] == other[..k];
        SameRecord(es[k], other[k], raw[|Serialize(es[..k])|..]);
      }
    }
  }

  lemma SameRecord(a: LogEntry, b: LogEntry, rest: Bytes)
    requires FitsRecord(a) && FitsRecord(b) && Record(a) <= rest && Record(b) <= rest
    ensures a == b
  {
    hide Record, ScanRecord;
    PrefixRest(Record(a), rest);
    PrefixRest(Record(b), rest);
    ScanOfRecord(a, rest[|Record(a)|..]);
    ScanOfRecord(b, rest[|Record(b)|..]);
  }

  /** Any file has a longest run of well-formed records, found by extending any shorter one. */
  lemma {:induction false} LongestExists(raw: Bytes, start: Log) returns (es: Log)
    requires AllFit(start) && Serialize(start) <= raw
    ensures Longest(es, raw)
    decreases |raw| - |Serialize(start)|
  {
    hide Record;
    var n := |Serialize(start)|;
    if e :| FitsRecord(e) && Record(e) <= raw[n..] {
      SerializeAppend(start, e);
      PrefixRest(Serialize(start), raw);
      assert Serialize(start + [e]) <= raw;
      RecordNotEmpty(e);
      es := LongestExists(raw, start + [e]);
    } else {
      es := start;
    }
  }

  lemma RecordNotEmpty(e: LogEntry)
    ensures |Record(e)| >= 8
  {
  }

  /**
   * Recovery, exactly, on any bytes. It keeps the longest run of well-formed records and stops where
   * it ends, unless the length field found there makes the 32-bit sum wrap. Then, on a file too short
   * to reach the position the length names, it throws; on a longer one it stops all the same, unless
   * the bytes are a giant record, which it takes, to go on inside that record's payload.
   */
  lemma RecoveryExact(raw: Bytes, es: Log)
    requires Longest(es, raw)
    ensures var end := |Serialize(es)|;
            var rest := raw[end..];
            && (!WrapHit(rest) ==> Recover(raw, 0, []) == Recovered(es, end))
            && (WrapHit(rest) && |rest| < 4 + TakeUint(rest, 4).value.value ==> Recover(raw, 0, []) == Failed)
            && (WrapHit(rest) && |rest| >= 4 + TakeUint(rest, 4).value.value && (forall e :: !Giant(rest, e)) ==>
                  Recover(raw, 0, []) == Recovered(es, end))
            && (forall e :: Giant(rest, e) && 12 + |e.command| == WRAP ==> Recover(raw, 0, []) == Failed)
            && (forall e :: Giant(rest, e) && 12 + |e.command| > WRAP ==>
                  && end + 12 + |e.command| - WRAP <= |raw|
                  && Recover(raw, 0, []) == Recover(raw, end + 12 + |e.command| - WRAP, es + [e]))
  {
    hide Record, ScanRecord, TakeUint;
    var end := |Serialize(es)|;
    var rest := raw[end..];
    RecoverAlong(raw, es, |es|);
    assert es[..|es|] == es;
    if WrapHit(rest) && |rest| < 4 + TakeUint(rest, 4).value.value {
      WrapFails(rest);
    }
    if WrapHit(rest) && |rest| >= 4 + TakeUint(rest, 4).value.value && forall e :: !Giant(rest, e) {
      NotGiantStops(rest);
    }
    if !WrapHit(rest) && rest != [] {
      StopsHere(rest);
    }
    if rest == [] { EmptyIsNoWrap(); }
    forall e | Giant(rest, e)
      ensures rest != [] && ScanRecord(rest) == if 12 + |e.command| == WRAP then Fail else Take(e, 12 + |e.command| - WRAP)
    {
      ScanOfGiant(rest, e);
      RecordNotEmpty(e);
    }
    if ScanRecord(rest).Take? { TakeInside(rest); }
  }

  lemma OnlyGiants(rest: Bytes) returns (e: LogEntry)
    requires WrapHit(rest) && |rest| >= 4 + TakeUint(rest, 4).value.value && !ScanRecord(rest).Stop?
    ensures Giant(rest, e)
  {
    hide Record, ScanRecord, Value;
    Powers();
    ValueBound(rest[..4]);
    e := ScannedFrame(rest);
  }

  lemma NotGiantStops(rest: Bytes)
    requires WrapHit(rest) && |rest| >= 4 + TakeUint(rest, 4).value.value && forall e :: !Giant(rest, e)
    ensures ScanRecord(rest) == Stop && rest != []
  {
    hide ScanRecord, Giant, Value;
    if !ScanRecord(rest).Stop? {
      var e := OnlyGiants(rest);
    }
  }

  /** No giant record follows the longest run of well-formed records. */
  ghost predicate NoGiantBehind(raw: Bytes)
  {
    forall es, e :: Longest(es, raw) ==> !Giant(raw[|Serialize(es)|..], e)
  }

  lemma OneLongest(raw: Bytes, es: Log, other: Log)
    requires Longest(es, raw) && Longest(other, raw)
    ensures es == other
  {
    hide Record, Serialize, FitsRecord;
    LongestIsMaximal(raw, es, other);
    LongestIsMaximal(raw, other, es);
  }

  lemma EmptyIsNoWrap()
    ensures !WrapHit([])
  {
  }

  lemma WrapFails(rest: Bytes)
    requires WrapHit(rest) && |rest| < 4 + TakeUint(rest, 4).value.value
    ensures ScanRecord(rest) == Fail && rest != []
  {
    hide Crc32, Value;
    Powers();
    ValueBound(rest[..4]);
  }

  lemma StopsHere(rest: Bytes)
    requires !WrapHit(rest) && forall e :: FitsRecord(e) ==> !(Record(e) <= rest)
    ensures ScanRecord(rest) == Stop
  {
    hide Crc32, Record, Value, DecodePayload;
    Powers();
    if ScanRecord(rest).Take? {
      TakeIsRecord(rest);
    }
    if TakeUint(rest, 4).Some? { ValueBound(rest[..4]); }
  }

  /** On every file shorter than 4 GiB less 4 bytes: recovery throws if and only if the bytes behind
      the longest run of well-formed records name a length within 8 of 2^32 (and enough bytes follow
      for the wrapped sum); otherwise it is exact. */
  lemma RecoveryFailsExactly(raw: Bytes, es: Log)
    requires |raw| < U32 - 4 && Longest(es, raw)
    ensures Recover(raw, 0, []) == Failed <==> WrapHit(raw[|Serialize(es)|..])
    ensures Recover(raw, 0, []) != Failed <==> Recover(raw, 0, []) == Recovered(es, |Serialize(es)|)
  {
    RecoveryExact(raw, es);
  }

  /** Seven bytes that recovery does not survive, although no record was ever written. */
  lemma RecoveryCanFail()
    ensures Recover([255, 255, 255, 255, 0, 0, 0], 0, []) == Failed
  {
    var raw: Bytes := [255, 255, 255, 255, 0, 0, 0];
    var head := raw[..4];
    assert head == [255, 255, 255, 255];
    assert head[..3] == [255, 255, 255] && head[..3][..2] == [255, 255] && head[..3][..2][..1] == [255];
    assert Value(head[..3][..2][..1]) == 255;
    assert Value(head[..3][..2]) == 65535;
    assert Value(head[..3]) == 16777215;
    assert Value(head) == 0xFFFF_FFFF;
    assert raw[0..] == raw;
    WrapFails(raw);
  }

  // ----- torn and damaged records -----

  /** Part of a record is never taken for a whole one. */
  lemma TornRecordStops(e: LogEntry, k: nat)
    requires FitsRecord(e) && 0 < k < |Record(e)|
    ensures ScanRecord(Record(e)[..k]) == Stop
  {
    hide Crc32, Value;
    var torn := Record(e)[..k];
    if k >= 4 {
      PayloadRoundTrip(e);
      FrameParts(Payload(e), []);
      assert Record(e) + [] == Record(e);
      assert torn[..4] == Record(e)[..4];
      assert (Record(e) + [])[..4] == torn[..4];
    }
  }

  /** A crash inside an append leaves a file that recovers to the log before it, or with it. */
  lemma TornAppendRecovers(es: Log, e: LogEntry, k: nat)
    requires AllFit(es) && FitsRecord(e) && k <= |Record(e)|
    ensures var raw := Serialize(es) + Record(e)[..k];
            Recover(raw, 0, []) == if k < |Record(e)| then Recovered(es, |Serialize(es)|)
                                   else Recovered(es + [e], |Serialize(es + [e])|)
  {
    hide Record, ScanRecord;
    var raw := Serialize(es) + Record(e)[..k];
    if k < |Record(e)| {
      RecoverAlong(raw, es, |es|);
      assert es[..|es|] == es;
      if k > 0 { TornRecordStops(e, k); }
      assert raw[|Serialize(es)|..] == Record(e)[..k];
    } else {
      assert Record(e)[..k] == Record(e);
      WholeRecovers(es + [e]) by { SerializeAppend(es, e); }
      SerializeAppend(es, e);
    }
  }

  lemma WholeRecovers(es: Log)
    requires AllFit(es)
    ensures Recover(Serialize(es), 0, []) == Recovered(es, |Serialize(es)|)
  {
    RecoverAlong(Serialize(es), es, |es|);
    assert es[..|es|] == es;
  }

  /** A record whose payload is damaged inside four consecutive bytes is where recovery stops, no
      matter what precedes or follows it. */
  lemma DamagedRecordStops(es: Log, pre: Bytes, good: Bytes, bad: Bytes, post: Bytes, tail: Bytes)
    requires AllFit(es) && |good| == |bad| <= 4 && good != bad && |pre + good + post| < WRAP
    ensures var p := pre + good + post;
            var damaged := PutU32(|p|) + (pre + bad + post) + PutU32(Crc32(p));
            Recover(Serialize(es) + damaged + tail, 0, []) == Recovered(es, |Serialize(es)|)
  {
    hide Record, ScanRecord, Crc32, BigEndian;
    var p, q := pre + good + post, pre + bad + post;
    var damaged := PutU32(|p|) + q + PutU32(Crc32(p));
    var raw := Serialize(es) + damaged + tail;
    RecoverAlong(raw, es, |es|);
    assert es[..|es|] == es;
    BurstDetected(pre, good, bad, post);
    BadChecksumStops(q, Crc32(p), tail);
    assert raw[|Serialize(es)|..] == damaged + tail;
  }

  lemma BadChecksumStops(q: Bytes, crc: nat, tail: Bytes)
    requires |q| < WRAP && crc < U32 && crc != Crc32(q)
    ensures ScanRecord(PutU32(|q|) + q + PutU32(crc) + tail) == Stop
  {
    hide Crc32, Value, BigEndian;
    Powers();
    var rest := PutU32(|q|) + q + PutU32(crc) + tail;
    assert rest == PutU32(|q|) + (q + PutU32(crc) + tail);
    TakePutUint(|q|, 4, q + PutU32(crc) + tail);
    assert rest[4..4 + |q|] == q;
    assert ChecksumField(rest, |q|) == PutU32(crc);
    assert PutU32(crc) + [] == PutU32(crc);
    TakePutUint(crc, 4, []);
  }

  // ----- what can be read back -----

  /** The scan never moves on by more than the record it takes, and by less for a giant. */
  lemma TakeSize(rest: Bytes)
    requires ScanRecord(rest).Take?
    ensures var t := ScanRecord(rest);
            && t.size <= |Record(t.entry)|
            && (t.size == |Record(t.entry)| ==> FitsRecord(t.entry))
  {
    hide Crc32, Value, BigEndian;
    Powers();
    TakeUintCanonical(rest, 4);
    var e := ScannedFrame(rest);
  }

  /** Recovery stops no further on than the records it found are long, and exactly there only if each
      of them fits. */
  lemma {:induction false} RecoveredLength(raw: Bytes, pos: nat, found: Log)
    requires pos <= |raw| && Recover(raw, pos, found).Recovered?
    ensures var r := Recover(raw, pos, found);
            && found <= r.entries && pos <= r.end
            && r.end - pos + |Serialize(found)| <= |Serialize(r.entries)|
            && (r.end - pos + |Serialize(found)| == |Serialize(r.entries)| ==>
                  forall k :: |found| <= k < |r.entries| ==> FitsRecord(r.entries[k]))
    decreases |raw| - pos
  {
    hide ScanRecord, Record, FitsRecord, Serialize;
    if pos < |raw| && ScanRecord(raw[pos..]).Take? {
      var t := ScanRecord(raw[pos..]);
      TakeInside(raw[pos..]);
      TakeSize(raw[pos..]);
      SerializeAppend(found, t.entry);
      RecoveredLength(raw, pos + t.size, found + [t.entry]);
      assert Recover(raw, pos, found).entries[|found|] == t.entry;
    }
  }

  lemma {:induction false} RecoveredInside(raw: Bytes, pos: nat, found: Log)
    requires pos <= |raw| && Recover(raw, pos, found).Recovered?
    ensures Recover(raw, pos, found).end <= |raw|
    decreases |raw| - pos
  {
    hide ScanRecord;
    if pos < |raw| && ScanRecord(raw[pos..]).Take? {
      var t := ScanRecord(raw[pos..]);
      TakeInside(raw[pos..]);
      RecoveredInside(raw, pos + t.size, found + [t.entry]);
    }
  }

  /** A list of entries is read back from its records, the file staying as it is, if and only if each
      entry fits its record. */
  lemma ReadBackExactly(es: Log)
    ensures Recover(Serialize(es), 0, []) == Recovered(es, |Serialize(es)|) <==> AllFit(es)
  {
    hide Recover, Record, FitsRecord;
    if AllFit(es) {
      WholeRecovers(es);
    } else if Recover(Serialize(es), 0, []) == Recovered(es, |Serialize(es)|) {
      RecoveredLength(Serialize(es), 0, []);
    }
  }
}
