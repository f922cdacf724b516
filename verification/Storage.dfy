/** The storage object of src/storage.cpp over its two files, held here as byte sequences. */
module Storage {
  import opened Types
  import opened Codec
  import opened Crc
  import opened Node
  import opened Wal
  import opened Disk
  import opened Coder

  datatype LoadOutcome = Loaded | Refused | Threw

  class Storage {
    var currentTerm: nat
    var votedFor: int
    var entries: Log
    var offsets: seq<nat>
    var walSize: nat

    /** The files themselves, and the write position of the log's descriptor. */
    var metaFile: Option<Bytes>
    var walFile: Bytes
    var filePos: nat

    /** Every completed durable write, in order. */
    ghost var journal: seq<Write>

    ghost function State(): Durable
      reads this
    {
      Durable(currentTerm, votedFor, entries)
    }

    ghost function Files(): Disk
      reads this
    {
      Disk(metaFile, walFile)
    }

    /** Files, offsets, sizes and entries describe one list. */
    ghost predicate Valid()
      reads this
    {
      && Describes(Files(), State())
      && OffsetsOf(offsets, entries)
      && walSize == |walFile| == filePos
    }

    constructor (meta: Option<Bytes>, wal: Bytes)
      ensures currentTerm == 0 && votedFor == -1 && metaFile == meta && walFile == wal && journal == []
    {
      currentTerm, votedFor, entries, offsets, walSize := 0, -1, [], [], 0;
      metaFile, walFile, filePos := meta, wal, 0;
      journal := [];
    }

    /** Storage::load on a freshly made object. It reads what LoadFiles says, on any bytes, and cuts
        the file where the scan stopped. Files, offsets, sizes and entries describe one list again, and
        one that can be read back, if and only if no giant record follows the longest run of records. */
    method Load() returns (r: LoadOutcome)
      requires currentTerm == 0 && votedFor == -1
      modifies this
      ensures r == Loaded <==> LoadFiles(old(Files())).Some?
      ensures r == Loaded ==> Some(State()) == LoadFiles(old(Files()))
      ensures r == Loaded ==> Files() == Trimmed(old(Files())) && walSize == |walFile| == filePos
      ensures r == Loaded ==> (Valid() <==> NoGiantBehind(old(walFile)))
      ensures r == Loaded && Valid() ==> Holds(Files(), State())
      ensures journal == old(journal)
    {
      hide Recover, ScanRecord, MetaBytes, Crc32, Record, LoadMeta, Serialize, OffsetsOf, FitsRecord, FitsMeta, Longest, Giant,
           NoGiantBehind, ScannedAlong, Strayed;
      NothingWritten();
      if metaFile.Some? {
        var m := ReadMeta(metaFile.value);
        if m.None? { return Refused; }
        currentTerm, votedFor := m.value.term, m.value.vote;
        MetaCanonical(metaFile.value);
      }
      var raw := walFile;
      ghost var all := LongestExists(raw, []);
      StartsAlong(raw, all);
      entries, offsets := [], [];
      var pos := 0;
      var scanning := true;
      while scanning && pos < |raw|
        invariant pos <= |raw|
        invariant Recover(raw, 0, []) == if scanning then Recover(raw, pos, entries) else Recovered(entries, pos)
        invariant ScannedAlong(raw, all, entries, offsets, pos) || Strayed(raw, all, entries, offsets, pos)
        invariant !scanning ==> pos < |raw| && ScanRecord(raw[pos..]) == Stop
        invariant metaFile == old(metaFile) && walFile == raw && journal == old(journal)
        invariant currentTerm == (if metaFile.None? then 0 else LoadMeta(metaFile.value).value.term)
        invariant votedFor == (if metaFile.None? then -1 else LoadMeta(metaFile.value).value.vote)
        decreases |raw| - pos, scanning
      {
        var scan := ReadRecord(raw, pos);
        RecoverUnfolds(raw, pos, entries);
        match scan {
          case Stop => scanning := false;
          case Fail => return Threw;
          case Take(e, n) =>
            ScansOn(raw, all, entries, offsets, pos);
            offsets := offsets + [pos];
            entries := entries + [e];
            pos := pos + n;
        }
      }
      if scanning { RecoverEnds(raw, entries); }
      if pos != |raw| {
        walFile := raw[..pos];
      } else {
        assert raw[..pos] == raw;
      }
      walSize := pos;
      filePos := walSize;
      if ScannedAlong(raw, all, entries, offsets, pos) {
        ScannedPrefix(raw, all, entries, offsets, pos);
        NothingBehind(raw, all, entries, offsets, pos);
      } else {
        StrayedIsTorn(raw, all, entries, offsets, pos);
      }
      r := Loaded;
    }

    /** Storage::saveMeta. */
    method SaveMeta(t: nat, v: int)
      requires Valid() && FitsMeta(t, v)
      modifies this
      ensures Valid() && State() == ApplyWrite(old(State()), Write.SaveMeta(t, v))
      ensures Files() == Written(old(Files()), old(State()), Write.SaveMeta(t, v))
      ensures journal == old(journal) + [Write.SaveMeta(t, v)]
    {
      hide Record, Serialize, OffsetsOf, PutU64, PutU32, Crc32, Unsigned;
      currentTerm, votedFor := t, v;
      var body := new Encoder();
      body.U64(t);
      body.U32(Unsigned(v));
      var payload := MAGIC + body.buf;
      assert payload == MAGIC + PutU64(t) + PutU32(Unsigned(v));
      var check := ChecksumBytes(payload);
      metaFile := Some(payload + check);
      journal := journal + [Write.SaveMeta(t, v)];
    }

    /** Storage::append. A length that does not fit its field is cut, as the source does. */
    method Append(e: LogEntry)
      requires Valid()
      modifies this
      ensures Valid() && State() == ApplyWrite(old(State()), AppendEntry(e))
      ensures Files() == Written(old(Files()), old(State()), AppendEntry(e))
      ensures journal == old(journal) + [AppendEntry(e)]
    {
      hide Crc32, PutU32, PutU64, PutStr, Serialize, OffsetsOf, MetaBytes;
      var record := EncodeRecord(e);
      walFile := walFile[..filePos] + record + walFile[Min(filePos + |record|, |walFile|)..];
      filePos := filePos + |record|;
      assert walFile == old(walFile) + Record(e);
      SerializeAppend(entries, e);
      OffsetsAppend(offsets, entries, e, walSize);
      offsets := offsets + [walSize];
      walSize := walSize + |record|;
      entries := entries + [e];
      journal := journal + [AppendEntry(e)];
    }

    /** Storage::truncateFrom; an index outside the log changes nothing. */
    method TruncateFrom(fromIndex: nat)
      requires Valid()
      modifies this
      ensures Valid() && State() == ApplyWrite(old(State()), Write.TruncateFrom(fromIndex))
      ensures Files() == Written(old(Files()), old(State()), Write.TruncateFrom(fromIndex))
      ensures journal == old(journal) + [Write.TruncateFrom(fromIndex)]
    {
      hide Serialize, MetaBytes, OffsetsOf;
      journal := journal + [Write.TruncateFrom(fromIndex)];
      if fromIndex < 1 || fromIndex > |entries| { return; }
      var k := fromIndex - 1;
      OffsetAt(offsets, entries, k);
      OffsetsTruncate(offsets, entries, k);
      var offset := offsets[k];
      walFile := walFile[..offset];
      filePos := offset;
      walSize := offset;
      offsets := offsets[..k];
      entries := entries[..k];
    }
  }

  // ----- encoding -----

  /** The checksum of the bytes, as its four bytes. */
  method ChecksumBytes(data: Bytes) returns (b: Bytes)
    ensures b == PutU32(Crc32(data))
  {
    hide PutU32, Crc32;
    var crc := ComputeCrc32(data);
    var enc := new Encoder();
    enc.U32(crc as nat);
    b := enc.buf;
  }

  method EncodeRecord(e: LogEntry) returns (record: Bytes)
    ensures record == Record(e)
  {
    hide PutU32, PutU64, PutStr, Crc32;
    var enc := new Encoder();
    enc.U64(e.term);
    enc.Str(e.command);
    var payload := enc.buf;
    assert payload == Payload(e);
    var rec := new Encoder();
    rec.U32(|payload|);
    var check := ChecksumBytes(payload);
    record := rec.buf + payload + check;
  }

  // ----- offsets -----

  /** Each offset is the sum of the sizes of the records before it. */
  ghost predicate OffsetsOf(offsets: seq<nat>, es: Log)
  {
    |offsets| == |es| && forall k :: 0 <= k < |es| ==> offsets[k] == |Serialize(es[..k])|
  }

  lemma NothingWritten()
    ensures Serialize([]) == [] && OffsetsOf([], []) && FitsMeta(0, -1)
  {
  }

  lemma OffsetsAppend(offsets: seq<nat>, es: Log, e: LogEntry, at: nat)
    requires OffsetsOf(offsets, es) && at == |Serialize(es)|
    ensures OffsetsOf(offsets + [at], es + [e])
  {
    hide Serialize;
    forall k | 0 <= k < |es| + 1 ensures (offsets + [at])[k] == |Serialize((es + [e])[..k])| {
      if k < |es| {
        assert (es + [e])[..k] == es[..k];
      } else {
        assert (es + [e])[..k] == es;
      }
    }
  }

  /** Cutting the file at an offset leaves the records of the entries before it. */
  lemma OffsetAt(offsets: seq<nat>, es: Log, k: nat)
    requires OffsetsOf(offsets, es) && k < |es|
    ensures |offsets| == |es| && offsets[k] <= |Serialize(es)| && Serialize(es)[..offsets[k]] == Serialize(es[..k])
  {
    hide Serialize;
    SerializePrefix(es, k);
  }

  lemma OffsetsTruncate(offsets: seq<nat>, es: Log, k: nat)
    requires OffsetsOf(offsets, es) && k <= |es|
    ensures OffsetsOf(offsets[..k], es[..k])
  {
    hide Serialize;
    forall j | 0 <= j < k ensures offsets[..k][j] == |Serialize(es[..k][..j])| {
      assert es[..k][..j] == es[..j];
    }
  }

  // ----- the scan -----

  /** The first half of load: magic, checksum, term and vote. */
  method ReadMeta(raw: Bytes) returns (r: Option<Meta>)
    ensures r == LoadMeta(raw)
  {
    hide Crc32, Value;
    if |raw| <= 12 || raw[..8] != MAGIC { return None; }
    var n := |raw| - 4;
    var tail := new Decoder(raw[n..]);
    assert raw[n..][..4] == raw[n..];
    var storedCrc := tail.Uint(4);
    var crc := ComputeCrc32(raw[..n]);
    if storedCrc.None? || storedCrc.value != crc as nat { return None; }
    var dec := new Decoder(raw[8..n]);
    var term := dec.Uint(8);
    var voted := dec.Uint(4);
    var done := dec.Done();
    if term.None? || voted.None? || !done { return None; }
    r := Some(Meta(term.value, Signed(voted.value)));
  }

  /** One round of the loop of load, reading the buffer at pos. */
  method ReadRecord(raw: Bytes, pos: nat) returns (r: Scan)
    requires pos < |raw|
    ensures r == ScanRecord(raw[pos..])
  {
    hide Crc32, Value, TakeStr;
    ghost var rest := raw[pos..];
    var header := new Decoder(raw[pos..]);
    var len := header.Uint(4);
    if len.None? || |raw| - pos < (4 + len.value + 4) % U32 { return Stop; }
    if pos + 4 + len.value > |raw| { return Fail; }
    var payload := raw[pos + 4..pos + 4 + len.value];
    assert payload == rest[4..4 + len.value];
    var tail := new Decoder(raw[pos + 4 + len.value..Min(pos + 8 + len.value, |raw|)]);
    assert tail.Rest() == ChecksumField(rest, len.value);
    var storedCrc := tail.Uint(4);
    var crc := ComputeCrc32(payload);
    if storedCrc.None? || storedCrc.value != crc as nat { return Stop; }
    var dec := new Decoder(payload);
    var term := dec.Uint(8);
    var cmd := dec.Str();
    var done := dec.Done();
    if term.None? || cmd.None? || !done { return Stop; }
    var step := (4 + len.value + 4) % U32;
    if step == 0 { return Fail; }
    r := Take(LogEntry(term.value, cmd.value), step);
  }

  lemma RecoverUnfolds(raw: Bytes, pos: nat, found: Log)
    requires pos < |raw|
    ensures match ScanRecord(raw[pos..])
            case Stop => Recover(raw, pos, found) == Recovered(found, pos)
            case Fail => Recover(raw, pos, found) == Failed
            case Take(e, n) => 0 < n <= |raw| - pos && Recover(raw, pos, found) == Recover(raw, pos + n, found + [e])
  {
    hide ScanRecord;
    if ScanRecord(raw[pos..]).Take? { TakeInside(raw[pos..]); }
  }

  lemma RecoverEnds(raw: Bytes, found: Log)
    ensures Recover(raw, |raw|, found) == Recovered(found, |raw|)
  {
  }

  // ----- along the longest run -----

  /** The scan has taken a part of the longest run of records, with its offsets, and stands behind it. */
  ghost predicate ScannedAlong(raw: Bytes, all: Log, es: Log, offsets: seq<nat>, pos: nat)
  {
    Longest(all, raw) && es <= all && pos == |Serialize(es)| && OffsetsOf(offsets, es)
  }

  /** The scan has taken a giant record behind the longest run and gone on inside it. */
  ghost predicate Strayed(raw: Bytes, all: Log, es: Log, offsets: seq<nat>, pos: nat)
  {
    && Longest(all, raw) && |es| > |all| && es[..|all|] == all && |offsets| == |es|
    && Giant(raw[|Serialize(all)|..], es[|all|])
    && var after := |Serialize(all)| + 12 + |es[|all|].command| - WRAP;
       if |es| == |all| + 1 then pos == after else offsets[|all| + 1] == after
  }

  lemma StartsAlong(raw: Bytes, all: Log)
    requires Longest(all, raw)
    ensures ScannedAlong(raw, all, [], [], 0)
  {
  }

  /** Where the scan takes another entry, it is the next of the longest run or a giant behind it. */
  lemma ScansOn(raw: Bytes, all: Log, es: Log, offsets: seq<nat>, pos: nat)
    requires ScannedAlong(raw, all, es, offsets, pos) || Strayed(raw, all, es, offsets, pos)
    requires pos < |raw| && ScanRecord(raw[pos..]).Take?
    ensures var t := ScanRecord(raw[pos..]);
            || ScannedAlong(raw, all, es + [t.entry], offsets + [pos], pos + t.size)
            || Strayed(raw, all, es + [t.entry], offsets + [pos], pos + t.size)
  {
    hide ScanRecord, ScannedAlong, Strayed;
    if ScannedAlong(raw, all, es, offsets, pos) {
      ScansFromRun(raw, all, es, offsets, pos);
    } else {
      StraysOn(raw, all, es, offsets, pos, ScanRecord(raw[pos..]));
    }
  }

  lemma StraysOn(raw: Bytes, all: Log, es: Log, offsets: seq<nat>, pos: nat, t: Scan)
    requires Strayed(raw, all, es, offsets, pos) && t.Take?
    ensures Strayed(raw, all, es + [t.entry], offsets + [pos], pos + t.size)
  {
    hide Longest, Giant, Serialize;
    assert (es + [t.entry])[..|all|] == es[..|all|];
  }

  lemma ScansFromRun(raw: Bytes, all: Log, es: Log, offsets: seq<nat>, pos: nat)
    requires ScannedAlong(raw, all, es, offsets, pos) && pos < |raw| && ScanRecord(raw[pos..]).Take?
    ensures var t := ScanRecord(raw[pos..]);
            || ScannedAlong(raw, all, es + [t.entry], offsets + [pos], pos + t.size)
            || Strayed(raw, all, es + [t.entry], offsets + [pos], pos + t.size)
  {
    hide Record, ScanRecord, Serialize, OffsetsOf, WrapHit, Giant;
    var k, t := |es|, ScanRecord(raw[pos..]);
    assert es == all[..k];
    if k == |all| {
      assert es == all;
      TakenBehind(raw[pos..]);
      OffsetsCount(offsets, es);
      assert (es + [t.entry])[..k] == all;
    } else {
      RecordAt(all, k, raw);
      PrefixRest(Record(all[k]), raw[pos..]);
      ScanOfRecord(all[k], raw[pos..][|Record(all[k])|..]);
      assert es + [all[k]] == all[..k + 1];
      SerializeAppend(es, all[k]);
      OffsetsAppend(offsets, es, all[k], pos);
    }
  }

  lemma OffsetsCount(offsets: seq<nat>, es: Log)
    requires OffsetsOf(offsets, es)
    ensures |offsets| == |es|
  {
  }

  /** What is taken where no well-formed record is, is a giant. */
  lemma TakenBehind(rest: Bytes)
    requires ScanRecord(rest).Take? && forall e :: FitsRecord(e) ==> !(Record(e) <= rest)
    ensures var t := ScanRecord(rest); Giant(rest, t.entry) && t.size == 12 + |t.entry.command| - WRAP
  {
    hide Record, ScanRecord, Giant, WrapHit;
    if !WrapHit(rest) { StopsHere(rest); } else {
      WrapReaches(rest);
      var e := OnlyGiants(rest);
      ScanOfGiant(rest, e);
    }
  }

  lemma WrapReaches(rest: Bytes)
    requires WrapHit(rest) && ScanRecord(rest).Take?
    ensures |rest| >= 4 + TakeUint(rest, 4).value.value
  {
    hide Crc32, Value;
  }

  /** A scan that stops along the longest run has reached its end, and no giant is there. */
  lemma NothingBehind(raw: Bytes, all: Log, es: Log, offsets: seq<nat>, pos: nat)
    requires ScannedAlong(raw, all, es, offsets, pos) && pos <= |raw|
    requires pos == |raw| || ScanRecord(raw[pos..]) == Stop
    ensures NoGiantBehind(raw)
  {
    hide Record, ScanRecord, Serialize, OffsetsOf, Giant;
    AtTheEnd(raw, all, es, offsets, pos);
    forall other, e | Longest(other, raw) ensures !Giant(raw[|Serialize(other)|..], e) {
      OneLongest(raw, all, other);
      var rest := raw[pos..];
      if Giant(rest, e) { GiantIsTaken(rest, e); }
    }
  }

  lemma GiantIsTaken(rest: Bytes, e: LogEntry)
    requires Giant(rest, e)
    ensures rest != [] && ScanRecord(rest) != Stop
  {
    hide ScanRecord, Record;
    RecordNotEmpty(e);
    ScanOfGiant(rest, e);
  }

  lemma AtTheEnd(raw: Bytes, all: Log, es: Log, offsets: seq<nat>, pos: nat)
    requires ScannedAlong(raw, all, es, offsets, pos) && pos <= |raw|
    requires pos == |raw| || ScanRecord(raw[pos..]) == Stop
    ensures es == all
  {
    hide Record, ScanRecord, Serialize, OffsetsOf;
    var k := |es|;
    assert es == all[..k];
    if k < |all| {
      RecordAt(all, k, raw);
      RecordNotEmpty(all[k]);
      PrefixRest(Record(all[k]), raw[pos..]);
      ScanOfRecord(all[k], raw[pos..][|Record(all[k])|..]);
    }
  }

  /** Once the scan has strayed, offsets and size do not belong to the entries. */
  lemma StrayedIsTorn(raw: Bytes, all: Log, es: Log, offsets: seq<nat>, pos: nat)
    requires Strayed(raw, all, es, offsets, pos)
    ensures !NoGiantBehind(raw)
    ensures OffsetsOf(offsets, es) ==> pos != |Serialize(es)|
  {
    hide Record, Longest, Serialize;
    var n := |all|;
    var e := es[n];
    assert es[..n + 1] == all + [e];
    SerializeAppend(all, e);
    GiantLength(e);
    if |es| == n + 1 { assert es == es[..n + 1]; }
  }

  lemma GiantLength(e: LogEntry)
    ensures |Record(e)| == 20 + |e.command|
  {
  }

  /** What was taken is what the kept bytes are made of. */
  lemma ScannedPrefix(raw: Bytes, all: Log, es: Log, offsets: seq<nat>, pos: nat)
    requires ScannedAlong(raw, all, es, offsets, pos)
    ensures pos <= |raw| && raw[..pos] == Serialize(es) && AllFit(es) && OffsetsOf(offsets, es)
  {
    hide Record, Serialize, OffsetsOf, FitsRecord;
    assert es == all[..|es|];
    SerializePrefix(all, |es|);
  }
}
