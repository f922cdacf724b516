/**
 * Both files of a node's data directory, what loading them yields, and what a crash at any point of
 * any write leaves to be loaded (src/storage.cpp:67-252). Assumed of the system: synced bytes stay,
 * a rename is atomic, a file is cut at once or not at all, and of an append any part may arrive.
 */
module Disk {
  import opened Types
  import opened Codec
  import opened Crc
  import opened Node
  import opened Wal

  // ----- the meta file -----

  /** The eight characters of the source's kMetaMagic, "DKVSMETA". */
  const MAGIC: Bytes := [68, 75, 86, 83, 77, 69, 84, 65]

  predicate FitsMeta(t: nat, v: int)
  {
    t < U64 && -0x8000_0000 <= v < 0x8000_0000
  }

  function Unsigned(v: int): nat
    requires -0x8000_0000 <= v < 0x8000_0000
  {
    if v < 0 then v + U32 else v
  }

  function Signed(n: nat): int { if n >= 0x8000_0000 then n - U32 else n }

  function MetaBody(t: nat, v: int): Bytes
    requires FitsMeta(t, v)
  {
    MAGIC + PutU64(t) + PutU32(Unsigned(v))
  }

  function MetaBytes(t: nat, v: int): Bytes
    requires FitsMeta(t, v)
  {
    MetaBody(t, v) + PutU32(Crc32(MetaBody(t, v)))
  }

  datatype Meta = Meta(term: nat, vote: int)

  /** The first half of Storage::load; None is its failure return. */
  function LoadMeta(raw: Bytes): Option<Meta>
  {
    if |raw| <= 12 || raw[..8] != MAGIC then None
    else
      var n := |raw| - 4;
      if Value(raw[n..]) != Crc32(raw[..n]) then None
      else
        match TakeUint(raw[8..n], 8)
        case None => None
        case Some(term) =>
          match TakeUint(term.rest, 4)
          case None => None
          case Some(vote) => if vote.rest != [] then None else Some(Meta(term.value, Signed(vote.value)))
  }

  lemma MetaRoundTrip(t: nat, v: int)
    requires FitsMeta(t, v)
    ensures LoadMeta(MetaBytes(t, v)) == Some(Meta(t, v))
  {
    hide Crc32, Value, BigEndian;
    Powers();
    var body, raw := MetaBody(t, v), MetaBytes(t, v);
    var n := |raw| - 4;
    assert raw[..n] == body && raw[n..] == PutU32(Crc32(body));
    ValueOfBigEndian(Crc32(body), 4);
    assert raw[..8] == MAGIC;
    assert raw[8..n] == PutU64(t) + PutU32(Unsigned(v));
    TakePutUint(t, 8, PutU32(Unsigned(v)));
    assert PutU32(Unsigned(v)) + [] == PutU32(Unsigned(v));
    TakePutUint(Unsigned(v), 4, []);
  }

  /** Only the bytes that saveMeta writes are accepted. */
  lemma MetaCanonical(raw: Bytes)
    requires LoadMeta(raw).Some?
    ensures var m := LoadMeta(raw).value; FitsMeta(m.term, m.vote) && raw == MetaBytes(m.term, m.vote)
  {
    hide Crc32, Value, BigEndian;
    Powers();
    var n := |raw| - 4;
    var body := raw[8..n];
    TakeUintCanonical(body, 8);
    var term := TakeUint(body, 8).value;
    TakeUintCanonical(term.rest, 4);
    var vote := TakeUint(term.rest, 4).value;
    assert body == PutU64(term.value) + PutU32(vote.value);
    assert Unsigned(Signed(vote.value)) == vote.value;
    var m := LoadMeta(raw).value;
    assert raw[..n] == raw[..8] + body;
    assert MAGIC + body == MAGIC + PutU64(term.value) + PutU32(vote.value);
    assert raw[..n] == MetaBody(m.term, m.vote);
    BigEndianOfValue(raw[n..]);
    assert raw[n..] == PutU32(Crc32(raw[..n]));
    assert raw == raw[..n] + raw[n..];
  }

  // ----- both files -----

  datatype Disk = Disk(meta: Option<Bytes>, wal: Bytes)

  /** What starting a node on these files yields; None if it refuses to start or throws. */
  function LoadFiles(d: Disk): Option<Durable>
  {
    var meta := if d.meta.None? then Some(Meta(0, -1)) else LoadMeta(d.meta.value);
    match meta
    case None => None
    case Some(m) =>
      match Recover(d.wal, 0, [])
      case Failed => None
      case Recovered(es, _) => Some(Durable(m.term, m.vote, es))
  }

  /** The files are exactly what was written for this durable state. */
  ghost predicate Describes(d: Disk, s: Durable)
  {
    && FitsMeta(s.term, s.vote)
    && d.wal == Serialize(s.entries)
    && match d.meta
       case None => s.term == 0 && s.vote == -1
       case Some(raw) => raw == MetaBytes(s.term, s.vote)
  }

  /** And each entry fits its record, so that they can be read back. */
  ghost predicate Holds(d: Disk, s: Durable)
  {
    Describes(d, s) && AllFit(s.entries)
  }

  /** The files after loading: the log is cut where the scan stopped. */
  function Trimmed(d: Disk): Disk
  {
    match Recover(d.wal, 0, [])
    case Failed => d
    case Recovered(_, end) => if end <= |d.wal| then d.(wal := d.wal[..end]) else d
  }

  /** Loading the files yields s, and leaves files that hold s. */
  ghost predicate Reloads(d: Disk, s: Durable)
  {
    LoadFiles(d) == Some(s) && Holds(Trimmed(d), s)
  }

  lemma LoadsWhatItHolds(d: Disk, s: Durable)
    requires Holds(d, s)
    ensures Reloads(d, s) && Trimmed(d) == d
  {
    hide Recover, MetaBytes, Serialize, AllFit, LoadMeta, FitsMeta;
    WholeRecovers(s.entries);
    assert d.wal[..|d.wal|] == d.wal;
    if d.meta.Some? { MetaRoundTrip(s.term, s.vote); }
  }

  /** Files that reload do so again, and as the same, after any number of attempts. */
  lemma ReloadsAgain(d: Disk, s: Durable)
    requires Reloads(d, s)
    ensures Reloads(Trimmed(d), s) && Trimmed(Trimmed(d)) == Trimmed(d)
  {
    hide Holds, Trimmed, LoadFiles;
    LoadsWhatItHolds(Trimmed(d), s);
  }

  /** The files of a state are loaded as that state, and left as they are, if and only if each of its
      entries fits its record. */
  lemma LoadsExactly(d: Disk, s: Durable)
    requires Describes(d, s)
    ensures LoadFiles(d) == Some(s) && Trimmed(d) == d <==> AllFit(s.entries)
  {
    hide Recover, Serialize, AllFit, LoadMeta, MetaBytes, FitsMeta;
    ReadBackExactly(s.entries);
    if d.meta.Some? { MetaRoundTrip(s.term, s.vote); }
    var r := Recover(d.wal, 0, []);
    if AllFit(s.entries) {
      LoadsWhatItHolds(d, s);
    } else if r.Recovered? {
      RecoveredLength(d.wal, 0, []);
      RecoveredInside(d.wal, 0, []);
    }
  }

  /** Term and vote fit their fields, which their types ensure in the source. */
  predicate Representable(w: Write)
  {
    w.SaveMeta? ==> FitsMeta(w.term, w.vote)
  }

  predicate FitsWrite(w: Write)
  {
    Representable(w) && (w.AppendEntry? ==> FitsRecord(w.entry))
  }

  /** The files after a completed write, the state they held being s. */
  function Written(d: Disk, s: Durable, w: Write): Disk
    requires Representable(w)
  {
    match w
    case SaveMeta(t, v) => d.(meta := Some(MetaBytes(t, v)))
    case AppendEntry(e) => d.(wal := d.wal + Record(e))
    case TruncateFrom(k) =>
      if k < 1 || k > |s.entries| then d else d.(wal := Serialize(s.entries[..k - 1]))
  }

  /** After any write the files are what was written for the new state; they can be read back if the
      entry of an append fits its record. */
  lemma WrittenHolds(d: Disk, s: Durable, w: Write)
    requires Describes(d, s) && Representable(w)
    ensures Describes(Written(d, s, w), ApplyWrite(s, w))
    ensures Holds(d, s) && FitsWrite(w) ==> Holds(Written(d, s, w), ApplyWrite(s, w))
  {
    hide Record, MetaBytes;
    if w.AppendEntry? { SerializeAppend(s.entries, w.entry); }
  }

  /** What a crash inside the write may leave: of an append any part, of the others all or nothing. */
  ghost predicate Torn(d: Disk, s: Durable, w: Write, d': Disk)
    requires Representable(w)
  {
    if w.AppendEntry?
    then exists k :: 0 <= k <= |Record(w.entry)| && d' == d.(wal := d.wal + Record(w.entry)[..k])
    else d' == d || d' == Written(d, s, w)
  }

  lemma CrashInAppend(d: Disk, s: Durable, e: LogEntry, k: nat)
    requires Holds(d, s) && FitsRecord(e) && k <= |Record(e)|
    ensures var d' := d.(wal := d.wal + Record(e)[..k]);
            Reloads(d', s) || Reloads(d', ApplyWrite(s, AppendEntry(e)))
  {
    hide Record, MetaBytes, Recover, LoadMeta, Serialize, FitsRecord, FitsMeta;
    TornAppendRecovers(s.entries, e, k);
    SerializeAppend(s.entries, e);
    var part := Record(e)[..k];
    if k < |Record(e)| {
      assert (d.wal + part)[..|d.wal|] == d.wal;
    } else {
      assert part == Record(e) && (d.wal + part)[..|d.wal + part|] == d.wal + Record(e);
    }
    if d.meta.Some? { MetaRoundTrip(s.term, s.vote); }
  }

  /** A crash inside any write is loaded as the state before the write or the state after it, and
      loading leaves files that hold it. */
  lemma CrashInWrite(d: Disk, s: Durable, w: Write, d': Disk)
    requires Holds(d, s) && FitsWrite(w) && Torn(d, s, w, d')
    ensures Reloads(d', s) || Reloads(d', ApplyWrite(s, w))
  {
    hide Record, Reloads, Describes, AllFit, Written, ApplyWrite;
    if w.AppendEntry? {
      var k :| 0 <= k <= |Record(w.entry)| && d' == d.(wal := d.wal + Record(w.entry)[..k]);
      CrashInAppend(d, s, w.entry, k);
    } else {
      LoadsWhatItHolds(d, s);
      WrittenHolds(d, s, w);
      LoadsWhatItHolds(Written(d, s, w), ApplyWrite(s, w));
    }
  }

  // ----- crashes inside operations -----

  predicate AllRepresentable(ws: seq<Write>)
  {
    forall k :: 0 <= k < |ws| ==> Representable(ws[k])
  }

  predicate AllWritesFit(ws: seq<Write>)
  {
    forall k :: 0 <= k < |ws| ==> FitsWrite(ws[k])
  }

  function WrittenAll(d: Disk, s: Durable, ws: seq<Write>): Disk
    requires AllRepresentable(ws)
  {
    if ws == [] then d
    else
      var n := |ws| - 1;
      Written(WrittenAll(d, s, ws[..n]), ApplyWrites(s, ws[..n]), ws[n])
  }

  lemma {:induction false} WrittenAllHolds(d: Disk, s: Durable, ws: seq<Write>)
    requires Describes(d, s) && AllRepresentable(ws)
    ensures Describes(WrittenAll(d, s, ws), ApplyWrites(s, ws))
    ensures Holds(d, s) && AllWritesFit(ws) ==> Holds(WrittenAll(d, s, ws), ApplyWrites(s, ws))
    decreases |ws|
  {
    hide Describes, AllFit, Written;
    if ws != [] {
      var n := |ws| - 1;
      WrittenAllHolds(d, s, ws[..n]);
      WrittenHolds(WrittenAll(d, s, ws[..n]), ApplyWrites(s, ws[..n]), ws[n]);
    }
  }

  /** What a crash in an operation may leave: k writes made, and a part of the next. */
  ghost predicate CrashLeaves(d: Disk, s: Durable, ws: seq<Write>, k: nat, d': Disk)
    requires AllRepresentable(ws) && k <= |ws|
  {
    var at := WrittenAll(d, s, ws[..k]);
    d' == at || (k < |ws| && Torn(at, ApplyWrites(s, ws[..k]), ws[k], d'))
  }

  /**
   * A crash anywhere in a sequence of writes, after k of them and possibly inside the next, is loaded
   * as the state after some number j of them.
   */
  lemma CrashInOperation(d: Disk, s: Durable, ws: seq<Write>, k: nat, d': Disk) returns (j: nat)
    requires Holds(d, s) && AllWritesFit(ws) && k <= |ws| && CrashLeaves(d, s, ws, k, d')
    ensures j <= |ws| && Reloads(d', ApplyWrites(s, ws[..j]))
  {
    hide Describes, AllFit, Torn, Written, Reloads;
    var at, s1 := WrittenAll(d, s, ws[..k]), ApplyWrites(s, ws[..k]);
    WrittenAllHolds(d, s, ws[..k]);
    j := k;
    if d' == at {
      LoadsWhatItHolds(at, s1);
    } else {
      CrashInWrite(at, s1, ws[k], d');
      if !Reloads(d', s1) {
        j := k + 1;
        assert ws[..k + 1][..k] == ws[..k];
      }
    }
  }
}
