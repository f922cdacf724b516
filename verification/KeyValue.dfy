/**
 * What clients see of the map, said about the committed log alone: a key has the value of the last
 * committed SET of it, unless a later DEL removed it (src/kv_store.cpp, src/server.cpp:215-302).
 */
module KeyValue {
  import opened Types
  import opened Codec
  import opened Node
  import opened Command
  import opened Cluster
  import opened Protocol
  import opened Simulation
  import opened Runs
  import opened Commit
  import opened CommitRule
  import opened Service
  import opened Theorems

  // ----- the law -----

  /** The entry is a SET of the key to the value. */
  ghost predicate IsSet(e: LogEntry, key: Bytes, value: Bytes)
  {
    |key| < U32 && |value| < U32 && e.command == Encode(Command(Set, key, value))
  }

  /** The entry is a SET or a DEL of the key. */
  ghost predicate Touches(e: LogEntry, key: Bytes)
  {
    exists c: Command :: Fits(c) && c.key == key && (c.verb == Set || c.verb == Del) && e.command == Encode(c)
  }

  /** Among the entries before index x the last one that touches the key sets it to the value. */
  ghost predicate LastSet(l: Log, x: nat, key: Bytes, value: Bytes)
  {
    exists j :: 0 <= j < x <= |l| && IsSet(l[j], key, value) && Untouched(l, j + 1, x, key)
  }

  ghost predicate Untouched(l: Log, lo: nat, hi: nat, key: Bytes)
  {
    hi <= |l| && forall m :: lo <= m < hi ==> !Touches(l[m], key)
  }

  /** A handler's answer is what the entries before its own say. */
  ghost predicate ReadsLastSet(l: Log, c: Handler, r: Answer)
  {
    var key := c.command.key;
    match c.command.verb
    case Set => r == Ok
    case Get =>
      && (forall v :: r == Found(v) <==> LastSet(l, c.index, key, v))
      && (r == NotFound <==> forall v :: !LastSet(l, c.index, key, v))
    case Del =>
      && (r == Deleted <==> exists v :: LastSet(l, c.index, key, v))
      && (r == NotFound <==> forall v :: !LastSet(l, c.index, key, v))
  }

  // ----- one entry -----

  lemma SetDecodes(e: LogEntry, key: Bytes, value: Bytes)
    ensures IsSet(e, key, value) <==> Decode(e.command) == Some(Command(Set, key, value))
  {
    hide Encode, Decode;
    if IsSet(e, key, value) { RoundTrip(Command(Set, key, value)); }
    if Decode(e.command) == Some(Command(Set, key, value)) { Canonical(e.command); }
  }

  lemma TouchDecodes(e: LogEntry, key: Bytes)
    ensures Touches(e, key) <==>
              Decode(e.command).Some? && Decode(e.command).value.key == key && !Decode(e.command).value.verb.Get?
  {
    hide Encode, Decode;
    if Touches(e, key) {
      var c: Command :| Fits(c) && c.key == key && (c.verb == Set || c.verb == Del) && e.command == Encode(c);
      RoundTrip(c);
    }
    if Decode(e.command).Some? { Canonical(e.command); }
  }

  /** What one entry does to the value of one key. */
  lemma EntryEffect(m: Store, e: LogEntry, key: Bytes, value: Bytes)
    ensures var m' := ApplyRaw(m, e.command).0;
            (key in m' && m'[key] == value) <==>
              IsSet(e, key, value) || (!Touches(e, key) && key in m && m[key] == value)
  {
    hide Encode, Decode, IsSet, Touches;
    SetDecodes(e, key, value);
    TouchDecodes(e, key);
    if e.command == [] { EmptyDecodes(); }
  }

  lemma EmptyDecodes()
    ensures Decode([]) == None
  {
  }

  // ----- a whole log -----

  /** The map after a log has the key at the value if and only if the last entry that touches the key
      sets it so. */
  lemma {:induction false} ReplayIsLastSet(l: Log, key: Bytes, value: Bytes)
    ensures (key in Replay(l) && Replay(l)[key] == value) <==> LastSet(l, |l|, key, value)
    decreases |l|
  {
    hide ApplyRaw, IsSet, Touches;
    if l != [] {
      var n := |l| - 1;
      var front, e := l[..n], l[n];
      ReplayIsLastSet(front, key, value);
      EntryEffect(Replay(front), e, key, value);
      LastSetStep(l, key, value);
    }
  }

  lemma LastSetStep(l: Log, key: Bytes, value: Bytes)
    requires l != []
    ensures var n := |l| - 1;
            LastSet(l, |l|, key, value) <==>
              IsSet(l[n], key, value) || (!Touches(l[n], key) && LastSet(l[..n], n, key, value))
  {
    hide IsSet, Touches;
    var n := |l| - 1;
    var front := l[..n];
    if IsSet(l[n], key, value) {
      assert Untouched(l, n + 1, |l|, key);
    }
    if !Touches(l[n], key) && LastSet(front, n, key, value) {
      var j :| 0 <= j < n <= |front| && IsSet(front[j], key, value) && Untouched(front, j + 1, n, key);
      assert IsSet(l[j], key, value);
      forall m | j + 1 <= m < |l| ensures !Touches(l[m], key) {
        if m < n { assert !Touches(front[m], key); }
      }
      assert Untouched(l, j + 1, |l|, key);
    }
    if LastSet(l, |l|, key, value) && !IsSet(l[n], key, value) {
      var j :| 0 <= j < |l| && IsSet(l[j], key, value) && Untouched(l, j + 1, |l|, key);
      assert IsSet(front[j], key, value);
      forall m | j + 1 <= m < n ensures !Touches(front[m], key) { assert !Touches(l[m], key); }
      assert Untouched(front, j + 1, n, key);
    }
  }

  lemma LastSetOfPrefix(l: Log, x: nat, key: Bytes, value: Bytes)
    requires x <= |l|
    ensures LastSet(l[..x], x, key, value) <==> LastSet(l, x, key, value)
  {
    hide IsSet, Touches;
    var p := l[..x];
    if LastSet(p, x, key, value) {
      var j :| 0 <= j < x && IsSet(p[j], key, value) && Untouched(p, j + 1, x, key);
      forall m | j + 1 <= m < x ensures !Touches(l[m], key) { assert !Touches(p[m], key); }
      assert IsSet(l[j], key, value) && Untouched(l, j + 1, x, key);
    }
    if LastSet(l, x, key, value) {
      var j :| 0 <= j < x && IsSet(l[j], key, value) && Untouched(l, j + 1, x, key);
      forall m | j + 1 <= m < x ensures !Touches(p[m], key) { assert !Touches(l[m], key); }
      assert IsSet(p[j], key, value) && Untouched(p, j + 1, x, key);
    }
  }

  /** The map after the entries before x. */
  lemma PrefixIsLastSet(l: Log, x: nat, key: Bytes, value: Bytes)
    requires x <= |l|
    ensures (key in Replay(l[..x]) && Replay(l[..x])[key] == value) <==> LastSet(l, x, key, value)
  {
    hide Replay, LastSet;
    ReplayIsLastSet(l[..x], key, value);
    LastSetOfPrefix(l, x, key, value);
  }

  lemma ReplayedReads(l: Log, c: Handler, r: Answer)
    requires Replayed(l, c, r)
    ensures ReadsLastSet(l, c, r)
  {
    hide Replay, LastSet, Encode;
    var m, key := Replay(l[..c.index]), c.command.key;
    forall v ensures (key in m && m[key] == v) <==> LastSet(l, c.index, key, v) {
      PrefixIsLastSet(l, c.index, key, v);
    }
    if key in m { assert LastSet(l, c.index, key, m[key]); }
  }

  // ----- runs -----

  /**
   * In every run that meets the commit condition, an answer without error is: OK for a SET; for a GET
   * the value of the last committed SET of the key before it, or not found if a DEL came after that or
   * there was none; for a DEL whether there was such a SET. The log of any node that has the entry
   * committed says so.
   */
  lemma AnswersReadLastSets(n: nat, ss: seq<State>, acts: seq<Action>, k: nat, i: nat, c: Handler, r: Answer)
    requires IsRun(n, ss, acts) && TermMatchedRun(ss, acts) && Answers(ss, acts, k, i, c, r) && !IsError(r)
    ensures i < |ss[k].nodes| && 1 <= c.index <= ss[k].nodes[i].commitIndex < |ss[k].nodes[i].log|
    ensures forall j, b :: 0 <= j < |ss| && 0 <= b < |ss[j].nodes| && ss[j].nodes[b].commitIndex >= c.index ==>
              ReadsLastSet(ss[j].nodes[b].log, c, r)
  {
    hide IsRun, TermMatchedRun, Answers, Replayed, ReadsLastSet;
    AnswersAreReplays(n, ss, acts, k, i, c, r);
    forall j, b | 0 <= j < |ss| && 0 <= b < |ss[j].nodes| && ss[j].nodes[b].commitIndex >= c.index
      ensures ReadsLastSet(ss[j].nodes[b].log, c, r)
    {
      ReplayedReads(ss[j].nodes[b].log, c, r);
    }
  }

  /** Whenever a node's applier rests, its map is what the entries applied so far say. */
  lemma StoresHoldLastSets(n: nat, ss: seq<State>, acts: seq<Action>, k: nat, i: nat, key: Bytes, value: Bytes)
    requires IsRun(n, ss, acts) && TermMatchedRun(ss, acts) && k < |ss|
    requires i < |ss[k].nodes| && i < |ss[k].servers| && ss[k].servers[i].applier.Resting?
    ensures var m, store := ss[k].nodes[i], ss[k].servers[i].store;
            && m.lastApplied <= m.commitIndex < |m.log|
            && ((key in store && store[key] == value) <==> LastSet(m.log, m.lastApplied + 1, key, value))
  {
    hide Inv, Rel, IsRun, TermMatchedRun, Backs, CommitBacks, ServerBacks, Replay, LastSet;
    var hs := ServedHistory(n, ss, acts);
    Served(ss, hs, k);
    var m := ss[k].nodes[i];
    assert ServerOk(m, ss[k].servers[i], hs[k], ss[k].tickets);
    PrefixIsLastSet(m.log, m.lastApplied + 1, key, value);
  }
}
