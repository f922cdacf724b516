/** Values shared by every layer: bytes, log entries and small containers. */
module Types {

  /** One octet, as stored on disk and sent on the wire. */
  newtype byte = x: int | 0 <= x < 256

  type Bytes = seq<byte>

  datatype Option<+T> = None | Some(value: T)

  /** One entry of the replicated log (include/dkvs/command.hpp). */
  datatype LogEntry = LogEntry(term: nat, command: Bytes)

  type Log = seq<LogEntry>

  datatype Role = Follower | Candidate | Leader

  /** Every in-memory log starts with this entry at index 0. */
  const SENTINEL := LogEntry(0, [])

  function Min(a: int, b: int): int { if a <= b then a else b }

  function Max(a: int, b: int): int { if a <= b then b else a }

  /** Both logs reach index k and are equal up to and including it. */
  predicate Agree(a: Log, b: Log, k: nat)
  {
    k < |a| && k < |b| && a[..k + 1] == b[..k + 1]
  }

  lemma AgreeBelow(a: Log, b: Log, k: nat, j: nat)
    requires Agree(a, b, k) && j <= k
    ensures Agree(a, b, j) && a[j] == b[j]
  {
    assert a[..j + 1] == a[..k + 1][..j + 1];
    assert b[..j + 1] == b[..k + 1][..j + 1];
    assert a[j] == a[..k + 1][j];
    assert b[j] == b[..k + 1][j];
  }

  lemma AgreeTransitive(a: Log, b: Log, c: Log, k: nat)
    requires Agree(a, b, k) && Agree(b, c, k)
    ensures Agree(a, c, k)
  {
  }

  /** Extending either side keeps an agreement. */
  lemma AgreeExtends(a: Log, b: Log, a': Log, b': Log, k: nat)
    requires Agree(a, b, k) && a <= a' && b <= b'
    ensures Agree(a', b', k)
  {
    assert a'[..k + 1] == a[..k + 1];
    assert b'[..k + 1] == b[..k + 1];
  }

  // ----- majorities -----

  /** q is a set of node numbers of a cluster of n nodes that has more than half of them. */
  predicate Majority(q: set<nat>, n: nat)
  {
    (forall v :: v in q ==> v < n) && |q| >= n / 2 + 1
  }

  function NodeSet(n: nat): (r: set<nat>)
    ensures |r| == n
    ensures forall v: nat :: v in r <==> v < n
  {
    if n == 0 then {} else NodeSet(n - 1) + {n - 1}
  }

  lemma SubsetSize<T>(a: set<T>, b: set<T>)
    requires a <= b
    ensures |a| <= |b|
  {
    assert b == a + (b - a);
  }

  /** Two majorities of one cluster share a node. */
  lemma MajoritiesMeet(a: set<nat>, b: set<nat>, n: nat) returns (v: nat)
    requires Majority(a, n) && Majority(b, n)
    ensures v in a && v in b
  {
    assert |a + b| == |a| + |b| - |a * b|;
    assert a + b <= NodeSet(n);
    SubsetSize(a + b, NodeSet(n));
    assert |a * b| > 0;
    v :| v in a * b;
  }
}
