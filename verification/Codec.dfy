/**
 * The byte layout used on disk and on the wire (src/codec.cpp): big-endian integers and strings
 * with a 32-bit length. Writers are functions to bytes; readers take a value off the front and
 * return the rest, or None when the bytes run out.
 */
module Codec {
  import opened Types

  /** 256 to the power k. */
  function Pow256(k: nat): (r: nat)
    ensures r >= 1
  {
    if k == 0 then 1 else 256 * Pow256(k - 1)
  }

  const U32: nat := 0x1_0000_0000
  const U64: nat := 0x1_0000_0000_0000_0000

  /** The low k bytes of v, most significant first; higher bytes are cut off, as a cast does. */
  function BigEndian(v: nat, k: nat): (b: Bytes)
    ensures |b| == k
  {
    if k == 0 then [] else BigEndian(v / 256, k - 1) + [(v % 256) as byte]
  }

  function Value(b: Bytes): nat
  {
    if b == [] then 0 else Value(b[..|b| - 1]) * 256 + b[|b| - 1] as nat
  }

  lemma ValueBound(b: Bytes)
    ensures Value(b) < Pow256(|b|)
  {
    if b != [] { ValueBound(b[..|b| - 1]); }
  }

  lemma {:induction false} ValueOfBigEndian(v: nat, k: nat)
    requires v < Pow256(k)
    ensures Value(BigEndian(v, k)) == v
  {
    if k > 0 {
      ValueOfBigEndian(v / 256, k - 1);
      assert BigEndian(v, k)[..k - 1] == BigEndian(v / 256, k - 1);
    }
  }

  lemma {:induction false} BigEndianOfValue(b: Bytes)
    ensures BigEndian(Value(b), |b|) == b
  {
    if b != [] {
      BigEndianOfValue(b[..|b| - 1]);
      assert b == b[..|b| - 1] + [b[|b| - 1]];
    }
  }

  lemma Powers()
    ensures Pow256(1) == 256 && Pow256(4) == U32 && Pow256(8) == U64
  {
    assert Pow256(2) == 65536;
    assert Pow256(3) == 16777216;
    assert Pow256(5) == 256 * Pow256(4);
    assert Pow256(6) == 256 * Pow256(5);
    assert Pow256(7) == 256 * Pow256(6);
  }

  function PutU8(v: nat): Bytes { BigEndian(v, 1) }

  function PutU32(v: nat): Bytes { BigEndian(v, 4) }

  function PutU64(v: nat): Bytes { BigEndian(v, 8) }

  function PutStr(s: Bytes): Bytes { PutU32(|s|) + s }

  /** A value read and the bytes that follow it. */
  datatype Read<T> = Read(value: T, rest: Bytes)

  function TakeUint(b: Bytes, k: nat): Option<Read<nat>>
  {
    if |b| < k then None else Some(Read(Value(b[..k]), b[k..]))
  }

  function TakeStr(b: Bytes): Option<Read<Bytes>>
  {
    match TakeUint(b, 4)
    case None => None
    case Some(len) =>
      if |len.rest| < len.value then None
      else Some(Read(len.rest[..len.value], len.rest[len.value..]))
  }

  /** Reading back what was written leaves exactly what followed it. */
  lemma TakePutUint(v: nat, k: nat, rest: Bytes)
    requires v < Pow256(k)
    ensures TakeUint(BigEndian(v, k) + rest, k) == Some(Read(v, rest))
  {
    hide Value;
    var b := BigEndian(v, k) + rest;
    assert b[..k] == BigEndian(v, k) && b[k..] == rest;
    ValueOfBigEndian(v, k);
  }

  lemma TakePutStr(s: Bytes, rest: Bytes)
    requires |s| < U32
    ensures TakeStr(PutStr(s) + rest) == Some(Read(s, rest))
  {
    hide BigEndian, Value, Pow256;
    Powers();
    assert PutStr(s) + rest == PutU32(|s|) + (s + rest);
    TakePutUint(|s|, 4, s + rest);
    assert (s + rest)[..|s|] == s && (s + rest)[|s|..] == rest;
  }

  /** Whatever a reader accepts is what the writer produces for the value read. */
  lemma TakeUintCanonical(b: Bytes, k: nat)
    requires TakeUint(b, k).Some?
    ensures TakeUint(b, k).value.value < Pow256(k)
    ensures b == BigEndian(TakeUint(b, k).value.value, k) + TakeUint(b, k).value.rest
  {
    hide BigEndian, Value, Pow256;
    ValueBound(b[..k]);
    BigEndianOfValue(b[..k]);
    assert b == b[..k] + b[k..];
  }

  lemma TakeStrCanonical(b: Bytes)
    requires TakeStr(b).Some?
    ensures |TakeStr(b).value.value| < U32
    ensures b == PutStr(TakeStr(b).value.value) + TakeStr(b).value.rest
  {
    hide BigEndian, Value, Pow256;
    Powers();
    TakeUintCanonical(b, 4);
    var len := TakeUint(b, 4).value;
    assert len.rest == len.rest[..len.value] + len.rest[len.value..];
  }
}
