/**
 * The checksum of src/codec.cpp:77-100, in three forms: division of the message polynomial bit by
 * bit (section 8 of RFC 1952), one byte at a time, and with a table, as the source computes it.
 */
module Crc {
  import opened Types

  const POLYNOMIAL: bv32 := 0xEDB88320
  const ONES: bv32 := 0xFFFFFFFF

  function Xor(a: bv32, b: bv32): bv32 { a ^ b }

  /** One step of the reflected division. */
  function Shift(c: bv32): bv32
  {
    if c & 1 == 1 then POLYNOMIAL ^ (c >> 1) else c >> 1
  }

  // ----- bit by bit -----

  /** The byte with value n. */
  function ByteOf(n: nat): (r: bv8)
    requires n < 256
    ensures r as int == n
  {
    if n == 0 then 0
    else
      var half := ByteOf(n / 2);
      Doubled(half);
      if n % 2 == 1 then (half << 1) | 1 else half << 1
  }

  lemma Doubled(u: bv8)
    requires u as int < 128
    ensures (u << 1) as int == 2 * (u as int) && ((u << 1) | 1) as int == 2 * (u as int) + 1
  {
  }

  function Narrow(b: byte): bv8 { ByteOf(b as nat) }

  function Wide(b: byte): bv32 { Narrow(b) as bv32 }

  function Half(w: bv32): bv32 { w >> 1 }

  function LowBit(w: bv32): bv32 { w & 1 }

  /** The k lowest bits of w, least significant first. */
  function LowBits(w: bv32, k: nat): seq<bv32>
    decreases k
  {
    if k == 0 then [] else [LowBit(w)] + LowBits(Half(w), k - 1)
  }

  function BitsOf(b: byte): seq<bv32> { LowBits(Wide(b), 8) }

  function MessageBits(data: Bytes): seq<bv32>
  {
    if data == [] then [] else BitsOf(data[0]) + MessageBits(data[1..])
  }

  /** The remainder register after the given message bits. */
  function Divide(c: bv32, bits: seq<bv32>): bv32
    decreases |bits|
  {
    if bits == [] then c else Divide(Shift(Xor(c, bits[0])), bits[1..])
  }

  function BitwiseCrc(data: Bytes): bv32
  {
    Xor(Divide(ONES, MessageBits(data)), ONES)
  }

  // ----- byte by byte -----

  function ShiftTimes(c: bv32, k: nat): bv32
    decreases k
  {
    if k == 0 then c else ShiftTimes(Shift(c), k - 1)
  }

  function Shift8(c: bv32): bv32 { ShiftTimes(c, 8) }

  function Update(c: bv32, b: byte): bv32 { Shift8(Xor(c, Wide(b))) }

  function Fold(c: bv32, data: Bytes): bv32
    decreases |data|
  {
    if data == [] then c else Fold(Update(c, data[0]), data[1..])
  }

  function Number(c: bv32): (r: nat)
    ensures r < 0x1_0000_0000
  {
    c as nat
  }

  /** The checksum as the unsigned number that is stored and compared. */
  function Crc32(data: Bytes): (r: nat)
    ensures r < 0x1_0000_0000
  {
    Number(Xor(Fold(ONES, data), ONES))
  }

  // ----- bit-vector facts -----

  lemma XorAssoc(a: bv32, b: bv32, c: bv32)
    ensures Xor(Xor(a, b), c) == Xor(a, Xor(b, c))
  {
  }

  lemma XorCancels(a: bv32, b: bv32, x: bv32)
    requires Xor(a, x) == Xor(b, x) || Xor(x, a) == Xor(x, b)
    ensures a == b
  {
  }

  lemma XorZero(a: bv32)
    ensures Xor(a, 0) == a
  {
  }

  lemma XorSwap(a: bv32, b: bv32)
    ensures Xor(a, b) == Xor(b, a)
  {
  }

  lemma XorTwice(p: bv32, z: bv32)
    ensures Xor(p, Xor(p, z)) == z
  {
  }

  lemma XorSelf(p: bv32, x: bv32, y: bv32)
    ensures Xor(Xor(p, x), y) == Xor(p, Xor(x, y)) && Xor(x, Xor(p, y)) == Xor(p, Xor(x, y))
    ensures Xor(Xor(p, x), Xor(p, y)) == Xor(x, y)
  {
    hide Xor;
    XorAssoc(p, x, y);
    XorAssoc(x, p, y);
    XorSwap(p, x);
    XorAssoc(p, x, Xor(p, y));
    XorTwice(p, Xor(x, y));
  }

  lemma LowBitXor(a: bv32, b: bv32)
    ensures LowBit(Xor(a, b)) == Xor(LowBit(a), LowBit(b))
    ensures LowBit(a) == 0 || LowBit(a) == 1
    ensures LowBit(b) == 0 || LowBit(b) == 1
  {
  }

  lemma OneBit()
    ensures Xor(0, 0) == 0 && Xor(0, 1) == 1 && Xor(1, 0) == 1 && Xor(1, 1) == 0
  {
  }

  lemma HalfXor(a: bv32, b: bv32)
    ensures Half(Xor(a, b)) == Xor(Half(a), Half(b))
  {
  }

  /** The two cases of a step. */
  lemma ShiftCases(c: bv32)
    ensures LowBit(c) == 1 ==> Shift(c) == Xor(POLYNOMIAL, Half(c))
    ensures LowBit(c) != 1 ==> Shift(c) == Half(c)
  {
  }

  /** Division is linear. */
  lemma ShiftLinear(a: bv32, b: bv32)
    ensures Shift(Xor(a, b)) == Xor(Shift(a), Shift(b))
  {
    hide Shift, Xor, Half, LowBit;
    ShiftCases(a);
    ShiftCases(b);
    ShiftCases(Xor(a, b));
    LowBitXor(a, b);
    OneBit();
    HalfXor(a, b);
    XorSelf(POLYNOMIAL, Half(a), Half(b));
  }

  lemma {:induction false} ShiftTimesLinear(a: bv32, b: bv32, k: nat)
    ensures ShiftTimes(Xor(a, b), k) == Xor(ShiftTimes(a, k), ShiftTimes(b, k))
    decreases k
  {
    hide Shift, Xor;
    if k > 0 {
      ShiftLinear(a, b);
      ShiftTimesLinear(Shift(a), Shift(b), k - 1);
    }
  }

  lemma ShiftInjective(a: bv32, b: bv32)
    requires Shift(a) == Shift(b)
    ensures a == b
  {
  }

  lemma {:induction false} ShiftTimesInjective(a: bv32, b: bv32, k: nat)
    requires ShiftTimes(a, k) == ShiftTimes(b, k)
    ensures a == b
    decreases k
  {
    hide Shift;
    if k > 0 {
      ShiftTimesInjective(Shift(a), Shift(b), k - 1);
      ShiftInjective(a, b);
    }
  }

  function Low8(x: bv32): bv32 { x & 0xFF }

  function High24(x: bv32): bv32 { x & 0xFFFFFF00 }

  function Drop8(x: bv32): bv32 { x >> 8 }

  /** Eight zero low bits are shifted out without feedback. */
  lemma Shift8OfHigh(x: bv32)
    ensures Shift8(High24(x)) == Drop8(x)
  {
    var y := High24(x);
    var y1, y2, y3, y4 := y >> 1, y >> 2, y >> 3, y >> 4;
    var y5, y6, y7, y8 := y >> 5, y >> 6, y >> 7, y >> 8;
    NoFeedback(y);
    assert y8 == Drop8(x) by { DropHigh(x); }
    hide Shift, High24, Drop8;
    assert ShiftTimes(y7, 1) == ShiftTimes(y8, 0);
    assert ShiftTimes(y6, 2) == ShiftTimes(y7, 1);
    assert ShiftTimes(y5, 3) == ShiftTimes(y6, 2);
    assert ShiftTimes(y4, 4) == ShiftTimes(y5, 3);
    assert ShiftTimes(y3, 5) == ShiftTimes(y4, 4);
    assert ShiftTimes(y2, 6) == ShiftTimes(y3, 5);
    assert ShiftTimes(y1, 7) == ShiftTimes(y2, 6);
    assert ShiftTimes(y, 8) == ShiftTimes(y1, 7);
  }

  lemma DropHigh(x: bv32)
    ensures High24(x) >> 8 == Drop8(x)
  {
  }

  lemma NoFeedback(y: bv32)
    requires y & 0xFF == 0
    ensures Shift(y) == y >> 1 && Shift(y >> 1) == y >> 2 && Shift(y >> 2) == y >> 3 && Shift(y >> 3) == y >> 4
    ensures Shift(y >> 4) == y >> 5 && Shift(y >> 5) == y >> 6 && Shift(y >> 6) == y >> 7 && Shift(y >> 7) == y >> 8
  {
    var y1, y2, y3, y4 := y >> 1, y >> 2, y >> 3, y >> 4;
    var y5, y6, y7 := y >> 5, y >> 6, y >> 7;
    ZeroBits(y);
    hide Shift, LowBit;
    ShiftCases(y); ShiftCases(y1); ShiftCases(y2); ShiftCases(y3);
    ShiftCases(y4); ShiftCases(y5); ShiftCases(y6); ShiftCases(y7);
  }

  lemma ZeroBits(y: bv32)
    requires y & 0xFF == 0
    ensures LowBit(y) == 0 && LowBit(y >> 1) == 0 && LowBit(y >> 2) == 0 && LowBit(y >> 3) == 0
    ensures LowBit(y >> 4) == 0 && LowBit(y >> 5) == 0 && LowBit(y >> 6) == 0 && LowBit(y >> 7) == 0
  {
  }

  lemma LowHigh(x: bv32)
    ensures Xor(Low8(x), High24(x)) == x
  {
  }

  /** The table step: only the low byte feeds back. */
  lemma TableStep(x: bv32)
    ensures Shift8(x) == Xor(Shift8(Low8(x)), Drop8(x))
  {
    hide Xor, Shift, Low8, High24, Drop8;
    LowHigh(x);
    ShiftTimesLinear(Low8(x), High24(x), 8);
    Shift8OfHigh(x);
  }

  lemma WidenInjective(x: bv8, y: bv8)
    requires x as bv32 == y as bv32
    ensures x == y
  {
  }

  // ----- bit by bit equals byte by byte -----

  /** One message bit at a time, or the rest of the word at once. */
  lemma Peel(c: bv32, w: bv32)
    ensures Shift(Xor(c, w)) == Xor(Shift(Xor(c, LowBit(w))), Half(w))
  {
    hide Shift, Xor, Half, LowBit;
    var v := LowBit(w);
    ShiftCases(Xor(c, w));
    ShiftCases(Xor(c, v));
    LowBitXor(c, w);
    LowBitXor(c, v);
    HalfXor(c, w);
    HalfXor(c, v);
    BitOfBit(w);
    XorZero(Half(c));
    XorSelf(POLYNOMIAL, Half(c), Half(w));
  }

  lemma BitOfBit(w: bv32)
    ensures LowBit(LowBit(w)) == LowBit(w) && Half(LowBit(w)) == 0
  {
  }

  function HalfTimes(w: bv32, k: nat): bv32
    decreases k
  {
    if k == 0 then w else HalfTimes(Half(w), k - 1)
  }

  lemma {:induction false} DivideWord(c: bv32, w: bv32, k: nat)
    ensures ShiftTimes(Xor(c, w), k) == Xor(Divide(c, LowBits(w, k)), HalfTimes(w, k))
    decreases k
  {
    hide Shift, Xor, LowBit, Half;
    if k > 0 {
      Peel(c, w);
      var bits := LowBits(w, k);
      assert bits[1..] == LowBits(Half(w), k - 1);
      DivideWord(Shift(Xor(c, LowBit(w))), Half(w), k - 1);
    }
  }

  lemma EightHalves(x: bv8)
    ensures HalfTimes(x as bv32, 8) == 0
  {
    Halves(x);
    hide Half;
    HalvesUnroll(x as bv32);
  }

  lemma HalvesUnroll(w: bv32)
    ensures HalfTimes(w, 8) == Half(Half(Half(Half(Half(Half(Half(Half(w))))))))
  {
    hide Half;
    assert HalfTimes(w, 8) == HalfTimes(Half(Half(w)), 6) == HalfTimes(Half(Half(Half(Half(w)))), 4);
  }

  lemma Halves(x: bv8)
    ensures Half(Half(Half(Half(Half(Half(Half(Half(x as bv32)))))))) == 0
  {
  }

  lemma DivideByte(c: bv32, b: byte)
    ensures Divide(c, BitsOf(b)) == Update(c, b)
  {
    hide Shift, Xor, LowBits, HalfTimes;
    DivideWord(c, Wide(b), 8);
    EightHalves(Narrow(b));
    XorZero(Divide(c, BitsOf(b)));
  }

  lemma {:induction false} DivideAppend(c: bv32, a: seq<bv32>, b: seq<bv32>)
    ensures Divide(c, a + b) == Divide(Divide(c, a), b)
    decreases |a|
  {
    hide Shift, Xor;
    if a == [] {
      assert a + b == b;
    } else {
      assert (a + b)[1..] == a[1..] + b;
      DivideAppend(Shift(Xor(c, a[0])), a[1..], b);
    }
  }

  lemma {:induction false} FoldIsDivide(c: bv32, data: Bytes)
    ensures Fold(c, data) == Divide(c, MessageBits(data))
    decreases |data|
  {
    hide Update, BitsOf;
    if data != [] {
      DivideAppend(c, BitsOf(data[0]), MessageBits(data[1..]));
      DivideByte(c, data[0]);
      FoldIsDivide(Update(c, data[0]), data[1..]);
    }
  }

  /** The checksum is the bitwise one, for every message. */
  lemma Crc32IsBitwise(data: Bytes)
    ensures Crc32(data) == Number(BitwiseCrc(data))
  {
    hide Xor, Fold, Divide, Number;
    FoldIsDivide(ONES, data);
  }

  // ----- what the checksum detects -----

  lemma {:induction false} FoldAppend(c: bv32, a: Bytes, b: Bytes)
    ensures Fold(c, a + b) == Fold(Fold(c, a), b)
    decreases |a|
  {
    hide Update;
    if a == [] {
      assert a + b == b;
    } else {
      assert (a + b)[1..] == a[1..] + b;
      FoldAppend(Update(c, a[0]), a[1..], b);
    }
  }

  lemma UpdateInjective(c: bv32, d: bv32, b: byte)
    requires Update(c, b) == Update(d, b)
    ensures c == d
  {
    hide Xor, Shift, Wide;
    ShiftTimesInjective(Xor(c, Wide(b)), Xor(d, Wide(b)), 8);
    XorCancels(c, d, Wide(b));
  }

  /** A common suffix never hides a difference. */
  lemma {:induction false} FoldInjective(c: bv32, d: bv32, data: Bytes)
    requires Fold(c, data) == Fold(d, data)
    ensures c == d
    decreases |data|
  {
    hide Update;
    if data != [] {
      FoldInjective(Update(c, data[0]), Update(d, data[0]), data[1..]);
      UpdateInjective(c, d, data[0]);
    }
  }

  function Up8(u: bv32): bv32 { u << 8 }

  /** u leaves the top byte of the word free. */
  predicate Room(u: bv32) { u & 0xFFFFFF == u }

  /** A byte met later acts like one placed higher in the register earlier. */
  lemma Lift(x: bv32, u: bv32)
    requires Room(u)
    ensures Xor(Shift8(x), u) == Shift8(Xor(x, Up8(u)))
  {
    hide Xor, Shift, Up8, High24, Drop8, Room;
    ShiftTimesLinear(x, Up8(u), 8);
    UpDown(u);
    Shift8OfHigh(Up8(u));
  }

  lemma UpDown(u: bv32)
    requires Room(u)
    ensures High24(Up8(u)) == Up8(u) && Drop8(Up8(u)) == u
  {
  }

  /** Four bytes as one word, the first one lowest. */
  function Pack(a: bv32, b: bv32, c: bv32, d: bv32): bv32
  {
    Xor(Xor(Xor(a, Up8(b)), Up8(Up8(c))), Up8(Up8(Up8(d))))
  }

  /** The register after four bytes is one function of the register before and the packed bytes. */
  lemma FourSteps(s: bv32, a: bv32, b: bv32, c: bv32, d: bv32)
    requires Room(b) && Room(c) && Room(Up8(c)) && Room(d) && Room(Up8(d)) && Room(Up8(Up8(d)))
    ensures Shift8(Xor(Shift8(Xor(Shift8(Xor(Shift8(Xor(s, a)), b)), c)), d))
         == Shift8(Shift8(Shift8(Shift8(Xor(s, Pack(a, b, c, d))))))
  {
    hide Xor, Shift8, Up8, Room;
    var x := Xor(Xor(s, a), Up8(b));
    Lift(Xor(s, a), b);
    Lift(Shift8(x), c);
    Lift(x, Up8(c));
    var y := Xor(x, Up8(Up8(c)));
    Lift(Shift8(Shift8(y)), d);
    Lift(Shift8(y), Up8(d));
    Lift(y, Up8(Up8(d)));
    XorAssoc(s, a, Up8(b));
    XorAssoc(s, Xor(a, Up8(b)), Up8(Up8(c)));
    XorAssoc(s, Xor(Xor(a, Up8(b)), Up8(Up8(c))), Up8(Up8(Up8(d))));
  }

  lemma BytesHaveRoom(x: bv8)
    ensures var w := x as bv32; Room(w) && Room(Up8(w)) && Room(Up8(Up8(w)))
  {
  }

  function PackBytes(w: Bytes): bv32
    requires |w| == 4
  {
    Pack(Wide(w[0]), Wide(w[1]), Wide(w[2]), Wide(w[3]))
  }

  lemma FoldFour(s: bv32, w: Bytes)
    requires |w| == 4
    ensures Fold(s, w) == Shift8(Shift8(Shift8(Shift8(Xor(s, PackBytes(w))))))
  {
    hide Xor, Shift8, Up8, Room, Pack, Narrow;
    assert w[1..][1..] == w[2..] && w[2..][1..] == w[3..] && w[3..][1..] == [];
    var s1 := Update(s, w[0]);
    var s2 := Update(s1, w[1]);
    var s3 := Update(s2, w[2]);
    assert Fold(s, w) == Fold(s1, w[1..]) == Fold(s2, w[2..]) == Fold(s3, w[3..]) == Update(s3, w[3]);
    BytesHaveRoom(Narrow(w[1]));
    BytesHaveRoom(Narrow(w[2]));
    BytesHaveRoom(Narrow(w[3]));
    FourSteps(s, Wide(w[0]), Wide(w[1]), Wide(w[2]), Wide(w[3]));
  }

  lemma LowestByte(a: bv8, rest: bv32)
    ensures Low8(Xor(a as bv32, Up8(rest))) == a as bv32
  {
  }

  lemma UpInjective(x: bv32, y: bv32)
    requires Room(x) && Room(y) && Up8(x) == Up8(y)
    ensures x == y
  {
    UpDown(x);
    UpDown(y);
  }

  lemma UpXor(x: bv32, y: bv32)
    ensures Up8(Xor(x, y)) == Xor(Up8(x), Up8(y))
  {
  }

  /** Four bytes, nested: each byte below what follows it. */
  function Nest(a: bv8, b: bv8, c: bv8, d: bv8): bv32
  {
    Xor(a as bv32, Up8(Xor(b as bv32, Up8(Xor(c as bv32, Up8(d as bv32))))))
  }

  lemma PackIsNest(a: bv8, b: bv8, c: bv8, d: bv8)
    ensures Pack(a as bv32, b as bv32, c as bv32, d as bv32) == Nest(a, b, c, d)
  {
    var w, x, y, z := a as bv32, b as bv32, c as bv32, d as bv32;
    hide Xor, Up8;
    UpXor(y, Up8(z));
    UpXor(Up8(y), Up8(Up8(z)));
    UpXor(x, Up8(Xor(y, Up8(z))));
    XorAssoc(w, Up8(x), Up8(Up8(y)));
    XorAssoc(w, Xor(Up8(x), Up8(Up8(y))), Up8(Up8(Up8(z))));
    XorAssoc(Up8(x), Up8(Up8(y)), Up8(Up8(Up8(z))));
  }

  /** The lowest byte and the rest can be told apart. */
  lemma NestStep(a: bv8, x: bv32, a': bv8, x': bv32)
    requires Room(x) && Room(x') && Xor(a as bv32, Up8(x)) == Xor(a' as bv32, Up8(x'))
    ensures a == a' && x == x'
  {
    var w, w' := a as bv32, a' as bv32;
    LowestByte(a, x);
    LowestByte(a', x');
    assert w == w';
    WidenInjective(a, a');
    hide Xor, Up8, Room;
    XorCancels(Up8(x), Up8(x'), w);
    UpInjective(x, x');
  }

  lemma NestRoom(b: bv8, c: bv8, d: bv8)
    ensures Room(Xor(b as bv32, Up8(Xor(c as bv32, Up8(d as bv32)))))
    ensures Room(Xor(c as bv32, Up8(d as bv32))) && Room(d as bv32)
  {
  }

  lemma PackInjective(a: bv8, b: bv8, c: bv8, d: bv8, a': bv8, b': bv8, c': bv8, d': bv8)
    requires Pack(a as bv32, b as bv32, c as bv32, d as bv32) == Pack(a' as bv32, b' as bv32, c' as bv32, d' as bv32)
    ensures a == a' && b == b' && c == c' && d == d'
  {
    var x, y, z := b as bv32, c as bv32, d as bv32;
    var x', y', z' := b' as bv32, c' as bv32, d' as bv32;
    hide Xor, Up8, Room, Pack;
    PackIsNest(a, b, c, d);
    PackIsNest(a', b', c', d');
    NestRoom(b, c, d);
    NestRoom(b', c', d');
    NestStep(a, Xor(x, Up8(Xor(y, Up8(z)))), a', Xor(x', Up8(Xor(y', Up8(z')))));
    NestStep(b, Xor(y, Up8(z)), b', Xor(y', Up8(z')));
    NestStep(c, z, c', z');
    WidenInjective(d, d');
  }

  lemma NarrowInjective(a: byte, b: byte)
    requires Narrow(a) == Narrow(b)
    ensures a == b
  {
    hide ByteOf;
  }

  lemma SameBytes(v: Bytes, w: Bytes)
    requires |v| == 4 && |w| == 4
    requires Narrow(v[0]) == Narrow(w[0]) && Narrow(v[1]) == Narrow(w[1])
    requires Narrow(v[2]) == Narrow(w[2]) && Narrow(v[3]) == Narrow(w[3])
    ensures v == w
  {
    hide Narrow;
    NarrowInjective(v[0], w[0]);
    NarrowInjective(v[1], w[1]);
    NarrowInjective(v[2], w[2]);
    NarrowInjective(v[3], w[3]);
  }

  lemma PackBytesInjective(v: Bytes, w: Bytes)
    requires |v| == 4 && |w| == 4 && PackBytes(v) == PackBytes(w)
    ensures v == w
  {
    hide Pack, Narrow;
    var a, b, c, d := Narrow(v[0]), Narrow(v[1]), Narrow(v[2]), Narrow(v[3]);
    var a', b', c', d' := Narrow(w[0]), Narrow(w[1]), Narrow(w[2]), Narrow(w[3]);
    PackInjective(a, b, c, d, a', b', c', d');
    SameBytes(v, w);
  }

  lemma FourBytesDetected(s: bv32, v: Bytes, w: Bytes)
    requires |v| == 4 && |w| == 4 && Fold(s, v) == Fold(s, w)
    ensures v == w
  {
    hide Xor, Shift, PackBytes, Fold;
    FoldFour(s, v);
    FoldFour(s, w);
    var x, y := Xor(s, PackBytes(v)), Xor(s, PackBytes(w));
    ShiftTimesInjective(Shift8(Shift8(Shift8(x))), Shift8(Shift8(Shift8(y))), 8);
    ShiftTimesInjective(Shift8(Shift8(x)), Shift8(Shift8(y)), 8);
    ShiftTimesInjective(Shift8(x), Shift8(y), 8);
    ShiftTimesInjective(x, y, 8);
    XorCancels(PackBytes(v), PackBytes(w), s);
    PackBytesInjective(v, w);
  }

  /** Zero bytes after a short window make it a full one without hiding a difference. */
  lemma WindowDetected(s: bv32, v: Bytes, w: Bytes)
    requires |v| == |w| <= 4 && Fold(s, v) == Fold(s, w)
    ensures v == w
  {
    hide Fold;
    var pad: Bytes := seq(4 - |v|, i => 0);
    FoldAppend(s, v, pad);
    FoldAppend(s, w, pad);
    FourBytesDetected(s, v + pad, w + pad);
    assert v == (v + pad)[..|v|] && w == (w + pad)[..|v|];
  }

  lemma NumberInjective(c: bv32, d: bv32)
    requires Number(c) == Number(d)
    ensures c == d
  {
    NumberBack(c);
    NumberBack(d);
  }

  lemma NumberBack(c: bv32)
    ensures (c as int) as bv32 == c
  {
  }

  /** Two messages of one length that differ only inside four consecutive bytes, at any place and
      for any length, never have the same checksum. */
  lemma BurstDetected(pre: Bytes, v: Bytes, w: Bytes, post: Bytes)
    requires |v| == |w| <= 4 && v != w
    ensures Crc32(pre + v + post) != Crc32(pre + w + post)
  {
    hide Fold, Xor, Number;
    var s := Fold(ONES, pre);
    FoldAppend(ONES, pre, v);
    FoldAppend(ONES, pre, w);
    FoldAppend(ONES, pre + v, post);
    FoldAppend(ONES, pre + w, post);
    var x, y := Fold(ONES, pre + v + post), Fold(ONES, pre + w + post);
    if Crc32(pre + v + post) == Crc32(pre + w + post) {
      NumberInjective(Xor(x, ONES), Xor(y, ONES));
      XorCancels(x, y, ONES);
      FoldInjective(Fold(s, v), Fold(s, w), post);
      WindowDetected(s, v, w);
    }
  }

  // ----- the table-driven computation -----

  function TableEntry(i: nat): bv32
    requires i < 256
  {
    Shift8(ByteOf(i) as bv32)
  }

  lemma {:induction false} ShiftLast(c: bv32, k: nat)
    ensures ShiftTimes(c, k + 1) == Shift(ShiftTimes(c, k))
    decreases k
  {
    hide Shift;
    if k > 0 { ShiftLast(Shift(c), k - 1); }
  }

  method MakeCrcTable() returns (table: array<bv32>)
    ensures table.Length == 256 && fresh(table)
    ensures forall i :: 0 <= i < 256 ==> table[i] == TableEntry(i)
  {
    hide TableEntry;
    table := new bv32[256];
    for i := 0 to 256
      invariant forall j :: 0 <= j < i ==> table[j] == TableEntry(j)
    {
      var c := TableRow(i);
      table[i] := c;
    }
  }

  /** The inner loop of the table's construction. */
  method TableRow(i: nat) returns (c: bv32)
    requires i < 256
    ensures c == TableEntry(i)
  {
    c := ByteOf(i) as bv32;
    ghost var start := c;
    for k := 0 to 8
      invariant c == ShiftTimes(start, k)
    {
      ShiftLast(start, k);
      c := if c & 1 == 1 then POLYNOMIAL ^ (c >> 1) else c >> 1;
    }
  }

  /** The index the source computes, and the entry found there. */
  function Index(c: bv32, b: byte): (i: nat)
    ensures i < 256
  {
    (Low8(Xor(c, Wide(b))) as bv8) as nat
  }

  lemma NarrowBack(x: bv32)
    ensures (Low8(x) as bv8) as bv32 == Low8(x)
  {
  }

  lemma IntBack(x: bv8)
    ensures (x as int) as bv8 == x
  {
  }

  lemma ByteBack(x: bv8)
    ensures ByteOf(x as nat) == x
  {
    hide ByteOf;
    IntBack(x);
    IntBack(ByteOf(x as nat));
  }

  lemma DropXor(c: bv32, x: bv8)
    ensures Drop8(Xor(c, x as bv32)) == Drop8(c)
  {
  }

  lemma TableLookup(c: bv32, b: byte)
    ensures Xor(TableEntry(Index(c, b)), Drop8(c)) == Update(c, b)
  {
    var x := Xor(c, Wide(b));
    NarrowBack(x);
    ByteBack(Low8(x) as bv8);
    DropXor(c, Narrow(b));
    TableStep(x);
    hide Xor, Shift, Low8, Drop8, Narrow, ByteOf;
  }

  method ComputeCrc32(data: Bytes) returns (r: bv32)
    ensures r as nat == Crc32(data)
  {
    hide Fold, Xor, Drop8, Shift8, Update, Index;
    var table := MakeCrcTable();
    var crc: bv32 := ONES;
    for n := 0 to |data|
      invariant Fold(crc, data[n..]) == Fold(ONES, data)
      invariant forall i :: 0 <= i < 256 ==> table[i] == TableEntry(i)
    {
      TableLookup(crc, data[n]);
      FoldFirst(crc, data[n..]);
      assert data[n..][0] == data[n] && data[n..][1..] == data[n + 1..];
      var i := Index(crc, data[n]);
      assert table[i] == TableEntry(i);
      crc := Xor(table[i], Drop8(crc));
    }
    FoldNothing(crc, data[|data|..]);
    r := Xor(crc, ONES);
  }

  lemma FoldFirst(c: bv32, data: Bytes)
    requires data != []
    ensures Fold(c, data) == Fold(Update(c, data[0]), data[1..])
  {
  }

  lemma FoldNothing(c: bv32, data: Bytes)
    requires data == []
    ensures Fold(c, data) == c
  {
  }
}
