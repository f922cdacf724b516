/**
 * The checksum as section 8 of RFC 1952 and ISO 3309 define it, apart from any bit trick: the message
 * is a polynomial over two elements, divided by a fixed generator; and the value of the usual example.
 */
module Polynomial {
  import opened Types
  import opened Crc

  // ----- the reference -----

  /** The exponents of the generator below x^32. */
  const GENERATOR: set<nat> := {26, 23, 22, 16, 12, 11, 10, 8, 7, 5, 4, 2, 1, 0}

  /** One step of long division. Position k of the remainder is the coefficient of x^(31 - k). The
      remainder times x, plus the message bit times x^32, is reduced by the generator. */
  function DivideStep(rem: seq<bool>, bit: bool): (r: seq<bool>)
    requires |rem| == 32
    ensures |r| == 32
  {
    var carry := rem[0] != bit;
    seq(32, k requires 0 <= k < 32 => (k < 31 && rem[k + 1]) != (carry && (31 - k) in GENERATOR))
  }

  function Remainder(rem: seq<bool>, bits: seq<bool>): (r: seq<bool>)
    requires |rem| == 32
    ensures |r| == 32
    decreases |bits|
  {
    if bits == [] then rem else Remainder(DivideStep(rem, bits[0]), bits[1..])
  }

  /** Bit j of a number. */
  predicate NumberBit(n: nat, j: nat)
  {
    if j == 0 then n % 2 == 1 else NumberBit(n / 2, j - 1)
  }

  /** The bits of a message, byte by byte, least significant first. */
  function Bits(data: Bytes): seq<bool>
  {
    if data == [] then []
    else seq(8, j requires 0 <= j < 8 => NumberBit(data[0] as nat, j)) + Bits(data[1..])
  }

  /** The number whose bit k is position k, from position lo on. */
  function BitsNumber(rem: seq<bool>, lo: nat): nat
    requires lo <= |rem|
    decreases |rem| - lo
  {
    if lo == |rem| then 0 else (if rem[lo] then 1 else 0) + 2 * BitsNumber(rem, lo + 1)
  }

  const ALL_ONES: seq<bool> := seq(32, k => true)

  /** Start with all ones, divide, and complement. */
  function PolynomialCrc(data: Bytes): nat
  {
    var rem := Remainder(ALL_ONES, Bits(data));
    BitsNumber(seq(32, k requires 0 <= k < 32 => !rem[k]), 0)
  }

  // ----- bits of a word -----

  predicate Bit(w: bv32, k: nat) { LowBit(HalfTimes(w, k)) == 1 }

  function Positions(w: bv32): (r: seq<bool>)
    ensures |r| == 32
  {
    seq(32, k requires 0 <= k < 32 => Bit(w, k))
  }

  lemma {:induction false} HalfTimesXor(a: bv32, b: bv32, k: nat)
    ensures HalfTimes(Xor(a, b), k) == Xor(HalfTimes(a, k), HalfTimes(b, k))
    decreases k
  {
    hide Xor, Half;
    if k > 0 {
      HalfXor(a, b);
      HalfTimesXor(Half(a), Half(b), k - 1);
    }
  }

  lemma BitXor(a: bv32, b: bv32, k: nat)
    ensures Bit(Xor(a, b), k) <==> Bit(a, k) != Bit(b, k)
  {
    hide Xor, Half, LowBit;
    HalfTimesXor(a, b, k);
    LowBitXor(HalfTimes(a, k), HalfTimes(b, k));
    OneBit();
  }

  lemma {:induction false} HalfTimesAdd(w: bv32, j: nat, k: nat)
    ensures HalfTimes(HalfTimes(w, j), k) == HalfTimes(w, j + k)
    decreases j
  {
    hide Half;
    if j > 0 { HalfTimesAdd(Half(w), j - 1, k); }
  }

  lemma Eighth(w: bv32)
    ensures HalfTimes(w, 8) == Drop8(w)
  {
    hide Half, Drop8;
    HalvesUnroll(w);
    EightShifts(w);
  }

  lemma EightShifts(w: bv32)
    ensures Half(Half(Half(Half(Half(Half(Half(Half(w)))))))) == Drop8(w)
  {
  }

  lemma NothingLeft(w: bv32)
    ensures HalfTimes(w, 32) == 0
  {
    hide Half, HalfTimes, Drop8;
    HalfTimesAdd(w, 8, 24);
    HalfTimesAdd(Drop8(w), 8, 16);
    HalfTimesAdd(Drop8(Drop8(w)), 8, 8);
    Eighth(w);
    Eighth(Drop8(w));
    Eighth(Drop8(Drop8(w)));
    Eighth(Drop8(Drop8(Drop8(w))));
    Gone(w);
  }

  lemma Gone(w: bv32)
    ensures Drop8(Drop8(Drop8(Drop8(w)))) == 0
  {
  }

  /** A word has 32 bits. */
  lemma NoBit32(w: bv32)
    ensures !Bit(w, 32)
  {
    hide LowBit, HalfTimes;
    NothingLeft(w);
    LowBits01();
  }

  lemma LowBits01()
    ensures LowBit(0) == 0 && LowBit(1) == 1 && Half(0) == 0 && Half(1) == 0
  {
  }

  // ----- the generator -----

  lemma BitIs(w: bv32, v: bv32, k: nat)
    requires HalfTimes(w, k) == v
    ensures HalfTimes(w, k + 1) == v >> 1 && (Bit(w, k) <==> v & 1 == 1)
  {
    HalfTimesAdd(w, k, 1);
    assert HalfTimes(v, 1) == HalfTimes(Half(v), 0);
  }

  /** The constant of the source is the generator, with the coefficient of x^31 in the lowest place. */
  lemma GeneratorIs(k: nat)
    requires k < 32
    ensures Bit(POLYNOMIAL, k) <==> (31 - k) in GENERATOR
  {
    hide HalfTimes, Bit;
    HalfTimesNone(POLYNOMIAL);
    BitIs(POLYNOMIAL, 0xEDB88320, 0);
    BitIs(POLYNOMIAL, 0x76DC4190, 1);
    BitIs(POLYNOMIAL, 0x3B6E20C8, 2);
    BitIs(POLYNOMIAL, 0x1DB71064, 3);
    BitIs(POLYNOMIAL, 0x0EDB8832, 4);
    BitIs(POLYNOMIAL, 0x076DC419, 5);
    BitIs(POLYNOMIAL, 0x03B6E20C, 6);
    BitIs(POLYNOMIAL, 0x01DB7106, 7);
    BitIs(POLYNOMIAL, 0x00EDB883, 8);
    BitIs(POLYNOMIAL, 0x0076DC41, 9);
    BitIs(POLYNOMIAL, 0x003B6E20, 10);
    BitIs(POLYNOMIAL, 0x001DB710, 11);
    BitIs(POLYNOMIAL, 0x000EDB88, 12);
    BitIs(POLYNOMIAL, 0x00076DC4, 13);
    BitIs(POLYNOMIAL, 0x0003B6E2, 14);
    BitIs(POLYNOMIAL, 0x0001DB71, 15);
    BitIs(POLYNOMIAL, 0x0000EDB8, 16);
    BitIs(POLYNOMIAL, 0x000076DC, 17);
    BitIs(POLYNOMIAL, 0x00003B6E, 18);
    BitIs(POLYNOMIAL, 0x00001DB7, 19);
    BitIs(POLYNOMIAL, 0x00000EDB, 20);
    BitIs(POLYNOMIAL, 0x0000076D, 21);
    BitIs(POLYNOMIAL, 0x000003B6, 22);
    BitIs(POLYNOMIAL, 0x000001DB, 23);
    BitIs(POLYNOMIAL, 0x000000ED, 24);
    BitIs(POLYNOMIAL, 0x00000076, 25);
    BitIs(POLYNOMIAL, 0x0000003B, 26);
    BitIs(POLYNOMIAL, 0x0000001D, 27);
    BitIs(POLYNOMIAL, 0x0000000E, 28);
    BitIs(POLYNOMIAL, 0x00000007, 29);
    BitIs(POLYNOMIAL, 0x00000003, 30);
    BitIs(POLYNOMIAL, 0x00000001, 31);
  }

  lemma HalfTimesNone(w: bv32)
    ensures HalfTimes(w, 0) == w
  {
  }

  // ----- the checksum is the division -----

  lemma StepAtPosition(c: bv32, bit: bv32, k: nat)
    requires k < 32 && (bit == 0 || bit == 1)
    ensures Bit(Shift(Xor(c, bit)), k) <==>
              (k < 31 && Bit(c, k + 1)) != ((Bit(c, 0) != (bit == 1)) && (31 - k) in GENERATOR)
  {
    hide Shift, Xor, Half, LowBit, Bit;
    var d := Xor(c, bit);
    ShiftCases(d);
    FirstBit(c, bit);
    BitXor(POLYNOMIAL, Half(c), k);
    GeneratorIs(k);
    NextBit(c, k);
    NoBit32(c);
  }

  lemma NextBit(c: bv32, k: nat)
    ensures Bit(Half(c), k) <==> Bit(c, k + 1)
  {
  }

  lemma FirstBit(c: bv32, bit: bv32)
    requires bit == 0 || bit == 1
    ensures LowBit(Xor(c, bit)) == 1 <==> Bit(c, 0) != (bit == 1)
    ensures Half(Xor(c, bit)) == Half(c)
  {
    hide Xor, Half, LowBit;
    HalfTimesNone(c);
    HalfXor(c, bit);
    LowBitXor(c, bit);
    LowBits01();
    OneBit();
    XorZero(Half(c));
  }

  lemma StepDivides(c: bv32, bit: bv32)
    requires bit == 0 || bit == 1
    ensures Positions(Shift(Xor(c, bit))) == DivideStep(Positions(c), bit == 1)
  {
    hide Shift, Xor, Bit;
    forall k | 0 <= k < 32 ensures Positions(Shift(Xor(c, bit)))[k] == DivideStep(Positions(c), bit == 1)[k] {
      StepAtPosition(c, bit, k);
    }
  }

  predicate AreBits(bits: seq<bv32>) { forall k :: 0 <= k < |bits| ==> bits[k] == 0 || bits[k] == 1 }

  function Bools(bits: seq<bv32>): (r: seq<bool>)
    ensures |r| == |bits|
  {
    seq(|bits|, k requires 0 <= k < |bits| => bits[k] == 1)
  }

  lemma {:induction false} DivideIsRemainder(c: bv32, bits: seq<bv32>)
    requires AreBits(bits)
    ensures Positions(Divide(c, bits)) == Remainder(Positions(c), Bools(bits))
    decreases |bits|
  {
    hide Shift, Xor, Positions, DivideStep;
    if bits != [] {
      StepDivides(c, bits[0]);
      DivideIsRemainder(Shift(Xor(c, bits[0])), bits[1..]);
      assert Bools(bits)[1..] == Bools(bits[1..]);
    }
  }

  // ----- the bits of the message -----

  /** A byte as a word. */
  function Word(n: nat): bv32
    requires n < 256
  {
    ByteOf(n) as bv32
  }

  function Up(u: bv8): bv8 { u << 1 }

  function UpAndOne(u: bv8): bv8 { (u << 1) | 1 }

  lemma ByteUnfolds(n: nat)
    requires n < 256
    ensures ByteOf(n) == (if n % 2 == 1 then UpAndOne(ByteOf(n / 2)) else Up(ByteOf(n / 2))) && ByteOf(n / 2) < 128
  {
    HalfFits(ByteOf(n / 2));
  }

  lemma HalfFits(u: bv8)
    requires u as int < 128
    ensures u < 128
  {
  }

  lemma HalvesBack(u: bv8)
    requires u < 128
    ensures LowBit(Up(u) as bv32) == 0 && LowBit(UpAndOne(u) as bv32) == 1
    ensures Half(Up(u) as bv32) == u as bv32 && Half(UpAndOne(u) as bv32) == u as bv32
  {
  }

  lemma ByteHalves(n: nat)
    requires n < 256
    ensures LowBit(Word(n)) == (if n % 2 == 1 then 1 else 0)
    ensures Half(Word(n)) == Word(n / 2)
  {
    hide ByteOf, Up, UpAndOne, LowBit, Half;
    ByteUnfolds(n);
    HalvesBack(ByteOf(n / 2));
  }

  lemma {:induction false} LowBitsAre(n: nat, k: nat)
    requires n < 256
    ensures var bits := LowBits(Word(n), k);
            && |bits| == k && AreBits(bits)
            && forall j :: 0 <= j < k ==> (bits[j] == 1 <==> NumberBit(n, j))
    decreases k
  {
    hide LowBit, Half, Word, LowBits, NumberBit, AreBits;
    LowBitsUnfold(Word(n), k);
    if k == 0 {
      NoBits();
    } else {
      ByteHalves(n);
      LowBitsAre(n / 2, k - 1);
      LowBitsCons(LowBit(Word(n)), LowBits(Word(n / 2), k - 1), n);
    }
  }

  lemma NoBits()
    ensures AreBits([])
  {
  }

  lemma LowBitsUnfold(w: bv32, k: nat)
    ensures LowBits(w, k) == if k == 0 then [] else [LowBit(w)] + LowBits(Half(w), k - 1)
  {
    hide LowBit, Half;
  }

  lemma LowBitsCons(first: bv32, rest: seq<bv32>, n: nat)
    requires first == (if n % 2 == 1 then 1 else 0) && AreBits(rest)
    requires forall j :: 0 <= j < |rest| ==> (rest[j] == 1 <==> NumberBit(n / 2, j))
    ensures var bits := [first] + rest;
            && |bits| == |rest| + 1 && AreBits(bits)
            && forall j :: 0 <= j < |bits| ==> (bits[j] == 1 <==> NumberBit(n, j))
  {
    var bits := [first] + rest;
    forall j | 0 <= j < |bits| ensures bits[j] == 1 <==> NumberBit(n, j) {
      if j > 0 { assert bits[j] == rest[j - 1]; }
    }
  }

  lemma {:induction false} MessageBitsAre(data: Bytes)
    ensures AreBits(MessageBits(data)) && Bools(MessageBits(data)) == Bits(data)
    decreases |data|
  {
    hide LowBits, ByteOf, AreBits, NumberBit, BitsOf;
    if data == [] {
      NoBits();
    } else {
      var front := BitsOf(data[0]);
      FirstByte(data[0]);
      MessageBitsAre(data[1..]);
      JoinBits(front, MessageBits(data[1..]));
    }
  }

  lemma FirstByte(b: byte)
    ensures AreBits(BitsOf(b)) && Bools(BitsOf(b)) == seq(8, j requires 0 <= j < 8 => NumberBit(b as nat, j))
  {
    hide LowBits, ByteOf, AreBits, NumberBit;
    LowBitsAre(b as nat, 8);
  }

  lemma JoinBits(a: seq<bv32>, b: seq<bv32>)
    requires AreBits(a) && AreBits(b)
    ensures AreBits(a + b) && Bools(a + b) == Bools(a) + Bools(b)
  {
  }

  // ----- the number -----

  lemma Even(w: bv32)
    requires w & 1 != 1
    ensures w as int == 2 * ((w >> 1) as int)
  {
    Rebuild(w);
    TwiceIs(w);
  }

  lemma Odd(w: bv32)
    requires w & 1 == 1
    ensures w as int == 2 * ((w >> 1) as int) + 1
  {
    Rebuild(w);
    TwiceAndOneIs(w);
  }

  lemma TwiceIs(w: bv32)
    ensures ((w >> 1) << 1) as int == 2 * ((w >> 1) as int)
  {
  }

  lemma TwiceAndOneIs(w: bv32)
    ensures (((w >> 1) << 1) | 1) as int == 2 * ((w >> 1) as int) + 1
  {
  }

  lemma Rebuild(w: bv32)
    ensures w & 1 == 1 ==> w == ((w >> 1) << 1) | 1
    ensures w & 1 != 1 ==> w == (w >> 1) << 1
  {
  }

  lemma Halved(w: bv32)
    ensures Number(w) == 2 * Number(Half(w)) + if LowBit(w) == 1 then 1 else 0
  {
    if w & 1 == 1 { Odd(w); } else { Even(w); }
  }

  lemma ZeroIsNothing()
    ensures Number(0) == 0
  {
  }

  lemma {:induction false} NumberFrom(w: bv32, k: nat)
    requires k <= 32
    ensures Number(HalfTimes(w, k)) == BitsNumber(Positions(w), k)
    decreases 32 - k
  {
    hide Half, LowBit, Number, HalfTimes;
    if k == 32 {
      NothingLeft(w);
      ZeroIsNothing();
    } else {
      NumberFrom(w, k + 1);
      Halved(HalfTimes(w, k));
      OneMore(w, k);
    }
  }

  lemma OneMore(w: bv32, k: nat)
    ensures HalfTimes(w, k + 1) == Half(HalfTimes(w, k))
  {
    hide Half;
    HalfTimesAdd(w, k, 1);
    assert HalfTimes(HalfTimes(w, k), 1) == HalfTimes(Half(HalfTimes(w, k)), 0);
  }

  lemma NumberIsBits(w: bv32)
    ensures Number(w) == BitsNumber(Positions(w), 0)
  {
    hide Number, Positions, BitsNumber;
    NumberFrom(w, 0);
    HalfTimesNone(w);
  }

  lemma OnesHaveAllBits(k: nat)
    requires k < 32
    ensures Bit(ONES, k)
  {
    hide HalfTimes, Bit;
    HalfTimesNone(ONES);
    BitIs(ONES, 0xFFFFFFFF, 0);
    BitIs(ONES, 0x7FFFFFFF, 1);
    BitIs(ONES, 0x3FFFFFFF, 2);
    BitIs(ONES, 0x1FFFFFFF, 3);
    BitIs(ONES, 0x0FFFFFFF, 4);
    BitIs(ONES, 0x07FFFFFF, 5);
    BitIs(ONES, 0x03FFFFFF, 6);
    BitIs(ONES, 0x01FFFFFF, 7);
    BitIs(ONES, 0x00FFFFFF, 8);
    BitIs(ONES, 0x007FFFFF, 9);
    BitIs(ONES, 0x003FFFFF, 10);
    BitIs(ONES, 0x001FFFFF, 11);
    BitIs(ONES, 0x000FFFFF, 12);
    BitIs(ONES, 0x0007FFFF, 13);
    BitIs(ONES, 0x0003FFFF, 14);
    BitIs(ONES, 0x0001FFFF, 15);
    BitIs(ONES, 0x0000FFFF, 16);
    BitIs(ONES, 0x00007FFF, 17);
    BitIs(ONES, 0x00003FFF, 18);
    BitIs(ONES, 0x00001FFF, 19);
    BitIs(ONES, 0x00000FFF, 20);
    BitIs(ONES, 0x000007FF, 21);
    BitIs(ONES, 0x000003FF, 22);
    BitIs(ONES, 0x000001FF, 23);
    BitIs(ONES, 0x000000FF, 24);
    BitIs(ONES, 0x0000007F, 25);
    BitIs(ONES, 0x0000003F, 26);
    BitIs(ONES, 0x0000001F, 27);
    BitIs(ONES, 0x0000000F, 28);
    BitIs(ONES, 0x00000007, 29);
    BitIs(ONES, 0x00000003, 30);
    BitIs(ONES, 0x00000001, 31);
  }

  /** The checksum of any message is the complemented remainder of its polynomial. */
  lemma Crc32IsPolynomial(data: Bytes)
    ensures Crc32(data) == PolynomialCrc(data)
  {
    hide Xor, Bit, Divide, MessageBits, Bits, Fold, Number, BitsNumber;
    var w := Fold(ONES, data);
    FoldIsDivide(ONES, data);
    MessageBitsAre(data);
    DivideIsRemainder(ONES, MessageBits(data));
    forall k | 0 <= k < 32 ensures Bit(ONES, k) { OnesHaveAllBits(k); }
    assert Positions(ONES) == ALL_ONES;
    var rem := Remainder(ALL_ONES, Bits(data));
    forall k | 0 <= k < 32 ensures Bit(Xor(w, ONES), k) == !rem[k] { BitXor(w, ONES, k); }
    assert Positions(Xor(w, ONES)) == seq(32, k requires 0 <= k < 32 => !rem[k]);
    NumberIsBits(Xor(w, ONES));
  }

  // ----- the usual example -----

  lemma EightSteps(c: bv32, c1: bv32, c2: bv32, c3: bv32, c4: bv32, c5: bv32, c6: bv32, c7: bv32, c8: bv32)
    requires Shift(c) == c1 && Shift(c1) == c2 && Shift(c2) == c3 && Shift(c3) == c4
    requires Shift(c4) == c5 && Shift(c5) == c6 && Shift(c6) == c7 && Shift(c7) == c8
    ensures Shift8(c) == c8
  {
    hide Shift;
    assert ShiftTimes(c4, 4) == c8;
    assert ShiftTimes(c, 8) == ShiftTimes(c4, 4);
  }

  lemma Example1()
    ensures Update(0xFFFFFFFF, 49) == 0x7C231048
  {
    ByteIs(49, 0x31);
    EightSteps(0xFFFFFFCE, 0x7FFFFFE7, 0xD2477CD3, 0x849B3D49, 0xAFF51D84, 0x57FA8EC2, 0x2BFD4761, 0xF8462090, 0x7C231048);
  }

  lemma Example2()
    ensures Update(0x7C231048, 50) == 0xB0ACBB32
  {
    ByteIs(50, 0x32);
    EightSteps(0x7C23107A, 0x3E11883D, 0xF2B0473E, 0x7958239F, 0xD11492EF, 0x8532CA57, 0xAF21E60B, 0xBA287025, 0xB0ACBB32);
  }

  lemma Example3()
    ensures Update(0xB0ACBB32, 51) == 0x77B79C2D
  {
    ByteIs(51, 0x33);
    EightSteps(0xB0ACBB01, 0xB5EEDEA0, 0x5AF76F50, 0x2D7BB7A8, 0x16BDDBD4, 0x0B5EEDEA, 0x05AF76F5, 0xEF6F385A, 0x77B79C2D);
  }

  lemma Example4()
    ensures Update(0x77B79C2D, 52) == 0x641C1F5C
  {
    ByteIs(52, 0x34);
    EightSteps(0x77B79C19, 0xD6634D2C, 0x6B31A696, 0x3598D34B, 0xF774EA85, 0x9602F662, 0x4B017B31, 0xC8383EB8, 0x641C1F5C);
  }

  lemma Example5()
    ensures Update(0x641C1F5C, 53) == 0x340AC5E3
  {
    ByteIs(53, 0x35);
    EightSteps(0x641C1F69, 0xDFB68C94, 0x6FDB464A, 0x37EDA325, 0xF64E52B2, 0x7B272959, 0xD02B178C, 0x68158BC6, 0x340AC5E3);
  }

  lemma Example6()
    ensures Update(0x340AC5E3, 54) == 0xF68D2C9E
  {
    ByteIs(54, 0x36);
    EightSteps(0x340AC5D5, 0xF7BDE1CA, 0x7BDEF0E5, 0xD057FB52, 0x682BFDA9, 0xD9AD7DF4, 0x6CD6BEFA, 0x366B5F7D, 0xF68D2C9E);
  }

  lemma Example7()
    ensures Update(0xF68D2C9E, 55) == 0xAFFC9660
  {
    ByteIs(55, 0x37);
    EightSteps(0xF68D2CA9, 0x96FE1574, 0x4B7F0ABA, 0x25BF855D, 0xFF67418E, 0x7FB3A0C7, 0xD2615343, 0x84882A81, 0xAFFC9660);
  }

  lemma Example8()
    ensures Update(0xAFFC9660, 56) == 0x651F2550
  {
    ByteIs(56, 0x38);
    EightSteps(0xAFFC9658, 0x57FE4B2C, 0x2BFF2596, 0x15FF92CB, 0xE7474A45, 0x9E1B2602, 0x4F0D9301, 0xCA3E4AA0, 0x651F2550);
  }

  lemma Example9()
    ensures Update(0x651F2550, 57) == 0x340BC6D9
  {
    ByteIs(57, 0x39);
    EightSteps(0x651F2569, 0xDF371194, 0x6F9B88CA, 0x37CDC465, 0xF65E6112, 0x7B2F3089, 0xD02F1B64, 0x68178DB2, 0x340BC6D9);
  }

  lemma ByteIs(n: nat, w: bv8)
    requires n < 256 && w as int == n
    ensures ByteOf(n) == w
  {
    hide ByteOf;
    IntBack(w);
    IntBack(ByteOf(n));
  }

  /** The digits 1 to 9 have the checksum CBF43926. */
  lemma CheckValue()
    ensures Crc32([49, 50, 51, 52, 53, 54, 55, 56, 57]) == 0xCBF4_3926
  {
    hide Update;
    Example1();
    Example2();
    Example3();
    Example4();
    Example5();
    Example6();
    Example7();
    Example8();
    Example9();
    FoldFirst(0xFFFFFFFF, [49, 50, 51, 52, 53, 54, 55, 56, 57]);
    assert [49, 50, 51, 52, 53, 54, 55, 56, 57][1..] == [50, 51, 52, 53, 54, 55, 56, 57];
    FoldFirst(0x7C231048, [50, 51, 52, 53, 54, 55, 56, 57]);
    assert [50, 51, 52, 53, 54, 55, 56, 57][1..] == [51, 52, 53, 54, 55, 56, 57];
    FoldFirst(0xB0ACBB32, [51, 52, 53, 54, 55, 56, 57]);
    assert [51, 52, 53, 54, 55, 56, 57][1..] == [52, 53, 54, 55, 56, 57];
    FoldFirst(0x77B79C2D, [52, 53, 54, 55, 56, 57]);
    assert [52, 53, 54, 55, 56, 57][1..] == [53, 54, 55, 56, 57];
    FoldFirst(0x641C1F5C, [53, 54, 55, 56, 57]);
    assert [53, 54, 55, 56, 57][1..] == [54, 55, 56, 57];
    FoldFirst(0x340AC5E3, [54, 55, 56, 57]);
    assert [54, 55, 56, 57][1..] == [55, 56, 57];
    FoldFirst(0xF68D2C9E, [55, 56, 57]);
    assert [55, 56, 57][1..] == [56, 57];
    FoldFirst(0xAFFC9660, [56, 57]);
    assert [56, 57][1..] == [57];
    FoldFirst(0x651F2550, [57]);
    assert [57][1..] == [];
    FoldNothing(0x340BC6D9, []);
    Complement();
  }

  lemma Complement()
    ensures Number(Xor(0x340BC6D9, ONES)) == 0xCBF4_3926
  {
  }
}
