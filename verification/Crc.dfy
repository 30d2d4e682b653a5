/**
 The implementations of CRC16-CCITT (util/crc.c, tools/genscratchpad.py and
 tools/scratchpadinfo.py) against bit-by-bit division.
 */
module Crc {
  import opened Bytes

  // ---- More about exclusive or ------------------------------------------------------------------

  ghost predicate Associates(a: nat, b: nat, c: nat) { Xor(Xor(a, b), c) == Xor(a, Xor(b, c)) }

  lemma {:induction false} AssociatesDoubled(a: nat, i: nat, b: nat, j: nat, c: nat, k: nat)
    requires i < 2 && j < 2 && k < 2 && Associates(a, b, c)
    ensures Associates(2 * a + i, 2 * b + j, 2 * c + k)
  {
    XorBit(a, i, b, j);
    XorBit(b, j, c, k);
    XorBit(Xor(a, b), XorBits(i, j), c, k);
    XorBit(a, i, Xor(b, c), XorBits(j, k));
  }

  lemma {:induction false} XorAssoc(a: nat, b: nat, c: nat)
    ensures Associates(a, b, c)
    decreases a + b + c
  {
    if a != 0 || b != 0 || c != 0 {
      XorAssoc(a / 2, b / 2, c / 2);
      AssociatesDoubled(a / 2, a % 2, b / 2, b % 2, c / 2, c % 2);
    }
  }

  /** The middle two of four summands may be exchanged. */
  lemma {:induction false} FourSwap(a: nat, b: nat, c: nat, d: nat)
    ensures Xor(Xor(a, b), Xor(c, d)) == Xor(Xor(a, c), Xor(b, d))
  {
    XorAssoc(a, b, Xor(c, d));
    XorAssoc(b, c, d);
    XorSymmetric(b, c);
    XorAssoc(c, b, d);
    XorAssoc(a, c, Xor(b, d));
  }

  lemma {:induction false} Pow2Word()
    ensures Pow2(15) == 0x8000 && Pow2(16) == 0x1_0000
  {
    Pow2Byte();
    assert Pow2(10) == 4 * Pow2(8);
    assert Pow2(12) == 4 * Pow2(10);
    assert Pow2(14) == 4 * Pow2(12);
    assert Pow2(16) == 4 * Pow2(14);
  }

  function Xor16(a: u16, b: u16): u16
  {
    Pow2Word();
    XorBound(a, b, 16);
    Xor(a, b)
  }

  // ---- Bit by bit -------------------------------------------------------------------------------

  const POLY: u16 := 0x1021

  /** One bit of the division: the register is shifted, and the polynomial subtracted when a bit falls out. */
  function BitStep(c: u16): u16
  {
    if c < 0x8000 then 2 * c else Xor16(2 * c - 0x1_0000, POLY)
  }

  function Steps(c: u16, n: nat): u16
  {
    if n == 0 then c else BitStep(Steps(c, n - 1))
  }

  /** A byte is added at the top of the register and then leaves it bit by bit. */
  function AddBits(crc: u16, b: u8): u16 { Steps(Xor16(crc, 0x100 * b), 8) }

  /** The remainder after all bytes, starting from `seed`. */
  function Crc(seed: u16, bs: seq<u8>): u16
  {
    if bs == [] then seed else AddBits(Crc(seed, bs[..|bs| - 1]), bs[|bs| - 1])
  }

  /** Over pieces one after the other the CRC is that of the whole. */
  lemma {:induction false} CrcConcat(seed: u16, a: seq<u8>, b: seq<u8>)
    ensures Crc(Crc(seed, a), b) == Crc(seed, a + b)
  {
    if b == [] {
      assert a + b == a;
    } else {
      var n := |b| - 1;
      CrcConcat(seed, a, b[..n]);
      assert (a + b)[..|a + b| - 1] == a + b[..n];
    }
  }

  lemma {:induction false} CrcSnoc(seed: u16, bs: seq<u8>, n: nat)
    requires n < |bs|
    ensures Crc(seed, bs[..n + 1]) == AddBits(Crc(seed, bs[..n]), bs[n])
  {
    assert bs[..n + 1][..n] == bs[..n];
  }

  // ---- The division is linear -------------------------------------------------------------------

  /** The register as its top bit and the rest, and what the top bit adds. */
  lemma {:induction false} TopBit(c: u16) returns (i: nat, r: nat, p: nat)
    ensures i < 2 && r < 0x8000 && c == 0x8000 * i + r && p == (if i == 0 then 0 else POLY)
    ensures BitStep(c) == Xor(2 * r, p)
  {
    i, r, p := if c < 0x8000 then 0 else 1, if c < 0x8000 then c else c - 0x8000, if c < 0x8000 then 0 else POLY;
    if i == 0 { XorZero(2 * r); }
  }

  lemma {:induction false} Shl15(h: nat)
    ensures Shl(h, 15) == 0x8000 * h
  {
    ShlByte(h);
    assert Shl(h, 10) == 4 * Shl(h, 8);
    assert Shl(h, 12) == 4 * Shl(h, 10);
    assert Shl(h, 14) == 4 * Shl(h, 12);
  }

  lemma {:induction false} XorTop(i: nat, a: nat, j: nat, b: nat)
    requires i < 2 && j < 2 && a < 0x8000 && b < 0x8000
    ensures Xor(0x8000 * i + a, 0x8000 * j + b) == 0x8000 * XorBits(i, j) + Xor(a, b)
    ensures Xor(a, b) < 0x8000
  {
    Pow2Word();
    XorBound(a, b, 15);
    var w := XorBits(i, j);
    XorBit(0, i, 0, j);
    assert Xor(i, j) == w;
    XorSplit(i, a, j, b, 15, w);
    Shl15(i);
    Shl15(j);
    Shl15(w);
  }

  /** What the top bits of two registers add, for a polynomial `v`. */
  lemma {:induction false} PolySum(i: nat, j: nat, p: nat, q: nat, v: nat)
    requires i < 2 && j < 2 && p == (if i == 0 then 0 else v) && q == (if j == 0 then 0 else v)
    ensures Xor(p, q) == if XorBits(i, j) == 0 then 0 else v
  {
    if j == 0 {
      XorZero(p);
    } else if i == 0 {
      ZeroLeft(v);
    } else {
      ZeroLeft(v);
      XorCancel(0, v);
    }
  }

  /** The top bit and the rest of a sum. */
  lemma {:induction false} TopOfSum(i: nat, a: nat, j: nat, b: nat, k: nat, t: nat)
    requires i < 2 && j < 2 && k < 2 && a < 0x8000 && b < 0x8000 && t < 0x8000
    requires Xor(0x8000 * i + a, 0x8000 * j + b) == 0x8000 * k + t
    ensures k == XorBits(i, j) && t == Xor(a, b)
  {
    XorTop(i, a, j, b);
  }

  lemma {:induction false} SumOfSums(a: nat, b: nat, c: nat, p: nat, q: nat, r: nat)
    requires Xor(a, b) == c && Xor(p, q) == r
    ensures Xor(c, r) == Xor(Xor(a, p), Xor(b, q))
  {
    FourSwap(a, b, p, q);
  }

  lemma {:induction false} DoubledSum(a: nat, b: nat)
    ensures Xor(2 * a, 2 * b) == 2 * Xor(a, b)
  {
    XorBit(a, 0, b, 0);
  }

  lemma {:induction false} BitStepXor(a: u16, b: u16)
    ensures BitStep(Xor16(a, b)) == Xor16(BitStep(a), BitStep(b))
  {
    var i, r, p := TopBit(a);
    var j, s, q := TopBit(b);
    var k, t, m := TopBit(Xor16(a, b));
    TopOfSum(i, r, j, s, k, t);
    DoubledSum(r, s);
    PolySum(i, j, p, q, POLY);
    SumOfSums(2 * r, 2 * s, 2 * t, p, q, m);
  }

  /** The remainder of a sum is the sum of the remainders. */
  lemma {:induction false} StepsXor(a: u16, b: u16, n: nat)
    ensures Steps(Xor16(a, b), n) == Xor16(Steps(a, n), Steps(b, n))
  {
    if n > 0 {
      StepsXor(a, b, n - 1);
      BitStepXor(Steps(a, n - 1), Steps(b, n - 1));
    }
  }

  lemma {:induction false} StepsJoin(a: u16, b: u16, c: u16, n: nat, x: u16, y: u16, z: u16)
    requires Xor(a, b) == c && Steps(a, n) == x && Steps(b, n) == y && Xor(x, y) == z
    ensures Steps(c, n) == z
  {
    StepsXor(a, b, n);
  }

  lemma {:induction false} StepsAdd(c: u16, m: nat, n: nat)
    ensures Steps(Steps(c, m), n) == Steps(c, m + n)
    decreases n
  {
    if n > 0 {
      StepsAdd(c, m, n - 1);
    }
  }

  /** As long as no bit falls out the register is only shifted. */
  lemma {:induction false} StepsShift(c: u16, n: nat)
    requires c * Pow2(n) < 0x1_0000
    ensures Steps(c, n) == c * Pow2(n)
  {
    if n > 0 {
      assert c * Pow2(n) == 2 * (c * Pow2(n - 1));
      StepsShift(c, n - 1);
    }
  }

  // ---- What eight steps make of a byte ----------------------------------------------------------

  /** Parts that do not overlap add up. */
  lemma Disjoint(h: nat, l: nat, k: nat)
    requires l < Pow2(k)
    ensures Xor(Shl(h, k), l) == Shl(h, k) + l
  {
    XorZero(h);
    XorSplit(h, l, 0, 0, k, h);
    XorZero(l);
    ShlZero(k);
  }

  lemma {:induction false} ShlZero(k: nat)
    ensures Shl(0, k) == 0
  {
    if k > 0 {
      ShlZero(k - 1);
    }
  }

  lemma {:induction false} ShlValues(h: nat)
    ensures Shl(h, 4) == 0x10 * h && Shl(h, 5) == 0x20 * h && Shl(h, 9) == 0x200 * h && Shl(h, 12) == 0x1000 * h
    ensures Pow2(4) == 0x10 && Pow2(5) == 0x20 && Pow2(9) == 0x200 && Pow2(12) == 0x1000
  {
    ShlByte(h);
    assert Shl(h, 1) == 2 * h;
    assert Shl(h, 3) == 4 * Shl(h, 1);
    assert Shl(h, 4) == 2 * Shl(h, 3);
    assert Shl(h, 5) == 2 * Shl(h, 4);
    assert Shl(h, 9) == 2 * Shl(h, 8);
    assert Shl(h, 10) == 4 * Shl(h, 8);
    assert Shl(h, 12) == 4 * Shl(h, 10);
    Pow2Byte();
    assert Pow2(5) == 2 * Pow2(4) && Pow2(9) == 2 * Pow2(8) && Pow2(10) == 4 * Pow2(8) && Pow2(12) == 4 * Pow2(10);
  }

  /** Copies of two nibbles at the places of the polynomial's bits are added copy by copy. */
  lemma {:induction false} TripleXor(a: nat, b: nat)
    requires a < 16 && b < 16
    ensures Xor(a, b) < 16 && Xor(POLY * a, POLY * b) == POLY * Xor(a, b)
  {
    var w := Xor(a, b);
    assert w < 16 by {
      Pow2Byte();
      XorBound(a, b, 4);
    }
    PairXor(a, b, w);
    TripleTop(a, b, w, 0x21 * a, 0x21 * b, 0x21 * w);
  }

  lemma {:induction false} PairXor(a: nat, b: nat, w: nat)
    requires w == Xor(a, b) && a < 0x20 && b < 0x20
    ensures Xor(0x21 * a, 0x21 * b) == 0x21 * w
  {
    FivePlaces(a);
    FivePlaces(b);
    FivePlaces(w);
    OnTop(a, a, b, b, 5);
  }

  lemma {:induction false} FivePlaces(h: nat)
    ensures Shl(h, 5) == 0x20 * h && Pow2(5) == 0x20
  {
    ShlValues(h);
  }

  lemma {:induction false} TwelvePlaces(h: nat)
    ensures Shl(h, 12) == 0x1000 * h && Pow2(12) == 0x1000
  {
    ShlValues(h);
  }

  lemma {:induction false} TripleTop(a: nat, b: nat, w: nat, x: nat, y: nat, z: nat)
    requires w == Xor(a, b) && Xor(x, y) == z && x < 0x1000 && y < 0x1000
    ensures Xor(0x1000 * a + x, 0x1000 * b + y) == 0x1000 * w + z
  {
    TwelvePlaces(a);
    TwelvePlaces(b);
    TwelvePlaces(w);
    OnTop(a, x, b, y, 12);
  }

  /** The same pair again, `k` places higher. */
  lemma {:induction false} OnTop(a: nat, x: nat, b: nat, y: nat, k: nat)
    requires x < Pow2(k) && y < Pow2(k)
    ensures Xor(Shl(a, k) + x, Shl(b, k) + y) == Shl(Xor(a, b), k) + Xor(x, y)
  {
    XorSplit(a, x, b, y, k, Xor(a, b));
  }

  /** Eight steps on a byte at the top of the register. */
  function Folded(x: u8): u16 { Steps(0x100 * x, 8) }

  /** Four steps on a nibble at the top of the register give copies at the places of the polynomial's bits. */
  lemma {:induction false} NibbleSteps(s: nat, k: nat)
    requires k <= 4 && s < Pow2(k) && s < 16
    ensures Steps(0x1000 * s, 4) == POLY * s
    decreases k
  {
    if k == 0 {
      StepsShift(0, 4);
    } else {
      var a, e := Halve(s, k);
      NibbleSteps(a, k - 1);
      NibbleDouble(a);
      NibbleBit(e);
      NibbleJoin(a, e);
    }
  }

  lemma {:induction false} NibbleJoin(a: nat, e: nat)
    requires a < 8 && e < 2
    requires Steps(0x2000 * a, 4) == POLY * (2 * a) && Steps(0x1000 * e, 4) == POLY * e
    ensures Steps(0x1000 * (2 * a + e), 4) == POLY * (2 * a + e)
  {
    TripleBit(a, e);
    DisjointNibble(a, e);
    StepsJoin(0x2000 * a, 0x1000 * e, 0x1000 * (2 * a + e), 4, POLY * (2 * a), POLY * e, POLY * (2 * a + e));
  }

  lemma {:induction false} TripleBit(a: nat, e: nat)
    requires a < 8 && e < 2
    ensures Xor(POLY * (2 * a), POLY * e) == POLY * (2 * a + e)
  {
    WithBit(a, e);
    TripleXor(2 * a, e);
  }

  lemma {:induction false} WithBit(a: nat, e: nat)
    requires e < 2
    ensures Xor(2 * a, e) == 2 * a + e
  {
    XorBit(a, 0, 0, e);
    XorZero(a);
  }

  lemma {:induction false} ShiftedXor(x: nat, y: nat, w: nat)
    requires Xor(x, y) == w
    ensures Xor(0x1000 * x, 0x1000 * y) == 0x1000 * w
  {
    XorZero(0);
    TripleTop(x, y, w, 0, 0, 0);
  }

  lemma {:induction false} DisjointNibble(a: nat, e: nat)
    requires a < 8 && e < 2
    ensures Xor(0x2000 * a, 0x1000 * e) == 0x1000 * (2 * a + e)
  {
    WithBit(a, e);
    ShiftedXor(2 * a, e, 2 * a + e);
  }

  lemma {:induction false} NibbleDouble(a: nat)
    requires a < 8 && Steps(0x1000 * a, 4) == POLY * a
    ensures Steps(0x2000 * a, 4) == POLY * (2 * a)
  {
    StepsAdd(0x1000 * a, 1, 4);
    StepsAdd(0x1000 * a, 4, 1);
    assert Steps(0x1000 * a, 1) == BitStep(Steps(0x1000 * a, 0)) == 0x2000 * a;
    assert Steps(POLY * a, 1) == BitStep(Steps(POLY * a, 0)) == 2 * (POLY * a);
  }

  lemma {:induction false} NibbleBit(e: nat)
    requires e < 2
    ensures Steps(0x1000 * e, 4) == POLY * e
  {
    var c := 0x1000 * e;
    if e == 0 {
      StepsShift(c, 4);
    } else {
      BitOut(c, 3);
    }
  }

  /** The first bit that falls out leaves the polynomial. */
  lemma {:induction false} BitOut(c: u16, n: nat)
    requires c * 8 == 0x8000 && n == 3
    ensures Steps(c, n + 1) == POLY
  {
    assert Pow2(n) == 8;
    StepsShift(c, n);
    ZeroLeft(POLY);
  }

  lemma {:induction false} ZeroLeft(p: nat)
    ensures Xor(0, p) == p
  {
    XorSymmetric(0, p);
    XorZero(p);
  }

  lemma {:induction false} LowNibble(q: nat)
    requires q < 16
    ensures Steps(0x100 * q, 8) == POLY * q
  {
    assert Pow2(4) == 16;
    var c := 0x100 * q;
    StepsShift(c, 4);
    NibbleSteps(q, 4);
    StepsAdd(c, 4, 4);
  }

  lemma {:induction false} HighNibble(p: nat)
    requires p < 16
    ensures Steps(0x1000 * p, 8) == Xor(POLY * p, 0x210 * p)
  {
    assert Pow2(4) == 16;
    var c, low := 0x1000 * p, 0x21 * p;
    NibbleSteps(p, 4);
    ShlValues(p);
    Disjoint(p, low, 12);
    assert Xor(c, low) == POLY * p;
    StepsXor(c, low, 4);
    StepsShift(low, 4);
    StepsAdd(c, 4, 4);
  }

  /** Steps on the two nibbles of a byte. */
  lemma {:induction false} FoldedNibbles(p: nat, q: nat)
    requires p < 16 && q < 16
    ensures Xor(p, q) < 16 && Folded(16 * p + q) == Xor(0x210 * p, POLY * Xor(p, q))
  {
    var hi, lo := 0x1000 * p, 0x100 * q;
    ShlValues(p);
    Disjoint(p, lo, 12);
    assert Xor(hi, lo) == 0x100 * (16 * p + q);
    StepsXor(hi, lo, 8);
    LowNibble(q);
    HighNibble(p);
    TripleXor(p, q);
    XorSymmetric(POLY * p, 0x210 * p);
    XorAssoc(0x210 * p, POLY * p, POLY * q);
  }

  lemma {:induction false} HighAndLow(h: nat, l: u8)
    ensures Xor(0x100 * h, l) == 0x100 * h + l
  {
    XorLastByte(h, 0, 0, l);
    XorZero(h);
    ZeroLeft(l);
  }

  /** The byte that leaves the register is folded into what remains of it. */
  lemma {:induction false} FoldTop(h: u8, l: u8, b: u8, x: u8)
    requires x == Xor(h, b)
    ensures Steps(Xor16(0x100 * h + l, 0x100 * b), 8) == Xor(Folded(x), 0x100 * l)
  {
    assert Xor(0x100 * h + l, 0x100 * b) == 0x100 * x + l by {
      XorLastByte(h, l, b, 0);
      XorZero(l);
    }
    HighAndLow(x, l);
    LowByte(l, 8);
    StepsJoin(0x100 * x, l, 0x100 * x + l, 8, Folded(x), 0x100 * l, Xor16(Folded(x), 0x100 * l));
  }

  lemma {:induction false} LowByte(l: u8, n: nat)
    requires n == 8
    ensures Steps(l, n) == 0x100 * l
  {
    Pow2Byte();
    StepsShift(l, n);
  }

  lemma {:induction false} AddBitsFolded(crc: u16, b: u8)
    ensures AddBits(crc, b) == Xor(Folded(Xor8(crc / 0x100, b)), 0x100 * (crc % 0x100))
  {
    FoldTop(crc / 0x100, crc % 0x100, b, Xor8(crc / 0x100, b));
  }

  // ---- The table --------------------------------------------------------------------------------

  /** Entry `16 * r + j` of the table. */
  function Entry(r: nat, j: nat): u16
  {
    match r
    case 0 =>
      (match j
       case 0 => 0x0000 case 1 => 0x1021 case 2 => 0x2042 case 3 => 0x3063
       case 4 => 0x4084 case 5 => 0x50a5 case 6 => 0x60c6 case 7 => 0x70e7
       case 8 => 0x8108 case 9 => 0x9129 case 10 => 0xa14a case 11 => 0xb16b
       case 12 => 0xc18c case 13 => 0xd1ad case 14 => 0xe1ce case _ => 0xf1ef)
    case 1 =>
      (match j
       case 0 => 0x1231 case 1 => 0x0210 case 2 => 0x3273 case 3 => 0x2252
       case 4 => 0x52b5 case 5 => 0x4294 case 6 => 0x72f7 case 7 => 0x62d6
       case 8 => 0x9339 case 9 => 0x8318 case 10 => 0xb37b case 11 => 0xa35a
       case 12 => 0xd3bd case 13 => 0xc39c case 14 => 0xf3ff case _ => 0xe3de)
    case 2 =>
      (match j
       case 0 => 0x2462 case 1 => 0x3443 case 2 => 0x0420 case 3 => 0x1401
       case 4 => 0x64e6 case 5 => 0x74c7 case 6 => 0x44a4 case 7 => 0x5485
       case 8 => 0xa56a case 9 => 0xb54b case 10 => 0x8528 case 11 => 0x9509
       case 12 => 0xe5ee case 13 => 0xf5cf case 14 => 0xc5ac case _ => 0xd58d)
    case 3 =>
      (match j
       case 0 => 0x3653 case 1 => 0x2672 case 2 => 0x1611 case 3 => 0x0630
       case 4 => 0x76d7 case 5 => 0x66f6 case 6 => 0x5695 case 7 => 0x46b4
       case 8 => 0xb75b case 9 => 0xa77a case 10 => 0x9719 case 11 => 0x8738
       case 12 => 0xf7df case 13 => 0xe7fe case 14 => 0xd79d case _ => 0xc7bc)
    case 4 =>
      (match j
       case 0 => 0x48c4 case 1 => 0x58e5 case 2 => 0x6886 case 3 => 0x78a7
       case 4 => 0x0840 case 5 => 0x1861 case 6 => 0x2802 case 7 => 0x3823
       case 8 => 0xc9cc case 9 => 0xd9ed case 10 => 0xe98e case 11 => 0xf9af
       case 12 => 0x8948 case 13 => 0x9969 case 14 => 0xa90a case _ => 0xb92b)
    case 5 =>
      (match j
       case 0 => 0x5af5 case 1 => 0x4ad4 case 2 => 0x7ab7 case 3 => 0x6a96
       case 4 => 0x1a71 case 5 => 0x0a50 case 6 => 0x3a33 case 7 => 0x2a12
       case 8 => 0xdbfd case 9 => 0xcbdc case 10 => 0xfbbf case 11 => 0xeb9e
       case 12 => 0x9b79 case 13 => 0x8b58 case 14 => 0xbb3b case _ => 0xab1a)
    case 6 =>
      (match j
       case 0 => 0x6ca6 case 1 => 0x7c87 case 2 => 0x4ce4 case 3 => 0x5cc5
       case 4 => 0x2c22 case 5 => 0x3c03 case 6 => 0x0c60 case 7 => 0x1c41
       case 8 => 0xedae case 9 => 0xfd8f case 10 => 0xcdec case 11 => 0xddcd
       case 12 => 0xad2a case 13 => 0xbd0b case 14 => 0x8d68 case _ => 0x9d49)
    case 7 =>
      (match j
       case 0 => 0x7e97 case 1 => 0x6eb6 case 2 => 0x5ed5 case 3 => 0x4ef4
       case 4 => 0x3e13 case 5 => 0x2e32 case 6 => 0x1e51 case 7 => 0x0e70
       case 8 => 0xff9f case 9 => 0xefbe case 10 => 0xdfdd case 11 => 0xcffc
       case 12 => 0xbf1b case 13 => 0xaf3a case 14 => 0x9f59 case _ => 0x8f78)
    case 8 =>
      (match j
       case 0 => 0x9188 case 1 => 0x81a9 case 2 => 0xb1ca case 3 => 0xa1eb
       case 4 => 0xd10c case 5 => 0xc12d case 6 => 0xf14e case 7 => 0xe16f
       case 8 => 0x1080 case 9 => 0x00a1 case 10 => 0x30c2 case 11 => 0x20e3
       case 12 => 0x5004 case 13 => 0x4025 case 14 => 0x7046 case _ => 0x6067)
    case 9 =>
      (match j
       case 0 => 0x83b9 case 1 => 0x9398 case 2 => 0xa3fb case 3 => 0xb3da
       case 4 => 0xc33d case 5 => 0xd31c case 6 => 0xe37f case 7 => 0xf35e
       case 8 => 0x02b1 case 9 => 0x1290 case 10 => 0x22f3 case 11 => 0x32d2
       case 12 => 0x4235 case 13 => 0x5214 case 14 => 0x6277 case _ => 0x7256)
    case 10 =>
      (match j
       case 0 => 0xb5ea case 1 => 0xa5cb case 2 => 0x95a8 case 3 => 0x8589
       case 4 => 0xf56e case 5 => 0xe54f case 6 => 0xd52c case 7 => 0xc50d
       case 8 => 0x34e2 case 9 => 0x24c3 case 10 => 0x14a0 case 11 => 0x0481
       case 12 => 0x7466 case 13 => 0x6447 case 14 => 0x5424 case _ => 0x4405)
    case 11 =>
      (match j
       case 0 => 0xa7db case 1 => 0xb7fa case 2 => 0x8799 case 3 => 0x97b8
       case 4 => 0xe75f case 5 => 0xf77e case 6 => 0xc71d case 7 => 0xd73c
       case 8 => 0x26d3 case 9 => 0x36f2 case 10 => 0x0691 case 11 => 0x16b0
       case 12 => 0x6657 case 13 => 0x7676 case 14 => 0x4615 case _ => 0x5634)
    case 12 =>
      (match j
       case 0 => 0xd94c case 1 => 0xc96d case 2 => 0xf90e case 3 => 0xe92f
       case 4 => 0x99c8 case 5 => 0x89e9 case 6 => 0xb98a case 7 => 0xa9ab
       case 8 => 0x5844 case 9 => 0x4865 case 10 => 0x7806 case 11 => 0x6827
       case 12 => 0x18c0 case 13 => 0x08e1 case 14 => 0x3882 case _ => 0x28a3)
    case 13 =>
      (match j
       case 0 => 0xcb7d case 1 => 0xdb5c case 2 => 0xeb3f case 3 => 0xfb1e
       case 4 => 0x8bf9 case 5 => 0x9bd8 case 6 => 0xabbb case 7 => 0xbb9a
       case 8 => 0x4a75 case 9 => 0x5a54 case 10 => 0x6a37 case 11 => 0x7a16
       case 12 => 0x0af1 case 13 => 0x1ad0 case 14 => 0x2ab3 case _ => 0x3a92)
    case 14 =>
      (match j
       case 0 => 0xfd2e case 1 => 0xed0f case 2 => 0xdd6c case 3 => 0xcd4d
       case 4 => 0xbdaa case 5 => 0xad8b case 6 => 0x9de8 case 7 => 0x8dc9
       case 8 => 0x7c26 case 9 => 0x6c07 case 10 => 0x5c64 case 11 => 0x4c45
       case 12 => 0x3ca2 case 13 => 0x2c83 case 14 => 0x1ce0 case _ => 0x0cc1)
    case _ =>
      (match j
       case 0 => 0xef1f case 1 => 0xff3e case 2 => 0xcf5d case 3 => 0xdf7c
       case 4 => 0xaf9b case 5 => 0xbfba case 6 => 0x8fd9 case 7 => 0x9ff8
       case 8 => 0x6e17 case 9 => 0x7e36 case 10 => 0x4e55 case 11 => 0x5e74
       case 12 => 0x2e93 case 13 => 0x3eb2 case 14 => 0x0ed1 case _ => 0x1ef0)
  }

  function Lut(i: u8): u16 { Entry(i / 16, i % 16) }

  /** The bit of weight `unit`, a power of two, is changed. */
  function Flip(c: int, unit: nat): int
    requires unit > 0
  {
    if c / unit % 2 == 0 then c + unit else c - unit
  }

  function AddPoly(c: int): int { Flip(Flip(Flip(c, 1), 0x20), 0x1000) }

  /** Entry `2i` continues the division of entry `i` by a bit, entry `2i + 1` adds the polynomial. */
  predicate Doubles(v: u16, even: u16, odd: u16) {
    even == (if v < 0x8000 then 2 * v else AddPoly(2 * v - 0x1_0000)) && odd == AddPoly(even)
  }

  // One lemma for each eight entries of the table, so that every proof is about two rows of constants.

  lemma {:induction false} Doubles0(j: nat)
    requires j < 8
    ensures Doubles(Entry(0, j), Entry(0, 2 * j), Entry(0, 2 * j + 1))
  {
  }

  lemma {:induction false} Doubles1(j: nat)
    requires 8 <= j < 16
    ensures Doubles(Entry(0, j), Entry(1, 2 * j - 16), Entry(1, 2 * j - 15))
  {
  }

  lemma {:induction false} Doubles2(j: nat)
    requires j < 8
    ensures Doubles(Entry(1, j), Entry(2, 2 * j), Entry(2, 2 * j + 1))
  {
  }

  lemma {:induction false} Doubles3(j: nat)
    requires 8 <= j < 16
    ensures Doubles(Entry(1, j), Entry(3, 2 * j - 16), Entry(3, 2 * j - 15))
  {
  }

  lemma {:induction false} Doubles4(j: nat)
    requires j < 8
    ensures Doubles(Entry(2, j), Entry(4, 2 * j), Entry(4, 2 * j + 1))
  {
  }

  lemma {:induction false} Doubles5(j: nat)
    requires 8 <= j < 16
    ensures Doubles(Entry(2, j), Entry(5, 2 * j - 16), Entry(5, 2 * j - 15))
  {
  }

  lemma {:induction false} Doubles6(j: nat)
    requires j < 8
    ensures Doubles(Entry(3, j), Entry(6, 2 * j), Entry(6, 2 * j + 1))
  {
  }

  lemma {:induction false} Doubles7(j: nat)
    requires 8 <= j < 16
    ensures Doubles(Entry(3, j), Entry(7, 2 * j - 16), Entry(7, 2 * j - 15))
  {
  }

  lemma {:induction false} Doubles8(j: nat)
    requires j < 8
    ensures Doubles(Entry(4, j), Entry(8, 2 * j), Entry(8, 2 * j + 1))
  {
  }

  lemma {:induction false} Doubles9(j: nat)
    requires 8 <= j < 16
    ensures Doubles(Entry(4, j), Entry(9, 2 * j - 16), Entry(9, 2 * j - 15))
  {
  }

  lemma {:induction false} Doubles10(j: nat)
    requires j < 8
    ensures Doubles(Entry(5, j), Entry(10, 2 * j), Entry(10, 2 * j + 1))
  {
  }

  lemma {:induction false} Doubles11(j: nat)
    requires 8 <= j < 16
    ensures Doubles(Entry(5, j), Entry(11, 2 * j - 16), Entry(11, 2 * j - 15))
  {
  }

  lemma {:induction false} Doubles12(j: nat)
    requires j < 8
    ensures Doubles(Entry(6, j), Entry(12, 2 * j), Entry(12, 2 * j + 1))
  {
  }

  lemma {:induction false} Doubles13(j: nat)
    requires 8 <= j < 16
    ensures Doubles(Entry(6, j), Entry(13, 2 * j - 16), Entry(13, 2 * j - 15))
  {
  }

  lemma {:induction false} Doubles14(j: nat)
    requires j < 8
    ensures Doubles(Entry(7, j), Entry(14, 2 * j), Entry(14, 2 * j + 1))
  {
  }

  lemma {:induction false} Doubles15(j: nat)
    requires 8 <= j < 16
    ensures Doubles(Entry(7, j), Entry(15, 2 * j - 16), Entry(15, 2 * j - 15))
  {
  }

  /** Entry `j` of row `h` has its successors in row `2h` or `2h + 1`. */
  predicate Successor(h: nat, j: nat, r: nat, l: nat) {
    h < 8 && j < 16 && (if j < 8 then r == 2 * h && l == 2 * j else r == 2 * h + 1 && l == 2 * j - 16)
  }

  lemma {:induction false} RowsDouble(h: nat, j: nat, r: nat, l: nat)
    requires Successor(h, j, r, l)
    ensures Doubles(Entry(h, j), Entry(r, l), Entry(r, l + 1))
  {
    match r
    case 0 => Doubles0(j);
    case 1 => Doubles1(j);
    case 2 => Doubles2(j);
    case 3 => Doubles3(j);
    case 4 => Doubles4(j);
    case 5 => Doubles5(j);
    case 6 => Doubles6(j);
    case 7 => Doubles7(j);
    case 8 => Doubles8(j);
    case 9 => Doubles9(j);
    case 10 => Doubles10(j);
    case 11 => Doubles11(j);
    case 12 => Doubles12(j);
    case 13 => Doubles13(j);
    case 14 => Doubles14(j);
    case _ => Doubles15(j);
  }

  lemma {:induction false} LutEntry(i: nat, h: nat, j: nat)
    requires h < 16 && j < 16 && i == 16 * h + j
    ensures Lut(i) == Entry(h, j)
  {
    assert i / 16 == h && i % 16 == j;
  }

  lemma {:induction false} LutDoubles(i: nat)
    requires i < 128
    ensures Doubles(Lut(i), Lut(2 * i), Lut(2 * i + 1))
  {
    var h, j := i / 16, i % 16;
    var r, l := (2 * i) / 16, (2 * i) % 16;
    RowsDouble(h, j, r, l);
    LutEntry(i, h, j);
    LutEntry(2 * i, r, l);
    LutEntry(2 * i + 1, r, l + 1);
  }

  /** In numbers: the three bits of the polynomial are changed. */
  lemma {:induction false} XorPoly(h: nat, i: nat, m: nat, j: nat, k: nat, e: nat)
    requires i < 2 && j < 2 && e < 2 && m < 64 && k < 16
    ensures Xor(0x1000 * (2 * h + i) + 0x20 * (2 * m + j) + 2 * k + e, POLY)
         == 0x1000 * (2 * h + (1 - i)) + 0x20 * (2 * m + (1 - j)) + 2 * k + (1 - e)
  {
    var low, mid, top := 2 * k + e, 2 * m + j, 2 * h + i;
    FlipLast(k, e);
    FlipLast(m, j);
    FlipLast(h, i);
    var rest, rest' := 0x20 * mid + low, 0x20 * (2 * m + (1 - j)) + 2 * k + (1 - e);
    MiddleTop(mid, low, 2 * m + (1 - j), 2 * k + (1 - e));
    TripleTop(top, 1, 2 * h + (1 - i), rest, 0x21, rest');
  }

  lemma {:induction false} MiddleTop(m: nat, l: nat, m': nat, l': nat)
    requires l < 0x20 && Xor(m, 1) == m' && Xor(l, 1) == l'
    ensures Xor(0x20 * m + l, 0x21) == 0x20 * m' + l'
  {
    FivePlaces(m);
    FivePlaces(1);
    FivePlaces(m');
    OnTop(m, l, 1, 1, 5);
  }

  lemma {:induction false} FlipLast(k: nat, e: nat)
    requires e < 2
    ensures Xor(2 * k + e, 1) == 2 * k + (1 - e)
  {
    XorBit(k, e, 0, 1);
    XorZero(k);
  }

  lemma AddPolyIsXor(c: u16)
    ensures Xor(c, POLY) == AddPoly(c)
  {
    var top, rest := c / 0x1000, c % 0x1000;
    var mid, low := rest / 0x20, rest % 0x20;
    XorPoly(top / 2, top % 2, mid / 2, mid % 2, low / 2, low % 2);
    FlipParts(top / 2, top % 2, mid / 2, mid % 2, low / 2, low % 2);
  }

  lemma {:induction false} FlipParts(h: nat, i: nat, m: nat, j: nat, k: nat, e: nat)
    requires i < 2 && j < 2 && e < 2 && m < 64 && k < 16
    ensures AddPoly(0x1000 * (2 * h + i) + 0x20 * (2 * m + j) + 2 * k + e)
         == 0x1000 * (2 * h + (1 - i)) + 0x20 * (2 * m + (1 - j)) + 2 * k + (1 - e)
  {
    var c := 0x1000 * (2 * h + i) + 0x20 * (2 * m + j) + 2 * k + e;
    var c1 := Flip(c, 1);
    assert c1 == 0x1000 * (2 * h + i) + 0x20 * (2 * m + j) + 2 * k + (1 - e);
    assert c1 / 0x20 == 0x80 * (2 * h + i) + 2 * m + j;
    var c2 := Flip(c1, 0x20);
    assert c2 == 0x1000 * (2 * h + i) + 0x20 * (2 * m + (1 - j)) + 2 * k + (1 - e);
    assert c2 / 0x1000 == 2 * h + i;
  }

  lemma {:induction false} LutPair(i: nat)
    requires i < 128 && Lut(i) == Folded(i)
    ensures Lut(2 * i) == Folded(2 * i) && Lut(2 * i + 1) == Folded(2 * i + 1)
  {
    LutDoubles(i);
    FoldedDouble(i);
    FoldedNext(i);
  }

  /** Every entry of the table is what the division makes of its index. */
  lemma {:induction false} LutIsFolded(x: u8)
    ensures Lut(x) == Folded(x)
    decreases x
  {
    if x == 0 {
      LutDoubles(0);
      StepsShift(0, 8);
    } else {
      var i := x / 2;
      LutIsFolded(i);
      LutPair(i);
      assert x == 2 * i || x == 2 * i + 1;
    }
  }

  lemma {:induction false} FoldedDouble(i: nat)
    requires i < 128
    ensures Folded(2 * i) == if Folded(i) < 0x8000 then 2 * Folded(i) else AddPoly(2 * Folded(i) - 0x1_0000)
  {
    var c := 0x100 * i;
    StepsAdd(c, 1, 8);
    StepsAdd(c, 8, 1);
    assert Steps(c, 1) == BitStep(Steps(c, 0)) == 2 * c;
    assert Steps(Steps(c, 8), 1) == BitStep(Steps(Steps(c, 8), 0));
    if Folded(i) >= 0x8000 { AddPolyIsXor(2 * Folded(i) - 0x1_0000); }
  }

  lemma {:induction false} FoldedNext(i: nat)
    requires i < 128
    ensures Folded(2 * i + 1) == AddPoly(Folded(2 * i))
  {
    XorLastByte(2 * i, 0, 1, 0);
    XorBit(i, 0, 0, 1);
    XorZero(i);
    var hi, lo := 0x200 * i, 0x100;
    assert Xor(hi, lo) == 0x100 * (2 * i + 1) by { XorZero(0); }
    StepsXor(hi, lo, 8);
    LowNibble(1);
    AddPolyIsXor(Folded(2 * i));
  }

  // ---- Shift forms ------------------------------------------------------------------------------

  /** The two bytes of the register exchanged. */
  function Swapped(crc: u16): u16
  {
    Pow2Byte();
    ShlByte(crc % 0x100);
    OrLow(crc % 0x100, crc / 0x100, 8);
    Or(0x100 * (crc % 0x100), crc / 0x100)
  }

  /** The form of the two Python tools, whose integers do not overflow. */
  function PythonAdd(crc: u16, b: u8): nat { PythonShifts(Xor(Swapped(crc), b)) }

  function PythonShifts(c2: nat): nat
  {
    var c3 := Xor(c2, c2 / 0x10 % 0x10);
    var c4 := Xor(c3, (c3 % 0x10) * 0x1000);
    Xor(c4, (c4 % 0x100) * 0x20)
  }

  /** The form for 8-bit processors; every assignment is cut to 16 bits. */
  function LegacyAdd(crc: u16, b: u8): nat { LegacyShifts(Xor(Swapped(crc), b)) }

  function LegacyShifts(c2: nat): nat
  {
    var c3 := Xor(c2, c2 % 0x100 / 0x10);
    var c4 := Xor(c3, c3 * 0x100 * 0x10 % 0x1_0000);
    Xor(c4, c4 % 0x100 * 0x10 * 2 % 0x1_0000)
  }

  lemma {:induction false} SwappedValue(crc: u16)
    ensures Swapped(crc) == 0x100 * (crc % 0x100) + crc / 0x100
  {
    Pow2Byte();
    ShlByte(crc % 0x100);
    OrLow(crc % 0x100, crc / 0x100, 8);
  }

  /** The last two shifts of the shift forms, on a register that holds `l` and the folded nibbles. */
  function Unfolded(l: u8, p: nat, s: nat): nat
  {
    Xor(Xor(0x100 * l + 16 * p + s, s * 0x1000), (16 * p + s) * 0x20)
  }

  /** The first step of the shift forms folds the high nibble into the low one. */
  lemma {:induction false} FoldStep(crc: u16, b: u8, l: nat, p: nat, q: nat)
    requires l == crc % 0x100 && Xor8(crc / 0x100, b) == 16 * p + q && p < 16 && q < 16
    ensures Xor(p, q) < 16
    ensures Xor(Swapped(crc), b) == 0x100 * l + 16 * p + q
    ensures Xor(0x100 * l + 16 * p + q, p) == 0x100 * l + 16 * p + Xor(p, q)
  {
    assert Xor(Swapped(crc), b) == 0x100 * l + 16 * p + q by {
      SwappedValue(crc);
      XorLastByte(l, crc / 0x100, 0, b);
      XorZero(l);
    }
    FoldNibble(p, q);
    var u, v := 16 * p + q, 16 * p + Xor(p, q);
    assert Xor(0x100 * l + u, p) == 0x100 * l + v by {
      XorLastByte(l, u, 0, p);
      XorZero(l);
    }
  }

  lemma {:induction false} FoldNibble(p: nat, q: nat)
    requires p < 16 && q < 16
    ensures Xor(p, q) < 16 && Xor(16 * p + q, p) == 16 * p + Xor(p, q)
  {
    ShlValues(p);
    XorBound(p, q, 4);
    OnTop(p, q, 0, p, 4);
    ShlZero(4);
    XorZero(p);
    XorSymmetric(q, p);
  }

  lemma {:induction false} UnfoldedLow(l: u8, p: nat, s: nat)
    requires p < 16 && s < 16
    ensures Xor(0x100 * l + 16 * p + s, s * 0x1000) % 0x100 == 16 * p + s
  {
    XorLastByte(l, 16 * p + s, 16 * s, 0);
    XorZero(16 * p + s);
    LastByte(Xor(l, 16 * s), 16 * p + s);
  }

  lemma {:induction false} LastByte(h: nat, t: u8)
    ensures (0x100 * h + t) % 0x100 == t
  {
  }

  /** Where the nibbles are. */
  lemma {:induction false} Places(l: u8, p: nat, q: nat)
    requires p < 16 && q < 16
    ensures var c := 0x100 * l + 16 * p + q; c / 0x10 % 0x10 == p && c % 0x100 == 16 * p + q && c % 0x10 == q
    ensures (16 * p + q) / 0x10 == p && (16 * p + q) % 0x10 == q
  {
    var c := 0x100 * l + 16 * p + q;
    LastByte(l, 16 * p + q);
    assert c / 0x10 == 0x10 * l + p;
  }

  lemma {:induction false} Cut(l: u8, p: nat, q: nat, c: nat, t: nat)
    requires p < 16 && q < 16 && c == 0x100 * l + 16 * p + q && t == 16 * p + q
    ensures c * 0x100 * 0x10 % 0x1_0000 == q * 0x1000
    ensures t * 0x10 * 2 % 0x1_0000 == t * 0x20
  {
    var h, m := 0x10 * l + p, q * 0x1000;
    assert c * 0x100 * 0x10 == 0x1_0000 * h + m;
  }

  /** The shift forms, given what their parts are. */
  lemma {:induction false} PythonChain(c2: nat, c3: nat, c4: nat, p: nat, s: nat, t: nat)
    requires c2 / 0x10 % 0x10 == p && c3 == Xor(c2, p) && c3 % 0x10 == s
    requires c4 == Xor(c3, s * 0x1000) && c4 % 0x100 == t
    ensures PythonShifts(c2) == Xor(c4, t * 0x20)
  {
  }

  lemma {:induction false} LegacyChain(c2: nat, c3: nat, c4: nat, p: nat, s: nat, t: nat)
    requires c2 % 0x100 / 0x10 == p && c3 == Xor(c2, p)
    requires c3 * 0x100 * 0x10 % 0x1_0000 == s * 0x1000 && c4 == Xor(c3, s * 0x1000)
    requires c4 % 0x100 == t && t * 0x10 * 2 % 0x1_0000 == t * 0x20
    ensures LegacyShifts(c2) == Xor(c4, t * 0x20)
  {
  }

  lemma {:induction false} PythonUnfold(l: u8, p: nat, q: nat, s: nat, c2: nat, c3: nat)
    requires p < 16 && q < 16 && s < 16 && c3 == Xor(c2, p)
    requires c2 == 0x100 * l + 16 * p + q && c3 == 0x100 * l + 16 * p + s
    ensures PythonShifts(c2) == Unfolded(l, p, s)
  {
    Places(l, p, q);
    Places(l, p, s);
    UnfoldedLow(l, p, s);
    PythonChain(c2, c3, Xor(c3, s * 0x1000), p, s, 16 * p + s);
  }

  lemma {:induction false} LegacyUnfold(l: u8, p: nat, q: nat, s: nat, c2: nat, c3: nat)
    requires p < 16 && q < 16 && s < 16 && c3 == Xor(c2, p)
    requires c2 == 0x100 * l + 16 * p + q && c3 == 0x100 * l + 16 * p + s
    ensures LegacyShifts(c2) == Unfolded(l, p, s)
  {
    Places(l, p, q);
    UnfoldedLow(l, p, s);
    Cut(l, p, s, c3, 16 * p + s);
    LegacyChain(c2, c3, Xor(c3, s * 0x1000), p, s, 16 * p + s);
  }

  /** The sum of all shifts, nibble by nibble. */
  lemma {:induction false} UnfoldedSum(l: u8, p: nat, s: nat)
    requires p < 16 && s < 16
    ensures Unfolded(l, p, s) == Xor(0x100 * l, Xor(0x210 * p, POLY * s))
  {
    var t := 16 * p + s;
    HighAndLow(l, t);
    ThreeOnTop(0x100 * l, t, 0x1000 * s, 0x20 * t);
    NibbleSums(p, s);
  }

  lemma {:induction false} ThreeOnTop(h: nat, t: nat, a: nat, b: nat)
    ensures Xor(Xor(Xor(h, t), a), b) == Xor(h, Xor(Xor(t, a), b))
  {
    XorAssoc(h, t, a);
    XorAssoc(h, Xor(t, a), b);
  }

  lemma {:induction false} SumFirst(p: nat, s: nat)
    requires p < 16 && s < 16
    ensures Xor(16 * p + s, 0x1000 * s) == 0x1000 * s + 16 * p + s
  {
    ShlValues(s);
    XorSymmetric(16 * p + s, 0x1000 * s);
    Disjoint(s, 16 * p + s, 12);
  }

  lemma {:induction false} SumSecond(p: nat, s: nat)
    requires p < 16 && s < 16
    ensures Xor(16 * p, 0x1001 * s) == 0x1000 * s + 16 * p + s
  {
    ShlValues(p);
    Disjoint(p, s, 4);
    ZeroLeft(s);
    TripleTop(0, s, s, 16 * p, s, 16 * p + s);
  }

  lemma {:induction false} SumThird(p: nat, s: nat)
    requires p < 16 && s < 16
    ensures Xor(0x200 * p, 0x20 * s) == 0x20 * (16 * p + s)
    ensures Xor(16 * p, 0x200 * p) == 0x210 * p
  {
    ShlValues(p);
    Disjoint(p, 0x20 * s, 9);
    XorSymmetric(16 * p, 0x200 * p);
    Disjoint(p, 16 * p, 9);
  }

  lemma {:induction false} SumFourth(s: nat)
    requires s < 16
    ensures Xor(0x1001 * s, 0x20 * s) == POLY * s
  {
    var none, low, both := 0, 0x20 * s, 0x21 * s;
    assert Xor(s, low) == both by {
      ShlValues(s);
      XorSymmetric(s, low);
      Disjoint(s, s, 5);
    }
    XorZero(s);
    TripleTop(s, none, s, s, low, both);
    assert 0x1001 * s == 0x1000 * s + s;
  }

  lemma {:induction false} NibbleSums(p: nat, s: nat)
    requires p < 16 && s < 16
    ensures Xor(Xor(16 * p + s, 0x1000 * s), 0x20 * (16 * p + s)) == Xor(0x210 * p, POLY * s)
  {
    SumFirst(p, s);
    SumSecond(p, s);
    SumThird(p, s);
    SumFourth(s);
    FourSwap(16 * p, 0x1001 * s, 0x200 * p, 0x20 * s);
  }

  /** All forms are the division. */
  lemma {:induction false} ShiftFormsDivide(crc: u16, b: u8)
    ensures PythonAdd(crc, b) == AddBits(crc, b) && LegacyAdd(crc, b) == AddBits(crc, b)
  {
    var x, l := Xor8(crc / 0x100, b), crc % 0x100;
    var p, q := x / 16, x % 16;
    FoldStep(crc, b, l, p, q);
    NibblesFolded(crc, b, l, p, q);
    PythonUnfold(l, p, q, Xor(p, q), 0x100 * l + 16 * p + q, 0x100 * l + 16 * p + Xor(p, q));
    LegacyUnfold(l, p, q, Xor(p, q), 0x100 * l + 16 * p + q, 0x100 * l + 16 * p + Xor(p, q));
  }

  lemma {:induction false} NibblesFolded(crc: u16, b: u8, l: u8, p: nat, q: nat)
    requires p < 16 && q < 16 && l == crc % 0x100 && Xor8(crc / 0x100, b) == 16 * p + q
    ensures Xor(p, q) < 16 && AddBits(crc, b) == Unfolded(l, p, Xor(p, q))
  {
    FoldedNibbles(p, q);
    UnfoldedSum(l, p, Xor(p, q));
    AddBitsFolded(crc, b);
    XorSymmetric(0x100 * l, Folded(16 * p + q));
  }

  // ---- The loops --------------------------------------------------------------------------------

  const INIT: u16 := 0xffff

  /** Crc_addByte: one byte through the table. */
  method AddByte(seed: u16, byte: u8) returns (crc: u16)
    ensures crc == AddBits(seed, byte)
  {
    AddBitsFolded(seed, byte);
    var index := Xor8(byte, seed / 0x100);
    XorSymmetric(byte, seed / 0x100);
    LutIsFolded(index);
    var low := seed * 0x100 % 0x1_0000;
    assert low == 0x100 * (seed % 0x100) by { ShiftedOut(seed / 0x100, seed % 0x100); }
    crc := Xor16(Lut(index), low);
  }

  lemma {:induction false} ShiftedOut(h: nat, l: u8)
    ensures (0x100 * h + l) * 0x100 % 0x1_0000 == 0x100 * l
  {
    assert (0x100 * h + l) * 0x100 == 0x1_0000 * h + 0x100 * l;
  }

  method FromBuffer(buf: array<u8>, len: nat) returns (crc: u16)
    requires len <= buf.Length
    ensures crc == Crc(INIT, buf[..len])
  {
    crc := INIT;
    for i := 0 to len
      invariant crc == Crc(INIT, buf[..i])
    {
      assert buf[..i + 1][..i] == buf[..i];
      crc := AddByte(crc, buf[i]);
    }
  }

  /** Crc_addByte in the form for 8-bit processors. */
  method AddByteLegacy(seed: u16, byte: u8) returns (crc: u16)
    ensures crc == AddBits(seed, byte)
  {
    ShiftFormsDivide(seed, byte);
    crc := LegacyAdd(seed, byte);
  }

  method FromBufferLegacy(buf: array<u8>, len: nat) returns (crc: u16)
    requires len <= buf.Length
    ensures crc == Crc(INIT, buf[..len])
  {
    crc := INIT;
    for i := 0 to len
      invariant crc == Crc(INIT, buf[..i])
    {
      assert buf[..i + 1][..i] == buf[..i];
      crc := AddByteLegacy(crc, buf[i]);
    }
  }

  /** crc16_ccitt(data, initial) */
  method Crc16Ccitt(data: seq<u8>, initial: u16) returns (crc: u16)
    ensures crc == Crc(initial, data)
  {
    crc := initial;
    for i := 0 to |data|
      invariant crc == Crc(initial, data[..i])
    {
      CrcSnoc(initial, data, i);
      ShiftFormsDivide(crc, data[i]);
      crc := PythonAdd(crc, data[i]);
    }
    assert data[..|data|] == data;
  }

  /** 32-bit words in memory, least significant byte first. */
  function WordsBytes(ws: seq<u32>): seq<u8>
  {
    if ws == [] then [] else WordsBytes(ws[..|ws| - 1]) + WordBytes(ws[|ws| - 1])
  }

  function WordBytes(w: u32): seq<u8>
  {
    [w % 0x100, w / 0x100 % 0x100, w / 0x1_0000 % 0x100, w / 0x100_0000]
  }

  lemma {:induction false} CrcFour(seed: u16, b0: u8, b1: u8, b2: u8, b3: u8, c1: u16, c2: u16, c3: u16, c4: u16)
    requires c1 == AddBits(seed, b0) && c2 == AddBits(c1, b1) && c3 == AddBits(c2, b2) && c4 == AddBits(c3, b3)
    ensures Crc(seed, [b0, b1, b2, b3]) == c4
  {
    var b := [b0, b1, b2, b3];
    assert b[..0] == [] && b[..4] == b;
    CrcSnoc(seed, b, 0);
    CrcSnoc(seed, b, 1);
    CrcSnoc(seed, b, 2);
    CrcSnoc(seed, b, 3);
  }

  /** The four bytes of a word, through the table. */
  method AddFour(seed: u16, b0: u8, b1: u8, b2: u8, b3: u8) returns (crc: u16)
    ensures crc == Crc(seed, [b0, b1, b2, b3])
  {
    var c1 := AddByte(seed, b0);
    var c2 := AddByte(c1, b1);
    var c3 := AddByte(c2, b2);
    crc := AddByte(c3, b3);
    CrcFour(seed, b0, b1, b2, b3, c1, c2, c3, crc);
  }

  method FromBuffer32(buf: array<u32>, len: nat) returns (crc: u16)
    requires len <= buf.Length
    ensures crc == Crc(INIT, WordsBytes(buf[..len]))
  {
    crc := INIT;
    for i := 0 to len
      invariant crc == Crc(INIT, WordsBytes(buf[..i]))
    {
      var val := buf[i];
      assert buf[..i + 1][..i] == buf[..i];
      CrcConcat(INIT, WordsBytes(buf[..i]), WordBytes(val));
      crc := AddFour(crc, val % 0x100, val / 0x100 % 0x100, val / 0x1_0000 % 0x100, val / 0x100_0000);
    }
  }

  method AddFourLegacy(seed: u16, b0: u8, b1: u8, b2: u8, b3: u8) returns (crc: u16)
    ensures crc == Crc(seed, [b0, b1, b2, b3])
  {
    var c1 := AddByteLegacy(seed, b0);
    var c2 := AddByteLegacy(c1, b1);
    var c3 := AddByteLegacy(c2, b2);
    crc := AddByteLegacy(c3, b3);
    CrcFour(seed, b0, b1, b2, b3, c1, c2, c3, crc);
  }

  method FromBuffer32Legacy(buf: array<u32>, len: nat) returns (crc: u16)
    requires len <= buf.Length
    ensures crc == Crc(INIT, WordsBytes(buf[..len]))
  {
    crc := INIT;
    for i := 0 to len
      invariant crc == Crc(INIT, WordsBytes(buf[..i]))
    {
      var val := buf[i];
      assert buf[..i + 1][..i] == buf[..i];
      CrcConcat(INIT, WordsBytes(buf[..i]), WordBytes(val));
      crc := AddFourLegacy(crc, val % 0x100, val / 0x100 % 0x100, val / 0x1_0000 % 0x100, val / 0x100_0000);
    }
  }

  // ---- The remainder of a text with its CRC -----------------------------------------------------

  /** The high byte of the register, added to it, leaves the low byte. */
  lemma {:induction false} TopCancels(h: u8, l: u8)
    ensures AddBits(0x100 * h + l, h) == 0x100 * l
  {
    AddBitsFolded(0x100 * h + l, h);
    ZeroLeft(h);
    XorCancel(0, h);
    FoldedNothing();
    ZeroLeft(0x100 * l);
  }

  lemma {:induction false} FoldedNothing()
    ensures Folded(0) == 0
  {
    StepsShift(0, 8);
  }

  /** A text followed by its CRC, high byte first, has the CRC zero, and no other two bytes make it so. */
  lemma {:induction false} ResidueIsZero(seed: u16, bs: seq<u8>, h: u8, l: u8)
    ensures Crc(seed, bs + [h, l]) == 0 <==> Crc(seed, bs) == 0x100 * h + l
  {
    var c: u16 := Crc(seed, bs);
    var ch, cl := c / 0x100, c % 0x100;
    CrcConcat(seed, bs, [h, l]);
    TwoBytes(c, h, l);
    if c == 0x100 * h + l {
      TopCancels(h, l);
      TopCancels(l, 0);
    } else {
      OnlyZero(c, h, l);
    }
  }

  lemma {:induction false} TwoBytes(c: u16, h: u8, l: u8)
    ensures Crc(c, [h, l]) == AddBits(AddBits(c, h), l)
  {
    OneByte(c, h);
    OneByte(Crc(c, [h]), l);
    CrcConcat(c, [h], [l]);
    assert [h] + [l] == [h, l];
  }

  lemma {:induction false} OneByte(c: u16, b: u8)
    ensures Crc(c, [b]) == AddBits(c, b)
  {
    assert [b][..0] == [];
  }

  /** A step can be undone, so that no other register is led to zero. */
  lemma {:induction false} BitStepOneToOne(a: u16, b: u16)
    requires BitStep(a) == BitStep(b)
    ensures a == b
  {
    var i, r, p := TopBit(a);
    var j, s, q := TopBit(b);
    LastBit(r, p);
    LastBit(s, q);
    assert i == j;
    XorCancel(2 * r, p);
    XorCancel(2 * s, q);
  }

  /** The polynomial is odd: the last bit tells whether it has been added. */
  lemma {:induction false} LastBit(r: nat, p: nat)
    requires p == 0 || p == POLY
    ensures Xor(2 * r, p) % 2 == if p == 0 then 0 else 1
  {
    if p == 0 { XorZero(2 * r); } else { XorBit(r, 0, 0x810, 1); }
  }

  lemma {:induction false} StepsOneToOne(a: u16, b: u16, n: nat)
    requires Steps(a, n) == Steps(b, n)
    ensures a == b
  {
    if n > 0 {
      BitStepOneToOne(Steps(a, n - 1), Steps(b, n - 1));
      StepsOneToOne(a, b, n - 1);
    }
  }

  lemma {:induction false} AddBitsOneToOne(a: u16, b: u16, x: u8)
    requires AddBits(a, x) == AddBits(b, x)
    ensures a == b
  {
    StepsOneToOne(Xor16(a, 0x100 * x), Xor16(b, 0x100 * x), 8);
    XorCancel(a, 0x100 * x);
    XorCancel(b, 0x100 * x);
  }

  lemma {:induction false} OnlyZero(c: u16, h: u8, l: u8)
    requires c != 0x100 * h + l
    ensures AddBits(AddBits(c, h), l) != 0
  {
    var d: u16 := 0x100 * h + l;
    TopCancels(h, l);
    TopCancels(l, 0);
    if AddBits(AddBits(c, h), l) == 0 {
      AddBitsOneToOne(AddBits(c, h), 0x100 * l, l);
      AddBitsOneToOne(c, d, h);
    }
  }

  /** The register starts with all bits set: two bytes of set bits clear it. */
  lemma {:induction false} StartsSet()
    ensures Crc(INIT, [0xff, 0xff]) == 0
  {
    var bs: seq<u8> := [];
    ResidueIsZero(INIT, bs, 0xff, 0xff);
    assert bs + [0xff, 0xff] == [0xff, 0xff];
  }
}
