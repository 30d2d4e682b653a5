/**
 Bytes, machine words and exclusive-or over the naturals.

 Machine integers are mathematical integers with an explicit range; every wrap-around
 is written out with `%`. Exclusive-or is defined bit by bit on naturals, so that it also
 serves as addition of polynomials over GF(2).
 */
module Bytes {

  type u8 = x: int | 0 <= x < 0x100
  type u16 = x: int | 0 <= x < 0x1_0000
  type u32 = x: int | 0 <= x < 0x1_0000_0000

  function Min(a: int, b: int): int { if a < b then a else b }

  lemma Assoc<T>(a: seq<T>, b: seq<T>, c: seq<T>)
    ensures a + (b + c) == a + b + c
  {
  }

  lemma SliceSlice<T>(w: seq<T>, p: nat, q: nat, i: nat, j: nat)
    requires p <= q <= |w| && i <= j <= q - p
    ensures w[p..q][i..j] == w[p + i..p + j]
  {
    var s := w[p..q];
    assert forall k | i <= k < j :: s[k] == w[p + k];
  }

  function Pow2(n: nat): (p: nat)
    ensures p >= 1
  {
    if n == 0 then 1 else 2 * Pow2(n - 1)
  }

  lemma Pow2Byte()
    ensures Pow2(4) == 0x10 && Pow2(8) == 0x100
  {
    assert Pow2(2) == 4;
    assert Pow2(4) == 16;
    assert Pow2(6) == 64;
  }

  // ---- Exclusive or ------------------------------------------------------------------

  function XorBits(i: nat, j: nat): (k: nat)
    ensures k < 2
  {
    if i == j then 0 else 1
  }

  function Xor(a: nat, b: nat): nat
    decreases a + b
  {
    if a == 0 && b == 0 then 0 else XorBits(a % 2, b % 2) + 2 * Xor(a / 2, b / 2)
  }

  lemma {:induction false} XorBound(a: nat, b: nat, k: nat)
    requires a < Pow2(k) && b < Pow2(k)
    ensures Xor(a, b) < Pow2(k)
    decreases k
  {
    if k > 0 {
      XorBound(a / 2, b / 2, k - 1);
    }
  }

  lemma {:induction false} XorSymmetric(a: nat, b: nat)
    ensures Xor(a, b) == Xor(b, a)
    decreases a + b
  {
    if a != 0 || b != 0 {
      XorSymmetric(a / 2, b / 2);
    }
  }

  lemma XorBit(a: nat, i: nat, b: nat, j: nat)
    requires i < 2 && j < 2
    ensures Xor(2 * a + i, 2 * b + j) == 2 * Xor(a, b) + XorBits(i, j)
  {
    var x, y := 2 * a + i, 2 * b + j;
    assert x / 2 == a && y / 2 == b && x % 2 == i && y % 2 == j;
  }

  ghost predicate Cancels(a: nat, b: nat) {
    Xor(Xor(a, b), b) == a
  }

  lemma CancelsDoubled(a: nat, i: nat, b: nat, j: nat)
    requires i < 2 && j < 2 && Cancels(a, b)
    ensures Cancels(2 * a + i, 2 * b + j)
  {
    var x, k := Xor(a, b), XorBits(i, j);
    XorBit(a, i, b, j);
    XorBit(x, k, b, j);
  }

  /** Adding the same value twice takes it away again. */
  lemma {:induction false} XorCancel(a: nat, b: nat)
    ensures Cancels(a, b)
    decreases a + b
  {
    if a != 0 || b != 0 {
      XorCancel(a / 2, b / 2);
      CancelsDoubled(a / 2, a % 2, b / 2, b % 2);
    }
  }

  lemma {:induction false} XorZero(a: nat)
    ensures Xor(a, 0) == a
    decreases a
  {
    if a > 0 {
      XorZero(a / 2);
      XorBit(a / 2, a % 2, 0, 0);
    }
  }

  /** `h` shifted left by `k` bits. */
  function Shl(h: nat, k: nat): nat
  {
    if k == 0 then h else 2 * Shl(h, k - 1)
  }

  /** The high parts `x`, `y`, with exclusive or `w`, do not interfere with `a` and `b`. */
  ghost predicate Separate(x: nat, y: nat, w: nat, a: nat, b: nat) {
    Xor(x + a, y + b) == w + Xor(a, b)
  }

  lemma XorDoubled(u: nat, a: nat, i: nat, v: nat, b: nat, j: nat, w: nat)
    requires i < 2 && j < 2
    requires Separate(u, v, w, a, b)
    ensures Separate(2 * u, 2 * v, 2 * w, 2 * a + i, 2 * b + j)
  {
    XorBit(u + a, i, v + b, j);
    XorBit(a, i, b, j);
    assert 2 * (u + a) + i == 2 * u + (2 * a + i) && 2 * (v + b) + j == 2 * v + (2 * b + j);
  }

  lemma Halve(x: nat, k: nat) returns (half: nat, bit: nat)
    requires k > 0 && x < Pow2(k)
    ensures x == 2 * half + bit && bit < 2 && half < Pow2(k - 1)
  {
    half, bit := x / 2, x % 2;
  }

  /** Exclusive or works on the `k` last bits and on the rest separately. */
  lemma {:induction false} XorSplit(hiA: nat, loA: nat, hiB: nat, loB: nat, k: nat, w: nat)
    requires loA < Pow2(k) && loB < Pow2(k)
    requires w == Xor(hiA, hiB)
    ensures Separate(Shl(hiA, k), Shl(hiB, k), Shl(w, k), loA, loB)
    decreases k
  {
    if k > 0 {
      var a, i := Halve(loA, k);
      var b, j := Halve(loB, k);
      XorSplit(hiA, a, hiB, b, k - 1, w);
      XorDoubled(Shl(hiA, k - 1), a, i, Shl(hiB, k - 1), b, j, Shl(w, k - 1));
      var x, y, z := Shl(hiA, k), Shl(hiB, k), Shl(w, k);
      assert x == 2 * Shl(hiA, k - 1);
      assert y == 2 * Shl(hiB, k - 1);
      assert z == 2 * Shl(w, k - 1);
    }
  }

  lemma ShlByte(h: nat)
    ensures Shl(h, 8) == 0x100 * h
  {
    assert Shl(h, 1) == 2 * h;
    assert Shl(h, 2) == 4 * h;
    assert Shl(h, 4) == 16 * h by { assert Shl(h, 3) == 8 * h; }
    assert Shl(h, 6) == 64 * h by { assert Shl(h, 5) == 32 * h; }
    assert Shl(h, 7) == 128 * h;
  }

  lemma XorLastByte(hiA: nat, loA: u8, hiB: nat, loB: u8)
    ensures Separate(0x100 * hiA, 0x100 * hiB, 0x100 * Xor(hiA, hiB), loA, loB)
  {
    Pow2Byte();
    var w := Xor(hiA, hiB);
    XorSplit(hiA, loA, hiB, loB, 8, w);
    ShlByte(hiA);
    ShlByte(hiB);
    ShlByte(w);
  }

  function Xor8(a: u8, b: u8): u8
  {
    Pow2Byte();
    XorBound(a, b, 8);
    Xor(a, b)
  }

  // ---- Inclusive or -------------------------------------------------------------------

  function OrBits(i: nat, j: nat): (k: nat)
    ensures k < 2
  {
    if i == 0 && j == 0 then 0 else 1
  }

  function Or(a: nat, b: nat): nat
    decreases a + b
  {
    if a == 0 && b == 0 then 0 else OrBits(a % 2, b % 2) + 2 * Or(a / 2, b / 2)
  }

  predicate NoCommonBit(a: nat, b: nat)
    decreases a + b
  {
    a == 0 || b == 0 || (!(a % 2 == 1 && b % 2 == 1) && NoCommonBit(a / 2, b / 2))
  }

  /** Inclusive or is a sum exactly if no bit is set in both. */
  lemma {:induction false} OrIsSum(a: nat, b: nat)
    ensures Or(a, b) == a + b <==> NoCommonBit(a, b)
    ensures Or(a, b) <= a + b
    decreases a + b
  {
    if a != 0 || b != 0 {
      OrIsSum(a / 2, b / 2);
    }
  }

  /** Nothing is lost when the high and the low part are put together. */
  ghost predicate OrAdds(a: nat, b: nat) {
    Or(a, b) == a + b
  }

  lemma OrDoubled(a: nat, b: nat, j: nat)
    requires j < 2 && OrAdds(a, b)
    ensures OrAdds(2 * a, 2 * b + j)
  {
    var x, y := 2 * a, 2 * b + j;
    assert x / 2 == a && y / 2 == b && x % 2 == 0 && y % 2 == j;
  }

  lemma {:induction false} OrZero(a: nat)
    ensures OrAdds(a, 0)
  {
    if a > 0 {
      OrZero(a / 2);
    }
  }

  lemma {:induction false} OrLow(h: nat, b: nat, k: nat)
    requires b < Pow2(k)
    ensures OrAdds(Shl(h, k), b)
    decreases k
  {
    if k == 0 {
      OrZero(h);
    } else {
      var half, bit := Halve(b, k);
      OrLow(h, half, k - 1);
      OrDoubled(Shl(h, k - 1), half, bit);
      var x := Shl(h, k);
      assert x == 2 * Shl(h, k - 1);
    }
  }

  lemma {:induction false} ShlTwice(h: nat, j: nat, k: nat)
    ensures Shl(Shl(h, j), k) == Shl(h, j + k)
    decreases k
  {
    if k > 0 {
      ShlTwice(h, j, k - 1);
    }
  }

  /** A 16-bit value fits below a multiple of 2^16. */
  lemma OrLow16(h: nat, b: u16)
    ensures Or(0x1_0000 * h, b) == 0x1_0000 * h + b
  {
    ShlByte(h);
    ShlByte(0x100 * h);
    ShlTwice(h, 8, 8);
    Pow2Byte();
    assert Pow2(16) == 0x1_0000 by {
      assert Pow2(10) == 4 * Pow2(8);
      assert Pow2(12) == 4 * Pow2(10);
      assert Pow2(14) == 4 * Pow2(12);
    }
    OrLow(h, b, 16);
    assert OrAdds(0x1_0000 * h, b);
  }

  // ---- Byte strings as numbers --------------------------------------------------------

  /** Value of a byte string, least significant byte first. */
  function LeVal(bs: seq<u8>): nat
  {
    if bs == [] then 0 else bs[0] + 0x100 * LeVal(bs[1..])
  }

  /** The `n` least significant bytes of `v`, least significant byte first. */
  function LeBytes(v: nat, n: nat): (bs: seq<u8>)
    ensures |bs| == n
  {
    if n == 0 then [] else [v % 0x100] + LeBytes(v / 0x100, n - 1)
  }

  function Pow256(n: nat): (p: nat)
    ensures p >= 1
  {
    if n == 0 then 1 else 0x100 * Pow256(n - 1)
  }

  lemma Pow256Values()
    ensures Pow256(1) == 0x100
    ensures Pow256(4) == 0x1_0000_0000
    ensures Pow256(16) == 0x1_0000_0000_0000_0000_0000_0000_0000_0000
  {
    assert Pow256(2) == 0x1_0000;
    assert Pow256(4) == 0x1_0000_0000;
    assert Pow256(8) == 0x1_0000_0000_0000_0000 by {
      assert Pow256(6) == 0x1_0000_0000_0000;
    }
    assert Pow256(10) == 0x1_0000_0000_0000_0000_0000;
    assert Pow256(12) == 0x1_0000_0000_0000_0000_0000_0000;
    assert Pow256(14) == 0x1_0000_0000_0000_0000_0000_0000_0000;
  }

  lemma {:induction false} LeValBound(bs: seq<u8>)
    ensures LeVal(bs) < Pow256(|bs|)
  {
    if bs != [] {
      LeValBound(bs[1..]);
    }
  }

  /** Reading back the bytes of a string's value gives the string. */
  lemma {:induction false} LeBytesOfVal(bs: seq<u8>)
    ensures LeBytes(LeVal(bs), |bs|) == bs
  {
    if bs != [] {
      LeBytesOfVal(bs[1..]);
      assert LeVal(bs) / 0x100 == LeVal(bs[1..]);
    }
  }

  lemma {:induction false} LeValOfBytes(v: nat, n: nat)
    requires v < Pow256(n)
    ensures LeVal(LeBytes(v, n)) == v
  {
    if n > 0 {
      LeValOfBytes(v / 0x100, n - 1);
      assert LeBytes(v, n)[1..] == LeBytes(v / 0x100, n - 1);
    }
  }

  lemma ScaleProduct(p: nat, v: nat)
    ensures 0x100 * (p * v) == (0x100 * p) * v
  {
  }

  lemma {:induction false} LeValConcat(a: seq<u8>, b: seq<u8>)
    ensures LeVal(a + b) == LeVal(a) + Pow256(|a|) * LeVal(b)
  {
    if a == [] {
      assert a + b == b;
    } else {
      LeValConcat(a[1..], b);
      assert (a + b)[1..] == a[1..] + b;
      assert (a + b)[0] == a[0];
      ScaleProduct(Pow256(|a| - 1), LeVal(b));
    }
  }

  /** Value of a byte string, most significant byte first. */
  function BeVal(bs: seq<u8>): nat
  {
    if bs == [] then 0 else BeVal(bs[..|bs| - 1]) * 0x100 + bs[|bs| - 1]
  }

  lemma {:induction false} BeValBound(bs: seq<u8>)
    ensures BeVal(bs) < Pow256(|bs|)
  {
    if bs != [] {
      BeValBound(bs[..|bs| - 1]);
    }
  }

  /** The `n` least significant bytes of `v`, most significant byte first. */
  function BeBytes(v: nat, n: nat): (bs: seq<u8>)
    ensures |bs| == n
  {
    if n == 0 then [] else BeBytes(v / 0x100, n - 1) + [v % 0x100]
  }

  lemma {:induction false} BeValOfBytes(v: nat, n: nat)
    requires v < Pow256(n)
    ensures BeVal(BeBytes(v, n)) == v
  {
    if n > 0 {
      BeValOfBytes(v / 0x100, n - 1);
      assert BeBytes(v, n)[..n - 1] == BeBytes(v / 0x100, n - 1);
    }
  }
}
