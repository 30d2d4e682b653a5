/**
 What the message authentication code of section 2.4 of RFC 4493 is, byte by byte: three equations
 that determine it for every text, and what a change of one block does to it.
 */
module CmacLaws {
  import opened Bytes
  import opened Aes

  /** Byte `i` of the final block: the text, a one bit, then zeroes. */
  function FinalByte(m: seq<u8>, i: nat): u8
  {
    if i < |m| then m[i] else if i == |m| then 0x80 else 0
  }

  /** The final block, every byte masked: with the first subkey if the block is full, else with the second. */
  ghost predicate MaskedBytes(k1: Block, k2: Block, m: seq<u8>, x: Block) {
    forall i | 0 <= i < 16 :: x[i] == Xor8(FinalByte(m, i), if |m| == 16 then k1[i] else k2[i])
  }

  /** Every byte of `x` is the exclusive or of the bytes of `a` and `b`. */
  ghost predicate SumOfBytes(x: Block, a: Block, b: Block) {
    forall i | 0 <= i < 16 :: x[i] == Xor8(a[i], b[i])
  }

  lemma {:induction false} BytesMakeMasked(k1: Block, k2: Block, m: seq<u8>, x: Block)
    requires |m| <= 16 && MaskedBytes(k1, k2, m, x)
    ensures MaskedLast(k1, k2, m) == x
  {
    if |m| < 16 {
      var p := Pad(m);
      assert forall i | 0 <= i < 16 :: p[i] == FinalByte(m, i);
      BytesMakeSum(x, p, k2);
    } else {
      BytesMakeSum(x, m, k1);
    }
  }

  lemma {:induction false} BytesMakeSum(x: Block, a: Block, b: Block)
    requires SumOfBytes(x, a, b)
    ensures XorBlock(a, b) == x
  {
  }

  lemma {:induction false} AddNothing(a: Block)
    ensures XorBlock(a, ZERO_BLOCK) == a
  {
    forall i | 0 <= i < 16
      ensures a[i] == Xor8(a[i], ZERO_BLOCK[i])
    {
      XorZero(a[i]);
    }
    BytesMakeSum(a, a, ZERO_BLOCK);
  }

  lemma {:induction false} FirstChained(ecb: BlockCipher, key: Block, a: Block, m: seq<u8>)
    ensures Chain(ecb, key, a + m, 1) == ecb(key, a)
  {
    assert (a + m)[..16] == a && Chain(ecb, key, a + m, 0) == ZERO_BLOCK;
    AddNothing(a);
  }

  lemma {:induction false} BlockOf(p: seq<u8>, m: seq<u8>, q: nat, j: nat)
    requires |p| == 16 * q && 16 * j + 16 <= |m|
    ensures (p + m)[16 * (q + j)..16 * (q + j) + 16] == m[16 * j..16 * j + 16]
  {
  }

  /** What follows a prefix is chained the same, if the prefixes leave the same behind. */
  lemma {:induction false} ChainedAlike(ecb: BlockCipher, key: Block, p: seq<u8>, r: seq<u8>, m: seq<u8>,
                                        q: nat, s: nat, j: nat)
    requires |p| == 16 * q && |r| == 16 * s && 16 * j <= |m|
    requires Chain(ecb, key, p + m, q) == Chain(ecb, key, r + m, s)
    ensures Chain(ecb, key, p + m, q + j) == Chain(ecb, key, r + m, s + j)
  {
    if j > 0 {
      ChainedAlike(ecb, key, p, r, m, q, s, j - 1);
      BlockOf(p, m, q, j - 1);
      BlockOf(r, m, s, j - 1);
    }
  }

  /** The tag from what is left behind by a prefix of whole blocks. */
  lemma {:induction false} TagBehind(ecb: BlockCipher, key: Block, k1: Block, k2: Block, p: seq<u8>, m: seq<u8>,
                                     q: nat, j: nat)
    requires |p| == 16 * q && 16 * j < |m| <= 16 * j + 16
    ensures CmacWith(ecb, key, k1, k2, p + m)
         == ecb(key, XorBlock(MaskedLast(k1, k2, m[16 * j..]), Chain(ecb, key, p + m, q + j)))
  {
    BlocksBeforeLast(q + j, |p + m|);
    assert (p + m)[16 * (q + j)..|p + m|] == m[16 * j..];
  }

  lemma {:induction false} TagAlike(ecb: BlockCipher, key: Block, p: seq<u8>, r: seq<u8>, m: seq<u8>, q: nat, s: nat)
    requires |p| == 16 * q && |r| == 16 * s && m != []
    requires Chain(ecb, key, p + m, q) == Chain(ecb, key, r + m, s)
    ensures Cmac(ecb, key, p + m) == Cmac(ecb, key, r + m)
  {
    var j := (|m| - 1) / 16;
    var k1 := DoubleBlock(ecb(key, ZERO_BLOCK));
    ChainedAlike(ecb, key, p, r, m, q, s, j);
    TagBehind(ecb, key, k1, DoubleBlock(k1), p, m, q, j);
    TagBehind(ecb, key, k1, DoubleBlock(k1), r, m, s, j);
  }

  // ---- The three equations ----------------------------------------------------------------------

  /** A text of at most one block: the cipher's input is the final block, masked. */
  lemma {:induction false} OneBlock(ecb: BlockCipher, key: Block, k1: Block, k2: Block, m: seq<u8>, x: Block)
    requires 0 < |m| <= 16 && Subkeys(ecb, key, k1, k2) && MaskedBytes(k1, k2, m, x)
    ensures Cmac(ecb, key, m) == ecb(key, x)
  {
    CmacOfSubkeys(ecb, key, k1, k2, m);
    TagBehind(ecb, key, k1, k2, [], m, 0, 0);
    assert [] + m == m && m[0..] == m;
    BytesMakeMasked(k1, k2, m, x);
    AddNothing(x);
  }

  /** A block before the final one: its cipher text is added as well. */
  lemma {:induction false} TwoBlocks(ecb: BlockCipher, key: Block, k1: Block, k2: Block, a: Block, m: seq<u8>,
                                     x: Block, y: Block)
    requires 0 < |m| <= 16 && Subkeys(ecb, key, k1, k2)
    requires MaskedBytes(k1, k2, m, x) && SumOfBytes(y, x, ecb(key, a))
    ensures Cmac(ecb, key, a + m) == ecb(key, y)
  {
    CmacOfSubkeys(ecb, key, k1, k2, a + m);
    TagBehind(ecb, key, k1, k2, a, m, 1, 0);
    FirstChained(ecb, key, a, m);
    assert m[0..] == m;
    BytesMakeMasked(k1, k2, m, x);
    BytesMakeSum(y, x, ecb(key, a));
  }

  /** Two blocks before the final one count as one: the second with the cipher text of the first added. */
  lemma {:induction false} Absorbed(ecb: BlockCipher, key: Block, a: Block, b: Block, m: seq<u8>, x: Block)
    requires m != [] && SumOfBytes(x, b, ecb(key, a))
    ensures Cmac(ecb, key, a + b + m) == Cmac(ecb, key, x + m)
  {
    FirstChained(ecb, key, a, b + m);
    Assoc(a, b, m);
    assert (a + b + m)[16..32] == b;
    BytesMakeSum(x, b, ecb(key, a));
    assert Chain(ecb, key, a + b + m, 2) == ecb(key, x);
    FirstChained(ecb, key, x, m);
    TagAlike(ecb, key, a + b, x, m, 2, 1);
  }

  // ---- Every block counts -----------------------------------------------------------------------

  function Enciphered(ecb: BlockCipher, key: Block, x: Block): Block { ecb(key, x) }

  /** The cipher can be undone. */
  ghost predicate Injective(ecb: BlockCipher, key: Block) {
    forall x: Block, y: Block :: Enciphered(ecb, key, x) == Enciphered(ecb, key, y) ==> x == y
  }

  lemma {:induction false} CipherDiffers(ecb: BlockCipher, key: Block, x: Block, y: Block)
    requires Injective(ecb, key) && x != y
    ensures ecb(key, x) != ecb(key, y)
  {
    assert Enciphered(ecb, key, x) != Enciphered(ecb, key, y);
  }

  lemma {:induction false} SumsDiffer(a: Block, b: Block, c: Block)
    requires a != b
    ensures XorBlock(a, c) != XorBlock(b, c) && XorBlock(c, a) != XorBlock(c, b)
  {
    var i :| 0 <= i < 16 && a[i] != b[i];
    BytesDiffer(a[i], b[i], c[i]);
    assert XorBlock(a, c)[i] == Xor8(a[i], c[i]) && XorBlock(b, c)[i] == Xor8(b[i], c[i]);
    assert XorBlock(c, a)[i] == Xor8(c[i], a[i]) && XorBlock(c, b)[i] == Xor8(c[i], b[i]);
  }

  lemma {:induction false} BytesDiffer(x: u8, y: u8, c: u8)
    requires x != y
    ensures Xor8(x, c) != Xor8(y, c) && Xor8(c, x) != Xor8(c, y)
  {
    XorCancel(x, c);
    XorCancel(y, c);
    XorSymmetric(x, c);
    XorSymmetric(y, c);
  }

  lemma {:induction false} StepsDiffer(ecb: BlockCipher, key: Block, x: Block, y: Block, c: Block, d: Block)
    requires Injective(ecb, key) && ((x != y && c == d) || (x == y && c != d))
    ensures ecb(key, XorBlock(x, c)) != ecb(key, XorBlock(y, d))
  {
    if x != y { SumsDiffer(x, y, c); } else { SumsDiffer(c, d, x); }
    CipherDiffers(ecb, key, XorBlock(x, c), XorBlock(y, d));
  }

  function FirstSubkey(ecb: BlockCipher, key: Block): Block { DoubleBlock(ecb(key, ZERO_BLOCK)) }

  /** The final block as the key masks it. */
  function Masked(ecb: BlockCipher, key: Block, last: seq<u8>): Block
    requires |last| <= 16
  {
    MaskedLast(FirstSubkey(ecb, key), DoubleBlock(FirstSubkey(ecb, key)), last)
  }

  lemma {:induction false} CmacBehind(ecb: BlockCipher, key: Block, p: seq<u8>, m: seq<u8>, q: nat, j: nat)
    requires |p| == 16 * q && 16 * j < |m| <= 16 * j + 16
    ensures Cmac(ecb, key, p + m)
         == ecb(key, XorBlock(Masked(ecb, key, m[16 * j..]), Chain(ecb, key, p + m, q + j)))
  {
    TagBehind(ecb, key, FirstSubkey(ecb, key), DoubleBlock(FirstSubkey(ecb, key)), p, m, q, j);
  }

  /** A difference that is left behind by a prefix is never chained away. */
  lemma {:induction false} ChainsDiffer(ecb: BlockCipher, key: Block, p: seq<u8>, r: seq<u8>, m: seq<u8>, q: nat,
                                        j: nat)
    requires Injective(ecb, key) && |p| == |r| == 16 * q && 16 * j <= |m|
    requires Chain(ecb, key, p + m, q) != Chain(ecb, key, r + m, q)
    ensures Chain(ecb, key, p + m, q + j) != Chain(ecb, key, r + m, q + j)
  {
    if j > 0 {
      ChainsDiffer(ecb, key, p, r, m, q, j - 1);
      BlockOf(p, m, q, j - 1);
      BlockOf(r, m, q, j - 1);
      var block := m[16 * (j - 1)..16 * (j - 1) + 16];
      var x, y := Chain(ecb, key, p + m, q + j - 1), Chain(ecb, key, r + m, q + j - 1);
      StepsDiffer(ecb, key, block, block, x, y);
    }
  }

  lemma {:induction false} TagsDiffer(ecb: BlockCipher, key: Block, p: seq<u8>, r: seq<u8>, m: seq<u8>, q: nat, j: nat)
    requires Injective(ecb, key) && |p| == |r| == 16 * q && 16 * j < |m| <= 16 * j + 16
    requires Chain(ecb, key, p + m, q) != Chain(ecb, key, r + m, q)
    ensures Cmac(ecb, key, p + m) != Cmac(ecb, key, r + m)
  {
    ChainsDiffer(ecb, key, p, r, m, q, j);
    CmacBehind(ecb, key, p, m, q, j);
    CmacBehind(ecb, key, r, m, q, j);
    var last := Masked(ecb, key, m[16 * j..]);
    StepsDiffer(ecb, key, last, last, Chain(ecb, key, p + m, q + j), Chain(ecb, key, r + m, q + j));
  }

  /** Texts that differ in one block before the last, and nowhere else, have different codes. */
  lemma {:induction false} BlocksCount(ecb: BlockCipher, key: Block, p: seq<u8>, a: Block, b: Block, m: seq<u8>, q: nat)
    requires Injective(ecb, key) && |p| == 16 * q && a != b && m != []
    ensures Cmac(ecb, key, p + a + m) != Cmac(ecb, key, p + b + m)
  {
    OneDiffers(ecb, key, p, a, b, m, q);
    TagsDiffer(ecb, key, p + a, p + b, m, q + 1, (|m| - 1) / 16);
  }

  lemma {:induction false} OneDiffers(ecb: BlockCipher, key: Block, p: seq<u8>, a: Block, b: Block, m: seq<u8>, q: nat)
    requires Injective(ecb, key) && |p| == 16 * q && a != b
    ensures Chain(ecb, key, p + a + m, q + 1) != Chain(ecb, key, p + b + m, q + 1)
  {
    Assoc(p, a, m);
    Assoc(p, b, m);
    assert (p + a + m)[16 * q..16 * q + 16] == a && (p + b + m)[16 * q..16 * q + 16] == b;
    ChainPrefix(ecb, key, p, a + m, q);
    ChainPrefix(ecb, key, p, b + m, q);
    StepsDiffer(ecb, key, a, b, Chain(ecb, key, p, q), Chain(ecb, key, p, q));
  }

  lemma {:induction false} ChainPrefix(ecb: BlockCipher, key: Block, p: seq<u8>, m: seq<u8>, q: nat)
    requires 16 * q <= |p|
    ensures Chain(ecb, key, p + m, q) == Chain(ecb, key, p, q)
  {
    if q > 0 {
      ChainPrefix(ecb, key, p, m, q - 1);
      assert (p + m)[16 * q - 16..16 * q] == p[16 * q - 16..16 * q];
    }
  }

  /** And so have texts that differ in the last block, if it is as long in both. */
  lemma {:induction false} LastCounts(ecb: BlockCipher, key: Block, p: seq<u8>, m: seq<u8>, n: seq<u8>, q: nat)
    requires Injective(ecb, key) && |p| == 16 * q && 0 < |m| == |n| <= 16 && m != n
    ensures Cmac(ecb, key, p + m) != Cmac(ecb, key, p + n)
  {
    LastTag(ecb, key, p, m, q);
    LastTag(ecb, key, p, n, q);
    MasksDiffer(FirstSubkey(ecb, key), DoubleBlock(FirstSubkey(ecb, key)), m, n);
    StepsDiffer(ecb, key, Masked(ecb, key, m), Masked(ecb, key, n), Chain(ecb, key, p, q), Chain(ecb, key, p, q));
  }

  lemma {:induction false} LastTag(ecb: BlockCipher, key: Block, p: seq<u8>, m: seq<u8>, q: nat)
    requires |p| == 16 * q && 0 < |m| <= 16
    ensures Cmac(ecb, key, p + m) == ecb(key, XorBlock(Masked(ecb, key, m), Chain(ecb, key, p, q)))
  {
    CmacBehind(ecb, key, p, m, q, 0);
    assert m[0..] == m;
    ChainPrefix(ecb, key, p, m, q);
  }

  lemma {:induction false} MasksDiffer(k1: Block, k2: Block, m: seq<u8>, n: seq<u8>)
    requires |m| == |n| <= 16 && m != n
    ensures MaskedLast(k1, k2, m) != MaskedLast(k1, k2, n)
  {
    if |m| == 16 {
      SumsDiffer(m, n, k1);
    } else {
      var i :| 0 <= i < |m| && m[i] != n[i];
      assert Pad(m)[i] == m[i] && Pad(n)[i] == n[i];
      SumsDiffer(Pad(m), Pad(n), k2);
    }
  }
}
