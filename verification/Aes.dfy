/**
 AES modes of operation (util/aessw.c) over an arbitrary block cipher: counter mode and
 OMAC1, that is, CMAC.

 The specification part gives counter mode by the position of each byte and CMAC as
 sections 2.3 and 2.4 of RFC 4493 define it; `AesStream` and `Omac1State` are the two C
 structures with the functions that update them.
 */
module Aes {
  import opened Bytes

  type Block = b: seq<u8> | |b| == 16 witness [0, 0, 0, 0, 0, 0, 0, 0, 0, 0, 0, 0, 0, 0, 0, 0]

  /** A block cipher: key, then plaintext block. */
  type BlockCipher = (Block, Block) -> Block

  const ZERO_BLOCK: Block := seq(16, _ => 0)

  const WORD := 0x1_0000_0000
  const TWO_128 := 0x1_0000_0000_0000_0000_0000_0000_0000_0000

  function XorBlock(a: Block, b: Block): (r: Block)
  {
    seq(16, i requires 0 <= i < 16 => Xor8(a[i], b[i]))
  }

  // ---- Counter blocks -------------------------------------------------------------------

  /** The next counter block: the 128-bit increment, least significant byte first. */
  function Inc(b: Block): Block
  {
    var v := LeVal(b) + 1;
    LeBytes(if v == TWO_128 then 0 else v, 16)
  }

  /** The counter block `n` steps after `b`. */
  function CounterBlock(b: Block, n: nat): Block
  {
    if n == 0 then b else Inc(CounterBlock(b, n - 1))
  }

  lemma {:induction false} CounterBlockAdd(b: Block, m: nat, n: nat)
    ensures CounterBlock(CounterBlock(b, m), n) == CounterBlock(b, m + n)
  {
    if n > 0 {
      CounterBlockAdd(b, m, n - 1);
    }
  }

  lemma IncValue(b: Block)
    ensures LeVal(b) < TWO_128
    ensures LeVal(Inc(b)) == if LeVal(b) + 1 == TWO_128 then 0 else LeVal(b) + 1
  {
    Pow256Values();
    LeValBound(b);
    var v := LeVal(b) + 1;
    LeValOfBytes(if v == TWO_128 then 0 else v, 16);
  }

  lemma {:induction false} IncMod(b: Block, x: nat)
    requires LeVal(b) == x % TWO_128
    ensures LeVal(Inc(b)) == (x + 1) % TWO_128
  {
    IncValue(b);
    ModStep(x, LeVal(b));
  }

  lemma {:induction false} SmallMod(x: nat)
    requires x < TWO_128
    ensures x % TWO_128 == x
  {
  }

  /** In numbers: counting adds modulo 2^128. */
  lemma {:induction false} CounterBlockValue(b: Block, n: nat)
    ensures LeVal(CounterBlock(b, n)) == (LeVal(b) + n) % TWO_128
  {
    if n == 0 {
      IncValue(b);
      SmallMod(LeVal(b));
    } else {
      CounterBlockValue(b, n - 1);
      IncMod(CounterBlock(b, n - 1), LeVal(b) + (n - 1));
    }
  }

  lemma ModStep(x: nat, r: nat)
    requires r == x % TWO_128
    ensures (x + 1) % TWO_128 == if r + 1 == TWO_128 then 0 else r + 1
  {
  }

  /** A block is determined by its value. */
  lemma BlockFromValue(r: Block, s: Block)
    requires LeVal(r) == LeVal(s)
    ensures r == s
  {
    LeBytesOfVal(r);
    LeBytesOfVal(s);
  }

  /** The `j`-th 32-bit word of a block in memory. */
  function WordAt(b: Block, j: nat): (w: u32)
    requires j < 4
  {
    var b0: int, b1: int, b2: int, b3: int := b[4 * j], b[4 * j + 1], b[4 * j + 2], b[4 * j + 3];
    b0 + 0x100 * b1 + 0x1_0000 * b2 + 0x100_0000 * b3
  }

  function WithWord(b: Block, j: nat, w: u32): Block
    requires j < 4
  {
    b[..4 * j] + [w % 0x100, w / 0x100 % 0x100, w / 0x1_0000 % 0x100, w / 0x100_0000] + b[4 * j + 4..]
  }

  /** A byte taken off the end of a number, and one more. */
  lemma ByteOff(w: nat, unit: nat)
    requires unit > 0
    ensures w / unit == w / unit % 0x100 + 0x100 * (w / unit / 0x100)
  {
  }

  lemma DivideTwice(w: nat)
    ensures w / 0x100 / 0x100 == w / 0x1_0000 && w / 0x1_0000 / 0x100 == w / 0x100_0000
  {
  }

  lemma {:induction false} WordBytes(w: u32)
    ensures w % 0x100 + 0x100 * (w / 0x100 % 0x100) + 0x1_0000 * (w / 0x1_0000 % 0x100)
            + 0x100_0000 * (w / 0x100_0000) == w
  {
    ByteOff(w, 1);
    ByteOff(w, 0x100);
    ByteOff(w, 0x1_0000);
    DivideTwice(w);
  }

  lemma WithWordAt(b: Block, j: nat, w: u32)
    requires j < 4
    ensures forall i | 0 <= i < 4 :: WordAt(WithWord(b, j, w), i) == if i == j then w else WordAt(b, i)
  {
    var r := WithWord(b, j, w);
    assert WordAt(r, j) == w by {
      var m := 4 * j;
      assert r[m] == w % 0x100 && r[m + 1] == w / 0x100 % 0x100;
      assert r[m + 2] == w / 0x1_0000 % 0x100 && r[m + 3] == w / 0x100_0000;
      WordBytes(w);
    }
    forall i | 0 <= i < 4 && i != j
      ensures WordAt(r, i) == WordAt(b, i)
    {
      var m := 4 * i;
      assert r[m] == b[m] && r[m + 1] == b[m + 1] && r[m + 2] == b[m + 2] && r[m + 3] == b[m + 3];
    }
  }

  lemma WordValue(b: Block, j: nat)
    requires j < 4
    ensures LeVal(b[4 * j..4 * j + 4]) == WordAt(b, j)
  {
    var s := b[4 * j..4 * j + 4];
    assert LeVal(s[3..]) == s[3] + 0x100 * LeVal(s[4..]) by { assert s[3..][1..] == s[4..]; }
    assert LeVal(s[2..]) == s[2] + 0x100 * LeVal(s[3..]) by { assert s[2..][1..] == s[3..]; }
    assert LeVal(s[1..]) == s[1] + 0x100 * LeVal(s[2..]) by { assert s[1..][1..] == s[2..]; }
    assert LeVal(s) == s[0] + 0x100 * LeVal(s[1..]);
  }

  lemma TailValue(b: Block, j: nat)
    requires j < 4
    ensures LeVal(b[4 * j..]) == WordAt(b, j) + WORD * LeVal(b[4 * j + 4..])
  {
    Pow256Values();
    WordValue(b, j);
    LeValConcat(b[4 * j..4 * j + 4], b[4 * j + 4..]);
    assert b[4 * j..] == b[4 * j..4 * j + 4] + b[4 * j + 4..];
  }

  lemma BlockValue(b: Block)
    ensures LeVal(b) == WordsVal(WordAt(b, 0), WordAt(b, 1), WordAt(b, 2), WordAt(b, 3))
  {
    TailValue(b, 0);
    TailValue(b, 1);
    TailValue(b, 2);
    TailValue(b, 3);
    assert b[0..] == b;
  }

  /** The carry out of a word when `c` is added to it. */
  function Carry(w: u32, c: u32): u32
  {
    if w + c >= WORD then 1 else 0
  }

  /** Addition modulo 2^32. */
  function AddWord(w: u32, c: u32): u32
  {
    if w + c >= WORD then w + c - WORD else w + c
  }

  function WordsVal(w0: u32, w1: u32, w2: u32, w3: u32): nat
  {
    w0 + WORD * (w1 + WORD * (w2 + WORD * w3))
  }

  lemma CarryValue(w0: u32, w1: u32, w2: u32, w3: u32, n: u32)
    ensures var c1 := Carry(w0, n);
            var c2 := Carry(w1, c1);
            var c3 := Carry(w2, c2);
            var sum := WordsVal(w0, w1, w2, w3) + n;
            WordsVal(AddWord(w0, n), AddWord(w1, c1), AddWord(w2, c2), AddWord(w3, c3))
            == if sum >= TWO_128 then sum - TWO_128 else sum
  {
    var c1 := Carry(w0, n);
    var c2 := Carry(w1, c1);
    var c3 := Carry(w2, c2);
    var c4 := Carry(w3, c3);
    assert WordsVal(AddWord(w0, n), AddWord(w1, c1), AddWord(w2, c2), AddWord(w3, c3)) + TWO_128 * c4
        == WordsVal(w0, w1, w2, w3) + n;
  }

  /** Adding `n` to the first word and passing the carry along moves the counter on by `n`. */
  lemma CarryChain(b: Block, r: Block, n: u32)
    requires WordAt(r, 0) == AddWord(WordAt(b, 0), n)
    requires var c1 := Carry(WordAt(b, 0), n);
             var c2 := Carry(WordAt(b, 1), c1);
             var c3 := Carry(WordAt(b, 2), c2);
             && WordAt(r, 1) == AddWord(WordAt(b, 1), c1)
             && WordAt(r, 2) == AddWord(WordAt(b, 2), c2)
             && WordAt(r, 3) == AddWord(WordAt(b, 3), c3)
    ensures LeVal(r) == if LeVal(b) + n >= TWO_128 then LeVal(b) + n - TWO_128 else LeVal(b) + n
  {
    BlockValue(b);
    BlockValue(r);
    CarryValue(WordAt(b, 0), WordAt(b, 1), WordAt(b, 2), WordAt(b, 3), n);
  }

  // ---- Counter mode -----------------------------------------------------------------------

  /** Byte `i` of the key stream that starts at counter block `iv`. */
  function Keystream(ecb: BlockCipher, key: Block, iv: Block, i: nat): u8
  {
    ecb(key, CounterBlock(iv, i / 16))[i % 16]
  }

  /** Counter mode, section 6.5 of NIST SP 800-38A. */
  function Ctr(ecb: BlockCipher, key: Block, iv: Block, text: seq<u8>): (r: seq<u8>)
    ensures |r| == |text|
  {
    seq(|text|, i requires 0 <= i < |text| => Xor8(text[i], Keystream(ecb, key, iv, i)))
  }

  /** Decryption is encryption again. */
  lemma CtrInvolution(ecb: BlockCipher, key: Block, iv: Block, text: seq<u8>)
    ensures Ctr(ecb, key, iv, Ctr(ecb, key, iv, text)) == text
  {
    var once := Ctr(ecb, key, iv, text);
    var twice := Ctr(ecb, key, iv, once);
    forall i | 0 <= i < |text|
      ensures twice[i] == text[i]
    {
      XorCancel(text[i], Keystream(ecb, key, iv, i));
    }
  }

  lemma BlockPosition(q: nat, k: nat)
    requires k < 16
    ensures (16 * q + k) / 16 == q && (16 * q + k) % 16 == k
  {
  }

  lemma {:induction false} KeystreamMoved(ecb: BlockCipher, key: Block, iv: Block, q: nat, i: nat)
    ensures Keystream(ecb, key, iv, 16 * q + i) == Keystream(ecb, key, CounterBlock(iv, q), i)
  {
    var p, k := i / 16, i % 16;
    CounterBlockAdd(iv, q, p);
    BlockPosition(q + p, k);
    assert 16 * q + i == 16 * (q + p) + k;
  }

  lemma {:induction false} CtrAt(ecb: BlockCipher, key: Block, iv: Block, text: seq<u8>, i: nat)
    requires i < |text|
    ensures Ctr(ecb, key, iv, text)[i] == Xor8(text[i], Keystream(ecb, key, iv, i))
  {
  }

  lemma {:induction false} CtrSplitAt(ecb: BlockCipher, key: Block, iv: Block, a: seq<u8>, b: seq<u8>, q: nat, i: nat)
    requires |a| == 16 * q && i < |a| + |b|
    ensures Ctr(ecb, key, iv, a + b)[i]
            == if i < |a| then Ctr(ecb, key, iv, a)[i] else Ctr(ecb, key, CounterBlock(iv, q), b)[i - |a|]
  {
    CtrAt(ecb, key, iv, a + b, i);
    if i < |a| {
      CtrAt(ecb, key, iv, a, i);
    } else {
      CtrAt(ecb, key, CounterBlock(iv, q), b, i - |a|);
      KeystreamMoved(ecb, key, iv, q, i - |a|);
    }
  }

  lemma {:induction false} SameSplit<T>(w: seq<T>, h: seq<T>, t: seq<T>)
    requires |w| == |h| + |t|
    requires forall i | 0 <= i < |w| :: w[i] == if i < |h| then h[i] else t[i - |h|]
    ensures w == h + t
  {
  }

  /** A text may be processed in pieces cut at block boundaries, moving the counter on. */
  lemma {:induction false} CtrSplit(ecb: BlockCipher, key: Block, iv: Block, a: seq<u8>, b: seq<u8>, q: nat)
    requires |a| == 16 * q
    ensures Ctr(ecb, key, iv, a + b) == Ctr(ecb, key, iv, a) + Ctr(ecb, key, CounterBlock(iv, q), b)
  {
    var whole, head, tail := Ctr(ecb, key, iv, a + b), Ctr(ecb, key, iv, a), Ctr(ecb, key, CounterBlock(iv, q), b);
    forall i | 0 <= i < |whole|
      ensures whole[i] == if i < |head| then head[i] else tail[i - |head|]
    {
      CtrSplitAt(ecb, key, iv, a, b, q, i);
    }
    SameSplit(whole, head, tail);
  }

  /** Exclusive or of at most one block with the start of a key-stream block. */
  function XorPrefix(text: seq<u8>, stream: Block): (r: seq<u8>)
    requires |text| <= 16
    ensures |r| == |text|
  {
    seq(|text|, i requires 0 <= i < |text| => Xor8(text[i], stream[i]))
  }

  lemma CtrChunkOutput(ecb: BlockCipher, key: Block, iv: Block, chunk: seq<u8>)
    requires |chunk| <= 16
    ensures Ctr(ecb, key, iv, chunk) == XorPrefix(chunk, ecb(key, iv))
  {
    var c := Ctr(ecb, key, iv, chunk);
    forall k | 0 <= k < |chunk|
      ensures c[k] == XorPrefix(chunk, ecb(key, iv))[k]
    {
      BlockPosition(0, k);
      assert CounterBlock(iv, 0) == iv;
    }
  }

  /** Counter mode block by block: each counter is the one before it, incremented. */
  function CtrBlocks(ecb: BlockCipher, key: Block, counter: Block, text: seq<u8>): seq<u8>
    decreases |text|
  {
    if |text| <= 16 then XorPrefix(text, ecb(key, counter))
    else XorPrefix(text[..16], ecb(key, counter)) + CtrBlocks(ecb, key, Inc(counter), text[16..])
  }

  /** The two ways to define counter mode agree. */
  lemma {:induction false} CtrBlockwise(ecb: BlockCipher, key: Block, iv: Block, text: seq<u8>)
    ensures CtrBlocks(ecb, key, iv, text) == Ctr(ecb, key, iv, text)
    decreases |text|
  {
    if |text| <= 16 {
      CtrChunkOutput(ecb, key, iv, text);
    } else {
      CtrBlockwise(ecb, key, Inc(iv), text[16..]);
      CtrChunkOutput(ecb, key, iv, text[..16]);
      CtrSplit(ecb, key, iv, text[..16], text[16..], 1);
      assert text[..16] + text[16..] == text;
      assert CounterBlock(iv, 1) == Inc(iv);
    }
  }

  // ---- CMAC -----------------------------------------------------------------------------

  /** Doubling in GF(2^128): multiply by x; a term x^128 that appears is replaced by x^7 + x^2 + x + 1. */
  function GfDouble(v: nat): nat
  {
    if 2 * v < TWO_128 then 2 * v else Xor(2 * v - TWO_128, 0x87)
  }

  /** Chain the first `q` whole blocks of `text` through the cipher, starting from zero. */
  function Chain(ecb: BlockCipher, key: Block, text: seq<u8>, q: nat): Block
    requires 16 * q <= |text|
  {
    if q == 0 then ZERO_BLOCK
    else ecb(key, XorBlock(text[16 * q - 16..16 * q], Chain(ecb, key, text, q - 1)))
  }

  /** The padding of section 2.4 of RFC 4493: a one bit, then zeroes. */
  function Pad(last: seq<u8>): Block
    requires |last| < 16
  {
    last + [0x80] + seq(15 - |last|, _ => 0)
  }

  /** A pair of subkeys derived from the cipher as section 2.3 of RFC 4493 asks. */
  ghost predicate Subkeys(ecb: BlockCipher, key: Block, k1: Block, k2: Block) {
    && BeVal(k1) == GfDouble(BeVal(ecb(key, ZERO_BLOCK)))
    && BeVal(k2) == GfDouble(BeVal(k1))
  }

  /** The final block, masked with the first subkey when full and else padded and masked with the second. */
  function MaskedLast(k1: Block, k2: Block, last: seq<u8>): Block
    requires |last| <= 16
  {
    if |last| == 16 then XorBlock(last, k1) else XorBlock(Pad(last), k2)
  }

  /** The tag of a text of `q` whole blocks and a final, possibly partial, one. */
  function CmacBlocks(ecb: BlockCipher, key: Block, k1: Block, k2: Block, text: seq<u8>, q: nat): Block
    requires 16 * q < |text| <= 16 * q + 16
  {
    ecb(key, XorBlock(MaskedLast(k1, k2, text[16 * q..|text|]), Chain(ecb, key, text, q)))
  }

  /** The tag of a non-empty text, section 2.4 of RFC 4493. */
  function CmacWith(ecb: BlockCipher, key: Block, k1: Block, k2: Block, text: seq<u8>): Block
    requires text != []
  {
    CmacBlocks(ecb, key, k1, k2, text, (|text| - 1) / 16)
  }

  lemma BlocksBeforeLast(q: nat, n: nat)
    requires 16 * q < n <= 16 * q + 16
    ensures (n - 1) / 16 == q
  {
  }

  lemma {:induction false} BeValInjective(a: seq<u8>, b: seq<u8>)
    requires |a| == |b| && BeVal(a) == BeVal(b)
    ensures a == b
  {
    if a != [] {
      var n := |a| - 1;
      BeValInjective(a[..n], b[..n]);
      assert a == a[..n] + [a[n]] && b == b[..n] + [b[n]];
    }
  }

  /** Subkeys are unique, so that a tag depends on the cipher, the key and the text alone. */
  lemma SubkeysUnique(ecb: BlockCipher, key: Block, k1: Block, k2: Block, j1: Block, j2: Block)
    requires Subkeys(ecb, key, k1, k2) && Subkeys(ecb, key, j1, j2)
    ensures k1 == j1 && k2 == j2
  {
    BeValInjective(k1, j1);
    BeValInjective(k2, j2);
  }

  /** Doubling keeps to 128 bits. */
  lemma GfDoubleBound(v: nat)
    requires v < TWO_128
    ensures GfDouble(v) < TWO_128
  {
    if 2 * v >= TWO_128 {
      var x := 2 * v - TWO_128;
      XorLastByte(x / 0x100, x % 0x100, 0, 0x87);
      XorZero(x / 0x100);
      var low := Xor8(x % 0x100, 0x87);
      assert x == 0x100 * (x / 0x100) + x % 0x100;
    }
  }

  function DoubleBlock(b: Block): Block { BeBytes(GfDouble(BeVal(b)), 16) }

  /** The message authentication code of a non-empty text: AES-CMAC when the cipher is AES. */
  function Cmac(ecb: BlockCipher, key: Block, text: seq<u8>): Block
    requires text != []
  {
    var k1 := DoubleBlock(ecb(key, ZERO_BLOCK));
    CmacWith(ecb, key, k1, DoubleBlock(k1), text)
  }

  lemma DoubleBlockValue(b: Block)
    ensures BeVal(DoubleBlock(b)) == GfDouble(BeVal(b))
  {
    BeValBound(b);
    Pow256Values();
    GfDoubleBound(BeVal(b));
    BeValOfBytes(GfDouble(BeVal(b)), 16);
  }

  /** Whatever subkeys section 2.3 of RFC 4493 admits, the code is the same. */
  lemma CmacOfSubkeys(ecb: BlockCipher, key: Block, k1: Block, k2: Block, text: seq<u8>)
    requires text != [] && Subkeys(ecb, key, k1, k2)
    ensures CmacWith(ecb, key, k1, k2, text) == Cmac(ecb, key, text)
  {
    var first := ecb(key, ZERO_BLOCK);
    DoubleBlockValue(first);
    DoubleBlockValue(DoubleBlock(first));
    SubkeysUnique(ecb, key, k1, k2, DoubleBlock(first), DoubleBlock(DoubleBlock(first)));
  }

  // ---- The C structures -------------------------------------------------------------------

  /** aes_data_stream_t; `ivCtr` is the union of the counter with the cipher's input block. */
  class AesStream {
    const ecb: BlockCipher
    var key: Block
    var ivCtr: Block
    var aesOut: Block

    constructor SetupStream(ecb: BlockCipher, key: Block, iv: Block)
      ensures this.ecb == ecb && this.key == key && ivCtr == iv
    {
      this.ecb := ecb;
      this.key := key;
      ivCtr := iv;
      aesOut := ZERO_BLOCK;
    }

    /** `++(iv_ctr[j])`, returning the new word. */
    method IncrementWord(j: nat) returns (w: u32)
      requires j < 4
      modifies this`ivCtr
      ensures w == AddWord(WordAt(old(ivCtr), j), 1)
      ensures forall i | 0 <= i < 4 :: WordAt(ivCtr, i) == if i == j then w else WordAt(old(ivCtr), i)
    {
      w := AddWord(WordAt(ivCtr, j), 1);
      WithWordAt(ivCtr, j, w);
      ivCtr := WithWord(ivCtr, j, w);
    }

    /** The increment of the counter, word by word. */
    method IncrementCounter()
      modifies this`ivCtr
      ensures ivCtr == Inc(old(ivCtr))
    {
      ghost var b := ivCtr;
      var w := IncrementWord(0);
      if w == 0 {
        w := IncrementWord(1);
        if w == 0 {
          w := IncrementWord(2);
          if w == 0 {
            w := IncrementWord(3);
          }
        }
      }
      CarryChain(b, ivCtr, 1);
      IncValue(b);
      BlockFromValue(ivCtr, Inc(b));
    }

    /** Exclusive or of at most one block of input with the last cipher output, which gives `x`. */
    method XorOutput(intext: array<u8>, inPos: nat, outtext: array<u8>, outPos: nat, bytes: nat,
                     ghost chunk: seq<u8>, ghost x: seq<u8>)
      requires bytes <= 16 && inPos + bytes <= intext.Length && outPos + bytes <= outtext.Length
      requires intext == outtext ==> inPos == outPos
      requires |chunk| == bytes && forall k | 0 <= k < bytes :: intext[inPos + k] == chunk[k]
      requires IsXor(x, chunk, aesOut)
      modifies outtext
      ensures forall k | outPos <= k < outPos + bytes :: outtext[k] == x[k - outPos]
      ensures forall k | 0 <= k < outtext.Length && !(outPos <= k < outPos + bytes) :: outtext[k] == old(outtext[k])
    {
      var n := 0;
      while n < bytes
        invariant 0 <= n <= bytes
        invariant forall k | n <= k < bytes :: intext[inPos + k] == chunk[k]
        invariant forall k | outPos <= k < outPos + n :: outtext[k] == x[k - outPos]
        invariant forall k | 0 <= k < outtext.Length && !(outPos <= k < outPos + n) :: outtext[k] == old(outtext[k])
      {
        assert chunk[n] == intext[inPos + n] && x[n] == Xor8(chunk[n], aesOut[n]);
        outtext[outPos + n] := Xor8(intext[inPos + n], aesOut[n]);
        n := n + 1;
      }
    }

    /** One cipher run of counter mode, good for at most one block. */
    method CryptBlock(intext: array<u8>, inPos: nat, outtext: array<u8>, outPos: nat, bytes: nat,
                      ghost chunk: seq<u8>, ghost x: seq<u8>)
      requires bytes <= 16 && inPos + bytes <= intext.Length && outPos + bytes <= outtext.Length
      requires intext == outtext ==> inPos == outPos
      requires |chunk| == bytes && forall k | 0 <= k < bytes :: intext[inPos + k] == chunk[k]
      requires IsXor(x, chunk, ecb(key, ivCtr))
      modifies this`ivCtr, this`aesOut, outtext
      ensures aesOut == ecb(key, old(ivCtr)) && ivCtr == Inc(old(ivCtr))
      ensures forall k | outPos <= k < outPos + bytes :: outtext[k] == x[k - outPos]
      ensures forall k | 0 <= k < outtext.Length && !(outPos <= k < outPos + bytes) :: outtext[k] == old(outtext[k])
    {
      aesOut := ecb(key, ivCtr);
      IncrementCounter();
      XorOutput(intext, inPos, outtext, outPos, bytes, chunk, x);
    }

    /** The input from position `done` on is still there, whatever has been put out before it. */
    ghost predicate Remaining(intext: array<u8>, inPos: nat, done: nat, text: seq<u8>)
      reads intext
    {
      inPos + |text| <= intext.Length && forall k | done <= k < |text| :: intext[inPos + k] == text[k]
    }

    /** Counter mode; input and output may be the same bytes. */
    method Crypto128Ctr(intext: array<u8>, inPos: nat, outtext: array<u8>, outPos: nat, bytecount: nat)
      requires inPos + bytecount <= intext.Length && outPos + bytecount <= outtext.Length
      requires intext == outtext ==> inPos == outPos
      modifies this`ivCtr, this`aesOut, outtext
      ensures outtext[..] == Splice(old(outtext[..]), outPos,
                                    Ctr(ecb, key, old(ivCtr), old(intext[..])[inPos..inPos + bytecount]))
      ensures ivCtr == CounterBlock(old(ivCtr), (bytecount + 15) / 16)
      ensures bytecount > 0 ==> aesOut == ecb(key, CounterBlock(old(ivCtr), (bytecount + 15) / 16 - 1))
    {
      ghost var iv, out0, text := ivCtr, outtext[..], intext[..][inPos..inPos + bytecount];
      ghost var c := Ctr(ecb, key, iv, text);
      ghost var q := Loop(intext, inPos, outtext, outPos, bytecount, text, out0, iv, c);
      SpliceIs(outtext[..], out0, outPos, c);
    }

    /** The first `done` bytes of `c` have been put out in place of `out0`. */
    ghost predicate Put(outtext: array<u8>, outPos: nat, out0: seq<u8>, c: seq<u8>, done: nat)
      reads outtext
    {
      && outPos + |c| <= outtext.Length == |out0| && done <= |c|
      && (forall k | outPos <= k < outPos + done :: outtext[k] == c[k - outPos])
      && forall k | 0 <= k < outtext.Length && !(outPos <= k < outPos + done) :: outtext[k] == out0[k]
    }

    /** One round of the loop. */
    method CtrRound(intext: array<u8>, inPos: nat, outtext: array<u8>, outPos: nat, done: nat, bytes: nat,
                 ghost text: seq<u8>, ghost out0: seq<u8>, ghost iv: Block, ghost q: nat, ghost c: seq<u8>)
      requires Remaining(intext, inPos, done, text) && c == Ctr(ecb, key, iv, text)
      requires Put(outtext, outPos, out0, c, done) && (intext == outtext ==> inPos == outPos)
      requires done == 16 * q < |text| && bytes == Min(|text| - done, 16) && ivCtr == CounterBlock(iv, q)
      modifies this`ivCtr, this`aesOut, outtext
      ensures Remaining(intext, inPos, done + bytes, text) && Put(outtext, outPos, out0, c, done + bytes)
      ensures ivCtr == CounterBlock(iv, q + 1) && aesOut == ecb(key, CounterBlock(iv, q))
    {
      ghost var chunk, x := text[done..done + bytes], c[done..done + bytes];
      CtrChunkAt(ecb, key, iv, text, q, bytes, chunk, x, done);
      CryptBlock(intext, inPos + done, outtext, outPos + done, bytes, chunk, x);
    }

    /** The loop over the blocks. */
    method Loop(intext: array<u8>, inPos: nat, outtext: array<u8>, outPos: nat, bytecount: nat,
                ghost text: seq<u8>, ghost out0: seq<u8>, ghost iv: Block, ghost c: seq<u8>)
      returns (ghost q: nat)
      requires |text| == bytecount && Remaining(intext, inPos, 0, text)
      requires iv == ivCtr && c == Ctr(ecb, key, iv, text) && Put(outtext, outPos, out0, c, 0)
      requires intext == outtext ==> inPos == outPos
      modifies this`ivCtr, this`aesOut, outtext
      ensures q == (bytecount + 15) / 16 && ivCtr == CounterBlock(iv, q)
      ensures q > 0 ==> aesOut == ecb(key, CounterBlock(iv, q - 1))
      ensures Put(outtext, outPos, out0, c, bytecount)
    {
      q := 0;
      var done := 0;
      while done < bytecount
        invariant done <= bytecount && done <= 16 * q < done + 16 && (done == 16 * q || done == bytecount)
        invariant ivCtr == CounterBlock(iv, q) && (q > 0 ==> aesOut == ecb(key, CounterBlock(iv, q - 1)))
        invariant Remaining(intext, inPos, done, text) && Put(outtext, outPos, out0, c, done)
      {
        var bytes := Min(bytecount - done, 16);
        CtrRound(intext, inPos, outtext, outPos, done, bytes, text, out0, iv, q, c);
        done := done + bytes;
        q := q + 1;
      }
    }
  }

  lemma {:induction false} SpliceIs(buf: seq<u8>, w: seq<u8>, p: nat, x: seq<u8>)
    requires |buf| == |w| && p + |x| <= |w|
    requires forall k | p <= k < p + |x| :: buf[k] == x[k - p]
    requires forall k | 0 <= k < |w| && !(p <= k < p + |x|) :: buf[k] == w[k]
    ensures buf == Splice(w, p, x)
  {
  }

  /** At most one block, byte by byte. */
  ghost predicate IsXor(x: seq<u8>, chunk: seq<u8>, stream: Block) {
    |x| == |chunk| <= 16 && forall k | 0 <= k < |x| :: x[k] == Xor8(chunk[k], stream[k])
  }

  /** One cipher run gives the next bytes of counter mode. */
  lemma {:induction false} CtrChunkAt(ecb: BlockCipher, key: Block, iv: Block, text: seq<u8>, q: nat, bytes: nat,
                                      chunk: seq<u8>, x: seq<u8>, done: nat)
    requires done == 16 * q && done + bytes <= |text| && bytes <= 16 && chunk == text[done..done + bytes]
    requires x == Ctr(ecb, key, iv, text)[done..done + bytes]
    ensures IsXor(x, chunk, ecb(key, CounterBlock(iv, q)))
  {
    var stream := ecb(key, CounterBlock(iv, q));
    forall k | 0 <= k < bytes
      ensures x[k] == Xor8(chunk[k], stream[k])
    {
      CtrAt(ecb, key, iv, text, done + k);
      BlockPosition(q, k);
    }
  }

  /** `w` with `x` written over it at position `p`. */
  function Splice(w: seq<u8>, p: nat, x: seq<u8>): (r: seq<u8>)
    requires p + |x| <= |w|
    ensures |r| == |w|
  {
    w[..p] + x + w[p + |x|..]
  }

  /** A carry out of `n` bytes, as a number. */
  function TopBit(carry: nat, n: nat): nat
  {
    if carry == 0 then 0 else Pow256(n)
  }

  /** All bits of `s` moved one place left, `carry` moving in on the right: the bits and what moved out. */
  function Shifted(s: seq<u8>, carry: nat): (r: (seq<u8>, nat))
    requires carry <= 1
    ensures |r.0| == |s| && r.1 <= 1
  {
    if s == [] then ([], carry)
    else
      var n := |s| - 1;
      var top: int := s[n];
      var (bits, out) := Shifted(s[..n], if top >= 0x80 then 1 else 0);
      (bits + [(2 * top) % 0x100 + carry], out)
  }

  lemma {:induction false} TopBitNext(carry: nat, n: nat)
    ensures TopBit(carry, n + 1) == 0x100 * TopBit(carry, n)
  {
  }

  lemma {:induction false} ShiftByte(top: u8, carry: nat)
    requires carry <= 1
    ensures 0x100 * (if top >= 0x80 then 1 else 0) + (2 * top) % 0x100 + carry == 2 * top + carry
  {
  }

  lemma {:induction false} ShiftedValue(s: seq<u8>, carry: nat)
    requires carry <= 1
    ensures BeVal(Shifted(s, carry).0) + TopBit(Shifted(s, carry).1, |s|) == 2 * BeVal(s) + carry
  {
    if s != [] {
      var n := |s| - 1;
      var top: int := s[n];
      var c := if top >= 0x80 then 1 else 0;
      var bits, out := Shifted(s[..n], c).0, Shifted(s[..n], c).1;
      ShiftedValue(s[..n], c);
      var r, last := Shifted(s, carry).0, (2 * top) % 0x100 + carry;
      assert r == bits + [last] && r[..n] == bits;
      assert BeVal(r) == 0x100 * BeVal(bits) + last;
      TopBitNext(out, n);
      ShiftByte(top, carry);
    }
  }

  /** One round of the loop: byte `i` is fixed, the bits to its left remain. */
  lemma ShiftedStep(src: Block, i: nat, carry: nat, byte: u8, bits: seq<u8>, out: nat, done: seq<u8>)
    returns (bits': seq<u8>)
    requires i < 16 && carry <= 1
    requires byte as int == (2 * (src[i] as int)) % 0x100 + carry
    requires Shifted(src[..i + 1], carry) == (bits, out)
    ensures Shifted(src[..i], if src[i] >= 0x80 then 1 else 0) == (bits', out)
    ensures bits + done == bits' + ([byte] + done)
  {
    assert src[..i + 1][..i] == src[..i];
    bits' := Shifted(src[..i], if src[i] >= 0x80 then 1 else 0).0;
    assert bits == bits' + [byte];
  }

  /** The left shift of all 128 bits, done from the last byte to the first. */
  method ShiftLeft(src: Block) returns (tgt: Block, carry: nat)
    ensures carry <= 1 && tgt == Shifted(src, 0).0 && carry == Shifted(src, 0).1
  {
    carry := 0;
    var i := 15;
    assert src[..16] == src;
    ghost var bits, out := Shifted(src, 0).0, Shifted(src, 0).1;
    var done: seq<u8> := [];
    while i >= 0
      invariant -1 <= i <= 15 && carry <= 1
      invariant Shifted(src[..i + 1], carry) == (bits, out)
      invariant Shifted(src, 0).0 == bits + done && Shifted(src, 0).1 == out
    {
      var top: int := src[i];
      var byte := (2 * top) % 0x100 + carry;
      bits := ShiftedStep(src, i, carry, byte, bits, out, done);
      carry := if top >= 0x80 then 1 else 0;
      done := [byte] + done;
      i := i - 1;
    }
    tgt := done;
  }

  /** aes_omac1GenerateSubkey */
  method Omac1GenerateSubkey(src: Block) returns (tgt: Block)
    ensures BeVal(tgt) == GfDouble(BeVal(src))
  {
    var carry;
    tgt, carry := ShiftLeft(src);
    ShiftedValue(src, 0);
    SubkeyCorrection(tgt, src, carry);
    if carry != 0 {
      tgt := tgt[15 := Xor8(tgt[15], 0x87)];
    }
  }

  /** The carry out of the top bit is reduced by exclusive or into the last byte. */
  lemma SubkeyCorrection(tgt: Block, src: Block, carry: nat)
    requires carry == 0 || carry == 1
    requires TopBit(carry, 16) + BeVal(tgt) == 2 * BeVal(src)
    ensures BeVal(if carry == 0 then tgt else tgt[15 := Xor8(tgt[15], 0x87)]) == GfDouble(BeVal(src))
  {
    Pow256Values();
    BeValBound(tgt);
    if carry == 1 {
      var hi, lo := BeVal(tgt[..15]), tgt[15];
      var fixed := tgt[15 := Xor8(lo, 0x87)];
      assert fixed[..15] == tgt[..15];
      BeValBound(tgt[..15]);
      XorLastByte(hi, lo, 0, 0x87);
      XorZero(hi);
    }
  }

  /** aes_omac1_state_t with its two functions. */
  class Omac1State {
    const data: AesStream
    var hl1: Block
    var hl2: Block

    ghost predicate Valid()
      reads this, data
    {
      Subkeys(data.ecb, data.key, hl1, hl2)
    }

    /** aes_initOmac1 */
    constructor InitOmac1(ecb: BlockCipher, micKey: Block)
      ensures Valid() && fresh(data) && data.ecb == ecb && data.key == micKey
    {
      var stream := new AesStream.SetupStream(ecb, micKey, ZERO_BLOCK);
      var plaintext := new u8[16](_ => 0);
      var dummyOut := new u8[16](_ => 0);
      stream.Crypto128Ctr(plaintext, 0, dummyOut, 0, 16);
      var k1 := Omac1GenerateSubkey(stream.aesOut);
      var k2 := Omac1GenerateSubkey(k1);
      data := stream;
      hl1 := k1;
      hl2 := k2;
    }

    /** The copy of the next block into the cipher's input, padded when it is short. */
    method LoadBlock(intext: array<u8>, pos: nat, bytes: nat, ghost chunk: seq<u8>)
      requires 0 < bytes <= 16 && pos + bytes <= intext.Length
      requires |chunk| == bytes && forall k | 0 <= k < bytes :: intext[pos + k] == chunk[k]
      modifies data`ivCtr
      ensures data.ivCtr == if bytes == 16 then chunk else Pad(chunk)
    {
      var i := 0;
      while i < bytes
        invariant 0 <= i <= bytes
        invariant forall k | 0 <= k < i :: data.ivCtr[k] == chunk[k]
      {
        data.ivCtr := data.ivCtr[i := intext[pos + i]];
        i := i + 1;
      }
      if bytes < 16 {
        data.ivCtr := data.ivCtr[bytes := 0x80];
        i := bytes + 1;
        while i < 16
          invariant bytes < i <= 16 && data.ivCtr[bytes] == 0x80
          invariant forall k | 0 <= k < bytes :: data.ivCtr[k] == chunk[k]
          invariant forall k | bytes < k < i :: data.ivCtr[k] == 0
        {
          data.ivCtr := data.ivCtr[i := 0];
          i := i + 1;
        }
      }
    }

    /** The copy of the tag to the caller. */
    method WriteOut(mic: array<u8>, micBytes: nat)
      requires micBytes <= 16 && micBytes <= mic.Length
      modifies mic
      ensures mic[..] == data.aesOut[..micBytes] + old(mic[..])[micBytes..]
    {
      var i := 0;
      while i < micBytes
        invariant 0 <= i <= micBytes
        invariant mic[..i] == data.aesOut[..i] && mic[micBytes..] == old(mic[..])[micBytes..]
      {
        mic[i] := data.aesOut[i];
        i := i + 1;
      }
    }

    /** One round of the loop: load, mask when final, feed forward, encrypt. */
    method CrunchBlock(intext: array<u8>, pos: nat, bytes: nat, final: bool, ghost chunk: seq<u8>)
      requires 0 < bytes <= 16 && pos + bytes <= intext.Length && (bytes == 16 || final)
      requires |chunk| == bytes && forall k | 0 <= k < bytes :: intext[pos + k] == chunk[k]
      modifies data`ivCtr, data`aesOut
      ensures data.aesOut == data.ecb(data.key, XorBlock(if final then MaskedLast(hl1, hl2, chunk) else chunk,
                                                         old(data.aesOut)))
    {
      LoadBlock(intext, pos, bytes, chunk);
      if final {
        data.ivCtr := XorBlock(data.ivCtr, if bytes < 16 then hl2 else hl1);
      }
      data.ivCtr := XorBlock(data.ivCtr, data.aesOut);
      data.aesOut := data.ecb(data.key, data.ivCtr);
    }

    /** The cipher runs over the whole text, leaving the tag in the cipher's output. */
    method Crunch(intext: array<u8>, intextBytes: nat, ghost text: seq<u8>)
      requires |text| == intextBytes <= intext.Length && forall k | 0 <= k < intextBytes :: intext[k] == text[k]
      modifies data`ivCtr, data`aesOut
      ensures data.aesOut == if intextBytes == 0 then ZERO_BLOCK else CmacWith(data.ecb, data.key, hl1, hl2, text)
    {
      ghost var q := 0;
      data.aesOut := ZERO_BLOCK;
      var pos := 0;
      while pos < intextBytes
        invariant Crunched(data.ecb, data.key, hl1, hl2, text, data.aesOut, pos, q)
      {
        var bytes := Min(16, intextBytes - pos);
        ghost var chunk, was := text[pos..pos + bytes], data.aesOut;
        CrunchBlock(intext, pos, bytes, pos + bytes == intextBytes, chunk);
        CrunchStep(data.ecb, data.key, hl1, hl2, text, was, pos, q, bytes, data.aesOut);
        pos := pos + bytes;
        q := q + 1;
      }
      if intextBytes > 0 {
        BlocksBeforeLast(q - 1, intextBytes);
      }
    }

    /** aes_omac1: the tag depends on the keys and the text alone, whatever the state was used for before. */
    method Omac1(mic: array<u8>, micBytes: nat, intext: array<u8>, intextBytes: nat)
      requires Valid() && micBytes <= 16 && micBytes <= mic.Length && intextBytes <= intext.Length
      modifies data`ivCtr, data`aesOut, mic
      ensures Valid()
      ensures mic[..] == (if intextBytes == 0 then ZERO_BLOCK
                          else Cmac(data.ecb, data.key, old(intext[..intextBytes])))[..micBytes]
                       + old(mic[..])[micBytes..]
    {
      if intextBytes > 0 {
        CmacOfSubkeys(data.ecb, data.key, hl1, hl2, intext[..intextBytes]);
      }
      Crunch(intext, intextBytes, intext[..intextBytes]);
      WriteOut(mic, micBytes);
    }
  }

  /** What holds after `q` blocks. */
  ghost predicate Crunched(ecb: BlockCipher, key: Block, k1: Block, k2: Block, text: seq<u8>, output: Block, pos: nat,
                           q: nat) {
    && pos <= |text|
    && (pos < |text| || pos == 0 ==> pos == 16 * q && output == Chain(ecb, key, text, q))
    && (pos == |text| > 0 ==>
          q > 0 && 16 * (q - 1) < |text| <= 16 * q && output == CmacBlocks(ecb, key, k1, k2, text, q - 1))
  }

  lemma {:induction false} CrunchStep(ecb: BlockCipher, key: Block, k1: Block, k2: Block, text: seq<u8>, was: Block,
                                      pos: nat, q: nat, bytes: nat, output: Block)
    requires Crunched(ecb, key, k1, k2, text, was, pos, q) && pos < |text| && bytes == Min(16, |text| - pos)
    requires var chunk := text[pos..pos + bytes];
             output == ecb(key, XorBlock(if pos + bytes == |text| then MaskedLast(k1, k2, chunk) else chunk, was))
    ensures Crunched(ecb, key, k1, k2, text, output, pos + bytes, q + 1)
  {
    var next := 16 * (q + 1);
    assert next - 16 == pos;
  }
}
