/**
 The combined scratchpad (tools/genscratchpad.py, tools/scratchpadinfo.py): its layout, how
 it is parsed, and the keystream that runs through its files.
 */
module ScratchpadFormat {
  import opened Bytes
  import opened Aes
  import Crc

  const SCRATCHPAD_MIN_LENGTH := 48
  const SCRATCHPAD_MAX_LENGTH := 0x100_0000
  const BLOCK_LENGTH: nat := 16

  /** The tag of 16 bytes at the start. */
  const TAG: seq<u8> :=
    [0x53, 0x43, 0x52, 0x31, 0x9a, 0x93, 0x30, 0x82, 0xd9, 0xeb, 0x0a, 0xfc, 0x31, 0x21, 0xe3, 0x37]

  datatype Version = Version(major: u8, minor: u8, maint: u8, devel: u8)

  /** A file as it is stored: encrypted and padded. */
  datatype Stored = Stored(areaId: u32, version: Version, pad: u32, data: seq<u8>)

  datatype Error =
    TooShort | TooLong | NoTag | LengthMismatch | CrcMismatch | ExtraData | NotEnoughData

  datatype Result<T> = Ok(value: T) | Err(error: Error)

  // ---- Layout -----------------------------------------------------------------------------------

  function FileHeader(areaId: u32, length: u32, v: Version, pad: u32): (bs: seq<u8>)
    ensures |bs| == 16
  {
    LeBytes(areaId, 4) + LeBytes(length, 4) + [v.major, v.minor, v.maint, v.devel] + LeBytes(pad, 4)
  }

  predicate Storable(f: Stored) { |f.data| < 0x1_0000_0000 }

  predicate AllStorable(fs: seq<Stored>) { forall i | 0 <= i < |fs| :: Storable(fs[i]) }

  function Piece(f: Stored): seq<u8>
    requires Storable(f)
  {
    FileHeader(f.areaId, |f.data|, f.version, f.pad) + f.data
  }

  function Body(fs: seq<Stored>): seq<u8>
    requires AllStorable(fs)
  {
    if fs == [] then [] else Piece(fs[0]) + Body(fs[1..])
  }

  function Header(length: u32, crc: u16): (bs: seq<u8>)
    ensures |bs| == 16
  {
    LeBytes(length, 4) + LeBytes(crc, 2) + [255, 0] + LeBytes(0, 4) + LeBytes(0xffff_ffff, 4)
  }

  /** The whole image. */
  function Image(cmac: Block, icb: Block, body: seq<u8>): seq<u8>
    requires |body| + 32 < 0x1_0000_0000
  {
    TAG + Header(32 + |body|, Crc.Crc(Crc.INIT, cmac + icb + body)) + cmac + icb + body
  }

  // ---- Parsing ----------------------------------------------------------------------------------

  datatype HeaderInfo = HeaderInfo(length: nat, crc: nat, otapSeq: u8, pad: u8, blType: nat, blStatus: nat,
                                   data: seq<u8>)

  function ParseHeader(data: seq<u8>): Result<HeaderInfo>
  {
    if |data| < SCRATCHPAD_MIN_LENGTH then Err(TooShort)
    else if |data| > SCRATCHPAD_MAX_LENGTH then Err(TooLong)
    else if data[..16] != TAG then Err(NoTag)
    else
      var length, crc := LeVal(data[16..20]), LeVal(data[20..22]);
      if length != |data| - 32 then Err(LengthMismatch)
      else if crc != Crc.Crc(Crc.INIT, data[32..]) then Err(CrcMismatch)
      else Ok(HeaderInfo(length, crc, data[22], data[23], LeVal(data[24..28]), LeVal(data[28..32]), data[32..]))
  }

  /** The authentication code and the initial counter block. */
  datatype Secure = Secure(cmac: Block, icb: Block)

  function ParseSecure(data: seq<u8>): Result<Secure>
  {
    if |data| < 32 then Err(TooShort) else Ok(Secure(data[..16], data[16..32]))
  }

  /** The files from position `pos` on. */
  function FilesFrom(data: seq<u8>, pos: nat): Result<seq<Stored>>
    requires pos <= |data|
    decreases |data| - pos
  {
    if pos == |data| then Ok([])
    else if pos + 16 > |data| then Err(ExtraData)
    else
      var length := LeVal(data[pos + 4..pos + 8]);
      if pos + 16 + length > |data| then Err(NotEnoughData)
      else
        var rest := FilesFrom(data, pos + 16 + length);
        if rest.Err? then rest else Ok([StoredAt(data, pos, length)] + rest.value)
  }

  function StoredAt(data: seq<u8>, pos: nat, length: nat): Stored
    requires pos + 16 + length <= |data|
  {
    Word4(data[pos..pos + 4]);
    Word4(data[pos + 12..pos + 16]);
    Stored(LeVal(data[pos..pos + 4]), Version(data[pos + 8], data[pos + 9], data[pos + 10], data[pos + 11]),
           LeVal(data[pos + 12..pos + 16]), data[pos + 16..pos + 16 + length])
  }

  lemma Word4(bs: seq<u8>)
    requires |bs| == 4
    ensures LeVal(bs) < 0x1_0000_0000
  {
    LeValBound(bs);
    Pow256Values();
  }

  function ParseFiles(data: seq<u8>): Result<seq<Stored>>
  {
    if |data| < 16 then Err(TooShort) else FilesFrom(data, 0)
  }

  // ---- What has been written is parsed --------------------------------------------------------

  lemma WordRoundTrip(v: u32)
    ensures LeVal(LeBytes(v, 4)) == v
  {
    Pow256Values();
    LeValOfBytes(v, 4);
  }

  lemma HeaderFields(f: Stored)
    requires Storable(f)
    ensures var p := Piece(f);
            && |p| == 16 + |f.data| && LeVal(p[..4]) == f.areaId && LeVal(p[4..8]) == |f.data|
            && p[8] == f.version.major && p[9] == f.version.minor && p[10] == f.version.maint
            && p[11] == f.version.devel
            && LeVal(p[12..16]) == f.pad && p[16..] == f.data
  {
    WordRoundTrip(f.areaId);
    WordRoundTrip(|f.data|);
    WordRoundTrip(f.pad);
    var v := [f.version.major, f.version.minor, f.version.maint, f.version.devel];
    PieceParts(LeBytes(f.areaId, 4), LeBytes(|f.data|, 4), v, LeBytes(f.pad, 4), f.data);
  }

  lemma PieceParts(a: seq<u8>, b: seq<u8>, v: seq<u8>, c: seq<u8>, d: seq<u8>)
    requires |a| == 4 && |b| == 4 && |v| == 4 && |c| == 4
    ensures var p := a + b + v + c + d;
            && p[..4] == a && p[4..8] == b && p[8] == v[0] && p[9] == v[1] && p[10] == v[2] && p[11] == v[3]
            && p[12..16] == c && p[16..] == d
  {
  }

  /** The first file behind `before` is read, and then the rest. */
  lemma FirstFile(before: seq<u8>, f: Stored, after: seq<u8>)
    requires Storable(f)
    ensures var data := before + Piece(f) + after;
            var rest := FilesFrom(data, |before + Piece(f)|);
            FilesFrom(data, |before|) == if rest.Err? then rest else Ok([f] + rest.value)
  {
    FileInMiddle(before, f, after);
  }

  lemma FileInMiddle(before: seq<u8>, f: Stored, after: seq<u8>)
    requires Storable(f)
    ensures var data, n := before + Piece(f) + after, |before|;
            && |before + Piece(f)| == n + 16 + |f.data| <= |data|
            && LeVal(data[n + 4..n + 8]) == |f.data| && StoredAt(data, n, |f.data|) == f
  {
    HeaderFields(f);
    InMiddle(before, Piece(f), after);
  }

  lemma InMiddle(before: seq<u8>, p: seq<u8>, after: seq<u8>)
    requires |p| >= 16
    ensures var data, n := before + p + after, |before|;
            && data[n..n + 4] == p[..4] && data[n + 4..n + 8] == p[4..8] && data[n + 12..n + 16] == p[12..16]
            && data[n + 8] == p[8] && data[n + 9] == p[9] && data[n + 10] == p[10] && data[n + 11] == p[11]
            && data[n + 16..n + |p|] == p[16..]
  {
  }

  /** All files behind `before` are read back. */
  lemma {:induction false} FilesRoundTrip(before: seq<u8>, fs: seq<Stored>)
    requires AllStorable(fs)
    ensures FilesFrom(before + Body(fs), |before|) == Ok(fs)
    decreases |fs|
  {
    if fs == [] {
      assert before + [] == before;
    } else {
      Assoc(before, Piece(fs[0]), Body(fs[1..]));
      FirstFile(before, fs[0], Body(fs[1..]));
      FilesRoundTrip(before + Piece(fs[0]), fs[1..]);
      assert [fs[0]] + fs[1..] == fs;
    }
  }

  lemma HeaderPacked(length: u32, crc: u16)
    ensures var h := Header(length, crc);
            && LeVal(h[..4]) == length && LeVal(h[4..6]) == crc && h[6] == 255 && h[7] == 0
            && LeVal(h[8..12]) == 0 && LeVal(h[12..16]) == 0xffff_ffff
  {
    FiveParts(LeBytes(length, 4), LeBytes(crc, 2), [255, 0], LeBytes(0, 4), LeBytes(0xffff_ffff, 4));
    HalfWordRoundTrip(crc);
    WordRoundTrip(length);
    WordRoundTrip(0);
    WordRoundTrip(0xffff_ffff);
  }

  lemma HalfWordRoundTrip(v: u16)
    ensures LeVal(LeBytes(v, 2)) == v
  {
    assert Pow256(2) == 0x1_0000;
    LeValOfBytes(v, 2);
  }

  lemma FiveParts(a: seq<u8>, b: seq<u8>, c: seq<u8>, d: seq<u8>, e: seq<u8>)
    requires |a| == 4 && |b| == 2 && |c| == 2 && |d| == 4 && |e| == 4
    ensures var h := a + b + c + d + e;
            h[..4] == a && h[4..6] == b && h[6] == c[0] && h[7] == c[1] && h[8..12] == d && h[12..16] == e
  {
  }

  lemma HeaderSliced(data: seq<u8>, h: seq<u8>, rest: seq<u8>)
    requires |h| == 16 && data == TAG + h + rest
    ensures |data| == 32 + |rest| && data[..16] == TAG && data[32..] == rest && data[22] == h[6] && data[23] == h[7]
    ensures data[16..20] == h[..4] && data[20..22] == h[4..6] && data[24..28] == h[8..12] && data[28..32] == h[12..16]
  {
  }

  lemma HeaderRoundTrip(cmac: Block, icb: Block, body: seq<u8>)
    requires 64 + |body| <= SCRATCHPAD_MAX_LENGTH
    ensures ParseHeader(Image(cmac, icb, body))
         == Ok(HeaderInfo(32 + |body|, Crc.Crc(Crc.INIT, cmac + icb + body), 255, 0, 0, 0xffff_ffff, cmac + icb + body))
  {
    var rest := cmac + icb + body;
    var length, crc := 32 + |body|, Crc.Crc(Crc.INIT, rest);
    Assoc(TAG + Header(length, crc), cmac, icb);
    Assoc(TAG + Header(length, crc), cmac + icb, body);
    Accepted(Image(cmac, icb, body), length, crc, rest);
  }

  lemma Accepted(data: seq<u8>, length: u32, crc: u16, rest: seq<u8>)
    requires data == TAG + Header(length, crc) + rest && length == |rest| && 16 <= |rest| <= SCRATCHPAD_MAX_LENGTH - 32
    requires crc == Crc.Crc(Crc.INIT, rest)
    ensures ParseHeader(data) == Ok(HeaderInfo(length, crc, 255, 0, 0, 0xffff_ffff, rest))
  {
    HeaderPacked(length, crc);
    HeaderSliced(data, Header(length, crc), rest);
  }

  lemma Parts(cmac: Block, icb: Block, body: seq<u8>)
    ensures var data := cmac + icb + body;
            data[..16] == cmac && data[16..32] == icb && data[32..] == body && data[16..] == icb + body
  {
  }

  lemma ParsesBack(fs: seq<Stored>)
    requires AllStorable(fs) && fs != []
    ensures ParseFiles(Body(fs)) == Ok(fs)
  {
    HeaderFields(fs[0]);
    FilesRoundTrip([], fs);
    assert [] + Body(fs) == Body(fs);
  }

  /** The image of any non-empty list of files within the reader's limit is accepted and gives back what was written. */
  lemma ImageRoundTrip(cmac: Block, icb: Block, fs: seq<Stored>)
    requires AllStorable(fs) && fs != [] && 64 + |Body(fs)| <= SCRATCHPAD_MAX_LENGTH
    ensures var h := ParseHeader(Image(cmac, icb, Body(fs)));
            && h.Ok? && h.value.length == 32 + |Body(fs)| == |h.value.data| && h.value.data[16..] == icb + Body(fs)
            && ParseSecure(h.value.data) == Ok(Secure(cmac, icb))
            && ParseFiles(h.value.data[32..]) == Ok(fs)
  {
    HeaderRoundTrip(cmac, icb, Body(fs));
    Parts(cmac, icb, Body(fs));
    ParsesBack(fs);
  }

  /** Without files the reader finds its input too short. */
  lemma EmptyRefused(cmac: Block, icb: Block)
    ensures ParseFiles((cmac + icb + Body([]))[32..]) == Err(TooShort)
  {
  }

  lemma {:induction false} BodySnoc(fs: seq<Stored>, f: Stored)
    requires AllStorable(fs) && Storable(f)
    ensures AllStorable(fs + [f]) && Body(fs + [f]) == Body(fs) + Piece(f)
  {
    if fs == [] {
      assert [f][1..] == [];
      assert Piece(f) + [] == Piece(f);
    } else {
      BodySnoc(fs[1..], f);
      assert (fs + [f])[1..] == fs[1..] + [f];
      Assoc(Piece(fs[0]), Body(fs[1..]), Piece(f));
    }
  }

  // ---- The running keystream --------------------------------------------------------------------

  /** `text` with the keystream from position `pos` on. */
  function CryptAt(ecb: BlockCipher, key: Block, icb: Block, pos: nat, text: seq<u8>): (r: seq<u8>)
    ensures |r| == |text|
  {
    seq(|text|, i requires 0 <= i < |text| => Xor8(text[i], KeystreamAt(ecb, key, icb, pos, i)))
  }

  function KeystreamAt(ecb: BlockCipher, key: Block, icb: Block, pos: nat, i: nat): u8
  {
    Keystream(ecb, key, icb, pos + i)
  }

  lemma CryptTwice(ecb: BlockCipher, key: Block, icb: Block, pos: nat, text: seq<u8>)
    ensures CryptAt(ecb, key, icb, pos, CryptAt(ecb, key, icb, pos, text)) == text
  {
    var once := CryptAt(ecb, key, icb, pos, text);
    var twice := CryptAt(ecb, key, icb, pos, once);
    forall i | 0 <= i < |text|
      ensures twice[i] == text[i]
    {
      XorCancel(text[i], KeystreamAt(ecb, key, icb, pos, i));
    }
  }

  /** From a block boundary on, the cipher is counter mode with the counter moved on. */
  lemma {:induction false} CryptIsCtr(ecb: BlockCipher, key: Block, icb: Block, q: nat, text: seq<u8>)
    ensures CryptAt(ecb, key, icb, 16 * q, text) == Ctr(ecb, key, CounterBlock(icb, q), text)
  {
    var x, y := CryptAt(ecb, key, icb, 16 * q, text), Ctr(ecb, key, CounterBlock(icb, q), text);
    forall i | 0 <= i < |text|
      ensures x[i] == y[i]
    {
      KeystreamMoved(ecb, key, icb, q, i);
      CtrAt(ecb, key, CounterBlock(icb, q), text, i);
    }
  }

  /** Two calls of the cipher are one on the texts put together: the second goes on where the first ended. */
  lemma CryptJoin(ecb: BlockCipher, key: Block, icb: Block, pos: nat, a: seq<u8>, b: seq<u8>)
    ensures CryptAt(ecb, key, icb, pos, a) + CryptAt(ecb, key, icb, pos + |a|, b) == CryptAt(ecb, key, icb, pos, a + b)
  {
    var parts := CryptAt(ecb, key, icb, pos, a) + CryptAt(ecb, key, icb, pos + |a|, b);
    forall i | 0 <= i < |a + b|
      ensures parts[i] == Xor8((a + b)[i], KeystreamAt(ecb, key, icb, pos, i))
    {
      if i >= |a| { assert pos + |a| + (i - |a|) == pos + i; }
    }
  }

  /** The texts of all files, one cipher running through them. */
  function Decrypted(ecb: BlockCipher, key: Block, icb: Block, pos: nat, fs: seq<Stored>): seq<seq<u8>>
    decreases |fs|
  {
    if fs == [] then []
    else [CryptAt(ecb, key, icb, pos, fs[0].data)] + Decrypted(ecb, key, icb, pos + |fs[0].data|, fs[1..])
  }

  function DataLength(fs: seq<Stored>): nat
  {
    if fs == [] then 0 else |fs[0].data| + DataLength(fs[1..])
  }

  /** A file that continues the keystream where the others end is decrypted after them. */
  lemma {:induction false} DecryptedSnoc(ecb: BlockCipher, key: Block, icb: Block, pos: nat, fs: seq<Stored>,
                                         f: Stored, text: seq<u8>)
    requires f.data == CryptAt(ecb, key, icb, pos + DataLength(fs), text)
    ensures Decrypted(ecb, key, icb, pos, fs + [f]) == Decrypted(ecb, key, icb, pos, fs) + [text]
    ensures DataLength(fs + [f]) == DataLength(fs) + |text|
    decreases |fs|
  {
    if fs == [] {
      CryptTwice(ecb, key, icb, pos, text);
      assert [f][1..] == [];
    } else {
      var next := pos + |fs[0].data|;
      DecryptedSnoc(ecb, key, icb, next, fs[1..], f, text);
      assert (fs + [f])[1..] == fs[1..] + [f];
      Assoc([CryptAt(ecb, key, icb, pos, fs[0].data)], Decrypted(ecb, key, icb, next, fs[1..]), [text]);
    }
  }

  function Joined(pieces: seq<seq<u8>>): seq<u8>
  {
    if pieces == [] then [] else pieces[0] + Joined(pieces[1..])
  }

  function DataOf(fs: seq<Stored>): seq<u8>
  {
    if fs == [] then [] else fs[0].data + DataOf(fs[1..])
  }

  /** File by file the same comes out as for the data of all files in one piece. */
  lemma {:induction false} DecryptedWhole(ecb: BlockCipher, key: Block, icb: Block, pos: nat, fs: seq<Stored>)
    ensures Joined(Decrypted(ecb, key, icb, pos, fs)) == CryptAt(ecb, key, icb, pos, DataOf(fs))
    decreases |fs|
  {
    if fs != [] {
      var data := fs[0].data;
      var rest := Decrypted(ecb, key, icb, pos + |data|, fs[1..]);
      DecryptedWhole(ecb, key, icb, pos + |data|, fs[1..]);
      CryptJoin(ecb, key, icb, pos, data, DataOf(fs[1..]));
      assert ([CryptAt(ecb, key, icb, pos, data)] + rest)[1..] == rest;
    }
  }

  /** All files together are the counter mode encryption of their texts, and the other way round. */
  lemma {:induction false} FilesAreCtr(ecb: BlockCipher, key: Block, icb: Block, fs: seq<Stored>)
    ensures Joined(Decrypted(ecb, key, icb, 0, fs)) == Ctr(ecb, key, icb, DataOf(fs))
    ensures DataOf(fs) == Ctr(ecb, key, icb, Joined(Decrypted(ecb, key, icb, 0, fs)))
  {
    DecryptedWhole(ecb, key, icb, 0, fs);
    CryptIsCtr(ecb, key, icb, 0, DataOf(fs));
    assert CounterBlock(icb, 0) == icb;
    CtrInvolution(ecb, key, icb, DataOf(fs));
  }

  /** There is a text for each file, as long as its data. */
  lemma {:induction false} TextLengths(ecb: BlockCipher, key: Block, icb: Block, pos: nat, fs: seq<Stored>)
    ensures var texts := Decrypted(ecb, key, icb, pos, fs);
            |texts| == |fs| && forall k | 0 <= k < |fs| :: |texts[k]| == |fs[k].data|
    decreases |fs|
  {
    if fs != [] {
      TextLengths(ecb, key, icb, pos + |fs[0].data|, fs[1..]);
    }
  }
}
