/**
 Reading a combined scratchpad loses nothing: each parser takes exactly what is laid out as
 stated, and gives back all of it.
 */
module ScratchpadReading {
  import opened Bytes
  import opened ScratchpadFormat
  import Crc

  lemma PartOf(data: seq<u8>, pos: nat, i: nat, j: nat)
    requires pos + 16 <= |data| && i <= j <= 16
    ensures data[pos..pos + 16][i..j] == data[pos + i..pos + j]
  {
    var a, b := data[pos..pos + 16][i..j], data[pos + i..pos + j];
    assert forall k | 0 <= k < j - i :: a[k] == data[pos..pos + 16][i + k] == data[pos + i + k] == b[k];
  }

  lemma Quarters(h: seq<u8>)
    requires |h| == 16
    ensures h == h[..4] + h[4..8] + h[8..12] + h[12..]
  {
  }

  lemma QuartersPacked(h: seq<u8>)
    requires |h| == 16
    ensures LeVal(h[4..8]) < 0x1_0000_0000
    ensures h == LeBytes(LeVal(h[..4]), 4) + LeBytes(LeVal(h[4..8]), 4) + h[8..12] + LeBytes(LeVal(h[12..16]), 4)
  {
    Word4(h[4..8]);
    LeBytesOfVal(h[..4]);
    LeBytesOfVal(h[4..8]);
    LeBytesOfVal(h[12..16]);
    Quarters(h);
  }

  lemma QuartersAt(data: seq<u8>, pos: nat)
    requires pos + 16 <= |data|
    ensures LeVal(data[pos + 4..pos + 8]) < 0x1_0000_0000
    ensures data[pos..pos + 16] ==
            LeBytes(LeVal(data[pos..pos + 4]), 4) + LeBytes(LeVal(data[pos + 4..pos + 8]), 4)
            + [data[pos + 8], data[pos + 9], data[pos + 10], data[pos + 11]]
            + LeBytes(LeVal(data[pos + 12..pos + 16]), 4)
  {
    QuartersPacked(data[pos..pos + 16]);
    PartOf(data, pos, 0, 4);
    PartOf(data, pos, 4, 8);
    PartOf(data, pos, 8, 12);
    PartOf(data, pos, 12, 16);
    assert data[pos + 8..pos + 12] == [data[pos + 8], data[pos + 9], data[pos + 10], data[pos + 11]];
  }

  /** The bytes of one file, header first. */
  lemma StoredBack(data: seq<u8>, pos: nat, length: nat)
    requires pos + 16 + length <= |data| && length == LeVal(data[pos + 4..pos + 8])
    ensures Storable(StoredAt(data, pos, length))
    ensures data[pos..pos + 16 + length] == Piece(StoredAt(data, pos, length))
  {
    QuartersAt(data, pos);
    assert data[pos..pos + 16 + length] == data[pos..pos + 16] + data[pos + 16..pos + 16 + length];
  }

  lemma {:induction false} FilesBack(data: seq<u8>, pos: nat, fs: seq<Stored>)
    requires pos <= |data| && FilesFrom(data, pos) == Ok(fs)
    ensures AllStorable(fs) && data[pos..] == Body(fs)
    decreases |data| - pos
  {
    if pos < |data| {
      var length := LeVal(data[pos + 4..pos + 8]);
      var next := pos + 16 + length;
      StoredBack(data, pos, length);
      FilesBack(data, next, fs[1..]);
      assert data[pos..] == data[pos..next] + data[next..];
    }
  }

  /** Files are read exactly from the bytes that they are stored as. */
  lemma {:induction false} FilesReadExactly(data: seq<u8>, fs: seq<Stored>)
    ensures ParseFiles(data) == Ok(fs) <==> fs != [] && AllStorable(fs) && data == Body(fs)
  {
    if |data| >= 16 && FilesFrom(data, 0) == Ok(fs) {
      FilesBack(data, 0, fs);
      assert data[0..] == data;
    }
    if fs != [] && AllStorable(fs) && data == Body(fs) {
      ParsesBack(fs);
    }
  }

  /** The code and the counter block come first, whatever follows. */
  lemma SecureReadExactly(data: seq<u8>, s: Secure)
    ensures ParseSecure(data) == Ok(s) <==> 32 <= |data| && data[..32] == s.cmac + s.icb
  {
    var both := s.cmac + s.icb;
    assert both[..16] == s.cmac && both[16..] == s.icb;
    if |data| >= 32 {
      assert data[..32] == data[..16] + data[16..32];
    }
  }

  /** The fields of a header between the tag and the data. */
  function Fields(h: HeaderInfo): seq<u8>
  {
    LeBytes(h.length, 4) + LeBytes(h.crc, 2) + [h.otapSeq, h.pad] + LeBytes(h.blType, 4) + LeBytes(h.blStatus, 4)
  }

  /** The length and the CRC are those of the data, and the other fields fit their places. */
  predicate Sound(h: HeaderInfo) {
    && h.length == |h.data| && h.crc == Crc.Crc(Crc.INIT, h.data)
    && h.blType < 0x1_0000_0000 && h.blStatus < 0x1_0000_0000
    && 16 <= |h.data| <= SCRATCHPAD_MAX_LENGTH - 32
  }

  lemma FieldsSliced(h: HeaderInfo)
    requires Sound(h)
    ensures var f := Fields(h);
            && |f| == 16 && LeVal(f[..4]) == h.length && LeVal(f[4..6]) == h.crc && f[6] == h.otapSeq && f[7] == h.pad
            && LeVal(f[8..12]) == h.blType && LeVal(f[12..16]) == h.blStatus
  {
    FiveParts(LeBytes(h.length, 4), LeBytes(h.crc, 2), [h.otapSeq, h.pad], LeBytes(h.blType, 4),
              LeBytes(h.blStatus, 4));
    WordRoundTrip(h.length);
    HalfWordRoundTrip(h.crc);
    WordRoundTrip(h.blType);
    WordRoundTrip(h.blStatus);
  }

  lemma FieldParts(f: seq<u8>)
    requires |f| == 16
    ensures f == f[..4] + f[4..6] + [f[6], f[7]] + f[8..12] + f[12..16]
  {
    assert f[6..8] == [f[6], f[7]];
    assert f == f[..4] + f[4..6] + f[6..8] + f[8..12] + f[12..16];
  }

  lemma FieldsPacked(f: seq<u8>)
    requires |f| == 16
    ensures LeVal(f[8..12]) < 0x1_0000_0000 && LeVal(f[12..16]) < 0x1_0000_0000
    ensures f == LeBytes(LeVal(f[..4]), 4) + LeBytes(LeVal(f[4..6]), 2) + [f[6], f[7]]
               + LeBytes(LeVal(f[8..12]), 4) + LeBytes(LeVal(f[12..16]), 4)
  {
    Word4(f[8..12]);
    Word4(f[12..16]);
    LeBytesOfVal(f[..4]);
    LeBytesOfVal(f[4..6]);
    LeBytesOfVal(f[8..12]);
    LeBytesOfVal(f[12..16]);
    FieldParts(f);
  }

  lemma FieldsAt(data: seq<u8>)
    requires |data| >= 32
    ensures LeVal(data[24..28]) < 0x1_0000_0000 && LeVal(data[28..32]) < 0x1_0000_0000
    ensures data == data[..16] + (LeBytes(LeVal(data[16..20]), 4) + LeBytes(LeVal(data[20..22]), 2)
                     + [data[22], data[23]] + LeBytes(LeVal(data[24..28]), 4) + LeBytes(LeVal(data[28..32]), 4))
               + data[32..]
  {
    var f := data[16..32];
    FieldsPacked(f);
    PartOf(data, 16, 0, 4);
    PartOf(data, 16, 4, 6);
    PartOf(data, 16, 8, 12);
    PartOf(data, 16, 12, 16);
    assert data == data[..16] + f + data[32..];
  }

  lemma HeaderBack(data: seq<u8>, h: HeaderInfo)
    requires ParseHeader(data) == Ok(h)
    ensures Sound(h) && data == TAG + Fields(h) + h.data
  {
    FieldsAt(data);
  }

  /** A header is read exactly from the tag, its fields and its data, whoever has written them. */
  lemma HeaderReadExactly(data: seq<u8>, h: HeaderInfo)
    ensures ParseHeader(data) == Ok(h) <==> Sound(h) && data == TAG + Fields(h) + h.data
  {
    if ParseHeader(data) == Ok(h) {
      HeaderBack(data, h);
    }
    if Sound(h) && data == TAG + Fields(h) + h.data {
      FieldsSliced(h);
      HeaderSliced(data, Fields(h), h.data);
    }
  }
}
