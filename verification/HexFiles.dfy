/**
 Files of Intel HEX records (tools/hextool.py): which of those that are saved can be loaded, the
 reader taking no more than 256 characters for one line.
 */
module HexFiles {
  import opened Wrappers
  import opened Bytes
  import opened MemoryMap
  import opened HexFormat

  // ---- Every record of a saved file ------------------------------------------------------------

  /** A record that is as long as it says, verifies, and does not cross a boundary of 64 kB. */
  predicate SoundRecord(r: seq<u8>, maxLen: nat) {
    && |r| >= 5 && CalcChecksum(r) == 0
    && var count: int, hi: int, lo: int := r[0], r[1], r[2];
    && |r| == count + 5
    && (r[3] == 0 ==> 1 <= count <= maxLen && 0x100 * hi + lo + count <= 0x1_0000)
    && (r[3] == 1 ==> count == 0) && (r[3] == 4 ==> count == 2) && r[3] in {0, 1, 4}
  }

  predicate SoundRecords(records: seq<seq<u8>>, maxLen: nat) {
    forall i | 0 <= i < |records| :: SoundRecord(records[i], maxLen)
  }

  lemma RecordSound(address: u16, recordType: u8, data: seq<u8>, maxLen: nat)
    requires |data| < 0x100
    requires recordType == 1 ==> data == []
    requires recordType == 4 ==> |data| == 2
    requires recordType == 0 ==> 1 <= |data| <= maxLen && address + |data| <= 0x1_0000
    requires recordType in {0, 1, 4}
    ensures SoundRecord(RecordBytes(address, recordType, data), maxLen)
  {
    ChecksumVerifies([|data|, address / 0x100, address % 0x100, recordType] + data);
    var hi, lo: int := address / 0x100, address % 0x100;
    assert 0x100 * hi + lo == address;
  }

  lemma {:induction false} RangeRecordsSound(mr: Range, wide: bool, maxLen: nat, address: nat, writeAddress: bool)
    requires mr.start <= address <= mr.End() && 1 <= maxLen < 0x100
    ensures SoundRecords(RangeRecords(mr, wide, maxLen, address, writeAddress), maxLen)
    decreases mr.End() - address
  {
    if address < mr.End() {
      var c := Chunk(mr, address, maxLen);
      RangeRecordsSound(mr, wide, maxLen, c.End(), c.End() % 0x1_0000 == 0);
      RecordSound(address % 0x1_0000, 0, c.bytes, maxLen);
      RecordSound(0, 4, [address / 0x100_0000 % 0x100, address / 0x1_0000 % 0x100], maxLen);
    }
  }

  lemma {:induction false} AllRecordsSound(rs: seq<Range>, wide: bool, maxLen: nat)
    requires 1 <= maxLen < 0x100
    ensures SoundRecords(AllRecords(rs, wide, maxLen), maxLen)
  {
    if rs != [] {
      var last := rs[|rs| - 1];
      AllRecordsSound(rs[..|rs| - 1], wide, maxLen);
      RangeRecordsSound(last, wide, maxLen, last.start, true);
    }
  }

  /** Every record of a file verifies and no data record crosses a boundary of 64 kB. */
  lemma FileRecordsSound(rs: seq<Range>, maxLen: nat)
    requires 1 <= maxLen < 0x100
    ensures SoundRecords(FileRecords(rs, maxLen), maxLen)
  {
    AllRecordsSound(rs, Wide(rs), maxLen);
    RecordSound(0, 1, [], maxLen);
  }

  lemma CanonicalEnds(rs: seq<Range>, i: nat)
    requires Canonical(rs) && i < |rs|
    ensures rs[i].End() <= rs[|rs| - 1].End()
  {
    assert i < |rs| - 1 ==> rs[i].End() < rs[|rs| - 1].start;
  }

  /** Without extended addresses all ranges end in the first 64 kB. */
  lemma NarrowEnds(rs: seq<Range>)
    requires Canonical(rs) && !Wide(rs)
    ensures forall i | 0 <= i < |rs| :: rs[i].End() <= 0x1_0000
  {
    forall i | 0 <= i < |rs|
      ensures rs[i].End() <= 0x1_0000
    {
      CanonicalEnds(rs, i);
    }
  }

  lemma RecordsLoad(rs: seq<Range>, top: nat, overlapOk: bool, maxLen: nat)
    requires Canonical(rs) && 1 <= maxLen < 0x100
    requires forall i | 0 <= i < |rs| :: rs[i].End() <= top && rs[i].End() <= 0x1_0000_0000
    ensures LoadedMap(LoadRecords(map[], top, overlapOk, Address(0), FileRecords(rs, maxLen))) == Loaded(ToMap(rs))
  {
    if !Wide(rs) { NarrowEnds(rs); }
    var last := LoadAll(rs, top, overlapOk, Wide(rs), maxLen);
    LoadConcat(map[], top, overlapOk, Address(0), AllRecords(rs, Wide(rs), maxLen), [RecordBytes(0, 1, [])]);
    LoadEnd(ToMap(rs), top, overlapOk, last);
  }

  lemma {:induction false} LoadEnd(m: map<int, u8>, top: nat, overlapOk: bool, base: Base)
    requires base.Address?
    ensures LoadRecords(m, top, overlapOk, base, [RecordBytes(0, 1, [])]) == Run(m, Finished)
  {
    InterpretRecord(base, 0, 1, []);
  }

  // ---- Lines that are cut off --------------------------------------------------------------------

  lemma {:induction false} HexTextSplit(bs: seq<u8>, k: nat)
    requires k <= |bs|
    ensures HexText(bs) == HexText(bs[..k]) + HexText(bs[k..])
  {
    if k > 0 {
      HexTextSplit(bs[1..], k - 1);
      assert bs[1..][..k - 1] == bs[..k][1..] && bs[1..][k - 1..] == bs[k..];
      Assoc(HexByte(bs[0]), HexText(bs[..k][1..]), HexText(bs[k..]));
    }
  }

  lemma {:induction false} BytesOfDigit(d: nat)
    requires d < 0x10
    ensures BytesOf([DIGITS[d]]) == Some([d])
  {
    var s := [DIGITS[d]];
    HexDigitValue(d);
    ByteOfOne(s);
    assert s[..1] == s && s[1..] == "" && Min(2, |s|) == 1;
    var b: u8 := d;
    assert ByteOf(s) == Some(b) && BytesOf("") == Some([]) && [b] + [] == [b];
  }

  /** A byte whose second digit is missing is its first digit. */
  lemma {:induction false} BytesOfCut(bs: seq<u8>, d: nat)
    requires d < 0x10
    ensures BytesOf(HexText(bs) + [DIGITS[d]]) == Some(bs + [d])
  {
    if bs == [] {
      BytesOfDigit(d);
      assert HexText(bs) + [DIGITS[d]] == [DIGITS[d]] && bs + [d] == [d];
    } else {
      ByteRoundTrip(bs[0]);
      BytesOfCut(bs[1..], d);
      BytesOfCons(HexByte(bs[0]), HexText(bs[1..]) + [DIGITS[d]]);
      Assoc(HexByte(bs[0]), HexText(bs[1..]), [DIGITS[d]]);
      assert bs + [d] == [bs[0]] + (bs[1..] + [d]);
    }
  }

  lemma {:induction false} BytesOfCons(chunk: string, rest: string)
    requires |chunk| == 2
    ensures var first, more := ByteOf(chunk), BytesOf(rest);
            BytesOf(chunk + rest) == if first.Some? && more.Some? then Some([first.value] + more.value) else None
  {
    var s := chunk + rest;
    assert s[..2] == chunk && s[2..] == rest && Min(2, |s|) == 2;
  }

  lemma {:induction false} LineOfLong(s: string, rest: string, max: nat)
    requires Plain(s) && |s| >= max
    ensures LineLength(s + rest, max) == max
  {
    if max > 0 {
      LineOfLong(s[1..], rest, max - 1);
      assert (s + rest)[1..] == s[1..] + rest;
    }
  }

  /** A record of more than 127 bytes is read as two lines, the first of which ends in the middle of byte 127. */
  lemma {:induction false} CutLine(record: seq<u8>, rest: string)
    requires |record| >= 128
    ensures var text, hex := Translate(RecordLine(record) + rest), HexText(record);
            && |text| > MAX_LINE_LENGTH && LineLength(text, MAX_LINE_LENGTH) == MAX_LINE_LENGTH
            && text[..MAX_LINE_LENGTH] == ":" + hex[..255]
            && text[MAX_LINE_LENGTH..] == hex[255..] + "\n" + Translate(rest)
  {
    var hex, tail := HexText(record), "\r\n" + rest;
    HexPlain(record);
    var s := ":" + hex;
    assert Plain(s);
    assert RecordLine(record) + rest == s + tail;
    TranslatePlain(s, tail);
    assert tail[2..] == rest && Translate(tail) == "\n" + Translate(rest);
    LineOfLong(s, Translate(tail), MAX_LINE_LENGTH);
    CutText(hex, Translate(rest));
  }

  lemma {:induction false} CutText(hex: string, more: string)
    requires |hex| >= 256
    ensures var text := ":" + hex + ("\n" + more);
            && |text| > MAX_LINE_LENGTH && text[..MAX_LINE_LENGTH] == ":" + hex[..255]
            && text[MAX_LINE_LENGTH..] == hex[255..] + "\n" + more
  {
  }

  /** What is left of the record. */
  function CutRecord(record: seq<u8>): seq<u8>
    requires |record| >= 128
  {
    record[..127] + [record[127] / 0x10]
  }

  lemma {:induction false} CutIsRead(base: Base, record: seq<u8>)
    requires |record| >= 128
    ensures ParseRecord(0, base, ":" + HexText(record)[..255]) == Interpret(0, base, CutRecord(record))
  {
    var head, hex := record[..127], HexText(record);
    var cut := HexText(head) + [DIGITS[record[127] / 0x10]];
    HexTextSplit(record, 127);
    assert HexText(record[127..])[0] == DIGITS[record[127] / 0x10];
    assert hex[..255] == cut;
    HexDigitValue(record[127] / 0x10);
    assert RStrip(cut) == cut;
    BytesOfCut(head, record[127] / 0x10);
    assert (":" + cut)[1..] == cut;
  }

  lemma {:induction false} SumSnoc(bs: seq<u8>, b: u8)
    ensures Sum(bs + [b]) == Sum(bs) + b
  {
    assert (bs + [b])[..|bs|] == bs;
  }

  lemma {:induction false} TwoSums(s: nat, c: u8, d: u8)
    requires (s + c) % 0x100 == 0 && (s + d) % 0x100 == 0
    ensures c == d
  {
    var p, q := (s + c) / 0x100, (s + d) / 0x100;
    assert c - d == 0x100 * (p - q);
  }

  /** It is refused, but for a record of 128 bytes whose checksum is zero. */
  lemma {:induction false} CutFaults(base: Base, record: seq<u8>, maxLen: nat)
    requires SoundRecord(record, maxLen) && |record| >= 128
    ensures |record| != 128 || record[127] != 0 ==> Interpret(0, base, CutRecord(record)) == Fault
  {
    assert CutRecord(record)[0] == record[0];
    if |record| == 128 && CalcChecksum(CutRecord(record)) == 0 {
      assert record == record[..127] + [record[127]];
      SameChecksum(record[..127], record[127], record[127] / 0x10);
    }
  }

  lemma {:induction false} SameChecksum(bs: seq<u8>, c: u8, d: u8)
    requires CalcChecksum(bs + [c]) == 0 && CalcChecksum(bs + [d]) == 0
    ensures c == d
  {
    SumSnoc(bs, c);
    SumSnoc(bs, d);
    ChecksumValue(bs + [c]);
    ChecksumValue(bs + [d]);
    TwoSums(Sum(bs), c, d);
  }

  /** Behind such a record the rest of its line is met, and the next record fails. */
  lemma {:induction false} LeftoverFails(m: map<int, u8>, top: nat, overlapOk: bool, base: Base, rest: seq<seq<u8>>)
    requires base.Address? && rest != []
    ensures LoadText(m, top, overlapOk, 0, base, "0" + "\n" + Translate(Lines(rest))) == Failed
  {
    var more := Translate(Lines(rest));
    var text := "0" + "\n" + more;
    assert Plain("0");
    LineOfPlain("0", more, MAX_LINE_LENGTH);
    assert text[2..] == more && Lines(rest)[0] == ':' && more[0] == ':';
    assert !NoRecords(more);
    StrayText(m, top, overlapOk, 0, base, text);
  }

  /** A record that is too long for its line makes loading fail, if another record follows. */
  lemma {:induction false} LongLine(m: map<int, u8>, top: nat, overlapOk: bool, base: Base, record: seq<u8>,
                                    rest: seq<seq<u8>>, maxLen: nat)
    requires SoundRecord(record, maxLen) && |record| >= 128 && base.Address? && rest != []
    ensures LoadText(m, top, overlapOk, 0, base, Translate(RecordLine(record) + Lines(rest))) == Failed
  {
    CutLine(record, Lines(rest));
    CutIsRead(base, record);
    CutFaults(base, record, maxLen);
    var text := Translate(RecordLine(record) + Lines(rest));
    var r := Apply(m, top, overlapOk, base, Interpret(0, base, CutRecord(record)));
    if r.Run? {
      assert |record| == 128 && record[127] == 0 && r.base == base;
      LastDigit(record);
      LeftoverFails(r.m, top, overlapOk, base, rest);
    }
  }

  lemma {:induction false} LastDigit(record: seq<u8>)
    requires |record| == 128 && record[127] == 0
    ensures HexText(record)[255..] == "0"
  {
    HexTextSplit(record, 127);
    assert record[127..] == [0] && HexText([0]) == HexByte(0) + "";
  }

  /** None of the records but the last ends the file. */
  predicate EndsOnce(records: seq<seq<u8>>) {
    records != [] && forall i | 0 <= i < |records| - 1 :: |records[i]| >= 5 && records[i][3] != 1
  }

  lemma {:induction false} CutFileFails(m: map<int, u8>, top: nat, overlapOk: bool, base: Base, records: seq<seq<u8>>,
                                        maxLen: nat)
    requires SoundRecords(records, maxLen) && EndsOnce(records) && base.Address?
    requires |records[|records| - 1]| < 128 && !FitLines(records)
    ensures LoadText(m, top, overlapOk, 0, base, Translate(Lines(records))) == Failed
    decreases |records|
  {
    var first, rest := records[0], records[1..];
    assert SoundRecord(first, maxLen);
    if |first| >= 128 {
      LongLine(m, top, overlapOk, base, first, rest, maxLen);
    } else {
      LoadLine(m, top, overlapOk, base, first, Lines(rest));
      var r := Apply(m, top, overlapOk, base, Interpret(0, base, first));
      if r.Run? {
        assert r.base.Address?;
        CutFileFails(r.m, top, overlapOk, r.base, rest, maxLen);
      }
    }
  }

  // ---- Which files have such lines -----------------------------------------------------------------

  /** There are 123 bytes in a row in one block of 64 kB, from `from` on. */
  predicate LongFrom(r: Range, from: nat, a: nat) {
    from <= a && a + 123 <= r.End() && a / 0x1_0000 == (a + 122) / 0x1_0000
  }

  ghost predicate LongPiece(r: Range, from: nat) { exists a: nat :: LongFrom(r, from, a) }

  ghost predicate LongPieces(rs: seq<Range>) { exists i :: 0 <= i < |rs| && LongPiece(rs[i], rs[i].start) }

  lemma {:induction false} FitLinesCons(record: seq<u8>, rest: seq<seq<u8>>)
    ensures FitLines([record] + rest) <==> 2 * |record| + 2 <= MAX_LINE_LENGTH && FitLines(rest)
  {
    var s := [record] + rest;
    assert s[0] == record && forall i | 0 <= i < |rest| :: s[1 + i] == rest[i];
  }

  lemma {:induction false} FitLinesConcat(a: seq<seq<u8>>, b: seq<seq<u8>>)
    ensures FitLines(a + b) <==> FitLines(a) && FitLines(b)
  {
    var s := a + b;
    assert forall i | 0 <= i < |a| :: s[i] == a[i];
    assert forall i | 0 <= i < |b| :: s[|a| + i] == b[i];
  }

  /** What ends a block of 64 kB within 122 bytes is behind every long piece of the block. */
  lemma {:induction false} BlockEnd(address: nat, n: nat, a: nat)
    requires address <= a && n == 0x1_0000 - address % 0x1_0000 && n <= 122
    ensures a < address + n ==> a / 0x1_0000 != (a + 122) / 0x1_0000
  {
    var q := address / 0x1_0000;
    if a < address + n {
      assert 0x1_0000 * q <= a < 0x1_0000 * (q + 1) <= a + 122;
      Quotient(a, q);
    }
  }

  lemma {:induction false} Quotient(a: nat, q: nat)
    requires 0x1_0000 * q <= a < 0x1_0000 * (q + 1)
    ensures a / 0x1_0000 == q
  {
  }

  lemma {:induction false} ShortChunk(r: Range, maxLen: nat, address: nat, a: nat)
    requires r.start <= address < r.End() && 123 <= maxLen && |Chunk(r, address, maxLen).bytes| <= 122
    requires LongFrom(r, address, a)
    ensures a >= Chunk(r, address, maxLen).End()
  {
    var n := RecordLength(address, r.End(), maxLen);
    if n < r.End() - address {
      BlockEnd(address, n, a);
    }
  }

  lemma {:induction false} LongChunk(r: Range, maxLen: nat, address: nat)
    requires r.start <= address < r.End() && 123 <= maxLen && |Chunk(r, address, maxLen).bytes| >= 123
    ensures LongFrom(r, address, address)
  {
    var q, m := address / 0x1_0000, address % 0x1_0000;
    assert m + 123 <= 0x1_0000;
    Quotient(address + 122, q);
  }

  lemma {:induction false} RangeFits(r: Range, wide: bool, maxLen: nat, address: nat, writeAddress: bool)
    requires r.start <= address <= r.End() && 123 <= maxLen < 0x100
    ensures FitLines(RangeRecords(r, wide, maxLen, address, writeAddress)) <==> !LongPiece(r, address)
    decreases r.End() - address
  {
    if address < r.End() {
      var next := Chunk(r, address, maxLen).End();
      RangeFits(r, wide, maxLen, next, next % 0x1_0000 == 0);
      FirstFits(r, wide, maxLen, address, writeAddress);
      if next - address >= 123 {
        LongChunk(r, maxLen, address);
      } else {
        NextPiece(r, maxLen, address);
      }
    }
  }

  lemma {:induction false} FirstFits(r: Range, wide: bool, maxLen: nat, address: nat, writeAddress: bool)
    requires r.start <= address < r.End() && 123 <= maxLen < 0x100
    ensures var next := Chunk(r, address, maxLen).End();
            FitLines(RangeRecords(r, wide, maxLen, address, writeAddress))
            <==> next - address <= 122 && FitLines(RangeRecords(r, wide, maxLen, next, next % 0x1_0000 == 0))
  {
    var c := Chunk(r, address, maxLen);
    var data := RecordBytes(address % 0x1_0000, 0, c.bytes);
    var rest := RangeRecords(r, wide, maxLen, c.End(), c.End() % 0x1_0000 == 0);
    FitLinesCons(data, rest);
    FitLinesCons(AddressRecord(address), [data] + rest);
  }

  lemma {:induction false} NextPiece(r: Range, maxLen: nat, address: nat)
    requires r.start <= address < r.End() && 123 <= maxLen && |Chunk(r, address, maxLen).bytes| <= 122
    ensures LongPiece(r, address) <==> LongPiece(r, Chunk(r, address, maxLen).End())
  {
    var next := Chunk(r, address, maxLen).End();
    if LongPiece(r, address) {
      var a: nat :| LongFrom(r, address, a);
      ShortChunk(r, maxLen, address, a);
      assert LongFrom(r, next, a);
    }
    if LongPiece(r, next) {
      var a: nat :| LongFrom(r, next, a);
      assert LongFrom(r, address, a);
    }
  }

  lemma {:induction false} AllFit(rs: seq<Range>, wide: bool, maxLen: nat)
    requires 123 <= maxLen < 0x100
    ensures FitLines(AllRecords(rs, wide, maxLen)) <==> !LongPieces(rs)
  {
    if rs != [] {
      var n := |rs| - 1;
      AllFit(rs[..n], wide, maxLen);
      RangeFits(rs[n], wide, maxLen, rs[n].start, true);
      FitLinesConcat(AllRecords(rs[..n], wide, maxLen), RangeRecords(rs[n], wide, maxLen, rs[n].start, true));
      LongPiecesSnoc(rs, n);
    }
  }

  lemma {:induction false} LongPiecesSnoc(rs: seq<Range>, n: nat)
    requires n + 1 == |rs|
    ensures LongPieces(rs) <==> LongPieces(rs[..n]) || LongPiece(rs[n], rs[n].start)
  {
    if LongPieces(rs[..n]) {
      var i :| 0 <= i < n && LongPiece(rs[..n][i], rs[..n][i].start);
      assert rs[i] == rs[..n][i];
    }
    if LongPieces(rs) {
      var i :| 0 <= i < |rs| && LongPiece(rs[i], rs[i].start);
      if i < n { assert rs[..n][i] == rs[i]; }
    }
  }

  /** The lines of a file are short enough for the record length asked for, or for want of data to fill longer ones. */
  lemma {:induction false} FileFits(rs: seq<Range>, maxLen: nat)
    requires 1 <= maxLen < 0x100
    ensures FitLines(FileRecords(rs, maxLen)) <==> maxLen <= 122 || !LongPieces(rs)
  {
    FileRecordsSound(rs, maxLen);
    var records := FileRecords(rs, maxLen);
    if maxLen <= 122 {
      assert forall i | 0 <= i < |records| :: SoundRecord(records[i], maxLen);
    } else {
      AllFit(rs, Wide(rs), maxLen);
      FitLinesConcat(AllRecords(rs, Wide(rs), maxLen), [RecordBytes(0, 1, [])]);
    }
  }

  predicate NoneEnds(records: seq<seq<u8>>) {
    forall i | 0 <= i < |records| :: |records[i]| >= 5 && records[i][3] != 1
  }

  lemma {:induction false} RangeEndsNot(r: Range, wide: bool, maxLen: nat, address: nat, writeAddress: bool)
    requires r.start <= address <= r.End() && 1 <= maxLen < 0x100
    ensures NoneEnds(RangeRecords(r, wide, maxLen, address, writeAddress))
    decreases r.End() - address
  {
    if address < r.End() {
      var c := Chunk(r, address, maxLen);
      RangeEndsNot(r, wide, maxLen, c.End(), c.End() % 0x1_0000 == 0);
    }
  }

  lemma {:induction false} AllEndNot(rs: seq<Range>, wide: bool, maxLen: nat)
    requires 1 <= maxLen < 0x100
    ensures NoneEnds(AllRecords(rs, wide, maxLen))
  {
    if rs != [] {
      var last := rs[|rs| - 1];
      AllEndNot(rs[..|rs| - 1], wide, maxLen);
      RangeEndsNot(last, wide, maxLen, last.start, true);
    }
  }

  /**
   A saved file loaded into an empty memory gives the map that was saved, exactly if records of at most
   122 bytes are asked for or no range has more than that in one block of 64 kB. Else it is refused.
   */
  lemma {:induction false} FileRoundTrip(rs: seq<Range>, top: nat, overlapOk: bool, maxLen: nat)
    requires Canonical(rs) && 1 <= maxLen < 0x100
    requires forall i | 0 <= i < |rs| :: rs[i].End() <= top && rs[i].End() <= 0x1_0000_0000
    ensures LoadText(map[], top, overlapOk, 0, Address(0), Translate(Lines(FileRecords(rs, maxLen))))
         == if maxLen <= 122 || !LongPieces(rs) then Loaded(ToMap(rs)) else Failed
  {
    var records := FileRecords(rs, maxLen);
    FileFits(rs, maxLen);
    if FitLines(records) {
      LoadLines(map[], top, overlapOk, Address(0), records);
      RecordsLoad(rs, top, overlapOk, maxLen);
    } else {
      FileRecordsSound(rs, maxLen);
      AllEndNot(rs, Wide(rs), maxLen);
      CutFileFails(map[], top, overlapOk, Address(0), records, maxLen);
    }
  }
}
