/**
 Intel HEX text (tools/hextool.py): how records are printed, how lines are read back, and
 what a whole file does to the map from addresses to bytes.
 */
module HexFormat {
  import opened Wrappers
  import opened Bytes
  import opened MemoryMap

  /** Longest piece of text read as one line. */
  const MAX_LINE_LENGTH := 256

  // ---- Checksums --------------------------------------------------------------------------

  function Sum(bs: seq<u8>): nat
  {
    if bs == [] then 0 else Sum(bs[..|bs| - 1]) + bs[|bs| - 1]
  }

  /** The sum's low byte negated by complement and increment. */
  function CalcChecksum(bs: seq<u8>): u8
  {
    (Xor(Sum(bs), 0xff) + 1) % 0x100
  }

  /** Complementing a byte is subtracting it from 255. */
  lemma ComplementByte(v: u8)
    ensures Xor(v, 0xff) == 0xff - v
  {
    ComplementBits(v, 8);
    Pow2Byte();
  }

  lemma {:induction false} ComplementBits(v: nat, k: nat)
    requires v < Pow2(k)
    ensures Complements(v, Pow2(k) - 1)
    decreases k
  {
    if k > 0 {
      var half, bit := Halve(v, k);
      ComplementBits(half, k - 1);
      ComplementStep(half, bit, Pow2(k - 1) - 1);
    }
  }

  ghost predicate Complements(v: nat, ones: nat) { Xor(v, ones) == ones - v }

  lemma ComplementStep(v: nat, bit: nat, ones: nat)
    requires bit < 2 && Complements(v, ones)
    ensures Complements(2 * v + bit, 2 * ones + 1)
  {
    XorBit(v, bit, ones, 1);
  }

  /** The checksum is the negated sum modulo 256. */
  lemma ChecksumValue(bs: seq<u8>)
    ensures CalcChecksum(bs) == (if Sum(bs) % 0x100 == 0 then 0 else 0x100 - Sum(bs) % 0x100)
  {
    var s := Sum(bs);
    var hi, lo := s / 0x100, s % 0x100;
    XorLastByte(hi, lo, 0, 0xff);
    XorZero(hi);
    ComplementByte(lo);
    assert Xor(s, 0xff) == 0x100 * hi + (0xff - lo);
    NextByte(hi, lo, Xor(s, 0xff));
  }

  lemma NextByte(hi: nat, lo: u8, c: nat)
    requires c == 0x100 * hi + (0xff - lo)
    ensures (c + 1) % 0x100 == if lo == 0 then 0 else 0x100 - lo
  {
  }

  /** Bytes followed by their checksum always verify. */
  lemma ChecksumVerifies(bs: seq<u8>)
    ensures CalcChecksum(bs + [CalcChecksum(bs + [0])]) == 0
  {
    var c := CalcChecksum(bs + [0]);
    var s := Sum(bs);
    assert Sum(bs + [0]) == s && Sum(bs + [c]) == s + c by {
      assert (bs + [0])[..|bs|] == bs && (bs + [c])[..|bs|] == bs;
    }
    ChecksumValue(bs + [0]);
    ChecksumValue(bs + [c]);
    NegatedSum(s);
  }

  lemma NegatedSum(s: nat)
    ensures (s + (if s % 0x100 == 0 then 0 else 0x100 - s % 0x100)) % 0x100 == 0
  {
    var q, m := s / 0x100, s % 0x100;
    if m != 0 {
      assert s + (0x100 - m) == 0x100 * (q + 1);
    }
  }

  // ---- Printing -----------------------------------------------------------------------------

  const DIGITS := "0123456789abcdef"

  function HexByte(b: u8): string { [DIGITS[b / 0x10], DIGITS[b % 0x10]] }

  function HexText(bs: seq<u8>): (s: string)
    ensures |s| == 2 * |bs|
  {
    if bs == [] then "" else HexByte(bs[0]) + HexText(bs[1..])
  }

  /** The bytes of a record, checksum included. */
  function RecordBytes(address: u16, recordType: u8, data: seq<u8>): (r: seq<u8>)
    requires |data| < 0x100
    ensures |r| == |data| + 5
  {
    var body := [|data|, address / 0x100, address % 0x100, recordType] + data;
    body + [CalcChecksum(body + [0])]
  }

  function RecordLine(record: seq<u8>): string { ":" + HexText(record) + "\r\n" }

  /** Length of the data record that starts at `address`: it stays inside a block of 64 kB. */
  function RecordLength(address: nat, end: nat, maxLen: nat): (n: nat)
    requires address < end && 1 <= maxLen
    ensures 1 <= n <= maxLen && address + n <= end
    ensures address % 0x1_0000 + n <= 0x1_0000
  {
    Min(Min(maxLen, 0x1_0000 - address % 0x1_0000), end - address)
  }

  /** The data of that record. */
  function Chunk(mr: Range, address: nat, maxLen: nat): (c: Range)
    requires mr.start <= address < mr.End() && 1 <= maxLen
    ensures c.start == address && c.End() <= mr.End() && 1 <= |c.bytes| <= maxLen
    ensures address % 0x1_0000 + |c.bytes| <= 0x1_0000
  {
    var n, from := RecordLength(address, mr.End(), maxLen), address - mr.start;
    Range(address, mr.bytes[from..from + n])
  }

  /** Extended Linear Address record for the block that holds `address`. */
  function AddressRecord(address: nat): seq<u8>
  {
    RecordBytes(0, 4, [address / 0x100_0000 % 0x100, address / 0x1_0000 % 0x100])
  }

  /** The records of `mr` from `address` on. */
  function RangeRecords(mr: Range, wide: bool, maxLen: nat, address: nat, writeAddress: bool): seq<seq<u8>>
    requires mr.start <= address <= mr.End() && 1 <= maxLen < 0x100
    decreases mr.End() - address
  {
    if address == mr.End() then []
    else
      var c := Chunk(mr, address, maxLen);
      var tail := [RecordBytes(address % 0x1_0000, 0, c.bytes)]
                + RangeRecords(mr, wide, maxLen, c.End(), c.End() % 0x1_0000 == 0);
      if writeAddress && wide then [AddressRecord(address)] + tail else tail
  }

  function AllRecords(rs: seq<Range>, wide: bool, maxLen: nat): seq<seq<u8>>
    requires 1 <= maxLen < 0x100
  {
    if rs == [] then []
    else
      var last := rs[|rs| - 1];
      AllRecords(rs[..|rs| - 1], wide, maxLen) + RangeRecords(last, wide, maxLen, last.start, true)
  }

  /** Whether addresses need more than 16 bits. */
  predicate Wide(rs: seq<Range>) { rs != [] && rs[|rs| - 1].End() > 0x1_0000 }

  function FileRecords(rs: seq<Range>, maxLen: nat): seq<seq<u8>>
    requires 1 <= maxLen < 0x100
  {
    AllRecords(rs, Wide(rs), maxLen) + [RecordBytes(0, 1, [])]
  }

  function Lines(records: seq<seq<u8>>): string
  {
    if records == [] then "" else RecordLine(records[0]) + Lines(records[1..])
  }

  // ---- Reading lines --------------------------------------------------------------------------

  /** Universal newlines: every line ending becomes a line feed. */
  function Translate(s: string): string
  {
    if s == "" then ""
    else if s[0] == '\r' then
      if |s| > 1 && s[1] == '\n' then "\n" + Translate(s[2..]) else "\n" + Translate(s[1..])
    else [s[0]] + Translate(s[1..])
  }

  /** Number of characters of the next line, its line feed included, at most `max`. */
  function LineLength(s: string, max: nat): (n: nat)
    ensures n <= |s| && n <= max && (s != "" && max > 0 ==> n > 0)
  {
    if s == "" || max == 0 then 0
    else if s[0] == '\n' then 1
    else 1 + LineLength(s[1..], max - 1)
  }

  /** White space as `rstrip` removes it. */
  predicate IsSpace(c: char) { IsBlank(c) || '\U{1c}' <= c <= '\U{1f}' }

  /** White space as `int` skips it: the separators of ASCII are not among it. */
  predicate IsBlank(c: char) {
    || c == ' ' || '\t' <= c <= '\r' || c == '\U{85}' || c == '\U{a0}' || c == '\U{1680}'
    || '\U{2000}' <= c <= '\U{200a}' || c == '\U{2028}' || c == '\U{2029}' || c == '\U{202f}'
    || c == '\U{205f}' || c == '\U{3000}'
  }

  function RStrip(s: string): string
  {
    if s != "" && IsSpace(s[|s| - 1]) then RStrip(s[..|s| - 1]) else s
  }

  /** White space skipped at both ends. */
  function Trimmed(s: string): string
  {
    if s == "" then ""
    else if IsBlank(s[0]) then Trimmed(s[1..])
    else if IsBlank(s[|s| - 1]) then Trimmed(s[..|s| - 1])
    else s
  }

  function HexValue(c: char): Option<nat>
  {
    if '0' <= c <= '9' then Some((c - '0') as int)
    else if 'a' <= c <= 'f' then Some((c - 'a') as int + 10)
    else if 'A' <= c <= 'F' then Some((c - 'A') as int + 10)
    else None
  }

  /** `int(chunk, 16)` stored as a byte, for a chunk of one or two characters. */
  function ByteOf(chunk: string): Option<u8>
  {
    var t := Trimmed(chunk);
    if |t| == 1 then ByteOfDigits(Some(0), HexValue(t[0]))
    else if |t| == 2 && t[0] == '+' then ByteOfDigits(Some(0), HexValue(t[1]))
    else if |t| == 2 && t[0] == '-' then (if HexValue(t[1]) == Some(0) then Some(0) else None)
    else if |t| == 2 then ByteOfDigits(HexValue(t[0]), HexValue(t[1]))
    else None
  }

  function ByteOfDigits(hi: Option<nat>, lo: Option<nat>): Option<u8>
  {
    if hi.Some? && lo.Some? && hi.value < 0x10 && lo.value < 0x10 then Some(0x10 * hi.value + lo.value) else None
  }

  function BytesOf(s: string): Option<seq<u8>>
  {
    if s == "" then Some([])
    else
      var n := Min(2, |s|);
      var first, rest := ByteOf(s[..n]), BytesOf(s[n..]);
      if first.Some? && rest.Some? then Some([first.value] + rest.value) else None
  }

  predicate IsDigit(c: char) { HexValue(c).Some? }

  /** A space or a plus sign in front of a digit, or a space behind it, is read as if it were a leading zero. */
  predicate Padded(s: string)
    requires |s| == 2
  {
    ((IsBlank(s[0]) || s[0] == '+') && IsDigit(s[1])) || (IsDigit(s[0]) && IsBlank(s[1]))
  }

  lemma DigitRange(c: char)
    ensures IsDigit(c) ==> HexValue(c).value < 0x10 && !IsBlank(c) && c != '+' && c != '-'
    ensures HexValue(c) == Some(0) <==> c == '0'
  {
  }

  /** Two characters are a byte if both are digits, and in the cases that are not meant to be: padding, and "-0". */
  lemma {:induction false} ByteOfTwo(s: string)
    requires |s| == 2
    ensures ByteOf(s).Some? <==> (IsDigit(s[0]) && IsDigit(s[1])) || Padded(s) || (s[0] == '-' && s[1] == '0')
    ensures ByteOf(s).Some? ==>
              ByteOf(s).value
              == if IsDigit(s[0]) && IsDigit(s[1]) then 0x10 * HexValue(s[0]).value + HexValue(s[1]).value
                 else if IsDigit(s[1]) then HexValue(s[1]).value else HexValue(s[0]).value
  {
    DigitRange(s[0]);
    DigitRange(s[1]);
    if IsBlank(s[0]) {
      ByteOfOne(s[1..]);
      assert Trimmed(s) == Trimmed(s[1..]);
    } else if IsBlank(s[1]) {
      ByteOfOne(s[..1]);
      assert Trimmed(s) == Trimmed(s[..1]);
    }
  }

  lemma {:induction false} ByteOfOne(s: string)
    requires |s| == 1
    ensures ByteOf(s).Some? <==> IsDigit(s[0])
    ensures IsDigit(s[0]) ==> ByteOf(s) == Some(HexValue(s[0]).value)
  {
    DigitRange(s[0]);
    if IsBlank(s[0]) {
      assert s[1..] == "" && Trimmed(s) == Trimmed(s[1..]);
    } else {
      assert Trimmed(s) == s;
    }
  }

  // ---- The effect of a record --------------------------------------------------------------

  /** What earlier records say about addresses; `Poisoned` is the error object that the code returns as an address. */
  datatype Base = Address(n: nat) | Finished | Poisoned

  datatype Record = Data(address: int, data: seq<u8>) | NoData(base: Base) | Fault

  /** A line, up to the point where data would be stored; `Fault` where the code raises. */
  function ParseRecord(offset: int, base: Base, line: string): Record
  {
    if line == "" || line[0] != ':' then NoData(Poisoned)
    else
      var bytes := BytesOf(RStrip(line[1..]));
      if bytes.None? then Fault else Interpret(offset, base, bytes.value)
  }

  function Interpret(offset: int, base: Base, record: seq<u8>): Record
  {
    if |record| < 5 || 4 + record[0] as int + 1 != |record| then Fault
    else if CalcChecksum(record) != 0 then Fault
    else if !base.Address? then Fault
    else
      var low := 0x100 * (record[1] as int) + record[2] as int;
      var data := record[4..|record| - 1];
      if record[3] == 0 then Data(Or(base.n, low) + offset, data)
      else if record[3] == 1 then NoData(Finished)
      else if record[3] == 2 then
        if |data| != 2 then Fault else NoData(Address((0x100 * (data[0] as int) + data[1] as int) * 0x10))
      else if record[3] == 4 then
        if |data| != 2 then Fault else NoData(Address((0x100 * (data[0] as int) + data[1] as int) * 0x1_0000))
      else if record[3] == 3 || record[3] == 5 then NoData(base)
      else Fault
  }

  // ---- The effect of a file --------------------------------------------------------------------

  /** The map a list of ranges stands for. */
  function ToMap(rs: seq<Range>): map<int, u8>
  {
    if rs == [] then map[] else ToMap(rs[..|rs| - 1]) + RangeMap(rs[|rs| - 1])
  }

  function RangeMap(r: Range): map<int, u8>
  {
    map a | r.start <= a < r.End() :: r.At(a)
  }

  datatype Loaded = Loaded(m: map<int, u8>) | Failed

  /** One record applied to the map: outside the address space or over stored data it fails. */
  function StoreData(m: map<int, u8>, top: nat, overlapOk: bool, address: int, data: seq<u8>): Loaded
  {
    if address < 0 || address + |data| > top then Failed
    else
      var w := RangeMap(Range(address, data));
      if overlapOk || w.Keys !! m.Keys then Loaded(m + w) else Failed
  }

  /** The state between two lines. */
  datatype Run = Run(m: map<int, u8>, base: Base) | Stopped

  function Apply(m: map<int, u8>, top: nat, overlapOk: bool, base: Base, record: Record): Run
  {
    match record
    case Fault => Stopped
    case NoData(next) => Run(m, next)
    case Data(address, data) =>
      var r := StoreData(m, top, overlapOk, address, data);
      if r.Failed? then Stopped else Run(r.m, base)
  }

  /** Line after line until the End Of File record, the end of the text or a fault. */
  function LoadText(m: map<int, u8>, top: nat, overlapOk: bool, offset: int, base: Base, text: string): Loaded
    decreases |text|
  {
    if base == Finished || text == "" then Loaded(m)
    else
      var n := LineLength(text, MAX_LINE_LENGTH);
      var r := Apply(m, top, overlapOk, base, ParseRecord(offset, base, text[..n]));
      if r.Stopped? then Failed else LoadText(r.m, top, overlapOk, offset, r.base, text[n..])
  }

  /** No line of the text starts with a colon. */
  predicate NoRecords(text: string)
    decreases |text|
  {
    text == "" || (text[0] != ':' && NoRecords(text[LineLength(text, MAX_LINE_LENGTH)..]))
  }

  /**
   A line that does not start with a colon is not refused at once: the error is returned instead
   of being raised. Loading fails with the next record, and succeeds if there is none.
   */
  lemma {:induction false} StrayText(m: map<int, u8>, top: nat, overlapOk: bool, offset: int, base: Base, text: string)
    requires base == Poisoned || (base.Address? && text != "" && text[0] != ':')
    ensures LoadText(m, top, overlapOk, offset, base, text) == if NoRecords(text) then Loaded(m) else Failed
    decreases |text|
  {
    if text != "" {
      var n := LineLength(text, MAX_LINE_LENGTH);
      assert text[..n][0] == text[0];
      if text[0] != ':' {
        StrayText(m, top, overlapOk, offset, Poisoned, text[n..]);
      }
    }
  }

  // ---- A printed record is read back -----------------------------------------------------------

  lemma HexDigitValue(d: nat)
    requires d < 0x10
    ensures HexValue(DIGITS[d]) == Some(d) && !IsSpace(DIGITS[d]) && DIGITS[d] != '+' && DIGITS[d] != '-'
    ensures DIGITS[d] != '\n' && DIGITS[d] != '\r'
  {
    if d < 8 {
      assert d == 0 || d == 1 || d == 2 || d == 3 || d == 4 || d == 5 || d == 6 || d == 7;
    } else {
      assert d == 8 || d == 9 || d == 10 || d == 11 || d == 12 || d == 13 || d == 14 || d == 15;
    }
  }

  lemma ByteRoundTrip(b: u8)
    ensures ByteOf(HexByte(b)) == Some(b)
  {
    HexDigitValue(b / 0x10);
    HexDigitValue(b % 0x10);
  }

  lemma {:induction false} BytesRoundTrip(bs: seq<u8>)
    ensures BytesOf(HexText(bs)) == Some(bs)
  {
    if bs != [] {
      ByteRoundTrip(bs[0]);
      BytesRoundTrip(bs[1..]);
      var s := HexText(bs);
      assert s[..2] == HexByte(bs[0]) && s[2..] == HexText(bs[1..]);
      assert Min(2, |s|) == 2;
      assert bs == [bs[0]] + bs[1..];
    }
  }

  /** Printed hexadecimal holds neither line endings nor white space. */
  predicate Plain(s: string) {
    forall i | 0 <= i < |s| :: s[i] != '\n' && s[i] != '\r' && !IsSpace(s[i])
  }

  lemma {:induction false} HexPlain(bs: seq<u8>)
    ensures Plain(HexText(bs))
  {
    if bs != [] {
      HexDigitValue(bs[0] / 0x10);
      HexDigitValue(bs[0] % 0x10);
      HexPlain(bs[1..]);
    }
  }

  lemma {:induction false} TranslatePlain(s: string, rest: string)
    requires Plain(s)
    ensures Translate(s + rest) == s + Translate(rest)
  {
    if s == "" {
      assert s + rest == rest;
    } else {
      TranslatePlain(s[1..], rest);
      assert (s + rest)[1..] == s[1..] + rest;
    }
  }

  lemma {:induction false} LineOfPlain(s: string, rest: string, max: nat)
    requires Plain(s) && |s| + 1 <= max
    ensures LineLength(s + "\n" + rest, max) == |s| + 1
  {
    var t := s + "\n" + rest;
    if s != "" {
      LineOfPlain(s[1..], rest, max - 1);
      assert t[1..] == s[1..] + "\n" + rest;
    }
  }

  /** One printed line in front of more text is read as that line. */
  lemma LineRoundTrip(record: seq<u8>, rest: string)
    requires 2 * |record| + 2 <= MAX_LINE_LENGTH
    ensures var text, n := Translate(RecordLine(record) + rest), 2 * |record| + 2;
            && |text| >= n && LineLength(text, MAX_LINE_LENGTH) == n
            && text[..n] == ":" + HexText(record) + "\n" && text[n..] == Translate(rest)
  {
    var hex := HexText(record);
    HexPlain(record);
    var s := ":" + hex;
    assert Plain(s);
    assert RecordLine(record) + rest == s + ("\r\n" + rest);
    TranslatePlain(s, "\r\n" + rest);
    var tail := "\r\n" + rest;
    assert tail[2..] == rest;
    assert Translate(tail) == "\n" + Translate(rest);
    assert s + ("\n" + Translate(rest)) == s + "\n" + Translate(rest);
    LineOfPlain(s, Translate(rest), MAX_LINE_LENGTH);
  }

  lemma RecordRoundTrip(offset: int, base: Base, record: seq<u8>)
    ensures ParseRecord(offset, base, ":" + HexText(record) + "\n") == Interpret(offset, base, record)
  {
    var line := ":" + HexText(record) + "\n";
    HexPlain(record);
    assert line[1..] == HexText(record) + "\n";
    assert RStrip(HexText(record) + "\n") == HexText(record) by {
      assert (HexText(record) + "\n")[..|HexText(record)|] == HexText(record);
    }
    BytesRoundTrip(record);
  }

  // ---- What is read as well --------------------------------------------------------------------

  /** A byte with a space, or another white space or a sign, in the place of its leading zero. */
  function PaddedByte(b: u8, pad: char): string
  {
    if b < 0x10 then [pad, DIGITS[b]] else HexByte(b)
  }

  function PaddedText(bs: seq<u8>, pad: char): (s: string)
    ensures |s| == 2 * |bs|
  {
    if bs == [] then "" else PaddedByte(bs[0], pad) + PaddedText(bs[1..], pad)
  }

  lemma {:induction false} PaddedByteOf(b: u8, pad: char)
    requires IsBlank(pad) || pad == '+'
    ensures ByteOf(PaddedByte(b, pad)) == Some(b)
  {
    if b < 0x10 {
      HexDigitValue(b);
      ByteOfTwo([pad, DIGITS[b]]);
      DigitRange(pad);
    } else {
      ByteRoundTrip(b);
    }
  }

  lemma {:induction false} PaddedBytesOf(bs: seq<u8>, pad: char)
    requires IsBlank(pad) || pad == '+'
    ensures BytesOf(PaddedText(bs, pad)) == Some(bs)
  {
    if bs != [] {
      PaddedByteOf(bs[0], pad);
      PaddedBytesOf(bs[1..], pad);
      var s := PaddedText(bs, pad);
      assert s[..2] == PaddedByte(bs[0], pad) && s[2..] == PaddedText(bs[1..], pad);
      assert Min(2, |s|) == 2;
      assert bs == [bs[0]] + bs[1..];
    }
  }

  lemma {:induction false} PaddedNotStripped(bs: seq<u8>, pad: char)
    ensures RStrip(PaddedText(bs, pad)) == PaddedText(bs, pad)
  {
    if bs != [] {
      var n := |bs| - 1;
      PaddedSnoc(bs[..n], bs[n], pad);
      assert bs[..n] + [bs[n]] == bs;
      HexDigitValue(bs[n] % 0x10);
    }
  }

  lemma {:induction false} PaddedSnoc(bs: seq<u8>, b: u8, pad: char)
    ensures PaddedText(bs + [b], pad) == PaddedText(bs, pad) + PaddedByte(b, pad)
  {
    if bs == [] {
      assert [b][1..] == [];
    } else {
      PaddedSnoc(bs[1..], b, pad);
      assert (bs + [b])[1..] == bs[1..] + [b];
      Assoc(PaddedByte(bs[0], pad), PaddedText(bs[1..], pad), PaddedByte(b, pad));
    }
  }

  /** Any record is read the same when its leading zeros are replaced by white space or plus signs. */
  lemma {:induction false} PaddedRecord(offset: int, base: Base, record: seq<u8>, pad: char)
    requires IsBlank(pad) || pad == '+'
    ensures ParseRecord(offset, base, ":" + PaddedText(record, pad)) == Interpret(offset, base, record)
  {
    var line := ":" + PaddedText(record, pad);
    assert line[1..] == PaddedText(record, pad);
    PaddedNotStripped(record, pad);
    PaddedBytesOf(record, pad);
  }

  // ---- A saved file is loaded back -------------------------------------------------------------

  /** The effect of records, whatever lines they are printed on. */
  function LoadRecords(m: map<int, u8>, top: nat, overlapOk: bool, base: Base, records: seq<seq<u8>>): Run
    decreases |records|
  {
    if base == Finished || records == [] then Run(m, base)
    else
      var r := Apply(m, top, overlapOk, base, Interpret(0, base, records[0]));
      if r.Stopped? then Stopped else LoadRecords(r.m, top, overlapOk, r.base, records[1..])
  }

  /** No record is too long for one line. */
  predicate FitLines(records: seq<seq<u8>>) {
    forall i | 0 <= i < |records| :: 2 * |records[i]| + 2 <= MAX_LINE_LENGTH
  }

  /** One printed record in front of more text has the effect of that record. */
  lemma LoadLine(m: map<int, u8>, top: nat, overlapOk: bool, base: Base, first: seq<u8>, rest: string)
    requires 2 * |first| + 2 <= MAX_LINE_LENGTH && base != Finished
    ensures var r := Apply(m, top, overlapOk, base, Interpret(0, base, first));
            LoadText(m, top, overlapOk, 0, base, Translate(RecordLine(first) + rest))
            == if r.Stopped? then Failed else LoadText(r.m, top, overlapOk, 0, r.base, Translate(rest))
  {
    LineRoundTrip(first, rest);
    RecordRoundTrip(0, base, first);
    var text, n := Translate(RecordLine(first) + rest), 2 * |first| + 2;
    assert text != "" && LineLength(text, MAX_LINE_LENGTH) == n;
  }

  lemma {:induction false} LoadLines(m: map<int, u8>, top: nat, overlapOk: bool, base: Base, records: seq<seq<u8>>)
    requires FitLines(records)
    ensures LoadText(m, top, overlapOk, 0, base, Translate(Lines(records)))
         == LoadedMap(LoadRecords(m, top, overlapOk, base, records))
    decreases |records|
  {
    if records != [] && base != Finished {
      var first, rest := records[0], records[1..];
      LoadLine(m, top, overlapOk, base, first, Lines(rest));
      var r := Apply(m, top, overlapOk, base, Interpret(0, base, first));
      if r.Run? { LoadLines(r.m, top, overlapOk, r.base, rest); }
    }
  }

  function LoadedMap(r: Run): Loaded
  {
    if r.Run? then Loaded(r.m) else Failed
  }

  lemma {:induction false} LoadConcat(m: map<int, u8>, top: nat, overlapOk: bool, base: Base, a: seq<seq<u8>>,
                                      b: seq<seq<u8>>)
    ensures var r := LoadRecords(m, top, overlapOk, base, a);
            LoadRecords(m, top, overlapOk, base, a + b)
            == if r.Run? then LoadRecords(r.m, top, overlapOk, r.base, b) else Stopped
    decreases |a|
  {
    if a == [] {
      assert a + b == b;
    } else if base != Finished {
      assert (a + b)[1..] == a[1..] + b && (a + b)[0] == a[0];
      var r := Apply(m, top, overlapOk, base, Interpret(0, base, a[0]));
      if r.Run? { LoadConcat(r.m, top, overlapOk, r.base, a[1..], b); }
    }
  }

  /** The record that was printed is the record that is read, its checksum verified. */
  lemma InterpretRecord(base: Base, address: u16, recordType: u8, data: seq<u8>)
    requires |data| < 0x100 && base.Address?
    requires recordType == 0 || (recordType == 1 && data == []) || (recordType == 4 && |data| == 2)
    ensures Interpret(0, base, RecordBytes(address, recordType, data))
         == if recordType == 0 then Data(Or(base.n, address), data)
            else if recordType == 1 then NoData(Finished)
            else NoData(Address((0x100 * (data[0] as int) + data[1] as int) * 0x1_0000))
  {
    var body := [|data|, address / 0x100, address % 0x100, recordType] + data;
    var record := RecordBytes(address, recordType, data);
    assert CalcChecksum(record) == 0 by {
      ChecksumVerifies(body);
    }
    assert record[4..|record| - 1] == data;
    assert 0x100 * (record[1] as int) + record[2] as int == address;
  }

  lemma InterpretAddress(base: Base, address: nat)
    requires base.Address? && address < 0x1_0000_0000
    ensures Interpret(0, base, AddressRecord(address)) == NoData(Address(0x1_0000 * (address / 0x1_0000)))
  {
    var hi, lo := address / 0x100_0000 % 0x100, address / 0x1_0000 % 0x100;
    InterpretRecord(base, 0, 4, [hi, lo]);
    assert 0x100 * hi + lo == address / 0x1_0000;
  }

  /** Bytes of `r` from `address` on. */
  function From(r: Range, address: nat): Range
    requires r.start <= address <= r.End()
  {
    Range(address, r.bytes[address - r.start..])
  }

  lemma RangeMapSplit(m: map<int, u8>, r: Range, address: nat, maxLen: nat)
    requires r.start <= address < r.End() && 1 <= maxLen
    ensures var c := Chunk(r, address, maxLen);
            m + RangeMap(From(r, address)) == m + RangeMap(c) + RangeMap(From(r, c.End()))
  {
    var all, c := From(r, address), Chunk(r, address, maxLen);
    var rest := From(r, c.End());
    assert all.bytes == c.bytes + rest.bytes;
    var x, y := m + RangeMap(all), m + RangeMap(c) + RangeMap(rest);
    forall a: int
      ensures a in x <==> a in y
      ensures a in x ==> x[a] == y[a]
    {
      assert all.Holds(a) <==> c.Holds(a) || rest.Holds(a);
      if c.Holds(a) {
        assert all.At(a) == c.At(a);
      } else if rest.Holds(a) {
        assert all.At(a) == rest.At(a);
      }
    }
  }

  ghost predicate BaseFits(base: Base, wide: bool, address: nat) {
    base.Address? && if wide then base.n == 0x1_0000 * (address / 0x1_0000) else base.n == 0
  }

  /** Loading `records` takes the map from `m` to `m'` and leaves `last` as the base address. */
  ghost predicate Loads(m: map<int, u8>, top: nat, overlapOk: bool, base: Base, records: seq<seq<u8>>,
                        m': map<int, u8>, last: Base)
  {
    LoadRecords(m, top, overlapOk, base, records) == Run(m', last)
  }

  lemma SameBlock(address: nat, n: nat)
    requires address % 0x1_0000 + n <= 0x1_0000 && (address + n) % 0x1_0000 != 0
    ensures (address + n) / 0x1_0000 == address / 0x1_0000
  {
  }

  lemma LoadHead(m: map<int, u8>, top: nat, overlapOk: bool, base: Base, address: nat, rest: seq<seq<u8>>,
                 m': map<int, u8>, last: Base)
    requires base.Address? && address < 0x1_0000_0000
    requires Loads(m, top, overlapOk, Address(0x1_0000 * (address / 0x1_0000)), rest, m', last)
    ensures Loads(m, top, overlapOk, base, [AddressRecord(address)] + rest, m', last)
  {
    InterpretAddress(base, address);
    assert ([AddressRecord(address)] + rest)[1..] == rest;
  }

  lemma LoadData(m: map<int, u8>, top: nat, overlapOk: bool, base: Base, wide: bool,
                 address: nat, data: seq<u8>, rest: seq<seq<u8>>, m': map<int, u8>, last: Base)
    requires 0 < |data| < 0x100 && address + |data| <= top
    requires BaseFits(base, wide, address) && (!wide ==> address < 0x1_0000)
    requires forall a | a in m :: a < address
    requires Loads(m + RangeMap(Range(address, data)), top, overlapOk, base, rest, m', last)
    ensures Loads(m, top, overlapOk, base, [RecordBytes(address % 0x1_0000, 0, data)] + rest, m', last)
  {
    var record := RecordBytes(address % 0x1_0000, 0, data);
    InterpretData(base, wide, address, data);
    assert RangeMap(Range(address, data)).Keys !! m.Keys;
    var records := [record] + rest;
    assert records[0] == record && records[1..] == rest;
  }

  lemma InterpretData(base: Base, wide: bool, address: nat, data: seq<u8>)
    requires |data| < 0x100 && BaseFits(base, wide, address) && (!wide ==> address < 0x1_0000)
    ensures Interpret(0, base, RecordBytes(address % 0x1_0000, 0, data)) == Data(address, data)
  {
    InterpretRecord(base, address % 0x1_0000, 0, data);
    OrLow16(address / 0x1_0000, address % 0x1_0000);
  }

  /** Loading the records of a range stores its bytes, whatever is stored below it. */
  lemma {:induction false} LoadRange(m: map<int, u8>, top: nat, overlapOk: bool, base: Base,
                                     r: Range, wide: bool, maxLen: nat, address: nat, writeAddress: bool)
    returns (last: Base)
    requires r.start <= address <= r.End() <= top && r.End() <= 0x1_0000_0000 && 1 <= maxLen < 0x100
    requires base.Address? && (!wide ==> r.End() <= 0x1_0000 && base.n == 0)
    requires wide && !writeAddress && address < r.End() ==> BaseFits(base, wide, address)
    requires forall a | a in m :: a < address
    ensures last.Address? && (!wide ==> last.n == 0)
    ensures Loads(m, top, overlapOk, base, RangeRecords(r, wide, maxLen, address, writeAddress),
                  m + RangeMap(From(r, address)), last)
    decreases r.End() - address
  {
    if address == r.End() {
      assert m + RangeMap(From(r, address)) == m;
      return base;
    }
    var c := Chunk(r, address, maxLen);
    var here := if writeAddress && wide then Address(0x1_0000 * (address / 0x1_0000)) else base;
    var again := c.End() % 0x1_0000 == 0;
    if wide && !again {
      SameBlock(address, |c.bytes|);
    }
    last := LoadRange(m + RangeMap(c), top, overlapOk, here, r, wide, maxLen, c.End(), again);
    RangeMapSplit(m, r, address, maxLen);
    LoadChunk(m, top, overlapOk, base, here, wide, writeAddress, c,
              RangeRecords(r, wide, maxLen, c.End(), again), m + RangeMap(From(r, address)), last);
  }

  lemma LoadChunk(m: map<int, u8>, top: nat, overlapOk: bool, base: Base, here: Base, wide: bool, writeAddress: bool,
                  chunk: Range, rest: seq<seq<u8>>, m': map<int, u8>, last: Base)
    requires 0 < |chunk.bytes| < 0x100 && chunk.End() <= top && chunk.End() <= 0x1_0000_0000 && base.Address?
    requires here == if writeAddress && wide then Address(0x1_0000 * (chunk.start / 0x1_0000)) else base
    requires BaseFits(here, wide, chunk.start) && (!wide ==> chunk.start < 0x1_0000)
    requires forall a | a in m :: a < chunk.start
    requires Loads(m + RangeMap(chunk), top, overlapOk, here, rest, m', last)
    ensures var tail := [RecordBytes(chunk.start % 0x1_0000, 0, chunk.bytes)] + rest;
            Loads(m, top, overlapOk, base,
                  if writeAddress && wide then [AddressRecord(chunk.start)] + tail else tail, m', last)
  {
    LoadData(m, top, overlapOk, here, wide, chunk.start, chunk.bytes, rest, m', last);
    if writeAddress && wide {
      LoadHead(m, top, overlapOk, base, chunk.start,
               [RecordBytes(chunk.start % 0x1_0000, 0, chunk.bytes)] + rest, m', last);
    }
  }

  lemma {:induction false} MapBelow(rs: seq<Range>, end: int)
    requires forall i | 0 <= i < |rs| :: rs[i].End() <= end
    ensures forall a | a in ToMap(rs) :: a < end
  {
    if rs != [] {
      MapBelow(rs[..|rs| - 1], end);
    }
  }

  lemma {:induction false} LoadAll(rs: seq<Range>, top: nat, overlapOk: bool, wide: bool, maxLen: nat)
    returns (last: Base)
    requires Canonical(rs) && 1 <= maxLen < 0x100
    requires forall i | 0 <= i < |rs| ::
               rs[i].End() <= top && rs[i].End() <= 0x1_0000_0000 && (!wide ==> rs[i].End() <= 0x1_0000)
    ensures last.Address? && (!wide ==> last.n == 0)
    ensures Loads(map[], top, overlapOk, Address(0), AllRecords(rs, wide, maxLen), ToMap(rs), last)
    decreases |rs|
  {
    if rs == [] {
      return Address(0);
    }
    var n := |rs| - 1;
    var r, before := rs[n], rs[..n];
    var base := LoadAll(before, top, overlapOk, wide, maxLen);
    MapBelow(before, r.start);
    last := LoadRange(ToMap(before), top, overlapOk, base, r, wide, maxLen, r.start, true);
    assert From(r, r.start) == r;
    LoadConcat(map[], top, overlapOk, Address(0), AllRecords(before, wide, maxLen),
               RangeRecords(r, wide, maxLen, r.start, true));
  }

  // ---- Lists of ranges and maps ---------------------------------------------------------------

  lemma {:induction false} ToMapLookup(rs: seq<Range>, a: int)
    ensures a in ToMap(rs) <==> Lookup(rs, a).Some?
    ensures a in ToMap(rs) ==> Lookup(rs, a) == Some(ToMap(rs)[a])
  {
    if rs != [] {
      ToMapLookup(rs[..|rs| - 1], a);
    }
  }

  /** Equal maps come from equal canonical lists. */
  lemma ToMapInjective(rs: seq<Range>, qs: seq<Range>)
    requires Canonical(rs) && Canonical(qs) && ToMap(rs) == ToMap(qs)
    ensures rs == qs
  {
    forall a: int
      ensures Lookup(rs, a) == Lookup(qs, a)
    {
      ToMapLookup(rs, a);
      ToMapLookup(qs, a);
    }
    CanonicalUnique(rs, qs);
  }

  lemma ToMapOverwritten(rs: seq<Range>, was: seq<Range>, w: Range)
    requires Overwritten(rs, was, w)
    ensures ToMap(rs) == ToMap(was) + RangeMap(w)
  {
    var x, y := ToMap(rs), ToMap(was) + RangeMap(w);
    forall a: int
      ensures a in x <==> a in y
      ensures a in x ==> x[a] == y[a]
    {
      ToMapLookup(rs, a);
      ToMapLookup(was, a);
      OverwrittenAt(rs, was, w, a);
    }
  }

  lemma ToMapMeets(v: seq<Range>, w: Range)
    requires Canonical(v) && w.bytes != []
    ensures MeetsAny(v, w) <==> !(RangeMap(w).Keys !! ToMap(v).Keys)
  {
    MeetsStored(v, w);
    forall a: int
      ensures a in ToMap(v) <==> Lookup(v, a).Some?
    {
      ToMapLookup(v, a);
    }
    if MeetsAny(v, w) {
      var a: int :| w.Holds(a) && Lookup(v, a).Some?;
      assert a in RangeMap(w).Keys && a in ToMap(v).Keys;
    }
  }
}
