/**
 Intel HEX records that are read but not written (tools/hextool.py): segment addresses, start
 addresses, offsets, other line ends, and what stands behind the end.
 */
module HexRecords {
  import opened Wrappers
  import opened Bytes
  import opened MemoryMap
  import opened HexFormat

  /** What any sound record is read as, in numbers. */
  lemma {:induction false} RecordRead(base: nat, offset: int, address: u16, kind: u8, data: seq<u8>)
    requires |data| < 0x100
    ensures var r := Interpret(offset, Address(base), RecordBytes(address, kind, data));
            if kind == 0 then r == Data(Or(base, address) + offset, data)
            else if kind == 1 then r == NoData(Finished)
            else if (kind == 2 || kind == 4) && |data| == 2 then
              r == NoData(Address((0x100 * (data[0] as int) + data[1] as int) * if kind == 2 then 0x10 else 0x1_0000))
            else if kind == 3 || kind == 5 then r == NoData(Address(base))
            else r == Fault
  {
    var record := RecordBytes(address, kind, data);
    ChecksumVerifies([|data|, address / 0x100, address % 0x100, kind] + data);
    assert record[4..|record| - 1] == data;
    assert 0x100 * (record[1] as int) + record[2] as int == address;
  }

  /** One sound line in front of more text. */
  lemma {:induction false} LineRead(m: map<int, u8>, top: nat, overlapOk: bool, offset: int, base: Base,
                                    record: seq<u8>,
                                    rest: string)
    requires 2 * |record| + 2 <= MAX_LINE_LENGTH && base != Finished
    ensures var r := Apply(m, top, overlapOk, base, Interpret(offset, base, record));
            LoadText(m, top, overlapOk, offset, base, Translate(RecordLine(record) + rest))
            == if r.Stopped? then Failed else LoadText(r.m, top, overlapOk, offset, r.base, Translate(rest))
  {
    LineRoundTrip(record, rest);
    RecordRoundTrip(offset, base, record);
  }

  // ---- Segments -----------------------------------------------------------------------------------

  /** Extended Segment Address record for the block of 64 kB that holds `address`. */
  function SegmentRecord(address: nat): seq<u8>
    requires address < 0x10_0000
  {
    var segment := address / 0x1_0000 * 0x1000;
    RecordBytes(0, 2, [segment / 0x100, segment % 0x100])
  }

  /** Data records for the bytes of `mr` from `address` on, each behind the segment that it lies in. */
  function SegmentedRecords(mr: Range, maxLen: nat, address: nat): seq<seq<u8>>
    requires mr.start <= address <= mr.End() <= 0x10_0000 && 1 <= maxLen < 0x100
    decreases mr.End() - address
  {
    if address == mr.End() then []
    else
      var c := Chunk(mr, address, maxLen);
      [SegmentRecord(address), RecordBytes(address % 0x1_0000, 0, c.bytes)] + SegmentedRecords(mr, maxLen, c.End())
  }

  lemma {:induction false} SegmentIsBlock(base: nat, address: nat)
    requires address < 0x10_0000
    ensures Interpret(0, Address(base), SegmentRecord(address)) == NoData(Address(0x1_0000 * (address / 0x1_0000)))
  {
    var segment := address / 0x1_0000 * 0x1000;
    var hi, lo := segment / 0x100, segment % 0x100;
    RecordRead(base, 0, 0, 2, [hi, lo]);
    assert 0x100 * hi + lo == segment;
  }

  lemma {:induction false} LoadSegmented(m: map<int, u8>, top: nat, overlapOk: bool, base: nat, r: Range, maxLen: nat,
                                         address: nat) returns (last: Base)
    requires r.start <= address <= r.End() <= top && r.End() <= 0x10_0000 && 1 <= maxLen < 0x100
    requires forall a | a in m :: a < address
    ensures Loads(m, top, overlapOk, Address(base), SegmentedRecords(r, maxLen, address),
                  m + RangeMap(From(r, address)), last)
    decreases r.End() - address
  {
    if address == r.End() {
      assert m + RangeMap(From(r, address)) == m;
      return Address(base);
    }
    var c := Chunk(r, address, maxLen);
    var here, rest := 0x1_0000 * (address / 0x1_0000), SegmentedRecords(r, maxLen, c.End());
    last := LoadSegmented(m + RangeMap(c), top, overlapOk, here, r, maxLen, c.End());
    RangeMapSplit(m, r, address, maxLen);
    LoadSegmentChunk(m, top, overlapOk, base, c, rest, m + RangeMap(From(r, address)), last);
  }

  lemma {:induction false} LoadSegmentChunk(m: map<int, u8>, top: nat, overlapOk: bool, base: nat, c: Range,
                                            rest: seq<seq<u8>>, m': map<int, u8>, last: Base)
    requires 0 < |c.bytes| < 0x100 && c.End() <= top && c.End() <= 0x10_0000 && forall a | a in m :: a < c.start
    requires Loads(m + RangeMap(c), top, overlapOk, Address(0x1_0000 * (c.start / 0x1_0000)), rest, m', last)
    ensures Loads(m, top, overlapOk, Address(base),
                  [SegmentRecord(c.start), RecordBytes(c.start % 0x1_0000, 0, c.bytes)] + rest, m', last)
  {
    var data := RecordBytes(c.start % 0x1_0000, 0, c.bytes);
    LoadData(m, top, overlapOk, Address(0x1_0000 * (c.start / 0x1_0000)), true, c.start, c.bytes, rest, m', last);
    LoadSegment(m, top, overlapOk, base, c.start, [data] + rest, m', last);
    assert [SegmentRecord(c.start), data] + rest == [SegmentRecord(c.start)] + ([data] + rest);
  }

  lemma {:induction false} LoadSegment(m: map<int, u8>, top: nat, overlapOk: bool, base: nat, address: nat,
                                       rest: seq<seq<u8>>, m': map<int, u8>, last: Base)
    requires address < 0x10_0000
    requires Loads(m, top, overlapOk, Address(0x1_0000 * (address / 0x1_0000)), rest, m', last)
    ensures Loads(m, top, overlapOk, Address(base), [SegmentRecord(address)] + rest, m', last)
  {
    SegmentIsBlock(base, address);
    assert ([SegmentRecord(address)] + rest)[1..] == rest;
  }

  lemma {:induction false} SegmentedFit(mr: Range, maxLen: nat, address: nat)
    requires mr.start <= address <= mr.End() <= 0x10_0000 && 1 <= maxLen <= 122
    ensures FitLines(SegmentedRecords(mr, maxLen, address))
    decreases mr.End() - address
  {
    if address < mr.End() {
      SegmentedFit(mr, maxLen, Chunk(mr, address, maxLen).End());
    }
  }

  /** A range below 1 MB in segmented form is loaded to its addresses. */
  lemma {:induction false} SegmentsLoad(r: Range, top: nat, overlapOk: bool, base: nat, maxLen: nat)
    requires r.End() <= top && r.End() <= 0x10_0000 && 1 <= maxLen <= 122
    ensures LoadText(map[], top, overlapOk, 0, Address(base), Translate(Lines(SegmentedRecords(r, maxLen, r.start))))
         == Loaded(RangeMap(r))
  {
    var last := LoadSegmented(map[], top, overlapOk, base, r, maxLen, r.start);
    SegmentedFit(r, maxLen, r.start);
    LoadLines(map[], top, overlapOk, Address(base), SegmentedRecords(r, maxLen, r.start));
    assert From(r, r.start) == r;
  }

  lemma {:induction false} LoadOne(top: nat, overlapOk: bool, base: nat, low: u16, data: seq<u8>)
    requires 0 < |data| < 0x100 && Or(base, low) + |data| <= top
    ensures LoadRecords(map[], top, overlapOk, Address(base), [RecordBytes(low, 0, data)])
         == Run(RangeMap(Range(Or(base, low), data)), Address(base))
  {
    var w := RangeMap(Range(Or(base, low), data));
    RecordRead(base, 0, low, 0, data);
    var nothing: map<int, u8> := map[];
    assert w.Keys !! nothing.Keys && nothing + w == w;
    assert StoreData(nothing, top, overlapOk, Or(base, low), data) == Loaded(w);
  }

  lemma {:induction false} SegmentLands(top: nat, overlapOk: bool, base: nat, segment: u16, low: u16, data: seq<u8>)
    requires 0 < |data| < 0x100 && Or(0x10 * segment, low) + |data| <= top
    ensures LoadRecords(map[], top, overlapOk, Address(base),
                        [RecordBytes(0, 2, [segment / 0x100, segment % 0x100]), RecordBytes(low, 0, data)])
         == Run(RangeMap(Range(Or(0x10 * segment, low), data)), Address(0x10 * segment))
  {
    var hi, lo := segment / 0x100, segment % 0x100;
    RecordRead(base, 0, 0, 2, [hi, lo]);
    assert 0x100 * hi + lo == segment;
    LoadOne(top, overlapOk, 0x10 * segment, low, data);
    assert [RecordBytes(0, 2, [hi, lo]), RecordBytes(low, 0, data)][1..] == [RecordBytes(low, 0, data)];
  }

  /**
   A segment and an address in it are put together bit by bit. That is their sum, as it is meant to
   be, exactly if they have no bit in common.
   */
  lemma {:induction false} SegmentExact(top: nat, overlapOk: bool, base: nat, segment: u16, low: u16, data: seq<u8>)
    requires 0 < |data| < 0x100 && 0x10 * segment + low + |data| <= top
    ensures var records := [RecordBytes(0, 2, [segment / 0x100, segment % 0x100]), RecordBytes(low, 0, data)];
            var whole := Loaded(RangeMap(Range(0x10 * segment + low, data)));
            LoadedMap(LoadRecords(map[], top, overlapOk, Address(base), records)) == whole
            <==> NoCommonBit(0x10 * segment, low)
  {
    OrIsSum(0x10 * segment, low);
    SegmentLands(top, overlapOk, base, segment, low, data);
    RangeMapStart(Range(Or(0x10 * segment, low), data), Range(0x10 * segment + low, data));
  }

  lemma {:induction false} RangeMapStart(r: Range, q: Range)
    requires r.bytes == q.bytes != []
    ensures RangeMap(r) == RangeMap(q) <==> r == q
  {
    assert |r.bytes| > 0;
    InRangeMap(r, r.start);
    InRangeMap(r, q.start);
    InRangeMap(q, r.start);
    InRangeMap(q, q.start);
  }

  lemma {:induction false} InRangeMap(r: Range, a: int)
    ensures a in RangeMap(r) <==> r.Holds(a)
  {
  }

  // ---- Start addresses ----------------------------------------------------------------------------

  /** Start Segment Address and Start Linear Address records change nothing, wherever they stand. */
  lemma {:induction false} StartsIgnored(m: map<int, u8>, top: nat, overlapOk: bool, offset: int, base: nat,
                                         address: u16,
                                         kind: u8, data: seq<u8>, rest: string)
    requires (kind == 3 || kind == 5) && |data| <= 122
    ensures LoadText(m, top, overlapOk, offset, Address(base),
                     Translate(RecordLine(RecordBytes(address, kind, data)) + rest))
         == LoadText(m, top, overlapOk, offset, Address(base), Translate(rest))
  {
    RecordRead(base, offset, address, kind, data);
    LineRead(m, top, overlapOk, offset, Address(base), RecordBytes(address, kind, data), rest);
  }

  /** Whatever stands behind the End Of File record is not read. */
  lemma {:induction false} EndIsEnd(m: map<int, u8>, top: nat, overlapOk: bool, offset: int, base: nat, address: u16,
                                    data: seq<u8>, rest: string)
    requires |data| <= 122
    ensures LoadText(m, top, overlapOk, offset, Address(base),
                     Translate(RecordLine(RecordBytes(address, 1, data)) + rest))
         == Loaded(m)
  {
    RecordRead(base, offset, address, 1, data);
    LineRead(m, top, overlapOk, offset, Address(base), RecordBytes(address, 1, data), rest);
  }

  /** Other records, and address records of another length, are refused. */
  lemma {:induction false} OthersFail(m: map<int, u8>, top: nat, overlapOk: bool, offset: int, base: nat, address: u16,
                                      kind: u8, data: seq<u8>, rest: string)
    requires |data| <= 122 && (kind > 5 || ((kind == 2 || kind == 4) && |data| != 2))
    ensures LoadText(m, top, overlapOk, offset, Address(base),
                     Translate(RecordLine(RecordBytes(address, kind, data)) + rest))
         == Failed
  {
    RecordRead(base, offset, address, kind, data);
    LineRead(m, top, overlapOk, offset, Address(base), RecordBytes(address, kind, data), rest);
  }

  // ---- Offsets ------------------------------------------------------------------------------------

  function At(m: map<int, u8>, a: int): Option<u8> { if a in m then Some(m[a]) else None }

  /** `m'` is `m` moved up by `k`. */
  ghost predicate Moved(m: map<int, u8>, m': map<int, u8>, k: nat) {
    forall a: int :: At(m', a + k) == At(m, a)
  }

  ghost predicate MovedLoad(r: Loaded, r': Loaded, k: nat) {
    if r.Loaded? then r'.Loaded? && Moved(r.m, r'.m, k) else r'.Failed?
  }

  ghost predicate MovedRun(r: Run, r': Run, k: nat) {
    if r.Run? then r'.Run? && r'.base == r.base && Moved(r.m, r'.m, k) else r'.Stopped?
  }

  /** None of the `n` addresses is stored. */
  ghost predicate Free(m: map<int, u8>, address: int, n: nat) {
    forall a: int | address <= a < address + n :: At(m, a) == None
  }

  lemma {:induction false} FreeKeys(m: map<int, u8>, address: nat, data: seq<u8>)
    ensures RangeMap(Range(address, data)).Keys !! m.Keys <==> Free(m, address, |data|)
  {
    var r := Range(address, data);
    if a :| a in RangeMap(r).Keys && a in m.Keys {
      assert r.Holds(a) && At(m, a).Some?;
    }
    if a: int :| address <= a < address + |data| && At(m, a).Some? {
      assert a in RangeMap(r).Keys && a in m.Keys;
    }
  }

  lemma {:induction false} AtStored(m: map<int, u8>, address: nat, data: seq<u8>, a: int)
    ensures At(m + RangeMap(Range(address, data)), a)
         == if address <= a < address + |data| then Some(data[a - address]) else At(m, a)
  {
    assert Range(address, data).Holds(a) <==> address <= a < address + |data|;
  }

  lemma {:induction false} FreeMoved(m: map<int, u8>, m': map<int, u8>, address: nat, n: nat, k: nat)
    requires Moved(m, m', k)
    ensures Free(m', address + k, n) <==> Free(m, address, n)
  {
    if Free(m', address + k, n) {
      forall a: int | address <= a < address + n
        ensures At(m, a) == None
      {
        assert At(m', a + k) == At(m, a);
      }
    }
    if Free(m, address, n) {
      forall b: int | address + k <= b < address + k + n
        ensures At(m', b) == None
      {
        assert At(m', (b - k) + k) == At(m, b - k);
      }
    }
  }

  lemma {:induction false} StoreMoved(m: map<int, u8>, m': map<int, u8>, top: nat, overlapOk: bool, address: nat,
                                      data: seq<u8>, k: nat)
    requires Moved(m, m', k)
    ensures MovedLoad(StoreData(m, top, overlapOk, address, data),
                      StoreData(m', top + k, overlapOk, address + k, data), k)
  {
    FreeKeys(m, address, data);
    FreeKeys(m', address + k, data);
    FreeMoved(m, m', address, |data|, k);
    OverlaidMoved(m, m', address, data, k);
  }

  lemma {:induction false} OverlaidMoved(m: map<int, u8>, m': map<int, u8>, address: nat, data: seq<u8>, k: nat)
    requires Moved(m, m', k)
    ensures Moved(m + RangeMap(Range(address, data)), m' + RangeMap(Range(address + k, data)), k)
  {
    forall a: int
      ensures At(m' + RangeMap(Range(address + k, data)), a + k) == At(m + RangeMap(Range(address, data)), a)
    {
      AtStored(m, address, data, a);
      AtStored(m', address + k, data, a + k);
    }
  }

  lemma {:induction false} InterpretMoved(offset: nat, k: nat, base: Base, line: string)
    ensures var r, r' := ParseRecord(offset, base, line), ParseRecord(offset + k, base, line);
            if r.Data? then r.address >= 0 && r' == Data(r.address + k, r.data) else r' == r
  {
  }

  lemma {:induction false} ApplyMoved(m: map<int, u8>, m': map<int, u8>, top: nat, overlapOk: bool, k: nat, base: Base,
                                      r: Record, r': Record)
    requires Moved(m, m', k) && if r.Data? then r.address >= 0 && r' == Data(r.address + k, r.data) else r' == r
    ensures MovedRun(Apply(m, top, overlapOk, base, r), Apply(m', top + k, overlapOk, base, r'), k)
  {
    if r.Data? {
      StoreMoved(m, m', top, overlapOk, r.address, r.data, k);
    }
  }

  /** With a greater offset everything lands that much higher, if there is room for it. */
  lemma {:induction false} OffsetMoves(m: map<int, u8>, m': map<int, u8>, top: nat, overlapOk: bool, offset: nat,
                                       k: nat,
                                       base: Base, text: string)
    requires Moved(m, m', k)
    ensures MovedLoad(LoadText(m, top, overlapOk, offset, base, text),
                      LoadText(m', top + k, overlapOk, offset + k, base, text), k)
    decreases |text|
  {
    if base != Finished && text != "" {
      var n := LineLength(text, MAX_LINE_LENGTH);
      var record, record' := ParseRecord(offset, base, text[..n]), ParseRecord(offset + k, base, text[..n]);
      InterpretMoved(offset, k, base, text[..n]);
      ApplyMoved(m, m', top, overlapOk, k, base, record, record');
      var r, r' := Apply(m, top, overlapOk, base, record), Apply(m', top + k, overlapOk, base, record');
      if r.Run? { OffsetMoves(r.m, r'.m, top, overlapOk, offset, k, r.base, text[n..]); }
    }
  }

  // ---- Line ends ----------------------------------------------------------------------------------

  /** The records on lines that end in another way. */
  function LinesEnded(records: seq<seq<u8>>, eol: string): string
  {
    if records == [] then "" else ":" + HexText(records[0]) + eol + LinesEnded(records[1..], eol)
  }

  lemma {:induction false} TranslateEnd(eol: string, rest: string)
    requires eol == "\n" || eol == "\r\n" || (eol == "\r" && (rest == "" || rest[0] != '\n'))
    ensures Translate(eol + rest) == "\n" + Translate(rest)
  {
    var s := eol + rest;
    assert s[|eol|..] == rest;
    if eol == "\r" {
      assert s[1..] == rest && (|s| > 1 ==> s[1] == rest[0]);
    }
  }

  /** Lines may end with a line feed, a carriage return or both. */
  lemma {:induction false} AnyLineEnd(records: seq<seq<u8>>, eol: string)
    requires eol == "\n" || eol == "\r\n" || eol == "\r"
    ensures Translate(LinesEnded(records, eol)) == Translate(Lines(records))
  {
    if records != [] {
      var line, more := ":" + HexText(records[0]), LinesEnded(records[1..], eol);
      AnyLineEnd(records[1..], eol);
      HexPlain(records[0]);
      assert Plain(line);
      OneLineEnd(line, eol, more);
      OneLineEnd(line, "\r\n", Lines(records[1..]));
    }
  }

  lemma {:induction false} OneLineEnd(line: string, eol: string, more: string)
    requires Plain(line) && (more == "" || more[0] == ':') && (eol == "\n" || eol == "\r\n" || eol == "\r")
    ensures Translate(line + eol + more) == line + "\n" + Translate(more)
  {
    TranslatePlain(line, eol + more);
    TranslateEnd(eol, more);
    Assoc(line, eol, more);
    Assoc(line, "\n", Translate(more));
  }
}
