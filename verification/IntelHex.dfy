/**
 Saving and loading Intel HEX files (tools/hextool.py): the printing and reading loops, and
 the round trip through a file.
 */
module IntelHex {
  import opened Bytes
  import opened MemoryMap
  import opened SparseMemory
  import opened HexFormat
  import opened HexFiles

  /** An open file, as the text not read yet or as the text written so far. */
  class File {
    var text: string

    constructor (text: string)
      ensures this.text == text
    {
      this.text := text;
    }

    /** The next line, cut off after `max` characters; empty at the end of the file. */
    method ReadLine(max: nat) returns (line: string)
      modifies this
      ensures line + text == old(text) && |line| == LineLength(old(text), max)
      ensures |text| == |old(text)| - |line| && (max > 0 ==> (line == "" <==> old(text) == ""))
    {
      var n := LineLength(text, max);
      line := text[..n];
      text := text[n..];
      assert line + text == old(text);
    }

    method Write(s: string)
      modifies this
      ensures text == old(text) + s
    {
      text := text + s;
    }
  }

  // ---- Saving ---------------------------------------------------------------------------------

  lemma {:induction false} LinesConcat(a: seq<seq<u8>>, b: seq<seq<u8>>)
    ensures Lines(a + b) == Lines(a) + Lines(b)
  {
    if a == [] {
      assert a + b == b;
    } else {
      LinesConcat(a[1..], b);
      assert (a + b)[1..] == a[1..] + b;
      Assoc(RecordLine(a[0]), Lines(a[1..]), Lines(b));
    }
  }

  lemma LinesCons(record: seq<u8>, rest: seq<seq<u8>>)
    ensures Lines([record] + rest) == RecordLine(record) + Lines(rest)
  {
    assert ([record] + rest)[1..] == rest;
  }

  /** What a file is to hold when the records of `mr` from `address` on have been added to `written`. */
  ghost predicate Leads(written: string, mr: Range, wide: bool, maxLen: nat, address: nat, writeAddress: bool,
                        whole: string)
    requires mr.start <= address <= mr.End() && 1 <= maxLen < 0x100
  {
    written + Lines(RangeRecords(mr, wide, maxLen, address, writeAddress)) == whole
  }

  lemma LeadsAddress(written: string, mr: Range, maxLen: nat, address: nat, whole: string)
    requires mr.start <= address < mr.End() && 1 <= maxLen < 0x100
    requires Leads(written, mr, true, maxLen, address, true, whole)
    ensures Leads(written + RecordLine(AddressRecord(address)), mr, true, maxLen, address, false, whole)
  {
    var rest := RangeRecords(mr, true, maxLen, address, false);
    LinesCons(AddressRecord(address), rest);
    Assoc(written, RecordLine(AddressRecord(address)), Lines(rest));
  }

  lemma LeadsData(written: string, mr: Range, wide: bool, maxLen: nat, address: nat, writeAddress: bool, whole: string)
    requires mr.start <= address < mr.End() && 1 <= maxLen < 0x100
    requires !(writeAddress && wide)
    requires Leads(written, mr, wide, maxLen, address, writeAddress, whole)
    ensures var c := Chunk(mr, address, maxLen);
            Leads(written + RecordLine(RecordBytes(address % 0x1_0000, 0, c.bytes)),
                  mr, wide, maxLen, c.End(), c.End() % 0x1_0000 == 0, whole)
  {
    var c := Chunk(mr, address, maxLen);
    var record := RecordBytes(address % 0x1_0000, 0, c.bytes);
    var rest := RangeRecords(mr, wide, maxLen, c.End(), c.End() % 0x1_0000 == 0);
    LinesCons(record, rest);
    Assoc(written, RecordLine(record), Lines(rest));
  }

  /** The data record at `address` and the address after it. */
  method WriteDataRecord(file: File, mr: MemoryRange, maxRecordLen: nat, address: nat) returns (next: nat)
    requires mr.Valid() && mr.start <= address < mr.end && 1 <= maxRecordLen < 0x100
    modifies file
    ensures var c := Chunk(mr.View(), address, maxRecordLen);
            && next == c.End()
            && file.text == old(file.text) + RecordLine(RecordBytes(address % 0x1_0000, 0, c.bytes))
  {
    ghost var r := mr.View();
    var n := Min(Min(maxRecordLen, 0x1_0000 - address % 0x1_0000), mr.end - address);
    var from := address - mr.start;
    var data := mr.buffer[..mr.numBytes][from..from + n];
    assert data == Chunk(r, address, maxRecordLen).bytes;
    file.Write(RecordLine(RecordBytes(address % 0x1_0000, 0, data)));
    next := address + n;
  }

  /** All records of one range. */
  method WriteMemoryRangeRecords(file: File, mr: MemoryRange, wide: bool, maxRecordLen: nat)
    requires mr.Valid() && 1 <= maxRecordLen < 0x100
    modifies file
    ensures file.text == old(file.text) + Lines(RangeRecords(mr.View(), wide, maxRecordLen, mr.start, true))
  {
    ghost var r := mr.View();
    ghost var whole := file.text + Lines(RangeRecords(r, wide, maxRecordLen, mr.start, true));
    var address, writeAddress := mr.start, true;
    while address < mr.end
      invariant r.start <= address <= r.End() && Leads(file.text, r, wide, maxRecordLen, address, writeAddress, whole)
      decreases mr.end - address
    {
      ghost var written := file.text;
      if writeAddress {
        if wide {
          LeadsAddress(written, r, maxRecordLen, address, whole);
          file.Write(RecordLine(AddressRecord(address)));
        }
        writeAddress := false;
      }
      LeadsData(file.text, r, wide, maxRecordLen, address, false, whole);
      address := WriteDataRecord(file, mr, maxRecordLen, address);
      if address % 0x1_0000 == 0 {
        writeAddress := true;
      }
    }
  }

  ghost predicate Saved(text: string, before: string, v: seq<Range>, n: nat, wide: bool, maxLen: nat)
    requires n <= |v| && 1 <= maxLen < 0x100
  {
    text == before + Lines(AllRecords(v[..n], wide, maxLen))
  }

  lemma SavedStep(text: string, before: string, v: seq<Range>, n: nat, wide: bool, maxLen: nat)
    requires n < |v| && 1 <= maxLen < 0x100 && Saved(text, before, v, n, wide, maxLen)
    ensures Saved(text + Lines(RangeRecords(v[n], wide, maxLen, v[n].start, true)), before, v, n + 1, wide, maxLen)
  {
    var records := RangeRecords(v[n], wide, maxLen, v[n].start, true);
    assert v[..n + 1][..n] == v[..n];
    LinesConcat(AllRecords(v[..n], wide, maxLen), records);
    Assoc(before, Lines(AllRecords(v[..n], wide, maxLen)), Lines(records));
  }

  lemma SavedEnd(text: string, before: string, v: seq<Range>, maxLen: nat)
    requires 1 <= maxLen < 0x100 && Saved(text, before, v, |v|, Wide(v), maxLen)
    ensures text + RecordLine(RecordBytes(0, 1, [])) == before + Lines(FileRecords(v, maxLen))
  {
    var last := [RecordBytes(0, 1, [])];
    assert v[..|v|] == v;
    LinesConcat(AllRecords(v, Wide(v), maxLen), last);
    LinesCons(last[0], []);
    assert Lines(last) == RecordLine(last[0]);
    Assoc(before, Lines(AllRecords(v, Wide(v), maxLen)), Lines(last));
  }

  method WriteRanges(file: File, ranges: seq<MemoryRange>, wide: bool, maxRecordLen: nat, ghost v: seq<Range>)
    requires |ranges| == |v| && forall i | 0 <= i < |v| :: ranges[i].Valid() && ranges[i].View() == v[i]
    requires 1 <= maxRecordLen < 0x100
    modifies file
    ensures Saved(file.text, old(file.text), v, |v|, wide, maxRecordLen)
  {
    var n := 0;
    while n < |ranges|
      invariant 0 <= n <= |ranges| && Saved(file.text, old(file.text), v, n, wide, maxRecordLen)
    {
      SavedStep(file.text, old(file.text), v, n, wide, maxRecordLen);
      WriteMemoryRangeRecords(file, ranges[n], wide, maxRecordLen);
      n := n + 1;
    }
  }

  method SaveIntelHex(memory: Memory, file: File, maxRecordLen: nat)
    requires memory.Valid() && 1 <= maxRecordLen < 0x100
    modifies file
    ensures file.text == old(file.text) + Lines(FileRecords(old(Views(memory.ranges)), maxRecordLen))
  {
    ghost var v, before := Views(memory.ranges), file.text;
    var ranges := memory.ranges;
    var wide := |ranges| > 0 && ranges[|ranges| - 1].end > 0x1_0000;
    assert v != [] ==> v[|v| - 1] == ranges[|ranges| - 1].View();
    WriteRanges(file, ranges, wide, maxRecordLen, v);
    SavedEnd(file.text, before, v, maxRecordLen);
    file.Write(RecordLine(RecordBytes(0, 1, [])));
  }

  // ---- Loading --------------------------------------------------------------------------------

  /** The outcome of a write on the list of ranges is the outcome on the map. */
  lemma WriteOutcomeMap(v: seq<Range>, top: nat, overlapOk: bool, address: int, data: seq<u8>)
    requires Canonical(v)
    ensures WriteOutcome(v, top, overlapOk, address, address + |data|, data) == Written
            <==> StoreData(ToMap(v), top, overlapOk, address, data).Loaded?
  {
    if address >= 0 {
      var w := Range(address, data);
      if data != [] {
        ToMapMeets(v, w);
      } else {
        assert RangeMap(w) == map[];
      }
    }
  }

  lemma StoreDataMap(v: seq<Range>, v': seq<Range>, top: nat, overlapOk: bool, address: nat, data: seq<u8>)
    requires Canonical(v) && Overwritten(v', v, Range(address, data))
    requires StoreData(ToMap(v), top, overlapOk, address, data).Loaded?
    ensures StoreData(ToMap(v), top, overlapOk, address, data) == Loaded(ToMap(v'))
  {
    ToMapOverwritten(v', v, Range(address, data));
  }

  /** One line; `Stopped` where the code raises. */
  method ParseIntelHexRecord(memory: Memory, offset: int, base: Base, line: string) returns (ok: bool, next: Base)
    requires memory.Valid()
    modifies memory, memory.ranges
    ensures memory.overlapOk == old(memory.overlapOk)
    ensures forall i | 0 <= i < |memory.ranges| :: memory.ranges[i] in old(memory.ranges) || fresh(memory.ranges[i])
    ensures var record := ParseRecord(offset, base, line);
            var r := Apply(old(Contents(memory)), memory.topAddress, memory.overlapOk, base, record);
            if ok then memory.Valid() && r == Run(Contents(memory), next) else r == Stopped
  {
    var record := ParseRecord(offset, base, line);
    match record {
      case Fault => return false, base;
      case NoData(address) => return true, address;
      case Data(address, data) =>
        ghost var v := Views(memory.ranges);
        WriteOutcomeMap(v, memory.topAddress, memory.overlapOk, address, data);
        var r := memory.Set(address, address + |data|, data);
        if r == Written {
          StoreDataMap(v, Views(memory.ranges), memory.topAddress, memory.overlapOk, address, data);
        }
        return r == Written, base;
    }
  }

  /** From here on loading ends with `whole`. */
  ghost predicate Loading(m: map<int, u8>, top: nat, overlapOk: bool, offset: int, base: Base, text: string,
                          whole: Loaded) {
    LoadText(m, top, overlapOk, offset, base, text) == whole
  }

  lemma LoadingStep(m: map<int, u8>, top: nat, overlapOk: bool, offset: int, base: Base, line: string, rest: string,
                    text: string, whole: Loaded)
    requires text == line + rest && Loading(m, top, overlapOk, offset, base, text, whole)
    requires base != Finished && line != "" && |line| == LineLength(text, MAX_LINE_LENGTH)
    ensures var r := Apply(m, top, overlapOk, base, ParseRecord(offset, base, line));
            if r.Stopped? then whole == Failed else Loading(r.m, top, overlapOk, offset, r.base, rest, whole)
  {
    assert text[..|line|] == line && text[|line|..] == rest;
  }

  lemma LoadingEnd(m: map<int, u8>, top: nat, overlapOk: bool, offset: int, base: Base, text: string, whole: Loaded)
    requires Loading(m, top, overlapOk, offset, base, text, whole)
    requires base == Finished || text == ""
    ensures whole == Loaded(m)
  {
  }

  /** The map a memory stands for. */
  ghost function Contents(memory: Memory): map<int, u8>
    reads memory, memory.ranges
  {
    ToMap(Views(memory.ranges))
  }

  /** Loading a text gives `m'`, or fails. */
  ghost predicate LoadsText(m: map<int, u8>, top: nat, overlapOk: bool, offset: int, text: string, ok: bool,
                            m': map<int, u8>) {
    LoadText(m, top, overlapOk, offset, Address(0), text) == if ok then Loaded(m') else Failed
  }

  /** What has been loaded so far: the memory holds `m`, and the rest of the file leads to `whole`. */
  ghost predicate Halfway(memory: Memory, file: File, offset: int, overlapOk: bool, base: Base, whole: Loaded)
    reads memory, memory.ranges, file
  {
    && memory.Valid() && memory.overlapOk == overlapOk
    && Loading(Contents(memory), memory.topAddress, overlapOk, offset, base, file.text, whole)
  }

  /** One line is read and dealt with. */
  method LoadLine(memory: Memory, file: File, offset: int, overlapOk: bool, base: Base, ghost whole: Loaded)
    returns (ok: bool, end: bool, next: Base)
    requires Halfway(memory, file, offset, overlapOk, base, whole) && base != Finished
    modifies memory, memory.ranges, file
    ensures if !ok then whole == Failed else Halfway(memory, file, offset, overlapOk, next, whole)
    ensures ok && end ==> file.text == ""
    ensures ok && !end ==> |file.text| < |old(file.text)|
    ensures forall i | 0 <= i < |memory.ranges| :: memory.ranges[i] in old(memory.ranges) || fresh(memory.ranges[i])
  {
    ghost var m, text, top := Contents(memory), file.text, memory.topAddress;
    ok, end, next := true, false, base;
    var line := file.ReadLine(MAX_LINE_LENGTH);
    if line == "" {
      end := true;
      assert file.text == text && Contents(memory) == m;
    } else {
      LoadingStep(m, top, overlapOk, offset, base, line, file.text, text, whole);
      ok, next := ParseIntelHexRecord(memory, offset, base, line);
    }
  }

  /** Reading records until the End Of File record, the end of the file or an error. */
  method LoadIntelHex(memory: Memory, file: File, offset: int, overlapOk: bool) returns (ok: bool)
    requires memory.Valid()
    modifies memory, memory.ranges, file
    ensures ok ==> memory.Valid()
    ensures LoadsText(old(Contents(memory)), memory.topAddress, overlapOk, offset, old(file.text), ok, Contents(memory))
  {
    ghost var m, text, top := Contents(memory), file.text, memory.topAddress;
    ghost var whole := LoadText(m, top, overlapOk, offset, Address(0), text);
    memory.overlapOk := overlapOk;
    var base, end := Address(0), false;
    assert Contents(memory) == m;
    while base != Finished && !end
      invariant Halfway(memory, file, offset, overlapOk, base, whole) && (end ==> file.text == "")
      invariant forall i | 0 <= i < |memory.ranges| :: memory.ranges[i] in old(memory.ranges) || fresh(memory.ranges[i])
      decreases !end, |file.text|
    {
      ghost var before := memory.ranges;
      ok, end, base := LoadLine(memory, file, offset, overlapOk, base, whole);
      if !ok {
        return;
      }
      assert forall i | 0 <= i < |memory.ranges| :: memory.ranges[i] in before || fresh(memory.ranges[i]);
    }
    m := Contents(memory);
    LoadingEnd(m, top, overlapOk, offset, base, file.text, whole);
    memory.Trim();
    assert Contents(memory) == m;
    ok := true;
  }

  /** Universal newlines: the text that is read from a file opened for reading. */
  method OpenText(file: File) returns (r: File)
    ensures fresh(r) && r.text == Translate(file.text)
  {
    r := new File(Translate(file.text));
  }

  // ---- The round trip -------------------------------------------------------------------------

  /**
   Any memory below 2^32, saved and loaded into an empty memory of sufficient size, comes back as
   the identical list of ranges, or is refused. It is refused exactly if records of more than 122
   bytes are asked for and there is data for one.
   */
  lemma {:induction false} RoundTrip(v: seq<Range>, v': seq<Range>, top: nat, overlapOk: bool, maxRecordLen: nat,
                                     ok: bool)
    requires Canonical(v) && (ok ==> Canonical(v')) && 1 <= maxRecordLen < 0x100
    requires forall i | 0 <= i < |v| :: v[i].End() <= top && v[i].End() <= 0x1_0000_0000
    requires LoadsText(map[], top, overlapOk, 0, Translate(Lines(FileRecords(v, maxRecordLen))), ok, ToMap(v'))
    ensures ok <==> maxRecordLen <= 122 || !LongPieces(v)
    ensures ok ==> v' == v
  {
    FileRoundTrip(v, top, overlapOk, maxRecordLen);
    if ok { ToMapInjective(v, v'); }
  }

  method SaveAndLoad(memory: Memory, maxRecordLen: nat, overlapOk: bool, gapFillByte: u8)
    returns (ok: bool, copy: Memory)
    requires memory.Valid() && 1 <= maxRecordLen < 0x100 && memory.topAddress <= 0x1_0000_0000
    ensures ok <==> maxRecordLen <= 122 || !LongPieces(old(Views(memory.ranges)))
    ensures ok ==> copy.Valid() && Views(copy.ranges) == old(Views(memory.ranges))
  {
    ghost var v, top := Views(memory.ranges), memory.topAddress;
    assert forall i | 0 <= i < |v| :: v[i].End() == memory.ranges[i].end;
    var file := new File("");
    SaveIntelHex(memory, file, maxRecordLen);
    assert file.text == Lines(FileRecords(v, maxRecordLen));
    var text := OpenText(file);
    copy := new Memory(memory.topAddress, overlapOk, gapFillByte);
    assert Contents(copy) == map[];
    ok := LoadIntelHex(copy, text, 0, overlapOk);
    RoundTrip(v, Views(copy.ranges), top, overlapOk, maxRecordLen, ok);
  }
}
