/**
 What a bootloader reads from a flash image (tools/genhex.py): areas, keys, files and their headers
 at their addresses, in numbers.
 */
module FlashReading {
  import opened Wrappers
  import opened Bytes
  import opened MemoryMap
  import opened BootloaderConfig
  import opened FlashPieces
  import opened FlashLayout
  import opened FlashImage

  /** These bytes are stored from `a` on. */
  ghost predicate Stored(rs: seq<Range>, a: int, bs: seq<u8>) {
    forall x: int | a <= x < a + |bs| :: Lookup(rs, x) == Some(bs[x - a])
  }

  /** The bootloader's area, as the image is made for it. */
  function Bootloader(c: Config): Area
    requires Passes(c)
  {
    FirstOfKind(c.areas, BOOTLOADER_TYPE).value
  }

  /** The image of a checked configuration: what `Generate` gives. */
  ghost predicate MadeFrom(rs: seq<Range>, c: Config, loaded: seq<Range>, files: seq<File>) {
    Suitable(c, loaded, files) && IsImage(rs, c, Bootloader(c), loaded, files)
  }

  /** The settings hold the two tables, and nothing behind them. */
  ghost predicate SettingsHold(rs: seq<Range>, start: int, areas: seq<u8>, keys: seq<u8>) {
    forall x: int | start <= x < start + 1024 ::
      Lookup(rs, x) == if x < start + 128 then TableByte(areas, start, x) else TableByte(keys, start + 128, x)
  }

  lemma {:induction false} SettingsInImage(rs: seq<Range>, c: Config, b: Area, loaded: seq<Range>, files: seq<File>)
    requires AllPack(c.areas) && AllSuit(c, files) && b.settings.Some? && IsImage(rs, c, b, loaded, files)
    requires b.settings.value >= 0 && b.settings.value + 1024 <= b.length
    ensures SettingsHold(rs, b.address + b.settings.value, Table(c.areas), KeyTable(c.keys))
  {
    var start := b.address + b.settings.value;
    forall x: int | start <= x < start + 1024
      ensures Lookup(rs, x) == if x < start + 128 then TableByte(Table(c.areas), start, x)
                               else TableByte(KeyTable(c.keys), start + 128, x)
    {
      assert b.Holds(x);
      assert Lookup(rs, x) == BootloaderByte(b, Table(c.areas), KeyTable(c.keys), Lookup(loaded, x), x);
    }
  }

  /** The settings of an image, at the place that the bootloader's section names. */
  lemma {:induction false} SettingsMade(rs: seq<Range>, c: Config, loaded: seq<Range>, files: seq<File>)
    requires MadeFrom(rs, c, loaded, files)
    ensures Bootloader(c).settings.Some? && AllPack(c.areas) && |c.areas| <= 8 && |c.keys| <= 28
    ensures SettingsHold(rs, Bootloader(c).address + Bootloader(c).settings.value, Table(c.areas), KeyTable(c.keys))
    ensures forall n | 0 <= n < |c.areas| :: c.areas[n].Made()
  {
    SettingsInImage(rs, c, Bootloader(c), loaded, files);
  }

  /** Both are stored as a whole, the keys at 128 bytes from the areas. */
  lemma {:induction false} TablesStored(rs: seq<Range>, start: int, areas: seq<u8>, keys: seq<u8>)
    requires SettingsHold(rs, start, areas, keys) && |areas| <= 128 && |keys| <= 896
    ensures Stored(rs, start, areas) && Stored(rs, start + 128, keys)
  {
  }

  lemma {:induction false} StoredPart(rs: seq<Range>, a: int, bs: seq<u8>, i: nat, j: nat, part: seq<u8>)
    requires Stored(rs, a, bs) && i <= j <= |bs| && part == bs[i..j]
    ensures Stored(rs, a + i, part)
  {
    forall x: int | a + i <= x < a + i + |part|
      ensures Lookup(rs, x) == Some(part[x - (a + i)])
    {
      assert part[x - (a + i)] == bs[x - a];
    }
  }

  /** Sixteen bytes that describe an area: address, length, id, flags and type. */
  predicate Describes(e: seq<u8>, a: Area) {
    && |e| == 16
    && LeVal(e[..4]) == a.address && LeVal(e[4..8]) == a.length && LeVal(e[8..12]) == a.id
    && LeVal(e[12..]) % 4 == a.flags && LeVal(e[12..]) / 4 == a.kind
  }

  /** Every area is described by 16 bytes, one after the other. */
  lemma {:induction false} AreaIn(rs: seq<Range>, start: int, areas: seq<Area>, n: nat) returns (e: seq<u8>)
    requires AllPack(areas) && n < |areas| && areas[n].Made() && Stored(rs, start, Table(areas))
    ensures Stored(rs, start + 16 * n, e) && Describes(e, areas[n])
  {
    e := Table(areas)[16 * n..16 * n + 16];
    TableRoundTrip(areas, n);
    StoredPart(rs, start, Table(areas), 16 * n, 16 * n + 16, e);
  }

  /** Each pair of keys takes 32 bytes, the one for authentication first. */
  lemma {:induction false} KeyIn(rs: seq<Range>, start: int, keys: seq<Key>, n: nat)
    requires n < |keys| && Stored(rs, start, KeyTable(keys))
    ensures Stored(rs, start + 32 * n, keys[n].authentication) && Stored(rs, start + (32 * n + 16), keys[n].encryption)
  {
    KeyInTable(keys, n);
    StoredPart(rs, start, KeyTable(keys), 32 * n, 32 * n + 16, keys[n].authentication);
    StoredPart(rs, start, KeyTable(keys), 32 * n + 16, 32 * n + 32, keys[n].encryption);
  }

  /** What is left of the bootloader around the settings is as it was loaded. */
  lemma {:induction false} RestKept(rs: seq<Range>, c: Config, loaded: seq<Range>, files: seq<File>, a: int)
    requires MadeFrom(rs, c, loaded, files) && Bootloader(c).Holds(a)
    requires var s := Bootloader(c).address + Bootloader(c).settings.value; !(s <= a < s + 1024)
    ensures Lookup(rs, a) == Lookup(loaded, a)
  {
    var b := Bootloader(c);
    assert Lookup(rs, a) == BootloaderByte(b, Table(c.areas), KeyTable(c.keys), Lookup(loaded, a), a);
  }

  /** A header of 20 bytes: no scratchpad, then id, version and recorded size. */
  predicate HeaderSays(h: seq<u8>, f: File, size: nat) {
    && |h| == 20
    && LeVal(h[..4]) == 0xffff_fff0 && LeVal(h[4..6]) == 0xffff && h[6] == 0xff && h[7] == 0
    && LeVal(h[8..12]) == f.areaId
    && h[12] == f.version.major && h[13] == f.version.minor && h[14] == f.version.maint && h[15] == f.version.devel
    && LeVal(h[16..]) == size
  }

  lemma {:induction false} FourParts(a: seq<u8>, b: seq<u8>, v: seq<u8>, s: seq<u8>)
    requires |a| == 8 && |b| == 4 && |v| == 4 && |s| == 4
    ensures var h := a + b + v + s;
            && h[..4] == a[..4] && h[4..6] == a[4..6] && h[6] == a[6] && h[7] == a[7] && h[8..12] == b
            && h[12] == v[0] && h[13] == v[1] && h[14] == v[2] && h[15] == v[3] && h[16..] == s
  {
  }

  lemma {:induction false} FixedPart(a: seq<u8>)
    requires a == [0xf0, 0xff, 0xff, 0xff, 0xff, 0xff, 0xff, 0x00]
    ensures LeVal(a[..4]) == 0xffff_fff0 && LeVal(a[4..6]) == 0xffff
  {
    var w, half := a[..4], a[4..6];
    assert w == [0xf0, 0xff, 0xff, 0xff] && half == [0xff, 0xff];
    Word(0xf0, 0xff, 0xff, 0xff);
    Half(0xff, 0xff);
  }

  lemma {:induction false} Half(a: u8, b: u8)
    ensures LeVal([a, b]) == a as int + 0x100 * b as int
  {
    assert [a, b][1..] == [b] && [b][1..] == [];
    assert LeVal([b]) == b;
  }

  lemma {:induction false} Word(a: u8, b: u8, c: u8, d: u8)
    ensures LeVal([a, b, c, d]) == a as int + 0x100 * b as int + 0x1_0000 * c as int + 0x100_0000 * d as int
  {
    assert [a, b, c, d][1..] == [b, c, d] && [b, c, d][1..] == [c, d];
    Half(c, d);
    assert LeVal([b, c, d]) == b + 0x100 * LeVal([c, d]);
  }

  /** The header of a file, where there is one, says what the file is. */
  lemma {:induction false} HeaderIsRead(f: File, eraseBlock: Option<int>)
    requires InfoHeader(f, eraseBlock).Some?
    ensures HeaderSays(InfoHeader(f, eraseBlock).value, f, WrittenSize(|f.rawData|, eraseBlock.value))
  {
    var size := WrittenSize(|f.rawData|, eraseBlock.value);
    var fixed: seq<u8> := [0xf0, 0xff, 0xff, 0xff, 0xff, 0xff, 0xff, 0x00];
    var v := [f.version.major, f.version.minor, f.version.maint, f.version.devel];
    FixedPart(fixed);
    FourParts(fixed, LeBytes(f.areaId, 4), v, LeBytes(size, 4));
    var four := 4;
    WordReads(f.areaId, four);
    WordReads(size, four);
  }

  /** The area of a file holds the file, with its header over it if the area has one. */
  ghost predicate FileHeld(rs: seq<Range>, f: File, h: Area, header: seq<u8>) {
    forall x: int | h.address <= x < h.address + h.length ::
      Lookup(rs, x) == if 16 <= x - h.address < 16 + |header| then Some(header[x - h.address - 16])
                       else TableByte(f.rawData, h.address, x)
  }

  lemma {:induction false} HeldFrom(rs: seq<Range>, c: Config, f: File) returns (header: seq<u8>)
    requires Suits(c, f) && forall x: int | HomeOf(c, f).Holds(x) :: Lookup(rs, x) == FileByte(c, f, x)
    ensures FileHeld(rs, f, HomeOf(c, f), header) && |f.rawData| <= HomeOf(c, f).length
    ensures if HomeOf(c, f).HasInfoHeader() then InfoHeader(f, c.eraseBlock) == Some(header)
            && HomeOf(c, f).length >= 36
            else header == []
  {
    var h := HomeOf(c, f);
    header := if h.HasInfoHeader() then InfoHeader(f, c.eraseBlock).value else [];
    forall x: int | h.address <= x < h.address + h.length
      ensures Lookup(rs, x) == FileByte(c, f, x)
    {
      assert h.Holds(x);
    }
  }

  lemma {:induction false} FileMade(rs: seq<Range>, c: Config, b: Area, loaded: seq<Range>, files: seq<File>, k: nat)
    requires AllPack(c.areas) && AllSuit(c, files) && b.settings.Some? && IsImage(rs, c, b, loaded, files)
             && k < |files|
    ensures Suits(c, files[k])
    ensures forall x: int | HomeOf(c, files[k]).Holds(x) :: Lookup(rs, x) == FileByte(c, files[k], x)
  {
  }

  lemma {:induction false} FlagOne(c: Config, loaded: seq<Range>, files: seq<File>, k: nat)
    requires Suitable(c, loaded, files) && k < |files|
    ensures var h := HomeOf(c, files[k]); h.HasInfoHeader() <==> h.flags == 1 || h.flags == 3
  {
    assert HomeOf(c, files[k]).Made();
  }

  lemma {:induction false} HeaderHeld(rs: seq<Range>, f: File, h: Area, header: seq<u8>)
    requires FileHeld(rs, f, h, header) && |header| == 20 && h.length >= 36
    ensures Stored(rs, h.address + 16, header)
  {
  }

  /** If flag 1 of its area is set, the header of a file is read at 16 bytes from the start of the area. */
  lemma {:induction false} HeaderRead(rs: seq<Range>, c: Config, loaded: seq<Range>, files: seq<File>, k: nat)
    returns (header: seq<u8>)
    requires MadeFrom(rs, c, loaded, files) && k < |files|
    requires var h := HomeOf(c, files[k]); h.flags == 1 || h.flags == 3
    ensures Stored(rs, HomeOf(c, files[k]).address + 16, header)
    ensures c.eraseBlock.Some? && c.eraseBlock.value != 0
            && HeaderSays(header, files[k], WrittenSize(|files[k].rawData|, c.eraseBlock.value))
  {
    FlagOne(c, loaded, files, k);
    FileMade(rs, c, Bootloader(c), loaded, files, k);
    header := HeldFrom(rs, c, files[k]);
    HeaderIsRead(files[k], c.eraseBlock);
    HeaderHeld(rs, files[k], HomeOf(c, files[k]), header);
  }

  /** Everywhere else the bytes of a file are read at its area, byte by byte. */
  lemma {:induction false} FileRead(rs: seq<Range>, c: Config, loaded: seq<Range>, files: seq<File>, k: nat, i: nat)
    requires MadeFrom(rs, c, loaded, files) && k < |files| && i < |files[k].rawData|
    requires var h := HomeOf(c, files[k]); !((h.flags == 1 || h.flags == 3) && 16 <= i < 36)
    ensures Lookup(rs, HomeOf(c, files[k]).address + i) == Some(files[k].rawData[i])
  {
    FlagOne(c, loaded, files, k);
    FileMade(rs, c, Bootloader(c), loaded, files, k);
    var header := HeldFrom(rs, c, files[k]);
    var x := HomeOf(c, files[k]).address + i;
    assert Lookup(rs, x) == TableByte(files[k].rawData, HomeOf(c, files[k]).address, x);
  }

  /** Where no area of a file and not the bootloader's lies, nothing is written. */
  lemma {:induction false} NothingElse(rs: seq<Range>, c: Config, loaded: seq<Range>, files: seq<File>, a: int)
    requires MadeFrom(rs, c, loaded, files) && !Bootloader(c).Holds(a)
    requires forall k | 0 <= k < |files| :: !HomeOf(c, files[k]).Holds(a)
    ensures Lookup(rs, a) == None
  {
  }

  // ---- Flags ----------------------------------------------------------------------------------------

  /** The bits of the word that an area is read from: 0 for a header, 1 for the external flash, 2 to 4 for its type. */
  lemma {:induction false} BitsRead(id: int, address: int, length: int, word: nat, settings: Option<int>)
    ensures var r := FromSection(id, address, length, word, settings);
            && (r.Some? <==> word / 4 % 8 <= 5 && (word / 4 % 8 == 0 ==> word % 4 == 0 && settings.Some?))
            && (r.Some? ==>
                  && r.value.id == id && r.value.address == address && r.value.length == length
                  && (r.value.HasInfoHeader() <==> word % 4 == 1 || word % 4 == 3)
                  && (r.value.IsInternal() <==> word % 4 == 0 || word % 4 == 1)
                  && r.value.kind == word / 4 % 8)
  {
  }
}
