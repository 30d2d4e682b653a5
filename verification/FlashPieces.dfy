/**
 What is written into a flash image (tools/genhex.py): the settings of the bootloader, the
 files of the areas and their headers, as pieces written one after the other.
 */
module FlashPieces {
  import opened Wrappers
  import opened Bytes
  import opened MemoryMap
  import opened SparseMemory
  import opened BootloaderConfig

  /** Size of the address space of a memory, when none is given. */
  const TOP: nat := 0x1_0000_0000

  const BL_INFO_HEADER_OFFSET: nat := 16
  const BL_INFO_HEADER_SIZE: nat := 20

  datatype Version = Version(major: u8, minor: u8, maint: u8, devel: u8)

  /** What is kept of an input file. */
  datatype File = File(areaId: u32, version: Version, rawData: seq<u8>)

  // ---- Pieces -----------------------------------------------------------------------------------

  /** Bytes for an address, and whether they may overwrite others. */
  datatype Piece = Piece(address: int, bytes: seq<u8>, over: bool) {
    predicate Holds(a: int) { address <= a < address + |bytes| }

    function At(a: int): u8
      requires Holds(a)
    {
      bytes[a - address]
    }
  }

  /** Pieces written one after the other. */
  datatype Writes = Start | Then(before: Writes, piece: Piece)

  /** The byte at an address after the pieces have been written over `base`. */
  function Top(ws: Writes, base: Option<u8>, a: int): Option<u8>
  {
    match ws
    case Start => base
    case Then(before, p) => if p.Holds(a) then Some(p.At(a)) else Top(before, base, a)
  }

  /** The piece lies in the address space and, unless it may, on no byte that is there already. */
  ghost predicate Lands(was: seq<Range>, before: Writes, p: Piece) {
    && 0 <= p.address && p.address + |p.bytes| <= TOP
    && (p.over || forall a: int | p.Holds(a) :: Top(before, Lookup(was, a), a) == None)
  }

  /** Every piece lands, written over those before it. */
  ghost predicate AllLand(was: seq<Range>, ws: Writes) {
    match ws
    case Start => true
    case Then(before, p) => AllLand(was, before) && Lands(was, before, p)
  }

  /** `rs` is `was` with the pieces written over it. */
  ghost predicate Painted(rs: seq<Range>, was: seq<Range>, ws: Writes) {
    forall a: int :: Lookup(rs, a) == Top(ws, Lookup(was, a), a)
  }

  /** A write at the cursor goes through exactly when the piece lands. */
  lemma {:induction false} WrittenLands(rs: seq<Range>, was: seq<Range>, ws: Writes, p: Piece)
    requires Canonical(rs) && Painted(rs, was, ws)
    ensures WriteOutcome(rs, TOP, p.over, p.address, p.address + |p.bytes|, p.bytes) == Written <==> Lands(was, ws, p)
  {
    if 0 <= p.address && p.address + |p.bytes| <= TOP {
      var w := Range(p.address, p.bytes);
      assert forall a: int :: w.Holds(a) == p.Holds(a);
      assert forall a: int :: Lookup(rs, a) == Top(ws, Lookup(was, a), a);
      if p.bytes != [] {
        MeetsStored(rs, w);
      }
    }
  }

  lemma {:induction false} PaintedThen(rs': seq<Range>, rs: seq<Range>, was: seq<Range>, ws: Writes, p: Piece)
    requires Painted(rs, was, ws) && p.address >= 0 && Overwritten(rs', rs, Range(p.address, p.bytes))
    ensures Painted(rs', was, Then(ws, p))
  {
    var w := Range(p.address, p.bytes);
    forall a: int
      ensures Lookup(rs', a) == Top(Then(ws, p), Lookup(was, a), a)
    {
      OverwrittenAt(rs', rs, w, a);
      assert Lookup(rs, a) == Top(ws, Lookup(was, a), a);
    }
  }

  /** One more piece is added to a memory at its cursor. */
  method Add(memory: Memory, ghost was: seq<Range>, ghost ws: Writes, bytes: seq<u8>) returns (ok: bool)
    requires memory.Valid() && memory.topAddress == TOP
    requires AllLand(was, ws) && Painted(Views(memory.ranges), was, ws)
    modifies memory, memory.ranges
    ensures ok <==> AllLand(was, Then(ws, old(Piece(memory.cursor, bytes, memory.overlapOk))))
    ensures ok ==> memory.Valid() && memory.cursor == old(memory.cursor) + |bytes|
                   && Painted(Views(memory.ranges), was, Then(ws, old(Piece(memory.cursor, bytes, memory.overlapOk))))
    ensures memory.overlapOk == old(memory.overlapOk)
    ensures forall i | 0 <= i < |memory.ranges| :: memory.ranges[i] in old(memory.ranges) || fresh(memory.ranges[i])
  {
    ghost var rs, p := Views(memory.ranges), Piece(memory.cursor, bytes, memory.overlapOk);
    WrittenLands(rs, was, ws, p);
    var r := memory.AddBytes(bytes);
    ok := r == Written;
    if ok {
      PaintedThen(Views(memory.ranges), rs, was, ws, p);
    }
  }

  // ---- Bootloader settings ------------------------------------------------------------------------

  predicate IsWord(x: int) { 0 <= x < 0x1_0000_0000 }

  /** The area can be stored: four words. */
  predicate Packs(a: Area) { IsWord(a.address) && IsWord(a.length) && IsWord(a.id) && IsWord(a.Word()) }

  function Entry(a: Area): (bs: seq<u8>)
    requires Packs(a)
    ensures |bs| == 16
  {
    LeBytes(a.address, 4) + LeBytes(a.length, 4) + LeBytes(a.id, 4) + LeBytes(a.Word(), 4)
  }

  predicate AllPack(areas: seq<Area>) { forall i | 0 <= i < |areas| :: Packs(areas[i]) }

  function Table(areas: seq<Area>): (bs: seq<u8>)
    requires AllPack(areas)
    ensures |bs| == 16 * |areas|
  {
    if areas == [] then [] else Table(areas[..|areas| - 1]) + Entry(areas[|areas| - 1])
  }

  function KeyTable(keys: seq<Key>): (bs: seq<u8>)
    ensures |bs| == 32 * |keys|
  {
    if keys == [] then []
    else KeyTable(keys[..|keys| - 1]) + keys[|keys| - 1].authentication + keys[|keys| - 1].encryption
  }

  /** An area as the bootloader reads it from its table. */
  datatype AreaEntry = AreaEntry(address: nat, length: nat, id: nat, flags: nat, kind: nat)

  function ReadEntry(bs: seq<u8>): AreaEntry
    requires |bs| == 16
  {
    var word := LeVal(bs[12..]);
    AreaEntry(LeVal(bs[..4]), LeVal(bs[4..8]), LeVal(bs[8..12]), word % 4, word / 4)
  }

  lemma {:induction false} EntryInTable(areas: seq<Area>, n: nat)
    requires AllPack(areas) && n < |areas|
    ensures Table(areas)[16 * n..16 * n + 16] == Entry(areas[n])
  {
    var m := |areas| - 1;
    if n < m {
      EntryInTable(areas[..m], n);
    }
  }

  /** Reading the table gives back every area. */
  lemma {:induction false} TableRoundTrip(areas: seq<Area>, n: nat)
    requires AllPack(areas) && n < |areas| && areas[n].Made()
    ensures var a := areas[n];
            ReadEntry(Table(areas)[16 * n..16 * n + 16]) == AreaEntry(a.address, a.length, a.id, a.flags, a.kind)
  {
    EntryInTable(areas, n);
    EntryReads(areas[n]);
  }

  lemma {:induction false} WordReads(v: nat, n: nat)
    requires IsWord(v) && n == 4
    ensures LeVal(LeBytes(v, n)) == v
  {
    Pow256Values();
    LeValOfBytes(v, n);
  }

  lemma {:induction false} WordInEntry(a: Area)
    requires Packs(a)
    ensures var e := Entry(a);
            && e[..4] == LeBytes(a.address, 4) && e[4..8] == LeBytes(a.length, 4)
            && e[8..12] == LeBytes(a.id, 4) && e[12..] == LeBytes(a.Word(), 4)
  {
  }

  lemma {:induction false} EntryReads(a: Area)
    requires Packs(a) && a.Made()
    ensures ReadEntry(Entry(a)) == AreaEntry(a.address, a.length, a.id, a.flags, a.kind)
  {
    var four := 4;
    WordReads(a.address, four);
    WordReads(a.length, four);
    WordReads(a.id, four);
    WordReads(a.Word(), four);
    WordInEntry(a);
  }

  lemma {:induction false} KeyInTable(keys: seq<Key>, n: nat)
    requires n < |keys|
    ensures KeyTable(keys)[32 * n..32 * n + 16] == keys[n].authentication
    ensures KeyTable(keys)[32 * n + 16..32 * n + 32] == keys[n].encryption
  {
    var m := |keys| - 1;
    if n < m {
      KeyInTable(keys[..m], n);
    }
  }

  /** The byte of a table that starts at `start`. */
  function TableByte(bs: seq<u8>, start: int, a: int): Option<u8>
  {
    if start <= a < start + |bs| then Some(bs[a - start]) else None
  }

  /** The bootloader with its settings replaced: areas at the start of the settings, keys after room for all areas. */
  function BootloaderByte(b: Area, areas: seq<u8>, keys: seq<u8>, loaded: Option<u8>, a: int): Option<u8>
    requires b.settings.Some?
  {
    if b.SettingsStart() <= a < b.KeyStart() then TableByte(areas, b.SettingsStart(), a)
    else if b.KeyStart() <= a < b.SettingsEnd() then TableByte(keys, b.KeyStart(), a)
    else loaded
  }

  // ---- Files ----------------------------------------------------------------------------------------

  /** Division as it is written: a quotient cut off towards zero. */
  function Quotient(n: nat, d: int): int
    requires d != 0
  {
    if d > 0 then n / d else -(n / -d)
  }

  function WrittenSize(n: nat, eraseBlock: int): int
    requires eraseBlock != 0
  {
    (Quotient(n, eraseBlock) + 1) * eraseBlock
  }

  /** The least number of whole blocks that holds `n` bytes. */
  ghost predicate IsBlocks(k: nat, n: nat, block: nat) {
    n <= k * block && forall j: nat | n <= j * block :: k <= j
  }

  lemma {:induction false} Monotonic(i: int, j: int, d: nat)
    requires i <= j
    ensures i * d <= j * d
  {
  }

  lemma {:induction false} OneMore(i: int, d: nat)
    ensures (i + 1) * d == i * d + d
  {
  }

  lemma {:induction false} BlocksAre(k: nat, n: nat, block: nat, q: nat, r: nat)
    requires IsBlocks(k, n, block) && n == q * block + r && r < block
    ensures k == if r == 0 then q else q + 1
  {
    OneMore(q, block);
    if r > 0 {
      assert n <= (q + 1) * block;
      if k <= q { Monotonic(k, q, block); }
    } else {
      assert n <= q * block;
      if k < q {
        OneMore(k, block);
        Monotonic(k + 1, q, block);
      }
    }
  }

  /**
   The recorded size is said to be rounded up to a whole number of erase blocks. It is, except
   when the size is a whole number already: then it is one block too large.
   */
  lemma {:induction false} WrittenSizeRounds(n: nat, eraseBlock: nat, k: nat)
    requires eraseBlock > 0 && IsBlocks(k, n, eraseBlock)
    ensures WrittenSize(n, eraseBlock) == k * eraseBlock <==> n % eraseBlock != 0
    ensures n % eraseBlock == 0 ==> WrittenSize(n, eraseBlock) == k * eraseBlock + eraseBlock
  {
    var q, r := n / eraseBlock, n % eraseBlock;
    BlocksAre(k, n, eraseBlock, q, r);
    OneMore(q, eraseBlock);
  }

  /** The header that describes a file to the bootloader; none where the code raises. */
  function InfoHeader(f: File, eraseBlock: Option<int>): (r: Option<seq<u8>>)
    ensures r.Some? ==> |r.value| == BL_INFO_HEADER_SIZE
  {
    if eraseBlock.None? || eraseBlock.value == 0 || !IsWord(WrittenSize(|f.rawData|, eraseBlock.value)) then None
    else
      Some([0xf0, 0xff, 0xff, 0xff, 0xff, 0xff, 0xff, 0x00] + LeBytes(f.areaId, 4)
           + [f.version.major, f.version.minor, f.version.maint, f.version.devel]
           + LeBytes(WrittenSize(|f.rawData|, eraseBlock.value), 4))
  }

  /** The header may overwrite the bytes of the file, if the area is to have one. */
  function WithHeader(ws: Writes, area: Area, f: File, eraseBlock: Option<int>): Writes
  {
    var header := InfoHeader(f, eraseBlock);
    if area.HasInfoHeader() && header.Some? then
      Then(ws, Piece(area.address + BL_INFO_HEADER_OFFSET, header.value, true))
    else ws
  }

  /** The bytes of a file go to the start of an area that has its id. */
  function WithArea(ws: Writes, area: Area, f: File, eraseBlock: Option<int>): Writes
  {
    if area.id != f.areaId then ws
    else WithHeader(Then(ws, Piece(area.address, f.rawData, false)), area, f, eraseBlock)
  }

  /** The file may go into the area. */
  predicate Accepts(area: Area, f: File, eraseBlock: Option<int>) {
    area.id == f.areaId ==>
      |f.rawData| <= area.length && (area.HasInfoHeader() ==> InfoHeader(f, eraseBlock).Some?)
  }

  /** What one file puts into the first `n` areas. */
  function WithAreas(ws: Writes, areas: seq<Area>, n: nat, f: File, eraseBlock: Option<int>): Writes
    requires n <= |areas|
  {
    if n == 0 then ws else WithArea(WithAreas(ws, areas, n - 1, f, eraseBlock), areas[n - 1], f, eraseBlock)
  }

  predicate HasArea(areas: seq<Area>, f: File) { exists i :: 0 <= i < |areas| && areas[i].id == f.areaId }

  predicate FileAccepted(areas: seq<Area>, f: File, eraseBlock: Option<int>) {
    HasArea(areas, f) && forall i | 0 <= i < |areas| :: Accepts(areas[i], f, eraseBlock)
  }

  predicate AllAccepted(areas: seq<Area>, files: seq<File>, n: nat, eraseBlock: Option<int>)
    requires n <= |files|
  {
    forall k | 0 <= k < n :: FileAccepted(areas, files[k], eraseBlock)
  }

  /** All that the first `n` files put into the areas. */
  function WithFiles(areas: seq<Area>, files: seq<File>, n: nat, eraseBlock: Option<int>): Writes
    requires n <= |files|
  {
    if n == 0 then Start
    else WithAreas(WithFiles(areas, files, n - 1, eraseBlock), areas, |areas|, files[n - 1], eraseBlock)
  }

  lemma {:induction false} AreaLands(was: seq<Range>, ws: Writes, area: Area, f: File, eraseBlock: Option<int>)
    ensures AllLand(was, WithArea(ws, area, f, eraseBlock)) ==> AllLand(was, ws)
  {
    var data := Then(ws, Piece(area.address, f.rawData, false));
    assert AllLand(was, WithHeader(data, area, f, eraseBlock)) ==> AllLand(was, data);
  }

  /** If the pieces for all areas land, so do those for the first areas. */
  lemma {:induction false} AreasLand(was: seq<Range>, ws: Writes, areas: seq<Area>, n: nat, m: nat, f: File,
                                    eraseBlock: Option<int>)
    requires n <= m <= |areas|
    ensures AllLand(was, WithAreas(ws, areas, m, f, eraseBlock)) ==>
                AllLand(was, WithAreas(ws, areas, n, f, eraseBlock))
  {
    if n < m {
      AreasLand(was, ws, areas, n, m - 1, f, eraseBlock);
      AreaLands(was, WithAreas(ws, areas, m - 1, f, eraseBlock), areas[m - 1], f, eraseBlock);
    }
  }

  lemma {:induction false} FilesLand(was: seq<Range>, areas: seq<Area>, files: seq<File>, n: nat, m: nat,
                                    eraseBlock: Option<int>)
    requires n <= m <= |files|
    ensures AllLand(was, WithFiles(areas, files, m, eraseBlock)) ==>
                AllLand(was, WithFiles(areas, files, n, eraseBlock))
  {
    if n < m {
      FilesLand(was, areas, files, n, m - 1, eraseBlock);
      AreasLand(was, WithFiles(areas, files, m - 1, eraseBlock), areas, 0, |areas|, files[m - 1], eraseBlock);
    }
  }
}
