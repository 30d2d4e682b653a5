/**
 Flash images (tools/genhex.py): the bootloader with its settings, and the image of the
 bootloader and all files, built in a sparse memory.
 */
module FlashImage {
  import opened Wrappers
  import opened Bytes
  import opened MemoryMap
  import opened SparseMemory
  import opened BootloaderConfig
  import opened FlashPieces
  import opened FlashLayout

  // ---- The bootloader -------------------------------------------------------------------------------

  ghost predicate Vacant(rs: seq<Range>, lo: int, hi: int) {
    forall a: int | lo <= a < hi :: Lookup(rs, a) == None
  }

  lemma {:induction false} RoomToWrite(rs: seq<Range>, was: seq<Range>, start: nat, bs: seq<u8>, bytes: seq<u8>,
                                       hi: nat)
    requires Canonical(rs) && Overwritten(rs, was, Range(start, bs)) && Vacant(was, start, hi)
    requires start + |bs| + |bytes| <= hi <= TOP
    ensures WriteOutcome(rs, TOP, false, start + |bs|, start + |bs| + |bytes|, bytes) == Written
  {
    var w := Range(start + |bs|, bytes);
    forall a: int | w.Holds(a)
      ensures Lookup(rs, a) == None
    {
      OverwrittenAt(rs, was, Range(start, bs), a);
    }
    if bytes != [] {
      MeetsStored(rs, w);
    }
  }

  lemma {:induction false} OverwrittenTwice(rs': seq<Range>, rs: seq<Range>, was: seq<Range>, start: nat,
                                           bs: seq<u8>, bytes: seq<u8>)
    requires Overwritten(rs, was, Range(start, bs)) && Overwritten(rs', rs, Range(start + |bs|, bytes))
    ensures Overwritten(rs', was, Range(start, bs + bytes))
  {
    var v, w, u := Range(start, bs), Range(start + |bs|, bytes), Range(start, bs + bytes);
    forall a: int
      ensures Lookup(rs', a) == if u.Holds(a) then Some(u.At(a)) else Lookup(was, a)
    {
      OverwrittenAt(rs', rs, w, a);
      OverwrittenAt(rs, was, v, a);
    }
  }

  /** Bytes behind those already written from `start` on; there is room for them up to `hi`. */
  method AddBehind(memory: Memory, bytes: seq<u8>, ghost was: seq<Range>, ghost start: nat, ghost bs: seq<u8>)
    returns (ok: bool)
    requires memory.Valid() && memory.topAddress == TOP && !memory.overlapOk && memory.cursor == start + |bs|
    requires Overwritten(Views(memory.ranges), was, Range(start, bs))
    modifies memory, memory.ranges
    ensures ok ==> memory.Valid() && memory.cursor == start + |bs| + |bytes|
                   && Overwritten(Views(memory.ranges), was, Range(start, bs + bytes))
    ensures forall hi: nat | start + |bs| + |bytes| <= hi <= TOP && Vacant(was, start, hi) :: ok
    ensures !memory.overlapOk
    ensures forall i | 0 <= i < |memory.ranges| :: memory.ranges[i] in old(memory.ranges) || fresh(memory.ranges[i])
  {
    ghost var rs := Views(memory.ranges);
    forall hi: nat | start + |bs| + |bytes| <= hi <= TOP && Vacant(was, start, hi)
      ensures WriteOutcome(rs, TOP, false, start + |bs|, start + |bs| + |bytes|, bytes) == Written
    {
      RoomToWrite(rs, was, start, bs, bytes, hi);
    }
    var r := memory.AddBytes(bytes);
    ok := r == Written;
    if ok {
      OverwrittenTwice(Views(memory.ranges), rs, was, start, bs, bytes);
    }
  }

  /** The table of areas at the cursor; false where the code raises. */
  method AddAreas(memory: Memory, areas: seq<Area>, ghost was: seq<Range>, ghost start: nat, ghost hi: nat)
    returns (ok: bool)
    requires memory.Valid() && memory.topAddress == TOP && !memory.overlapOk && memory.cursor == start
    requires Views(memory.ranges) == was && Vacant(was, start, hi) && hi <= TOP
    modifies memory, memory.ranges
    ensures ok ==> memory.Valid() && !memory.overlapOk && AllPack(areas) && memory.cursor == start + 16 * |areas|
                   && Overwritten(Views(memory.ranges), was, Range(start, Table(areas)))
    ensures AllPack(areas) && start + 16 * |areas| <= hi ==> ok
    ensures forall i | 0 <= i < |memory.ranges| :: memory.ranges[i] in old(memory.ranges) || fresh(memory.ranges[i])
  {
    var n := 0;
    while n < |areas|
      invariant 0 <= n <= |areas| && AllPack(areas[..n])
      invariant memory.Valid() && !memory.overlapOk && memory.cursor == start + 16 * n
      invariant Overwritten(Views(memory.ranges), was, Range(start, Table(areas[..n])))
      invariant forall i | 0 <= i < |memory.ranges| :: memory.ranges[i] in old(memory.ranges) || fresh(memory.ranges[i])
    {
      assert areas[..n + 1][..n] == areas[..n];
      if !Packs(areas[n]) {
        return false;
      }
      ok := AddBehind(memory, Entry(areas[n]), was, start, Table(areas[..n]));
      if !ok {
        return;
      }
      n := n + 1;
    }
    assert areas[..n] == areas;
    ok := true;
  }

  /** The keys at the cursor. */
  method AddKeys(memory: Memory, keys: seq<Key>, ghost was: seq<Range>, ghost start: nat, ghost hi: nat)
    returns (ok: bool)
    requires memory.Valid() && memory.topAddress == TOP && !memory.overlapOk && memory.cursor == start
    requires Views(memory.ranges) == was && Vacant(was, start, hi) && hi <= TOP
    modifies memory, memory.ranges
    ensures ok ==> memory.Valid() && !memory.overlapOk && memory.cursor == start + 32 * |keys|
                   && Overwritten(Views(memory.ranges), was, Range(start, KeyTable(keys)))
    ensures start + 32 * |keys| <= hi ==> ok
    ensures forall i | 0 <= i < |memory.ranges| :: memory.ranges[i] in old(memory.ranges) || fresh(memory.ranges[i])
  {
    var n := 0;
    while n < |keys|
      invariant 0 <= n <= |keys|
      invariant memory.Valid() && !memory.overlapOk && memory.cursor == start + 32 * n
      invariant Overwritten(Views(memory.ranges), was, Range(start, KeyTable(keys[..n])))
      invariant forall i | 0 <= i < |memory.ranges| :: memory.ranges[i] in old(memory.ranges) || fresh(memory.ranges[i])
    {
      assert keys[..n + 1][..n] == keys[..n];
      ghost var bs := KeyTable(keys[..n]);
      ok := AddBehind(memory, keys[n].authentication, was, start, bs);
      if !ok {
        return;
      }
      ok := AddBehind(memory, keys[n].encryption, was, start, bs + keys[n].authentication);
      if !ok {
        return;
      }
      n := n + 1;
    }
    assert keys[..n] == keys;
    ok := true;
  }

  /** When the bootloader is accepted: nothing is asked of where it ends. */
  ghost predicate Prepares(c: Config, loaded: seq<Range>) {
    && AllPack(c.areas) && |c.areas| <= MAX_NUM_MEMORY_AREAS && |c.keys| <= MAX_NUM_KEYS
    && var b := FirstOfKind(c.areas, BOOTLOADER_TYPE);
       && b.Some? && b.value.settings.Some?
       && loaded != [] && b.value.address <= loaded[0].start
       && 0 <= b.value.SettingsStart() && b.value.SettingsEnd() <= TOP
  }

  /** The settings in place of what was there. */
  ghost predicate Prepared(rs: seq<Range>, c: Config, loaded: seq<Range>, b: Area)
    requires AllPack(c.areas) && b.settings.Some?
  {
    forall a: int :: Lookup(rs, a) == BootloaderByte(b, Table(c.areas), KeyTable(c.keys), Lookup(loaded, a), a)
  }

  lemma {:induction false} SettingsPrepared(rs: seq<Range>, tabled: seq<Range>, cleared: seq<Range>, loaded: seq<Range>,
                                           c: Config, b: Area)
    requires AllPack(c.areas) && b.settings.Some? && 0 <= b.SettingsStart()
    requires |c.areas| <= MAX_NUM_MEMORY_AREAS && |c.keys| <= MAX_NUM_KEYS
    requires Removed(cleared, loaded, b.SettingsStart(), b.SettingsEnd())
    requires Overwritten(tabled, cleared, Range(b.SettingsStart(), Table(c.areas)))
    requires Overwritten(rs, tabled, Range(b.KeyStart(), KeyTable(c.keys)))
    ensures Prepared(rs, c, loaded, b)
  {
    var table, keys := Range(b.SettingsStart(), Table(c.areas)), Range(b.KeyStart(), KeyTable(c.keys));
    forall a: int
      ensures Lookup(rs, a) == BootloaderByte(b, Table(c.areas), KeyTable(c.keys), Lookup(loaded, a), a)
    {
      OverwrittenAt(rs, tabled, keys, a);
      OverwrittenAt(tabled, cleared, table, a);
      assert Lookup(cleared, a) == if b.SettingsStart() <= a < b.SettingsEnd() then None else Lookup(loaded, a);
    }
  }

  lemma {:induction false} ErasedVacant(cleared: seq<Range>, loaded: seq<Range>, start: int, end: int, hi: int)
    requires Removed(cleared, loaded, start, end) && hi <= end
    ensures Vacant(cleared, start, hi)
  {
  }

  lemma {:induction false} KeyRoomVacant(tabled: seq<Range>, cleared: seq<Range>, loaded: seq<Range>, c: Config,
                                         b: Area)
    requires AllPack(c.areas) && b.settings.Some? && 0 <= b.SettingsStart() && |c.areas| <= MAX_NUM_MEMORY_AREAS
    requires Removed(cleared, loaded, b.SettingsStart(), b.SettingsEnd())
    requires Overwritten(tabled, cleared, Range(b.SettingsStart(), Table(c.areas)))
    ensures Vacant(tabled, b.KeyStart(), b.SettingsEnd())
  {
    var table := Range(b.SettingsStart(), Table(c.areas));
    forall a: int | b.KeyStart() <= a < b.SettingsEnd()
      ensures Lookup(tabled, a) == None
    {
      OverwrittenAt(tabled, cleared, table, a);
    }
  }

  /** A new memory to which another one has been added. */
  method Copied(other: Memory, cursor: int) returns (memory: Memory)
    requires other.Valid() && other.topAddress == TOP
    ensures fresh(memory) && forall i | 0 <= i < |memory.ranges| :: fresh(memory.ranges[i])
    ensures memory.Valid() && memory.topAddress == TOP && !memory.overlapOk
    ensures SameBytes(Views(memory.ranges), Views(other.ranges))
  {
    var top := other.MemoryRanges();
    memory := new Memory(TOP, false, 0);
    memory.SetCursor(cursor);
    assert forall w :: !MeetsAny(Views(memory.ranges), w);
    var w := memory.AddMemory(top);
  }

  /** The memory with the loaded bootloader, its settings erased. */
  method EraseSettings(b: Area, bootloader: Memory) returns (r: Option<Memory>)
    requires bootloader.Valid() && bootloader.topAddress == TOP && b.settings.Some?
    ensures r.Some? <==> 0 <= b.SettingsStart() && b.SettingsEnd() <= TOP
    ensures r.Some? ==> fresh(r.value) && (forall i | 0 <= i < |r.value.ranges| :: fresh(r.value.ranges[i]))
                        && r.value.Valid() && r.value.topAddress == TOP && !r.value.overlapOk
                        && Removed(Views(r.value.ranges), Views(bootloader.ranges), b.SettingsStart(), b.SettingsEnd())
  {
    var memory := Copied(bootloader, b.address);
    var ok := memory.Delete(b.SettingsStart(), b.SettingsEnd());
    r := if ok then Some(memory) else None;
  }

  /** Areas and keys go to where the settings have been erased; false where the code raises. */
  method AddSettings(c: Config, b: Area, memory: Memory, ghost loaded: seq<Range>) returns (ok: bool)
    requires memory.Valid() && memory.topAddress == TOP && !memory.overlapOk
    requires b.settings.Some? && 0 <= b.SettingsStart() && b.SettingsEnd() <= TOP
    requires Removed(Views(memory.ranges), loaded, b.SettingsStart(), b.SettingsEnd())
    modifies memory, memory.ranges
    ensures ok <==> AllPack(c.areas) && |c.areas| <= MAX_NUM_MEMORY_AREAS && |c.keys| <= MAX_NUM_KEYS
    ensures ok ==> memory.Valid() && !memory.overlapOk && Prepared(Views(memory.ranges), c, loaded, b)
  {
    ghost var cleared := Views(memory.ranges);
    ErasedVacant(cleared, loaded, b.SettingsStart(), b.SettingsEnd(), b.KeyStart());
    memory.SetCursor(b.SettingsStart());
    ok := AddAreas(memory, c.areas, cleared, b.SettingsStart(), b.KeyStart());
    if !ok || memory.cursor > b.KeyStart() {
      return false;
    }
    ghost var tabled := Views(memory.ranges);
    KeyRoomVacant(tabled, cleared, loaded, c, b);
    memory.SetCursor(b.KeyStart());
    ok := AddKeys(memory, c.keys, tabled, b.KeyStart(), b.SettingsEnd());
    if !ok || memory.cursor > b.SettingsEnd() {
      return false;
    }
    SettingsPrepared(Views(memory.ranges), tabled, cleared, loaded, c, b);
  }

  /** `gen_bootloader`; none where the code raises. */
  method GenBootloader(c: Config, bootloader: Memory) returns (r: Option<Memory>)
    requires bootloader.Valid() && bootloader.topAddress == TOP
    requires forall i | 0 <= i < |c.areas| :: c.areas[i].Made()
    ensures r.Some? <==> Prepares(c, Views(bootloader.ranges))
    ensures r.Some? ==> fresh(r.value) && r.value.Valid() && r.value.topAddress == TOP && !r.value.overlapOk
                        && Prepared(Views(r.value.ranges), c, Views(bootloader.ranges),
                                    FirstOfKind(c.areas, BOOTLOADER_TYPE).value)
  {
    var area := FirstOfKind(c.areas, BOOTLOADER_TYPE);
    if area == None || bootloader.ranges == [] || bootloader.ranges[0].start < area.value.address {
      return None;
    }
    var b := area.value;
    r := EraseSettings(b, bootloader);
    if r.Some? {
      var ok := AddSettings(c, b, r.value, Views(bootloader.ranges));
      if !ok {
        r := None;
      }
    }
  }

  // ---- The image ----------------------------------------------------------------------------------------

  class Flashable {
    const config: Config
    const bootloader: Memory
    var infiles: seq<File>

    constructor (config: Config, bootloader: Memory)
      ensures this.config == config && this.bootloader == bootloader && infiles == []
    {
      this.config, this.bootloader, infiles := config, bootloader, [];
    }

    method Append(infile: File)
      modifies this`infiles
      ensures infiles == old(infiles) + [infile]
    {
      infiles := infiles + [infile];
    }

    /** The header, if the area is to have one. */
    method PlaceHeader(memory: Memory, area: Area, f: File, ghost was: seq<Range>, ghost ws: Writes)
      returns (ok: bool)
      requires memory.Valid() && memory.topAddress == TOP && !memory.overlapOk
      requires AllLand(was, ws) && Painted(Views(memory.ranges), was, ws)
      modifies memory, memory.ranges
      ensures ok <==> (area.HasInfoHeader() ==> InfoHeader(f, config.eraseBlock).Some?)
                      && AllLand(was, WithHeader(ws, area, f, config.eraseBlock))
      ensures ok ==> memory.Valid() && !memory.overlapOk
                     && Painted(Views(memory.ranges), was, WithHeader(ws, area, f, config.eraseBlock))
      ensures forall i | 0 <= i < |memory.ranges| :: memory.ranges[i] in old(memory.ranges) || fresh(memory.ranges[i])
    {
      ok := true;
      if area.HasInfoHeader() {
        var header := InfoHeader(f, config.eraseBlock);
        if header == None {
          return false;
        }
        memory.SetCursor(area.address + BL_INFO_HEADER_OFFSET);
        memory.SetOverlapOk(true);
        ok := Add(memory, was, ws, header.value);
        if ok {
          memory.SetOverlapOk(false);
        }
      }
    }

    /** A file goes into an area with its id; false where the code raises. */
    method PlaceInArea(memory: Memory, area: Area, f: File, ghost was: seq<Range>, ghost ws: Writes)
      returns (ok: bool)
      requires memory.Valid() && memory.topAddress == TOP && !memory.overlapOk
      requires area.id == f.areaId && AllLand(was, ws) && Painted(Views(memory.ranges), was, ws)
      modifies memory, memory.ranges
      ensures ok <==> Accepts(area, f, config.eraseBlock) && AllLand(was, WithArea(ws, area, f, config.eraseBlock))
      ensures ok ==> memory.Valid() && !memory.overlapOk
                     && Painted(Views(memory.ranges), was, WithArea(ws, area, f, config.eraseBlock))
      ensures forall i | 0 <= i < |memory.ranges| :: memory.ranges[i] in old(memory.ranges) || fresh(memory.ranges[i])
    {
      memory.SetCursor(area.address);
      if area.length < |f.rawData| {
        return false;
      }
      ok := Add(memory, was, ws, f.rawData);
      if ok {
        ok := PlaceHeader(memory, area, f, was, Then(ws, Piece(area.address, f.rawData, false)));
      }
    }

    /** A file goes into every area with its id, and there has to be one. */
    method PlaceFile(memory: Memory, f: File, ghost was: seq<Range>, ghost ws: Writes) returns (ok: bool)
      requires memory.Valid() && memory.topAddress == TOP && !memory.overlapOk
      requires AllLand(was, ws) && Painted(Views(memory.ranges), was, ws)
      modifies memory, memory.ranges
      ensures ok <==> FileAccepted(config.areas, f, config.eraseBlock)
                      && AllLand(was, WithAreas(ws, config.areas, |config.areas|, f, config.eraseBlock))
      ensures ok ==> memory.Valid() && !memory.overlapOk
                     && Painted(Views(memory.ranges), was,
                                WithAreas(ws, config.areas, |config.areas|, f, config.eraseBlock))
      ensures forall i | 0 <= i < |memory.ranges| :: memory.ranges[i] in old(memory.ranges) || fresh(memory.ranges[i])
    {
      var areas, eb := config.areas, config.eraseBlock;
      ghost var now := ws;
      var added := false;
      var n := 0;
      while n < |areas|
        invariant 0 <= n <= |areas| && now == WithAreas(ws, areas, n, f, eb)
        invariant added <==> exists i :: 0 <= i < n && areas[i].id == f.areaId
        invariant forall i | 0 <= i < n :: Accepts(areas[i], f, eb)
        invariant memory.Valid() && !memory.overlapOk
        invariant AllLand(was, now) && Painted(Views(memory.ranges), was, now)
        invariant forall i | 0 <= i < |memory.ranges| ::
                      memory.ranges[i] in old(memory.ranges) || fresh(memory.ranges[i])
      {
        if areas[n].id == f.areaId {
          ok := PlaceInArea(memory, areas[n], f, was, now);
          if !ok {
            AreasLand(was, ws, areas, n + 1, |areas|, f, eb);
            return;
          }
          added := true;
        }
        now := WithArea(now, areas[n], f, eb);
        n := n + 1;
      }
      ok := added;
    }

    /** One file after the other. */
    method PlaceFiles(memory: Memory, files: seq<File>, ghost was: seq<Range>) returns (ok: bool)
      requires memory.Valid() && memory.topAddress == TOP && !memory.overlapOk
      requires Painted(Views(memory.ranges), was, Start)
      modifies memory, memory.ranges
      ensures ok <==> AllAccepted(config.areas, files, |files|, config.eraseBlock)
                      && AllLand(was, WithFiles(config.areas, files, |files|, config.eraseBlock))
      ensures ok ==> memory.Valid()
                     && Painted(Views(memory.ranges), was, WithFiles(config.areas, files, |files|, config.eraseBlock))
    {
      var areas, eb := config.areas, config.eraseBlock;
      var n := 0;
      ghost var ws := Start;
      while n < |files|
        invariant 0 <= n <= |files| && ws == WithFiles(areas, files, n, eb)
        invariant memory.Valid() && !memory.overlapOk
        invariant AllAccepted(areas, files, n, eb)
        invariant AllLand(was, ws) && Painted(Views(memory.ranges), was, ws)
        invariant forall i | 0 <= i < |memory.ranges| ::
                      memory.ranges[i] in old(memory.ranges) || fresh(memory.ranges[i])
      {
        ok := PlaceFile(memory, files[n], was, ws);
        if !ok {
          FilesLand(was, areas, files, n + 1, |files|, eb);
          return;
        }
        ws := WithAreas(ws, areas, |areas|, files[n], eb);
        n := n + 1;
      }
      ok := true;
    }

    /** `get_hex`; none where the code raises. */
    method GetHex() returns (r: Option<Memory>)
      requires bootloader.Valid() && bootloader.topAddress == TOP
      ensures r.Some? <==> AllAccepted(config.areas, infiles, |infiles|, config.eraseBlock)
                           && AllLand(Views(bootloader.ranges),
                                      WithFiles(config.areas, infiles, |infiles|, config.eraseBlock))
      ensures r.Some? ==> fresh(r.value) && r.value.Valid() && r.value.topAddress == TOP
                          && Painted(Views(r.value.ranges), Views(bootloader.ranges),
                                     WithFiles(config.areas, infiles, |infiles|, config.eraseBlock))
    {
      var memory := Copied(bootloader, 0);
      var ok := PlaceFiles(memory, infiles, Views(bootloader.ranges));
      r := if ok then Some(memory) else None;
    }
  }

  // ---- All of it ------------------------------------------------------------------------------------------

  /** The configuration has passed its check, and bootloader, settings and files lie where they belong. */
  ghost predicate Suitable(c: Config, loaded: seq<Range>, files: seq<File>) {
    && Passes(c) && AllPack(c.areas) && (forall i | 0 <= i < |c.areas| :: c.areas[i].Made())
    && AllSuit(c, files)
    && var b := FirstOfKind(c.areas, BOOTLOADER_TYPE).value;
       && b.address + b.length <= TOP
       && 0 <= b.settings.value && b.settings.value + BOOTLOADER_SETTINGS_NUM_BYTES <= b.length
       && loaded != [] && Inside(loaded, b)
  }

  lemma {:induction false} SuitablePrepares(c: Config, loaded: seq<Range>, files: seq<File>)
    requires Suitable(c, loaded, files) && Canonical(loaded)
    ensures Prepares(c, loaded)
  {
    LookupAt(loaded, 0, loaded[0].start);
  }

  /** A prepared bootloader still lies inside its area. */
  lemma {:induction false} PreparedInside(rs: seq<Range>, c: Config, loaded: seq<Range>, files: seq<File>)
    requires Suitable(c, loaded, files)
    requires Prepared(rs, c, loaded, FirstOfKind(c.areas, BOOTLOADER_TYPE).value)
    ensures Inside(rs, FirstOfKind(c.areas, BOOTLOADER_TYPE).value)
  {
    var b := FirstOfKind(c.areas, BOOTLOADER_TYPE).value;
    forall a: int | Lookup(rs, a).Some?
      ensures b.Holds(a)
    {
      assert Lookup(rs, a) == BootloaderByte(b, Table(c.areas), KeyTable(c.keys), Lookup(loaded, a), a);
    }
  }

  /** What the image has to be, at every address. */
  ghost predicate IsImage(rs: seq<Range>, c: Config, b: Area, loaded: seq<Range>, files: seq<File>)
    requires AllPack(c.areas) && AllSuit(c, files) && b.settings.Some?
  {
    && (forall k, a: int | 0 <= k < |files| && HomeOf(c, files[k]).Holds(a) ::
          Lookup(rs, a) == FileByte(c, files[k], a))
    && (forall a: int | b.Holds(a) ::
          Lookup(rs, a) == BootloaderByte(b, Table(c.areas), KeyTable(c.keys), Lookup(loaded, a), a))
    && (forall a: int | !b.Holds(a) && forall k | 0 <= k < |files| :: !HomeOf(c, files[k]).Holds(a) ::
          Lookup(rs, a) == None)
  }

  /** With suitable files nothing is refused, and every piece lands. */
  lemma {:induction false} NothingRefused(was: seq<Range>, c: Config, loaded: seq<Range>, files: seq<File>)
    requires Suitable(c, loaded, files)
    requires Prepared(was, c, loaded, FirstOfKind(c.areas, BOOTLOADER_TYPE).value)
    ensures AllAccepted(c.areas, files, |files|, c.eraseBlock)
    ensures AllLand(was, WithFiles(c.areas, files, |files|, c.eraseBlock))
  {
    forall k | 0 <= k < |files|
      ensures FileAccepted(c.areas, files[k], c.eraseBlock)
    {
      SuitsAccepted(c, files[k]);
    }
    PreparedInside(was, c, loaded, files);
    PiecesLand(c, was, FirstOfKind(c.areas, BOOTLOADER_TYPE).value, files, |files|);
  }

  /** The pieces of suitable files, written over a prepared bootloader, give the image. */
  lemma {:induction false} PiecesMakeImage(rs: seq<Range>, was: seq<Range>, c: Config, loaded: seq<Range>,
                                          files: seq<File>)
    requires Suitable(c, loaded, files)
    requires Prepared(was, c, loaded, FirstOfKind(c.areas, BOOTLOADER_TYPE).value)
    requires Painted(rs, was, WithFiles(c.areas, files, |files|, c.eraseBlock))
    ensures IsImage(rs, c, FirstOfKind(c.areas, BOOTLOADER_TYPE).value, loaded, files)
  {
    var b := FirstOfKind(c.areas, BOOTLOADER_TYPE).value;
    PreparedInside(was, c, loaded, files);
    PiecesLand(c, was, b, files, |files|);
    assert files[..|files|] == files;
    assert forall a: int :: Lookup(rs, a) == ImageByte(c, files, Lookup(was, a), a);
    ImageReads(rs, was, c, loaded, files, b);
  }

  lemma {:induction false} BootloaderApart(c: Config, b: Area, f: File, a: int)
    requires Apart(c.areas) && Suits(c, f) && b in c.areas && b.kind == BOOTLOADER_TYPE
    ensures !(b.Holds(a) && HomeOf(c, f).Holds(a))
  {
    var i :| 0 <= i < |c.areas| && c.areas[i] == b;
    ApartDisjoint(b, HomeOf(c, f));
  }

  lemma {:induction false} ReadsElsewhere(rs: seq<Range>, was: seq<Range>, c: Config, files: seq<File>, a: int)
    requires forall k | 0 <= k < |files| :: Suits(c, files[k]) && !HomeOf(c, files[k]).Holds(a)
    requires Lookup(rs, a) == ImageByte(c, files, Lookup(was, a), a)
    ensures Lookup(rs, a) == Lookup(was, a)
  {
    ImageElsewhere(c, files, Lookup(was, a), a);
  }

  /** The bytes at the addresses of the files, of the bootloader, and of neither. */
  lemma {:induction false} ImageReads(rs: seq<Range>, was: seq<Range>, c: Config, loaded: seq<Range>,
                                     files: seq<File>, b: Area)
    requires AllPack(c.areas) && Apart(c.areas) && AllSuit(c, files)
    requires b in c.areas && b.kind == BOOTLOADER_TYPE && b.settings.Some?
    requires Prepared(was, c, loaded, b) && Inside(was, b)
    requires forall a: int :: Lookup(rs, a) == ImageByte(c, files, Lookup(was, a), a)
    ensures IsImage(rs, c, b, loaded, files)
  {
    forall k, a: int | 0 <= k < |files| && HomeOf(c, files[k]).Holds(a)
      ensures Lookup(rs, a) == FileByte(c, files[k], a)
    {
      ImageOfFile(c, files, Lookup(was, a), k, a);
    }
    forall a: int | b.Holds(a)
      ensures Lookup(rs, a) == BootloaderByte(b, Table(c.areas), KeyTable(c.keys), Lookup(loaded, a), a)
    {
      forall k | 0 <= k < |files|
        ensures !HomeOf(c, files[k]).Holds(a)
      {
        BootloaderApart(c, b, files[k], a);
      }
      ReadsElsewhere(rs, was, c, files, a);
    }
    forall a: int | !b.Holds(a) && forall k | 0 <= k < |files| :: !HomeOf(c, files[k]).Holds(a)
      ensures Lookup(rs, a) == None
    {
      ReadsElsewhere(rs, was, c, files, a);
    }
  }

  /** The files are appended. */
  method WithInput(c: Config, bootloader: Memory, files: seq<File>) returns (flash: Flashable)
    ensures flash.config == c && flash.bootloader == bootloader && flash.infiles == files
  {
    flash := new Flashable(c, bootloader);
    var n := 0;
    while n < |files|
      invariant 0 <= n <= |files| && flash.infiles == files[..n]
    {
      flash.Append(files[n]);
      n := n + 1;
    }
    assert files[..n] == files;
  }

  /** The image is built. */
  method FromFiles(c: Config, bootloader: Memory, files: seq<File>, ghost loaded: seq<Range>)
    returns (r: Option<Memory>)
    requires bootloader.Valid() && bootloader.topAddress == TOP && Suitable(c, loaded, files)
    requires Prepared(Views(bootloader.ranges), c, loaded, FirstOfKind(c.areas, BOOTLOADER_TYPE).value)
    ensures r.Some?
    ensures IsImage(Views(r.value.ranges), c, FirstOfKind(c.areas, BOOTLOADER_TYPE).value, loaded, files)
  {
    ghost var was := Views(bootloader.ranges);
    NothingRefused(was, c, loaded, files);
    var flash := WithInput(c, bootloader, files);
    r := flash.GetHex();
    PiecesMakeImage(Views(r.value.ranges), was, c, loaded, files);
  }

  /** From the loaded bootloader and the files to the image: with suitable input nothing is raised. */
  method Generate(c: Config, loaded: Memory, files: seq<File>) returns (r: Option<Memory>)
    requires loaded.Valid() && loaded.topAddress == TOP && Suitable(c, Views(loaded.ranges), files)
    ensures r.Some?
    ensures IsImage(Views(r.value.ranges), c, FirstOfKind(c.areas, BOOTLOADER_TYPE).value, Views(loaded.ranges), files)
  {
    ghost var was := Views(loaded.ranges);
    SuitablePrepares(c, was, files);
    var bootloader := GenBootloader(c, loaded);
    r := FromFiles(c, bootloader.value, files, was);
  }
}
