/**
 Where the pieces of a flash image end up: when a configuration has been checked and the
 files suit it, every piece lands, and every address has the byte it should have.
 */
module FlashLayout {
  import opened Wrappers
  import opened Bytes
  import opened MemoryMap
  import opened BootloaderConfig
  import opened FlashPieces

  // ---- What is asked of the input -------------------------------------------------------------------

  /** Position of the first area with an id. */
  function Home(areas: seq<Area>, id: int): (r: Option<nat>)
    ensures r.Some? ==> r.value < |areas| && areas[r.value].id == id
  {
    if areas == [] then None
    else if areas[0].id == id then Some(0)
    else
      var rest := Home(areas[1..], id);
      if rest.Some? then Some(rest.value + 1) else None
  }

  /** Areas of the internal and of an external flash may have the same addresses; in one image they must not. */
  predicate Separate(x: Area, y: Area) {
    x.IsInternal() != y.IsInternal() ==> x.End() < y.address || y.End() < x.address
  }

  /** One area has the id of the file, it is not the bootloader's nor at its addresses, and it is large enough. */
  predicate Suits(c: Config, f: File) {
    var i := Home(c.areas, f.areaId);
    && i.Some? && (forall j | 0 <= j < |c.areas| && j != i.value :: c.areas[j].id != f.areaId)
    && var h := c.areas[i.value];
       && h.kind != BOOTLOADER_TYPE
       && (forall j | 0 <= j < |c.areas| && c.areas[j].kind == BOOTLOADER_TYPE :: Separate(c.areas[j], h))
       && 0 <= h.address && h.address + h.length <= TOP && |f.rawData| <= h.length
       && (h.HasInfoHeader() ==>
             h.length >= BL_INFO_HEADER_OFFSET + BL_INFO_HEADER_SIZE && InfoHeader(f, c.eraseBlock).Some?)
  }

  predicate AllSuit(c: Config, files: seq<File>) {
    && (forall k | 0 <= k < |files| :: Suits(c, files[k]))
    && forall k, l | 0 <= k < l < |files| ::
         files[k].areaId != files[l].areaId && Separate(HomeOf(c, files[k]), HomeOf(c, files[l]))
  }

  lemma {:induction false} ApartDisjoint(x: Area, y: Area)
    requires !CheckAreaOverlap(x, y) && Separate(x, y)
    ensures forall a: int :: !(x.Holds(a) && y.Holds(a))
  {
    if x.IsInternal() == y.IsInternal() { NoOverlapDisjoint(x, y); }
  }

  /** No two areas overlap, as the check has made sure. */
  predicate Apart(areas: seq<Area>) {
    forall i, j | 0 <= i < |areas| && 0 <= j < |areas| && i != j :: !CheckAreaOverlap(areas[i], areas[j])
  }

  /** What is stored lies inside the area. */
  ghost predicate Inside(rs: seq<Range>, b: Area) {
    forall a: int | Lookup(rs, a).Some? :: b.Holds(a)
  }

  // ---- What is expected of the image ------------------------------------------------------------------

  function HomeOf(c: Config, f: File): Area
    requires Suits(c, f)
  {
    c.areas[Home(c.areas, f.areaId).value]
  }

  /** The byte of a file's area: the file, with the header over it where the area has one. */
  function FileByte(c: Config, f: File, a: int): Option<u8>
    requires Suits(c, f)
  {
    var h := HomeOf(c, f);
    if h.HasInfoHeader() && 0 <= a - h.address - BL_INFO_HEADER_OFFSET < BL_INFO_HEADER_SIZE then
      Some(InfoHeader(f, c.eraseBlock).value[a - h.address - BL_INFO_HEADER_OFFSET])
    else TableByte(f.rawData, h.address, a)
  }

  /** The byte of the image: the file whose area holds the address decides, if there is one. */
  function ImageByte(c: Config, files: seq<File>, base: Option<u8>, a: int): Option<u8>
    requires forall k | 0 <= k < |files| :: Suits(c, files[k])
  {
    if files == [] then base
    else
      var f := files[|files| - 1];
      if HomeOf(c, f).Holds(a) then FileByte(c, f, a) else ImageByte(c, files[..|files| - 1], base, a)
  }

  lemma {:induction false} HomesApart(c: Config, f: File, g: File)
    requires Apart(c.areas) && Suits(c, f) && Suits(c, g) && f.areaId != g.areaId
    requires Separate(HomeOf(c, f), HomeOf(c, g))
    ensures forall a: int :: !(HomeOf(c, f).Holds(a) && HomeOf(c, g).Holds(a))
  {
    ApartDisjoint(HomeOf(c, f), HomeOf(c, g));
  }

  lemma {:induction false} ImageElsewhere(c: Config, files: seq<File>, base: Option<u8>, a: int)
    requires forall k | 0 <= k < |files| :: Suits(c, files[k]) && !HomeOf(c, files[k]).Holds(a)
    ensures ImageByte(c, files, base, a) == base
  {
    if files != [] {
      ImageElsewhere(c, files[..|files| - 1], base, a);
    }
  }

  /** Every file decides all addresses of its area, whichever files come before or after it. */
  lemma {:induction false} ImageOfFile(c: Config, files: seq<File>, base: Option<u8>, k: nat, a: int)
    requires Apart(c.areas) && AllSuit(c, files) && k < |files| && HomeOf(c, files[k]).Holds(a)
    ensures ImageByte(c, files, base, a) == FileByte(c, files[k], a)
  {
    var n := |files| - 1;
    if k < n {
      HomesApart(c, files[k], files[n]);
      ImageOfFile(c, files[..n], base, k, a);
    }
  }

  // ---- That is what the pieces give ---------------------------------------------------------------------

  /** A file goes to its one area, once that has been reached. */
  lemma {:induction false} PiecesAtHome(ws: Writes, areas: seq<Area>, n: nat, f: File, eraseBlock: Option<int>, i: nat)
    requires n <= |areas| && i < |areas| && areas[i].id == f.areaId
    requires forall j | 0 <= j < |areas| && j != i :: areas[j].id != f.areaId
    ensures WithAreas(ws, areas, n, f, eraseBlock) == if i < n then WithArea(ws, areas[i], f, eraseBlock) else ws
  {
    if n > 0 {
      PiecesAtHome(ws, areas, n - 1, f, eraseBlock, i);
    }
  }

  /** The pieces of one file land in its area if nothing is there. */
  lemma {:induction false} FileLands(c: Config, was: seq<Range>, ws: Writes, f: File)
    requires Suits(c, f) && AllLand(was, ws)
    requires forall a: int | HomeOf(c, f).Holds(a) :: Top(ws, Lookup(was, a), a) == None
    ensures AllLand(was, WithArea(ws, HomeOf(c, f), f, c.eraseBlock))
  {
    var h := HomeOf(c, f);
    var data := Piece(h.address, f.rawData, false);
    assert forall a: int | data.Holds(a) :: h.Holds(a);
    assert Lands(was, ws, data);
  }

  /** They decide the addresses of the area and leave the rest alone. */
  lemma {:induction false} FileTops(c: Config, ws: Writes, f: File, base: Option<u8>, a: int)
    requires Suits(c, f)
    requires HomeOf(c, f).Holds(a) ==> Top(ws, base, a) == None
    ensures Top(WithArea(ws, HomeOf(c, f), f, c.eraseBlock), base, a)
            == if HomeOf(c, f).Holds(a) then FileByte(c, f, a) else Top(ws, base, a)
  {
    var h := HomeOf(c, f);
    var data := Piece(h.address, f.rawData, false);
    assert Top(Then(ws, data), base, a) == if data.Holds(a) then Some(data.At(a)) else Top(ws, base, a);
  }

  /** Before a file is written, its area is empty. */
  lemma {:induction false} AreaEmpty(c: Config, was: seq<Range>, b: Area, files: seq<File>, n: nat, a: int)
    requires Apart(c.areas) && AllSuit(c, files) && n < |files|
    requires b in c.areas && b.kind == BOOTLOADER_TYPE && Inside(was, b)
    requires HomeOf(c, files[n]).Holds(a)
    ensures ImageByte(c, files[..n], Lookup(was, a), a) == None
  {
    forall k | 0 <= k < n
      ensures !HomeOf(c, files[..n][k]).Holds(a)
    {
      HomesApart(c, files[k], files[n]);
    }
    ImageElsewhere(c, files[..n], Lookup(was, a), a);
    var i :| 0 <= i < |c.areas| && c.areas[i] == b;
    ApartDisjoint(b, HomeOf(c, files[n]));
  }

  /** Every piece lands, and at every address the image has the byte it should have. */
  lemma {:induction false} PiecesLand(c: Config, was: seq<Range>, b: Area, files: seq<File>, n: nat)
    requires Apart(c.areas) && AllSuit(c, files) && n <= |files|
    requires b in c.areas && b.kind == BOOTLOADER_TYPE && Inside(was, b)
    ensures AllLand(was, WithFiles(c.areas, files, n, c.eraseBlock))
    ensures forall a: int :: Top(WithFiles(c.areas, files, n, c.eraseBlock), Lookup(was, a), a)
                             == ImageByte(c, files[..n], Lookup(was, a), a)
  {
    if n > 0 {
      var m := n - 1;
      var f, ws := files[m], WithFiles(c.areas, files, m, c.eraseBlock);
      PiecesLand(c, was, b, files, m);
      PiecesAtHome(ws, c.areas, |c.areas|, f, c.eraseBlock, Home(c.areas, f.areaId).value);
      assert files[..n][..m] == files[..m];
      forall a: int | HomeOf(c, f).Holds(a)
        ensures Top(ws, Lookup(was, a), a) == None
      {
        AreaEmpty(c, was, b, files, m, a);
      }
      FileLands(c, was, ws, f);
      forall a: int
        ensures Top(WithFiles(c.areas, files, n, c.eraseBlock), Lookup(was, a), a)
             == ImageByte(c, files[..n], Lookup(was, a), a)
      {
        FileTops(c, ws, f, Lookup(was, a), a);
      }
    }
  }

  /** A file that suits the configuration is never refused for its size, its id or its header. */
  lemma {:induction false} SuitsAccepted(c: Config, f: File)
    requires Suits(c, f)
    ensures FileAccepted(c.areas, f, c.eraseBlock)
  {
    var i := Home(c.areas, f.areaId).value;
    assert c.areas[i].id == f.areaId;
  }
}
