/**
 Application data kept in flash (libraries/app_persistent/app_persistent.c): the order of
 erasing and writing, and what a reader finds when it is interrupted.
 */
module Persistent {
  import opened Bytes

  // ---- Flash ------------------------------------------------------------------------------------

  function AndBits(i: nat, j: nat): (k: nat)
    ensures k < 2
  {
    if i == 1 && j == 1 then 1 else 0
  }

  /** Writing can only clear bits. */
  function And(a: nat, b: nat): nat
    decreases a + b
  {
    if a == 0 || b == 0 then 0 else AndBits(a % 2, b % 2) + 2 * And(a / 2, b / 2)
  }

  lemma {:induction false} AndBelow(a: nat, b: nat)
    ensures And(a, b) <= b
    decreases a + b
  {
    if a > 0 && b > 0 {
      AndBelow(a / 2, b / 2);
    }
  }

  lemma {:induction false} AndSymmetric(a: nat, b: nat)
    ensures And(a, b) == And(b, a)
    decreases a + b
  {
    if a > 0 && b > 0 {
      AndSymmetric(a / 2, b / 2);
    }
  }

  lemma {:induction false} AndOnes(b: nat, k: nat)
    requires b < Pow2(k)
    ensures And(Pow2(k) - 1, b) == b
    decreases k
  {
    if k > 0 {
      var half, bit := Halve(b, k);
      AndOnes(half, k - 1);
      var ones := 2 * (Pow2(k - 1) - 1) + 1;
      assert ones / 2 == Pow2(k - 1) - 1 && ones % 2 == 1 && b / 2 == half && b % 2 == bit;
    }
  }

  function And8(a: u8, b: u8): u8
  {
    AndBelow(a, b);
    And(a, b)
  }

  lemma AndErased(b: u8)
    ensures And8(0xff, b) == b
  {
    Pow2Byte();
    AndOnes(b, 8);
  }

  const ERASED: u8 := 0xff

  /** Sizes are words of 32 bits; computing with them wraps. */
  const SIZE_LIMIT := 0x1_0000_0000

  function Size(n: int): nat { n % SIZE_LIMIT }

  /** `cells` with `bytes` written at `from`. */
  function Programmed(cells: seq<u8>, from: nat, bytes: seq<u8>): (r: seq<u8>)
    requires from + |bytes| <= |cells|
    ensures |r| == |cells|
  {
    seq(|cells|, i requires 0 <= i < |cells| =>
      if from <= i < from + |bytes| then And8(cells[i], bytes[i - from]) else cells[i])
  }

  /** No bit is set by writing, and every bit that is clear in what is written is cleared. */
  lemma {:induction false} OnlyClears(cells: seq<u8>, from: nat, bytes: seq<u8>, i: nat)
    requires from + |bytes| <= |cells| && i < |cells|
    ensures var r := Programmed(cells, from, bytes);
            r[i] <= cells[i] && if from <= i < from + |bytes| then r[i] <= bytes[i - from] else r[i] == cells[i]
  {
    if from <= i < from + |bytes| {
      AndBelow(cells[i], bytes[i - from]);
      AndSymmetric(cells[i], bytes[i - from]);
      AndBelow(bytes[i - from], cells[i]);
    }
  }

  /** `cells` with the first `n` bytes erased. */
  function Wiped(cells: seq<u8>, n: nat): (r: seq<u8>)
    requires n <= |cells|
    ensures |r| == |cells|
  {
    seq(n, _ => ERASED) + cells[n..]
  }

  /** How an operation of the flash driver ends; after the last two it may not have been completed. */
  datatype Outcome = Done | Refused | TimedOut | PowerLost

  class Flash {
    var cells: seq<u8>
    const sectorSize: nat
    const writeAlignment: nat

    /** Sizes fit the machine's words, also when one is rounded up to another. */
    ghost predicate Valid()
      reads this
    {
      sectorSize > 0 && writeAlignment > 0 && |cells| + sectorSize + writeAlignment < SIZE_LIMIT
    }

    constructor (cells: seq<u8>, sectorSize: nat, writeAlignment: nat)
      requires sectorSize > 0 && writeAlignment > 0 && |cells| + sectorSize + writeAlignment < SIZE_LIMIT
      ensures Valid() && this.cells == cells && this.sectorSize == sectorSize && this.writeAlignment == writeAlignment
    {
      this.cells, this.sectorSize, this.writeAlignment := cells, sectorSize, writeAlignment;
    }

    /** The first sectors are erased one after the other, each at once; `n` of them have been. */
    method Erase(sectors: nat) returns (r: Outcome, ghost n: nat)
      requires Valid()
      modifies this`cells
      ensures Valid() && n <= sectors && n * sectorSize <= |old(cells)| && cells == Wiped(old(cells), n * sectorSize)
      ensures (r == Done ==> n == sectors) && (r == Refused ==> n == 0)
    {
      var total := sectors * sectorSize;
      var refused: bool := *;
      n := 0;
      if refused || total > |cells| {
        return Refused, 0;
      }
      ghost var before := cells;
      var from := 0;
      while from < total
        invariant n <= sectors && from == n * sectorSize <= total
        invariant |cells| == |before| && cells == Wiped(before, from)
        decreases total - from
      {
        var cut: bool := *;
        if cut {
          var late: bool := *;
          return if late then TimedOut else PowerLost, n;
        }
        SectorEnd(n, sectors, sectorSize);
        EraseSector(before, from);
        n, from := n + 1, from + sectorSize;
      }
      SectorCount(n, sectors, sectorSize);
      r := Done;
    }

    method EraseSector(ghost before: seq<u8>, from: nat)
      requires from + sectorSize <= |before| && cells == Wiped(before, from)
      modifies this`cells
      ensures cells == Wiped(before, from + sectorSize)
    {
      WipedStep(before, from, sectorSize);
      cells := cells[..from] + seq(sectorSize, _ => ERASED) + cells[from + sectorSize..];
    }

    /** An interrupted write leaves anything in the place that was to be written. */
    method Write(from: nat, bytes: seq<u8>) returns (r: Outcome)
      requires Valid()
      modifies this`cells
      ensures Valid() && |cells| == |old(cells)|
      ensures r == Done ==> from + |bytes| <= |cells| && cells == Programmed(old(cells), from, bytes)
      ensures forall i | 0 <= i < |cells| && !(from <= i < from + |bytes|) :: cells[i] == old(cells)[i]
    {
      var refused: bool := *;
      if refused || from + |bytes| > |cells| {
        return Refused;
      }
      var cut: bool := *;
      if cut {
        var late: bool := *;
        var torn: seq<u8> := *;
        if |torn| == |bytes| {
          cells := cells[..from] + torn + cells[from + |bytes|..];
        }
        return if late then TimedOut else PowerLost;
      }
      cells := Programmed(cells, from, bytes);
      r := Done;
    }
  }

  lemma WipedStep(before: seq<u8>, from: nat, size: nat)
    requires from + size <= |before|
    ensures var cells := Wiped(before, from);
            cells[..from] + seq(size, _ => ERASED) + cells[from + size..] == Wiped(before, from + size)
  {
  }

  lemma Distribute(a: nat, b: nat, size: nat)
    ensures (a + b) * size == a * size + b * size
  {
  }

  lemma SectorEnd(n: nat, sectors: nat, size: nat)
    requires n <= sectors && n * size != sectors * size
    ensures n < sectors && n * size + size == (n + 1) * size <= sectors * size
  {
    Distribute(n, 1, size);
    Distribute(n + 1, sectors - n - 1, size);
  }

  lemma SectorCount(n: nat, sectors: nat, size: nat)
    requires size > 0 && n <= sectors && n * size == sectors * size
    ensures n == sectors
  {
    Distribute(n, sectors - n, size);
    Distribute(1, size - 1, sectors - n);
  }

  // ---- The library ------------------------------------------------------------------------------

  /** The magic word 0x1E75FED8, least significant byte first. */
  const MAGIC: seq<u8> := [0xd8, 0xfe, 0x75, 0x1e]

  function MagicSize(alignment: nat): nat { if alignment > 4 then alignment else 4 }

  /** The number of units for `n` bytes. */
  function Units(n: nat, unit: nat): nat
    requires unit > 0
  {
    Size(n + unit - 1) / unit
  }

  /** `n` bytes in whole units. */
  function RoundUp(n: nat, unit: nat): nat
    requires unit > 0
  {
    Units(n, unit) * unit
  }

  lemma {:induction false} Quotient(m: nat, unit: nat)
    requires unit > 0
    ensures m / unit * unit <= m < m / unit * unit + unit
  {
    assert m == m / unit * unit + m % unit;
  }

  lemma {:induction false} SizeFits(n: nat)
    requires n < SIZE_LIMIT
    ensures Size(n) == n
  {
  }

  lemma {:induction false} RoundUpLeast(n: nat, unit: nat)
    requires unit > 0 && n + unit <= SIZE_LIMIT
    ensures n <= RoundUp(n, unit) < n + unit
  {
    SizeFits(n + unit - 1);
    Quotient(n + unit - 1, unit);
  }

  lemma {:induction false} RoundUpNothing(unit: nat)
    requires 0 < unit < SIZE_LIMIT
    ensures RoundUp(0, unit) == 0
  {
    SizeFits(unit - 1);
    assert (unit - 1) / unit == 0;
  }

  datatype ReadResult = Content(data: seq<u8>) | Uninitialized | TooBig | InvalidContent | FlashError

  datatype WriteResult = Ok | NotInitialized | Oversized | AccessTimeout | DriverError | Interrupted

  predicate HasMagic(cells: seq<u8>) { |cells| >= 4 && cells[..4] == MAGIC }

  lemma MagicFirst(cells: seq<u8>)
    ensures HasMagic(cells) ==> cells[0] == 0xd8
  {
    if HasMagic(cells) {
      assert cells[..4][0] == 0xd8;
    }
  }

  /** What reading `len` bytes gives when the driver reads whatever lies inside the area. */
  function Reads(cells: seq<u8>, magicSize: nat, len: nat): ReadResult
  {
    if |cells| < 4 then FlashError
    else if !HasMagic(cells) then InvalidContent
    else if magicSize + len > |cells| then FlashError
    else Content(cells[magicSize..magicSize + len])
  }

  /** The room left by the magic word. */
  function Usable(area: nat, magicSize: nat): nat { Size(area - magicSize) }

  /** For an area smaller than the magic word it wraps: any size passes the check up to a limit that is not there. */
  lemma {:induction false} UsableWraps(area: nat, magicSize: nat)
    requires area < SIZE_LIMIT && magicSize < SIZE_LIMIT
    ensures magicSize + Usable(area, magicSize) == area <==> magicSize <= area
    ensures magicSize > area ==> magicSize + Usable(area, magicSize) == area + SIZE_LIMIT
  {
    if magicSize > area {
      assert (area - magicSize + SIZE_LIMIT) % SIZE_LIMIT == (area - magicSize) % SIZE_LIMIT;
    }
  }

  /** Data that passes the check fits the machine's words, if the area is not smaller than the magic word. */
  lemma {:induction false} UsableFits(area: nat, magicSize: nat, len: nat, unit: nat)
    requires 0 < unit && area + unit < SIZE_LIMIT && magicSize <= area && len <= Usable(area, magicSize)
    ensures magicSize + len <= area && len <= RoundUp(len, unit)
  {
    SizeFits(area - magicSize);
    RoundUpLeast(len, unit);
  }

  /** Where nothing is erased, nothing is written. */
  lemma {:induction false} NothingErased(area: nat, magicSize: nat, len: nat, sector: nat, unit: nat)
    requires 0 < sector && 0 < unit && area + sector + unit < SIZE_LIMIT && magicSize <= area
             && len <= Usable(area, magicSize)
    ensures ErasedBytes(len, sector) == 0 ==> RoundUp(len, unit) == 0
  {
    UsableFits(area, magicSize, len, sector);
    RoundUpNothing(unit);
  }

  /** Bytes that are erased before `len` bytes are written: the magic word is not counted. */
  function ErasedBytes(len: nat, sectorSize: nat): nat
    requires sectorSize > 0
  {
    RoundUp(len, sectorSize)
  }

  /** The flash after a complete write; `padded` is the data up to the alignment, `word` the magic word with padding. */
  function Written(cells: seq<u8>, erased: nat, magicSize: nat, padded: seq<u8>, word: seq<u8>): seq<u8>
    requires erased <= |cells| && magicSize + |padded| <= |cells| && |word| == magicSize
  {
    Programmed(Programmed(Wiped(cells, erased), magicSize, padded), 0, word)
  }

  /** If magic word and data fit into what is erased, a complete write is read back, whatever was there before. */
  lemma ReadBack(cells: seq<u8>, erased: nat, magicSize: nat, padded: seq<u8>, word: seq<u8>, len: nat)
    requires 4 <= magicSize && len <= |padded| && magicSize + |padded| <= |cells|
             && magicSize + len <= erased <= |cells|
    requires |word| == magicSize && word[..4] == MAGIC
    ensures Reads(Written(cells, erased, magicSize, padded, word), magicSize, len) == Content(padded[..len])
  {
    var r := Written(cells, erased, magicSize, padded, word);
    forall i | 0 <= i < magicSize
      ensures r[i] == word[i]
    {
      AndErased(word[i]);
    }
    assert r[..4] == word[..4];
    forall i | 0 <= i < len
      ensures r[magicSize + i] == padded[i]
    {
      AndErased(padded[i]);
    }
    assert r[magicSize..magicSize + len] == padded[..len];
  }

  /** If they do not fit, there are data and previous contents for which the write is not read back. */
  lemma NotReadBack(sectorSize: nat, magicSize: nat, size: nat, len: nat, total: nat)
    returns (cells: seq<u8>, padded: seq<u8>)
    requires 4 <= magicSize && len <= size && magicSize + size <= total && sectorSize > 0
    requires total + sectorSize < SIZE_LIMIT && ErasedBytes(len, sectorSize) <= total
             && magicSize + len > ErasedBytes(len, sectorSize)
    ensures |cells| == total && |padded| == size
    ensures forall word: seq<u8> | |word| == magicSize ::
              Reads(Written(cells, ErasedBytes(len, sectorSize), magicSize, padded, word), magicSize, len)
              != Content(padded[..len])
  {
    var erased := ErasedBytes(len, sectorSize);
    cells := seq(total, _ => 0);
    padded := seq(size, _ => 0xff);
    if len == 0 {
      RoundUpNothing(sectorSize);
    }
    forall word: seq<u8> | |word| == magicSize
      ensures Reads(Written(cells, erased, magicSize, padded, word), magicSize, len) != Content(padded[..len])
    {
      var r := Written(cells, erased, magicSize, padded, word);
      assert forall b: u8 :: And8(0, b) == 0;
      if len > 0 {
        assert r[magicSize + len - 1] == 0;
        if HasMagic(r) {
          assert r[magicSize..magicSize + len][len - 1] == 0 && padded[..len][len - 1] == 0xff;
        }
      } else {
        assert r[0] == 0;
        MagicFirst(r);
      }
    }
  }

  /**
   The flash after a write, whenever it was interrupted: as it was, without a valid magic word, or with all
   the data written behind it, over `erased` bytes that were erased before.
   */
  ghost predicate NotTorn(before: seq<u8>, after: seq<u8>, magicSize: nat, padded: seq<u8>, erased: nat) {
    || after == before
    || !HasMagic(after)
    || (&& erased <= |before| == |after| && magicSize + |padded| <= |before|
        && forall i | magicSize <= i < |before| :: after[i] == Programmed(Wiped(before, erased), magicSize, padded)[i])
  }

  /** If magic word and data fit into what is erased, a reader finds the old data, no valid content, or the new data. */
  lemma NoMixture(before: seq<u8>, after: seq<u8>, magicSize: nat, padded: seq<u8>, erased: nat, len: nat)
    requires NotTorn(before, after, magicSize, padded, erased)
    requires 4 <= magicSize && len <= |padded| && magicSize + len <= erased && magicSize + len <= |after|
    ensures after == before || Reads(after, magicSize, len) == InvalidContent
            || Reads(after, magicSize, len) == Content(padded[..len])
  {
    if after != before && HasMagic(after) {
      KeepsData(before, erased, magicSize, padded, after, len);
    }
  }

  class Storage {
    const flash: Flash
    /** Whether the platform has the memory area. */
    const present: bool
    var initialized: bool
    var magicSize: nat
    var usable: nat

    ghost predicate Valid()
      reads this, flash
    {
      && flash.Valid()
      && (initialized ==>
            magicSize == MagicSize(flash.writeAlignment) && usable == Usable(|flash.cells|, magicSize))
    }

    constructor (flash: Flash, present: bool)
      requires flash.Valid()
      ensures Valid() && !initialized && this.flash == flash && this.present == present
    {
      this.flash, this.present := flash, present;
      initialized, magicSize, usable := false, 0, 0;
    }

    /** App_Persistent_init; false where there is no area. */
    method Init() returns (ok: bool)
      requires Valid()
      modifies this
      ensures Valid() && ok == (old(initialized) || present) && initialized == ok
    {
      if initialized {
        return true;
      }
      if !present {
        return false;
      }
      magicSize := if flash.writeAlignment > 4 then flash.writeAlignment else 4;
      usable := Size(|flash.cells| - magicSize);
      initialized := true;
      ok := true;
    }

    /** App_Persistent_read; `works` tells whether the driver carries out the reads that lie inside the area. */
    method Read(len: nat, works: bool) returns (r: ReadResult)
      requires Valid()
      ensures r == if !initialized then Uninitialized
                   else if len > usable then TooBig
                   else if works then Reads(flash.cells, magicSize, len)
                   else if r == InvalidContent && Reads(flash.cells, magicSize, len) == r then r else FlashError
    {
      if !initialized {
        return Uninitialized;
      }
      if len > usable {
        return TooBig;
      }
      var first: bool := *;
      if (!works && !first) || |flash.cells| < 4 {
        return FlashError;
      }
      if flash.cells[..4] != MAGIC {
        return InvalidContent;
      }
      if !works || magicSize + len > |flash.cells| {
        return FlashError;
      }
      r := Content(flash.cells[magicSize..magicSize + len]);
    }

    /**
     App_Persistent_write: erase, write the data, write the magic word last. `padding` stands for
     what follows the data in memory, `junk` for what follows the magic word.
     */
    method Write(data: seq<u8>, padding: seq<u8>, junk: seq<u8>) returns (r: WriteResult)
      requires Valid()
      requires |data| + |padding| >= RoundUp(|data|, flash.writeAlignment)
      requires 4 + |junk| == MagicSize(flash.writeAlignment)
      modifies flash
      ensures Valid()
      ensures (r == NotInitialized <==> !initialized) && (r == Oversized <==> initialized && |data| > usable)
      ensures r == NotInitialized || r == Oversized ==> flash.cells == old(flash.cells)
      ensures var erased := ErasedBytes(|data|, flash.sectorSize);
              var padded := (data + padding)[..RoundUp(|data|, flash.writeAlignment)];
              && (r == Ok ==>
                    && erased <= |old(flash.cells)| && magicSize + |padded| <= |old(flash.cells)|
                    && flash.cells == Written(old(flash.cells), erased, magicSize, padded, MAGIC + junk))
              && (r == Ok && magicSize + |data| <= erased ==> Reads(flash.cells, magicSize, |data|) == Content(data))
              && NotTorn(old(flash.cells), flash.cells, magicSize, padded, erased)
    {
      if !initialized {
        return NotInitialized;
      }
      if |data| > usable {
        return Oversized;
      }
      ghost var before := flash.cells;
      var sectors := Units(|data|, flash.sectorSize);
      var res;
      ghost var n;
      res, n := flash.Erase(sectors);
      if res != Done {
        WipedMagic(before, flash.cells, n, flash.sectorSize);
        return Failure(res);
      }
      r := WriteErased(data, padding, junk, before, sectors);
    }

    /** The rest of it, when the sectors have been erased. */
    method WriteErased(data: seq<u8>, padding: seq<u8>, junk: seq<u8>, ghost before: seq<u8>, ghost sectors: nat)
      returns (r: WriteResult)
      requires Valid() && initialized && |data| <= usable
      requires |data| + |padding| >= RoundUp(|data|, flash.writeAlignment)
      requires 4 + |junk| == MagicSize(flash.writeAlignment)
      requires sectors == Units(|data|, flash.sectorSize) && sectors * flash.sectorSize <= |before|
      requires flash.cells == Wiped(before, sectors * flash.sectorSize)
      modifies flash
      ensures Valid() && r != NotInitialized && r != Oversized
      ensures var erased := ErasedBytes(|data|, flash.sectorSize);
              var padded := (data + padding)[..RoundUp(|data|, flash.writeAlignment)];
              && (r == Ok ==>
                    && magicSize + |padded| <= |before|
                    && flash.cells == Written(before, erased, magicSize, padded, MAGIC + junk))
              && (r == Ok && magicSize + |data| <= erased ==> Reads(flash.cells, magicSize, |data|) == Content(data))
              && NotTorn(before, flash.cells, magicSize, padded, erased)
    {
      ghost var erased, wiped := ErasedBytes(|data|, flash.sectorSize), flash.cells;
      var padded := (data + padding)[..RoundUp(|data|, flash.writeAlignment)];
      if magicSize <= |before| {
        NothingErased(|before|, magicSize, |data|, flash.sectorSize, flash.writeAlignment);
        UsableFits(|before|, magicSize, |data|, flash.writeAlignment);
      }
      WipedMagic(before, wiped, sectors, flash.sectorSize);
      var res := flash.Write(magicSize, padded);
      if res != Done {
        CutWrite(before, wiped, flash.cells, magicSize, padded, erased);
        return Failure(res);
      }
      res := flash.Write(0, MAGIC + junk);
      if res != Done {
        return Failure(res);
      }
      if magicSize + |data| <= erased {
        ReadBack(before, erased, magicSize, padded, MAGIC + junk, |data|);
        assert padded[..|data|] == data;
      }
      r := Ok;
    }
  }

  /** The flash after the write of the data has been cut: without a magic word, unless nothing has been erased. */
  lemma {:induction false} CutWrite(before: seq<u8>, wiped: seq<u8>, cells: seq<u8>, magicSize: nat, padded: seq<u8>,
                                    erased: nat)
    requires erased <= |before| && wiped == Wiped(before, erased) && |cells| == |before| && magicSize >= 4
    requires if erased == 0 then padded == [] || magicSize > |before| else !HasMagic(wiped)
    requires forall i | 0 <= i < |cells| && !(magicSize <= i < magicSize + |padded|) :: cells[i] == wiped[i]
    ensures NotTorn(before, cells, magicSize, padded, erased)
  {
    if erased == 0 {
      assert cells == wiped == before;
    } else if |cells| >= 4 {
      assert cells[..4] == wiped[..4];
    }
  }

  function Failure(res: Outcome): (r: WriteResult)
    ensures r != Ok && r != NotInitialized && r != Oversized
    ensures r == AccessTimeout <==> res == TimedOut
  {
    if res == Refused then DriverError else if res == TimedOut then AccessTimeout else Interrupted
  }

  /** Once a sector has been erased the magic word is gone. */
  lemma WipedMagic(before: seq<u8>, after: seq<u8>, n: nat, size: nat)
    requires n * size <= |before| && after == Wiped(before, n * size)
    requires size > 0
    ensures if n == 0 then after == before else !HasMagic(after)
  {
    if n == 0 {
      assert Wiped(before, 0) == before;
    } else {
      Distribute(n - 1, 1, size);
      assert after[0] == ERASED;
      MagicFirst(after);
    }
  }

  /** While the magic word is written the data stays as it is. */
  lemma KeepsData(before: seq<u8>, erased: nat, magicSize: nat, padded: seq<u8>, after: seq<u8>, len: nat)
    requires 4 <= magicSize && len <= |padded| && magicSize + |padded| <= |before|
             && magicSize + len <= erased <= |before|
    requires |after| == |before|
    requires forall i | magicSize <= i < |before| :: after[i] == Programmed(Wiped(before, erased), magicSize, padded)[i]
    ensures after[magicSize..magicSize + len] == padded[..len]
  {
    forall i | 0 <= i < len
      ensures after[magicSize + i] == padded[i]
    {
      AndErased(padded[i]);
    }
  }
}
