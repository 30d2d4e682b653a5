/**
 The bootloader configuration (tools/bootloader_config.py): flash areas, keys, and the check
 that is made before an image is built from them.
 */
module BootloaderConfig {
  import opened Wrappers
  import opened Bytes

  const MAX_NUM_MEMORY_AREAS: nat := 8
  const MEMORY_AREA_HEADER_SIZE: nat := 16
  const SIZE_KEY_IN_BYTES: nat := 16
  const BOOTLOADER_SETTINGS_NUM_BYTES: nat := 0x400
  const MAX_NUM_KEYS: nat :=
    (1024 - MAX_NUM_MEMORY_AREAS * MEMORY_AREA_HEADER_SIZE) / (SIZE_KEY_IN_BYTES * 2)

  const BOOTLOADER_TYPE := 0
  const STACK_TYPE := 1
  const APP_TYPE := 2
  const PERSISTENT_TYPE := 3
  const USER_TYPE := 5

  /** A flash area; only a bootloader area has settings, at an offset from its start. */
  datatype Area = Area(id: int, address: int, length: int, flags: int, kind: int, settings: Option<int>) {
    /** Last address. */
    function End(): int { address + length - 1 }

    predicate Holds(a: int) { address <= a <= End() }

    /** Flag 2 is clear. */
    predicate IsInternal() { flags / 2 % 2 == 0 }

    /** Flag 1 is set. */
    predicate HasInfoHeader() { flags % 2 != 0 }

    predicate Made() {
      && 0 <= flags <= 3 && BOOTLOADER_TYPE <= kind <= USER_TYPE
      && (kind == BOOTLOADER_TYPE ==> settings.Some? && flags == 0)
    }

    function SettingsStart(): int
      requires settings.Some?
    {
      address + settings.value
    }

    function SettingsEnd(): int
      requires settings.Some?
    {
      SettingsStart() + BOOTLOADER_SETTINGS_NUM_BYTES
    }

    function KeyStart(): int
      requires settings.Some?
    {
      SettingsStart() + MAX_NUM_MEMORY_AREAS * MEMORY_AREA_HEADER_SIZE
    }

    /** Flags and type in one word, as they are stored. */
    function Word(): int { flags + 4 * kind }
  }

  type KeyBytes = b: seq<u8> | |b| == SIZE_KEY_IN_BYTES witness seq(SIZE_KEY_IN_BYTES, _ => 0)

  datatype Key = Key(authentication: KeyBytes, encryption: KeyBytes)

  /** The erase block size is missing when there is no flash section. */
  datatype Config = Config(eraseBlock: Option<int>, areas: seq<Area>, keys: seq<Key>)

  /** An area from its section; none where the code raises. */
  function FromSection(id: int, address: int, length: int, readFlags: int, settings: Option<int>): (r: Option<Area>)
    ensures r.Some? ==> r.value.Made()
  {
    var flags, kind := readFlags % 4, readFlags / 4 % 8;
    if kind == BOOTLOADER_TYPE then
      if flags % 2 == 1 || flags / 2 % 2 == 1 || settings.None? then None
      else Some(Area(id, address, length, flags, kind, settings))
    else if kind > USER_TYPE then None
    else Some(Area(id, address, length, flags, kind, None))
  }

  /**
   The word that is stored for an area is the one it was made from, up to unused bits, and makes the same area.
   A section is refused exactly for an unknown type, and for a bootloader with flags or without settings.
   */
  lemma SectionRoundTrip(id: int, address: int, length: int, readFlags: int, settings: Option<int>)
    ensures var w := readFlags % 32;
            FromSection(id, address, length, readFlags, settings).None? <==>
            if w < 4 then w != 0 || settings.None? else w >= 24
    ensures var r := FromSection(id, address, length, readFlags, settings);
            r.Some? ==>
              var a := r.value;
              && a.Word() == readFlags % 32
              && FromSection(a.id, a.address, a.length, a.Word(), a.settings) == r
  {
    var w := readFlags % 32;
    assert w == readFlags % 4 + 4 * (readFlags / 4 % 8);
    assert w % 4 == readFlags % 4 && w / 4 % 8 == readFlags / 4 % 8;
  }

  /** The first area of a type. */
  function FirstOfKind(areas: seq<Area>, kind: int): (r: Option<Area>)
    ensures r.Some? ==> r.value in areas && r.value.kind == kind
    ensures r.None? ==> forall i | 0 <= i < |areas| :: areas[i].kind != kind
  {
    if areas == [] then None
    else if areas[0].kind == kind then Some(areas[0])
    else FirstOfKind(areas[1..], kind)
  }

  predicate CheckAreaOverlap(x: Area, y: Area) {
    if x.IsInternal() != y.IsInternal() then false
    else if x.address < y.address && x.End() < y.address then false
    else if x.address > y.address && x.address > y.End() then false
    else true
  }

  /** Areas that pass share no address of the same flash, whatever their lengths. */
  lemma NoOverlapDisjoint(x: Area, y: Area)
    requires !CheckAreaOverlap(x, y) && x.IsInternal() == y.IsInternal()
    ensures forall a: int :: !(x.Holds(a) && y.Holds(a))
  {
  }

  /** The check does not depend on which area comes first, and for areas that are not empty it is exact. */
  lemma OverlapExact(x: Area, y: Area)
    ensures CheckAreaOverlap(x, y) <==> CheckAreaOverlap(y, x)
    ensures x.length > 0 && y.length > 0 ==>
              (CheckAreaOverlap(x, y) <==>
               x.IsInternal() == y.IsInternal() && exists a: int :: x.Holds(a) && y.Holds(a))
  {
    var a := if x.address < y.address then y.address else x.address;
    assert CheckAreaOverlap(x, y) && x.length > 0 && y.length > 0 ==> x.Holds(a) && y.Holds(a);
  }

  /** What a configuration has to be. */
  predicate Passes(c: Config) {
    && c.eraseBlock.Some?
    && 1 <= |c.areas| <= MAX_NUM_MEMORY_AREAS
    && FirstOfKind(c.areas, BOOTLOADER_TYPE).Some?
    && FirstOfKind(c.areas, STACK_TYPE).Some?
    && FirstOfKind(c.areas, PERSISTENT_TYPE).Some?
    && FirstOfKind(c.areas, APP_TYPE).Some? && FirstOfKind(c.areas, APP_TYPE).value.IsInternal()
    && 1 <= |c.keys| <= MAX_NUM_KEYS
    && forall i, j | 0 <= i < |c.areas| && 0 <= j < |c.areas| && i != j :: !CheckAreaOverlap(c.areas[i], c.areas[j])
  }

  /** `__check_areas` */
  method CheckAreas(areas: seq<Area>) returns (ok: bool)
    ensures ok <==>
              && 1 <= |areas| <= MAX_NUM_MEMORY_AREAS
              && FirstOfKind(areas, BOOTLOADER_TYPE).Some? && FirstOfKind(areas, STACK_TYPE).Some?
              && FirstOfKind(areas, PERSISTENT_TYPE).Some?
              && FirstOfKind(areas, APP_TYPE).Some? && FirstOfKind(areas, APP_TYPE).value.IsInternal()
  {
    if |areas| == 0 || |areas| > MAX_NUM_MEMORY_AREAS {
      return false;
    }
    if FirstOfKind(areas, BOOTLOADER_TYPE) == None
       || FirstOfKind(areas, STACK_TYPE) == None
       || FirstOfKind(areas, PERSISTENT_TYPE) == None {
      return false;
    }
    var app := FirstOfKind(areas, APP_TYPE);
    ok := app.Some? && app.value.IsInternal();
  }

  /** `check_config`; false where the code raises. */
  method CheckConfig(c: Config) returns (ok: bool)
    ensures ok <==> Passes(c)
  {
    if c.eraseBlock == None {
      return false;
    }
    ok := CheckAreas(c.areas);
    if !ok || |c.keys| == 0 || |c.keys| > MAX_NUM_KEYS {
      return false;
    }
    var n := 0;
    while n < |c.areas|
      invariant 0 <= n <= |c.areas|
      invariant forall i, j | 0 <= i < n && 0 <= j < |c.areas| && i != j :: !CheckAreaOverlap(c.areas[i], c.areas[j])
    {
      var m := 0;
      while m < |c.areas|
        invariant 0 <= m <= |c.areas|
        invariant forall j | 0 <= j < m && j != n :: !CheckAreaOverlap(c.areas[n], c.areas[j])
      {
        if n != m && CheckAreaOverlap(c.areas[n], c.areas[m]) {
          return false;
        }
        m := m + 1;
      }
      n := n + 1;
    }
    ok := true;
  }
}
