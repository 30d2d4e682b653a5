/** Type-length-value records (util/tlv.c). */
module Tlv {
  import opened Wrappers
  import opened Bytes

  datatype Item = Item(kind: u16, value: seq<u8>)

  datatype Decoded = Found(item: Item, next: nat) | Error(at: nat) | End

  const MINIMAL_TLV_SIZE := 3

  predicate Extended(kind: u16) { kind > 0xff }

  function HeaderSize(kind: u16): nat { if Extended(kind) then 3 else 2 }

  /** An item as it is written; a value longer than 127 bytes cannot be. */
  function Encode(item: Item): (bs: seq<u8>)
    requires |item.value| <= 127
    ensures |bs| == HeaderSize(item.kind) + |item.value|
  {
    if Extended(item.kind) then [item.kind % 0x100, 0x80 + |item.value|, item.kind / 0x100] + item.value
    else [item.kind, |item.value|] + item.value
  }

  predicate Encodable(items: seq<Item>) { forall i | 0 <= i < |items| :: |items[i].value| <= 127 }

  function EncodeAll(items: seq<Item>): seq<u8>
    requires Encodable(items)
  {
    if items == [] then [] else Encode(items[0]) + EncodeAll(items[1..])
  }

  /** What is found at position `index` of a buffer; on an error the position has moved as well. */
  function Decode(bs: seq<u8>, index: nat): Decoded
    requires index <= |bs|
  {
    if index == |bs| then End
    else if |bs| - index < MINIMAL_TLV_SIZE then Error(index)
    else
      var length, wide := bs[index + 1] % 0x80, bs[index + 1] >= 0x80;
      var start := index + if wide then 3 else 2;
      var kind := bs[index] as int + if wide then 0x100 * (bs[index + 2] as int) else 0;
      if |bs| - start < length then Error(start) else Found(Item(kind, bs[start..start + length]), start + length)
  }

  /** Every item found lies inside the buffer, and each success advances by at least two bytes. */
  lemma DecodeInside(bs: seq<u8>, index: nat)
    requires index <= |bs|
    ensures var d := Decode(bs, index);
            && (d.Found? ==> index + 2 <= d.next <= |bs| && |d.item.value| <= 127
                             && d.item.value == bs[d.next - |d.item.value|..d.next])
            && (d.Error? ==> index <= d.at <= |bs|)
  {
  }

  /** Items read one after the other; `None` where an error is met. */
  function DecodeAll(bs: seq<u8>, index: nat): Option<seq<Item>>
    requires index <= |bs|
    decreases |bs| - index
  {
    DecodeInside(bs, index);
    var d := Decode(bs, index);
    match d
    case End => Some([])
    case Error(_) => None
    case Found(item, next) =>
      var rest := DecodeAll(bs, next);
      if rest.Some? then Some([item] + rest.value) else None
  }

  /** A written item in the middle of a buffer is read back, unless fewer than three bytes are left. */
  lemma DecodeEncoded(before: seq<u8>, item: Item, after: seq<u8>)
    requires |item.value| <= 127
    ensures var bs, n := before + Encode(item) + after, |before|;
            Decode(bs, n) == if |Encode(item)| + |after| < MINIMAL_TLV_SIZE then Error(n)
                             else Found(item, n + |Encode(item)|)
  {
    var bs, n, e := before + Encode(item) + after, |before|, Encode(item);
    assert forall k | 0 <= k < |e| :: bs[n + k] == e[k];
    if |e| + |after| >= MINIMAL_TLV_SIZE {
      var start := n + HeaderSize(item.kind);
      assert bs[start..start + |item.value|] == item.value;
      var hi: int, lo: int := item.kind / 0x100, item.kind % 0x100;
      assert item.kind == lo + 0x100 * hi;
    }
  }

  /**
   What is found is laid out as type, length and, behind a length with its top bit set, the high
   byte of the type; it is what would be written unless a type of one byte takes the long form.
   */
  lemma ReadIsWritten(bs: seq<u8>, index: nat)
    requires index <= |bs| && Decode(bs, index).Found?
    ensures
      var d := Decode(bs, index);
      var size := |d.item.value|;
      && bs[index + 1] == (if d.next == index + 3 + size then 128 + size else size)
      && (d.next == index + 2 + size || d.next == index + 3 + size)
      && (d.next == index + 2 + size ==> d.item.kind == bs[index])
      && (d.next == index + 3 + size ==> d.item.kind as int - bs[index] as int == 256 * (bs[index + 2] as int))
      && bs[d.next - size..d.next] == d.item.value
      && (Encode(d.item) == bs[index..d.next] <==> (d.next == index + 3 + size <==> d.item.kind > 255))
  {
    var d := Decode(bs, index);
    DecodeInside(bs, index);
    var e, n := Encode(d.item), |d.item.value|;
    assert e[|e| - n..] == d.item.value;
    if |e| == d.next - index {
      assert bs[index..d.next] == bs[index..d.next - n] + d.item.value;
      assert e == e[..|e| - n] + d.item.value;
    }
  }

  /** The last item is too short for the reader: a type of one byte and no value. */
  predicate EndsTooShort(items: seq<Item>) {
    items != [] && !Extended(items[|items| - 1].kind) && items[|items| - 1].value == []
  }

  lemma {:induction false} EncodeAllSize(items: seq<Item>)
    requires Encodable(items) && items != []
    ensures |EncodeAll(items)| < MINIMAL_TLV_SIZE ==> |items| == 1 && EndsTooShort(items)
    ensures |EncodeAll(items)| >= 2
  {
    if |items| > 1 {
      EncodeAllSize(items[1..]);
    }
  }

  /** Reading the items behind `before`: the result for the rest decides. */
  lemma DecodeFirst(before: seq<u8>, first: Item, after: seq<u8>)
    requires |first.value| <= 127 && |Encode(first)| + |after| >= MINIMAL_TLV_SIZE
    ensures var bs := before + Encode(first) + after;
            var rest := DecodeAll(bs, |before + Encode(first)|);
            DecodeAll(bs, |before|) == if rest.Some? then Some([first] + rest.value) else None
  {
    DecodeEncoded(before, first, after);
  }

  lemma EndsTooShortTail(items: seq<Item>)
    requires |items| > 1
    ensures EndsTooShort(items) == EndsTooShort(items[1..])
  {
  }

  /** What `items` become when read from behind `before`. */
  ghost predicate ReadsBack(before: seq<u8>, items: seq<Item>)
    requires Encodable(items)
  {
    DecodeAll(before + EncodeAll(items), |before|) == if EndsTooShort(items) then None else Some(items)
  }

  lemma ReadsBackStep(before: seq<u8>, items: seq<Item>)
    requires Encodable(items) && items != [] && |EncodeAll(items)| >= MINIMAL_TLV_SIZE
    requires ReadsBack(before + Encode(items[0]), items[1..])
    ensures ReadsBack(before, items)
  {
    var first, rest := items[0], items[1..];
    Assoc(before, Encode(first), EncodeAll(rest));
    DecodeFirst(before, first, EncodeAll(rest));
    TailDecides(items);
    assert [first] + rest == items;
  }

  lemma TailDecides(items: seq<Item>)
    requires Encodable(items) && items != [] && |EncodeAll(items)| >= MINIMAL_TLV_SIZE
    ensures EndsTooShort(items) == EndsTooShort(items[1..])
  {
    if |items| > 1 { EndsTooShortTail(items); }
  }

  lemma ReadsBackLast(before: seq<u8>, items: seq<Item>)
    requires Encodable(items) && items != [] && |EncodeAll(items)| < MINIMAL_TLV_SIZE
    ensures ReadsBack(before, items)
  {
    EncodeAllSize(items);
    Assoc(before, Encode(items[0]), EncodeAll(items[1..]));
    DecodeEncoded(before, items[0], EncodeAll(items[1..]));
  }

  lemma {:induction false} DecodeAllFrom(before: seq<u8>, items: seq<Item>)
    requires Encodable(items)
    ensures ReadsBack(before, items)
    decreases |items|
  {
    if items == [] {
    } else if |EncodeAll(items)| < MINIMAL_TLV_SIZE {
      ReadsBackLast(before, items);
    } else {
      DecodeAllFrom(before + Encode(items[0]), items[1..]);
      ReadsBackStep(before, items);
    }
  }

  /** What has been written is read back, exactly when the last item is not too short for the reader. */
  lemma RoundTrip(items: seq<Item>)
    requires Encodable(items)
    ensures DecodeAll(EncodeAll(items), 0) == Some(items) <==> !EndsTooShort(items)
    ensures EndsTooShort(items) ==> DecodeAll(EncodeAll(items), 0) == None
  {
    DecodeAllFrom([], items);
    assert [] + EncodeAll(items) == EncodeAll(items);
  }

  lemma EncodeAllNext(items: seq<Item>, n: nat)
    requires Encodable(items) && n < |items|
    ensures EncodeAll(items[..n + 1]) == EncodeAll(items[..n]) + Encode(items[n])
  {
    assert items[..n + 1] == items[..n] + [items[n]];
    EncodeAllSnoc(items[..n], items[n]);
  }

  lemma {:induction false} EncodeAllSnoc(items: seq<Item>, item: Item)
    requires Encodable(items) && |item.value| <= 127
    ensures Encodable(items + [item]) && EncodeAll(items + [item]) == EncodeAll(items) + Encode(item)
  {
    if items == [] {
      assert [item][1..] == [];
      assert Encode(item) + [] == Encode(item);
    } else {
      EncodeAllSnoc(items[1..], item);
      assert (items + [item])[1..] == items[1..] + [item];
      Assoc(Encode(items[0]), EncodeAll(items[1..]), Encode(item));
    }
  }

  datatype Return = Ok | Err | AtEnd

  /** tlv_record */
  class Record {
    const buffer: array<u8>
    const length: u8
    var index: u8

    ghost predicate Valid()
      reads this
    {
      index <= length <= buffer.Length
    }

    /** The part of the buffer that has been written, or read. */
    ghost function Used(): seq<u8>
      requires Valid()
      reads this, buffer
    {
      buffer[..index]
    }

    constructor Init(buffer: array<u8>, length: u8)
      requires length <= buffer.Length
      ensures Valid() && this.buffer == buffer && this.length == length && index == 0
    {
      this.buffer := buffer;
      this.length := length;
      index := 0;
    }

    /** Tlv_Decode_getNextItem */
    method GetNextItem() returns (r: Return, item: Item)
      requires Valid()
      modifies this
      ensures Valid()
      ensures match Decode(buffer[..length], old(index))
              case End => r == AtEnd && index == old(index)
              case Error(at) => r == Err && index == at
              case Found(found, next) => r == Ok && item == found && index == next
    {
      item := Item(0, []);
      ghost var bs := buffer[..length];
      var remaining := length - index;
      if remaining == 0 {
        return AtEnd, item;
      }
      if remaining < MINIMAL_TLV_SIZE {
        return Err, item;
      }
      var kind: int := buffer[index];
      var n := buffer[index + 1] % 0x80;
      var wide := buffer[index + 1] >= 0x80;
      assert buffer[index] == bs[index] && buffer[index + 1] == bs[index + 1] && buffer[index + 2] == bs[index + 2];
      index := index + 2;
      if wide {
        var hi: int := buffer[index];
        kind := kind + 0x100 * hi;
        index := index + 1;
      }
      remaining := length - index;
      if remaining < n {
        return Err, item;
      }
      assert buffer[index..index + n] == bs[index..index + n];
      item := Item(kind, buffer[index..index + n]);
      index := index + n;
      r := Ok;
    }

    /** The value is copied behind the header. */
    method CopyIn(value: seq<u8>)
      requires Valid() && index as int + |value| <= length
      modifies buffer
      ensures buffer[..] == old(buffer[..])[..index] + value + old(buffer[..])[index as int + |value|..]
    {
      ghost var b := buffer[..];
      var i := 0;
      while i < |value|
        invariant 0 <= i <= |value|
        invariant forall k | 0 <= k < buffer.Length ::
                    buffer[k] == if index <= k < index as int + i then value[k - index] else b[k]
      {
        buffer[index as int + i] := value[i];
        i := i + 1;
      }
    }

    /** Type and length, in two or three bytes. */
    method WriteHeader(item: Item) returns (ok: bool)
      requires Valid() && |item.value| <= 127
      modifies this, buffer
      ensures Valid()
      ensures ok <==> old(index) as int + HeaderSize(item.kind) + |item.value| <= length
      ensures if ok then
                && index as int == old(index) as int + HeaderSize(item.kind)
                && buffer[..] == old(buffer[..])[..old(index)] + Encode(item)[..HeaderSize(item.kind)]
                                 + old(buffer[..])[index..]
              else index == old(index) && buffer[..] == old(buffer[..])
    {
      var remaining := length - index;
      if item.kind > 0xff {
        if remaining < 3 + |item.value| {
          return false;
        }
        buffer[index] := item.kind % 0x100;
        buffer[index + 1] := 0x80 + |item.value|;
        buffer[index + 2] := item.kind / 0x100 % 0x100;
        index := index + 3;
      } else {
        if remaining < 2 + |item.value| {
          return false;
        }
        buffer[index] := item.kind % 0x100;
        buffer[index + 1] := |item.value|;
        index := index + 2;
      }
      ok := true;
    }

    /** Tlv_Encode_addItem: the item goes to the current position; nothing else changes. */
    method AddItem(item: Item) returns (ok: bool)
      requires Valid()
      modifies this, buffer
      ensures Valid()
      ensures ok <==> |item.value| <= 127 && old(index) as int + HeaderSize(item.kind) + |item.value| <= length
      ensures if ok then Used() == old(Used()) + Encode(item) else index == old(index) && buffer[..] == old(buffer[..])
      ensures buffer[index..] == old(buffer[..])[index..]
    {
      if |item.value| > 127 {
        return false;
      }
      ghost var before, b := Used(), buffer[..];
      ok := WriteHeader(item);
      if ok {
        ghost var header := Encode(item)[..HeaderSize(item.kind)];
        assert buffer[..index] == before + header;
        CopyIn(item.value);
        index := index + |item.value|;
        assert buffer[..index] == before + header + item.value;
        assert before + header + item.value == before + Encode(item);
      }
    }
  }

  method WriteAll(items: seq<Item>, w: Record)
    requires w.Valid() && w.index == 0 && Encodable(items) && |EncodeAll(items)| <= w.length
    modifies w, w.buffer
    ensures w.Valid() && w.Used() == EncodeAll(items)
  {
    var n := 0;
    while n < |items|
      invariant 0 <= n <= |items| && w.Valid() && w.Used() == EncodeAll(items[..n])
    {
      EncodeAllNext(items, n);
      EncodeAllPrefix(items, n + 1);
      var added := w.AddItem(items[n]);
      n := n + 1;
    }
    assert items[..n] == items;
  }

  method ReadAll(r: Record, ghost bs: seq<u8>) returns (ok: bool, read: seq<Item>)
    requires r.Valid() && r.index == 0 && r.buffer[..r.length] == bs
    modifies r
    ensures DecodeAll(bs, 0) == if ok then Some(read) else None
  {
    read := [];
    ReadingStart(bs);
    while true
      invariant r.Valid() && r.buffer[..r.length] == bs && Reading(bs, r.index, read)
      decreases |bs| - r.index
    {
      DecodeInside(bs, r.index);
      ghost var at := r.index;
      var res, item := r.GetNextItem();
      if res == AtEnd {
        ReadingEnd(bs, at, read);
        return true, read;
      } else if res == Err {
        return false, read;
      }
      ReadingStep(bs, at, read);
      read := read + [item];
    }
  }

  /** A buffer written item by item and then read to the end. */
  method WriteAndRead(items: seq<Item>, buffer: array<u8>, length: u8) returns (ok: bool, read: seq<Item>)
    requires length <= buffer.Length && Encodable(items) && |EncodeAll(items)| <= length
    modifies buffer
    ensures ok <==> !EndsTooShort(items)
    ensures ok ==> read == items
  {
    var w := new Record.Init(buffer, length);
    WriteAll(items, w);
    var r := new Record.Init(buffer, w.index);
    RoundTrip(items);
    ok, read := ReadAll(r, EncodeAll(items));
  }

  /** The items read so far and those still to be read make up the whole. */
  ghost predicate Reading(bs: seq<u8>, index: nat, read: seq<Item>)
    requires index <= |bs|
  {
    var whole, rest := DecodeAll(bs, 0), DecodeAll(bs, index);
    whole.Some? == rest.Some? && (whole.Some? ==> whole.value == read + rest.value)
  }

  lemma ReadingStart(bs: seq<u8>)
    ensures Reading(bs, 0, [])
  {
    var whole := DecodeAll(bs, 0);
    assert whole.Some? ==> [] + whole.value == whole.value;
  }

  lemma ReadingStep(bs: seq<u8>, index: nat, read: seq<Item>)
    requires index <= |bs| && Reading(bs, index, read) && Decode(bs, index).Found?
    ensures var d := Decode(bs, index);
            d.next <= |bs| && Reading(bs, d.next, read + [d.item])
  {
    DecodeInside(bs, index);
    var d := Decode(bs, index);
    var rest := DecodeAll(bs, d.next);
    if rest.Some? {
      assert read + ([d.item] + rest.value) == read + [d.item] + rest.value;
    }
  }

  lemma ReadingEnd(bs: seq<u8>, index: nat, read: seq<Item>)
    requires index <= |bs| && Reading(bs, index, read) && Decode(bs, index).End?
    ensures DecodeAll(bs, 0) == Some(read)
  {
    assert read + [] == read;
  }

  lemma {:induction false} EncodeAllPrefix(items: seq<Item>, n: nat)
    requires Encodable(items) && n <= |items|
    ensures |EncodeAll(items[..n])| <= |EncodeAll(items)|
  {
    if n > 0 {
      assert items[..n][1..] == items[1..][..n - 1];
      EncodeAllPrefix(items[1..], n - 1);
    }
  }
}
