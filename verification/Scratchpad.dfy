/**
 Writer and reader of scratchpads as they are written (tools/genscratchpad.py,
 tools/scratchpadinfo.py).
 */
module Scratchpad {
  import opened Wrappers
  import opened Bytes
  import opened Aes
  import opened ScratchpadFormat
  import Crc

  /** A cipher in counter mode on a little-endian platform: each call goes on where the last one ended. */
  class Cipher {
    const ecb: BlockCipher
    const key: Block
    const icb: Block
    var pos: nat

    constructor (ecb: BlockCipher, key: Block, icb: Block)
      ensures this.ecb == ecb && this.key == key && this.icb == icb && pos == 0
    {
      this.ecb, this.key, this.icb, pos := ecb, key, icb, 0;
    }

    /** Encryption, which is decryption as well. */
    method Crypt(data: seq<u8>) returns (r: seq<u8>)
      modifies this
      ensures r == CryptAt(ecb, key, icb, old(pos), data) && pos == old(pos) + |data|
    {
      r := CryptAt(ecb, key, icb, pos, data);
      pos := pos + |data|;
    }
  }

  /** Zero bytes up to a whole number of blocks. */
  function Padded(d: seq<u8>): (r: seq<u8>)
    ensures |r| % BLOCK_LENGTH == 0 && |d| <= |r| < |d| + BLOCK_LENGTH && r[..|d|] == d
  {
    var blocks := (|d| + BLOCK_LENGTH - 1) / BLOCK_LENGTH;
    d + seq(blocks * BLOCK_LENGTH - |d|, _ => 0)
  }

  /** A file to be stored; `zip` gives the compressed data without zlib's header and checksum. */
  class InFile {
    const areaId: u32
    const version: Version
    const zip: seq<u8> -> seq<u8>
    const raw: seq<u8>
    var data: seq<u8>
    var header: seq<u8>
    var compressed: bool
    var encrypted: bool

    constructor (areaId: u32, version: Version, data: seq<u8>, zip: seq<u8> -> seq<u8>)
      requires |data| < 0x1_0000_0000
      ensures this.areaId == areaId && this.version == version && this.zip == zip && raw == data
      ensures this.data == data && !compressed && !encrypted
    {
      this.areaId, this.version, this.zip, raw, this.data := areaId, version, zip, data, data;
      compressed, encrypted := false, false;
      header := FileHeader(areaId, |data|, version, 0);
    }

    /** False where the code raises: compressed already, or too long for the header. */
    method Compress() returns (ok: bool)
      modifies this
      ensures ok == (!old(compressed) && |Padded(zip(old(data)))| < 0x1_0000_0000)
      ensures encrypted == old(encrypted)
      ensures ok ==> compressed && data == Padded(zip(old(data))) && header == FileHeader(areaId, |data|, version, 0)
    {
      if compressed {
        return false;
      }
      var c := zip(data);
      var blocks := (|c| + BLOCK_LENGTH - 1) / BLOCK_LENGTH;
      compressed := true;
      data := c + seq(blocks * BLOCK_LENGTH - |c|, _ => 0);
      if |data| >= 0x1_0000_0000 {
        return false;
      }
      header := FileHeader(areaId, |data|, version, 0);
      ok := true;
    }

    method Encrypt(cipher: Cipher) returns (ok: bool)
      modifies this, cipher
      ensures ok == !old(encrypted) && compressed == old(compressed) && header == old(header)
      ensures ok ==> encrypted && data == CryptAt(cipher.ecb, cipher.key, cipher.icb, old(cipher.pos), old(data))
      ensures ok && old(cipher.pos) % 16 == 0 ==>
                data == Ctr(cipher.ecb, cipher.key, CounterBlock(cipher.icb, old(cipher.pos) / 16), old(data))
      ensures cipher.pos == if ok then old(cipher.pos) + |old(data)| else old(cipher.pos)
    {
      if encrypted {
        return false;
      }
      if cipher.pos % 16 == 0 {
        CryptIsCtr(cipher.ecb, cipher.key, cipher.icb, cipher.pos / 16, data);
      }
      data := cipher.Crypt(data);
      encrypted := true;
      ok := true;
    }
  }

  function Concat(pieces: seq<seq<u8>>): seq<u8>
  {
    if pieces == [] then [] else Concat(pieces[..|pieces| - 1]) + pieces[|pieces| - 1]
  }

  lemma ConcatSnoc(pieces: seq<seq<u8>>, p: seq<u8>)
    ensures Concat(pieces + [p]) == Concat(pieces) + p
  {
    assert (pieces + [p])[..|pieces|] == pieces;
  }

  class Writer {
    const authKey: Block
    const cipher: Cipher
    const icb: Block
    var cmac: Block
    var data: seq<seq<u8>>
    /** The files appended so far: as stored, and their texts. */
    ghost var files: seq<Stored>
    ghost var texts: seq<seq<u8>>

    ghost predicate Valid()
      reads this, cipher
    {
      && AllStorable(files) && Concat(data) == icb + Body(files)
      && cipher.icb == icb && cipher.pos == DataLength(files)
      && texts == Decrypted(cipher.ecb, cipher.key, icb, 0, files)
      && |Body(files)| % 16 == 0
    }

    /** `icb` comes from the random number generator. */
    constructor (ecb: BlockCipher, encKey: Block, authKey: Block, icb: Block)
      ensures Valid() && fresh(cipher) && files == [] && this.authKey == authKey && this.icb == icb
      ensures cipher.ecb == ecb && cipher.key == encKey
    {
      this.authKey, this.icb := authKey, icb;
      cmac := ZERO_BLOCK;
      data := [icb];
      cipher := new Cipher(ecb, encKey, icb);
      files, texts := [], [];
      new;
      assert data == [] + [icb];
      ConcatSnoc([], icb);
    }

    /** A fresh file is compressed, encrypted and appended; false where that raises. */
    method Append(infile: InFile) returns (ok: bool)
      requires Valid() && !infile.compressed && !infile.encrypted
      modifies this`data, this`files, this`texts, cipher, infile
      ensures ok == (|Padded(infile.zip(old(infile.data)))| < 0x1_0000_0000)
      ensures ok ==> Valid() && texts == old(texts) + [Padded(infile.zip(old(infile.data)))]
      ensures ok ==> DataOf(files) == Ctr(cipher.ecb, cipher.key, icb, Joined(texts))
      ensures ok ==> |files| == |old(files)| + 1 && files[..|old(files)|] == old(files)
      ensures ok ==> files[|old(files)|].areaId == infile.areaId && files[|old(files)|].version == infile.version
                     && files[|old(files)|].pad == 0
    {
      ok := infile.Compress();
      if !ok {
        return;
      }
      ghost var text := infile.data;
      ok := infile.Encrypt(cipher);
      Keep(infile.header, infile.data, text, Stored(infile.areaId, infile.version, 0, infile.data));
    }

    /** The pieces of the file `f`, whose text has gone through the cipher, are added. */
    method Keep(header: seq<u8>, stored: seq<u8>, ghost text: seq<u8>, ghost f: Stored)
      requires AllStorable(files) && Concat(data) == icb + Body(files) && |Body(files)| % 16 == 0
      requires cipher.icb == icb && cipher.pos == DataLength(files) + |text|
      requires texts == Decrypted(cipher.ecb, cipher.key, icb, 0, files)
      requires Storable(f) && |f.data| % 16 == 0 && stored == f.data && header + stored == Piece(f)
      requires stored == CryptAt(cipher.ecb, cipher.key, icb, DataLength(files), text)
      modifies this`data, this`files, this`texts
      ensures Valid() && texts == old(texts) + [text] && files == old(files) + [f]
      ensures DataOf(files) == Ctr(cipher.ecb, cipher.key, icb, Joined(texts))
    {
      AppendPieces(data, icb, files, f, header, stored);
      DecryptedSnoc(cipher.ecb, cipher.key, icb, 0, files, f, text);
      PieceLength(Body(files), f);
      data := data + [header];
      data := data + [stored];
      texts := texts + [text];
      files := files + [f];
      Encrypted();
    }

    /** The data of all files is the counter mode encryption of all texts. */
    lemma {:induction false} Encrypted()
      requires Valid()
      ensures DataOf(files) == Ctr(cipher.ecb, cipher.key, icb, Joined(texts))
    {
      FilesAreCtr(cipher.ecb, cipher.key, icb, files);
    }

    method CalculateCmac()
      requires Valid()
      modifies this`cmac
      ensures cmac == Cmac(cipher.ecb, authKey, icb + Body(files))
    {
      ghost var whole := Concat(data);
      var all: seq<u8> := [];
      var n := 0;
      while n < |data|
        invariant 0 <= n <= |data| && all == Concat(data[..n])
      {
        assert data[..n + 1] == data[..n] + [data[n]];
        ConcatSnoc(data[..n], data[n]);
        all := all + data[n];
        n := n + 1;
      }
      assert data[..n] == data;
      cmac := Cmac(cipher.ecb, authKey, all);
    }

    /** The header; none where packing it raises. */
    method MakeHeader() returns (r: Option<seq<u8>>)
      requires Valid()
      ensures r == if 32 + |Body(files)| < 0x1_0000_0000
                   then Some(Header(32 + |Body(files)|, Crc.Crc(Crc.INIT, cmac + icb + Body(files)))) else None
    {
      var length: nat := 16;
      var crc := Crc.Crc16Ccitt(cmac, Crc.INIT);
      var n := 0;
      SummedNone(cmac, data);
      while n < |data|
        invariant 0 <= n <= |data| && Summed(length, crc, cmac, data[..n])
      {
        SummedStep(length, crc, cmac, data, n);
        length := length + |data[n]|;
        crc := Crc.Crc16Ccitt(data[n], crc);
        n := n + 1;
      }
      assert data[..n] == data;
      SummedAll(length, crc, cmac, data, icb, Body(files));
      if length % 16 != 0 || length >= 0x1_0000_0000 {
        return None;
      }
      r := Some(Header(length, crc));
    }

    /** All pieces one after the other. */
    method Join(start: seq<u8>) returns (otap: seq<u8>)
      ensures otap == start + Concat(data)
    {
      otap := start;
      var n := 0;
      while n < |data|
        invariant 0 <= n <= |data| && otap == start + Concat(data[..n])
      {
        assert data[..n + 1] == data[..n] + [data[n]];
        ConcatSnoc(data[..n], data[n]);
        Assoc(start, Concat(data[..n]), data[n]);
        otap := otap + data[n];
        n := n + 1;
      }
      assert data[..n] == data;
    }

    method GetOtap() returns (r: Option<seq<u8>>)
      requires Valid()
      modifies this`cmac
      ensures Valid() && cmac == Cmac(cipher.ecb, authKey, icb + Body(files))
      ensures r == if 32 + |Body(files)| < 0x1_0000_0000 then Some(Image(cmac, icb, Body(files))) else None
    {
      CalculateCmac();
      var header := MakeHeader();
      if header == None {
        return None;
      }
      var otap := TAG + header.value + cmac;
      Assoc(otap, icb, Body(files));
      otap := Join(otap);
      r := Some(otap);
    }
  }

  /** Length and CRC over the code and the pieces so far. */
  ghost predicate Summed(length: nat, crc: u16, cmac: Block, pieces: seq<seq<u8>>) {
    length == 16 + |Concat(pieces)| && crc == Crc.Crc(Crc.INIT, cmac + Concat(pieces))
  }

  lemma SummedNone(cmac: Block, data: seq<seq<u8>>)
    ensures Summed(16, Crc.Crc(Crc.INIT, cmac), cmac, data[..0])
  {
    assert cmac + Concat(data[..0]) == cmac;
  }

  lemma SummedStep(length: nat, crc: u16, cmac: Block, data: seq<seq<u8>>, n: nat)
    requires n < |data| && Summed(length, crc, cmac, data[..n])
    ensures Summed(length + |data[n]|, Crc.Crc(crc, data[n]), cmac, data[..n + 1])
  {
    assert data[..n + 1] == data[..n] + [data[n]];
    ConcatSnoc(data[..n], data[n]);
    Crc.CrcConcat(Crc.INIT, cmac + Concat(data[..n]), data[n]);
    Assoc(cmac, Concat(data[..n]), data[n]);
  }

  lemma SummedAll(length: nat, crc: u16, cmac: Block, data: seq<seq<u8>>, icb: Block, body: seq<u8>)
    requires Summed(length, crc, cmac, data) && Concat(data) == icb + body && |body| % 16 == 0
    ensures length == 32 + |body| && length % 16 == 0 && crc == Crc.Crc(Crc.INIT, cmac + icb + body)
  {
    Assoc(cmac, icb, body);
  }

  lemma AppendPieces(data: seq<seq<u8>>, icb: Block, fs: seq<Stored>, f: Stored, header: seq<u8>, text: seq<u8>)
    requires AllStorable(fs) && Storable(f) && Concat(data) == icb + Body(fs) && header + text == Piece(f)
    ensures AllStorable(fs + [f]) && Concat(data + [header] + [text]) == icb + Body(fs + [f])
  {
    ConcatSnoc(data, header);
    ConcatSnoc(data + [header], text);
    BodySnoc(fs, f);
    Assoc(Concat(data), header, text);
    Assoc(icb, Body(fs), Piece(f));
  }

  lemma PieceLength(body: seq<u8>, f: Stored)
    requires Storable(f) && |f.data| % 16 == 0 && |body| % 16 == 0
    ensures |body + Piece(f)| % 16 == 0
  {
  }

  // ---- The reader -------------------------------------------------------------------------------

  method ReadFiles(data: seq<u8>) returns (r: Result<seq<Stored>>)
    ensures r == ParseFiles(data)
  {
    if |data| < 16 {
      return Err(TooShort);
    }
    var pos, files := 0, [];
    ghost var whole := FilesFrom(data, 0);
    assert whole.Ok? ==> [] + whole.value == whole.value;
    while pos < |data|
      invariant 0 <= pos <= |data| && Rest(whole, files, FilesFrom(data, pos))
      decreases |data| - pos
    {
      if pos + 16 > |data| {
        return Err(ExtraData);
      }
      var length := LeVal(data[pos + 4..pos + 8]);
      if pos + 16 + length > |data| {
        return Err(NotEnoughData);
      }
      var f := StoredAt(data, pos, length);
      RestStep(whole, files, f, FilesFrom(data, pos + 16 + length));
      files := files + [f];
      pos := pos + 16 + length;
    }
    assert files + [] == files;
    r := Ok(files);
  }

  /** What has been read and what is still to come make up the whole. */
  ghost predicate Rest(whole: Result<seq<Stored>>, files: seq<Stored>, rest: Result<seq<Stored>>) {
    whole == if rest.Err? then rest else Ok(files + rest.value)
  }

  lemma RestStep(whole: Result<seq<Stored>>, files: seq<Stored>, f: Stored, rest: Result<seq<Stored>>)
    requires Rest(whole, files, if rest.Err? then rest else Ok([f] + rest.value))
    ensures Rest(whole, files + [f], rest)
  {
    if rest.Ok? { Assoc(files, [f], rest.value); }
  }

  /** decrypt: one cipher for all files, up to decompression. */
  method Decrypt(ecb: BlockCipher, key: Block, icb: Block, files: seq<Stored>) returns (texts: seq<seq<u8>>)
    ensures texts == Decrypted(ecb, key, icb, 0, files)
    ensures Joined(texts) == Ctr(ecb, key, icb, DataOf(files))
    ensures |texts| == |files| && forall k | 0 <= k < |files| :: |texts[k]| == |files[k].data|
  {
    FilesAreCtr(ecb, key, icb, files);
    TextLengths(ecb, key, icb, 0, files);
    var cipher := new Cipher(ecb, key, icb);
    texts := [];
    var n := 0;
    assert files[0..] == files;
    assert [] + Decrypted(ecb, key, icb, 0, files) == Decrypted(ecb, key, icb, 0, files);
    while n < |files|
      invariant 0 <= n <= |files| && cipher.ecb == ecb && cipher.key == key && cipher.icb == icb && fresh(cipher)
      invariant texts + Decrypted(ecb, key, icb, cipher.pos, files[n..]) == Decrypted(ecb, key, icb, 0, files)
    {
      ghost var pos := cipher.pos;
      assert files[n..][1..] == files[n + 1..] && files[n..][0] == files[n];
      var text := cipher.Crypt(files[n].data);
      Assoc(texts, [text], Decrypted(ecb, key, icb, cipher.pos, files[n + 1..]));
      texts := texts + [text];
      n := n + 1;
    }
    assert texts + [] == texts;
  }

  /** A scratchpad is written, read, authenticated and decrypted. */
  method WriteAndRead(w: Writer) returns (files: seq<Stored>, authentic: bool, texts: seq<seq<u8>>)
    requires w.Valid() && w.files != [] && 64 + |Body(w.files)| <= SCRATCHPAD_MAX_LENGTH
    modifies w`cmac
    ensures files == old(w.files) && authentic && texts == old(w.texts)
  {
    var image := w.GetOtap();
    ImageRoundTrip(w.cmac, w.icb, w.files);
    var header := ParseHeader(image.value);
    var secure := ParseSecure(header.value.data);
    var r := ReadFiles(header.value.data[32..]);
    files := r.value;
    authentic := Cmac(w.cipher.ecb, w.authKey, header.value.data[16..]) == secure.value.cmac;
    texts := Decrypt(w.cipher.ecb, w.cipher.key, secure.value.icb, files);
  }
}
