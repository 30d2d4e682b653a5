/**
 Data packets as a server makes them: which of them are taken, and what is left of them in the
 buffer.
 */
module ProvisioningPackets {
  import opened Bytes
  import opened Aes
  import opened ProvisioningData
  import opened ProvisioningState

  /** The first nine bytes: type, address, session, key index, counter. */
  predicate IsHeader(h: seq<u8>, kind: u8, sessionId: u8, keyIndex: u8, counter: u16) {
    |h| == 9 && h[0] == kind && h[5] == sessionId && h[6] == keyIndex
    && h[7] == counter % 0x100 && h[8] == counter / 0x100
  }

  /** What the server encrypts: the data and five bytes of the code of header and data. */
  function Sent(env: Env, h: seq<u8>, d: seq<u8>): (r: seq<u8>)
    requires h != []
    ensures |r| == |d| + 5
  {
    d + Cmac(env.ecb, env.authKey, h + d)[..5]
  }

  /** The packet on its way: only the header is readable. */
  function Sealed(env: Env, icb: Block, h: seq<u8>, d: seq<u8>): (r: seq<u8>)
    requires h != []
    ensures |r| == |h| + |d| + 5
  {
    h + Ctr(env.ecb, env.encKey, icb, Sent(env, h, d))
  }

  /** The packet has been received: it is at the start of the buffer. */
  predicate Arrived(p: Prov, packet: seq<u8>) {
    |packet| == p.length <= PDU_SIZE && p.buffer[..p.length] == packet
  }

  lemma {:induction false} CounterIs(iv: Block, icb: Block, c: u16)
    requires LeVal(icb) == (LeVal(iv) + c) % TWO_128
    ensures icb == CounterBlock(iv, c)
  {
    IncValue(iv);
    CounterBlockValue(iv, c);
    LeBytesOfVal(icb);
    LeBytesOfVal(CounterBlock(iv, c));
  }

  lemma {:induction false} HeaderArrived(p: Prov, packet: seq<u8>, h: seq<u8>, kind: u8, sessionId: u8, keyIndex: u8,
                                         c: u16)
    requires Arrived(p, packet) && IsHeader(h, kind, sessionId, keyIndex, c) && |packet| >= 9 && packet[..9] == h
    ensures TypeOf(p.buffer) == kind && SessionOf(p.buffer) == sessionId && KeyIndexOf(p.buffer) == keyIndex
    ensures CounterOf(p.buffer) == c
  {
    assert forall i | 0 <= i < 9 :: p.buffer[i] == packet[i] == h[i];
  }

  /** Decryption of a sealed packet leaves what the server had before it encrypted it. */
  lemma {:induction false} Unsealed(env: Env, p: Prov, icb: Block, h: seq<u8>, d: seq<u8>, kind: u8, sessionId: u8,
                                    c: u16)
    requires IsHeader(h, kind, sessionId, 1, c) && Arrived(p, Sealed(env, icb, h, d))
    requires LeVal(icb) == (LeVal(p.iv) + c) % TWO_128
    ensures var b := Decrypted(env, p.iv, p.buffer, p.length);
            b[..p.length] == h + Sent(env, h, d) && b[p.length..] == p.buffer[p.length..]
  {
    var packet := Sealed(env, icb, h, d);
    var text := Ctr(env.ecb, env.encKey, icb, Sent(env, h, d));
    assert packet[..9] == h;
    HeaderArrived(p, packet, h, kind, sessionId, 1, c);
    CounterIs(p.iv, icb, c);
    InBuffer(p.buffer, p.length, h, text);
    CtrInvolution(env.ecb, env.encKey, icb, Sent(env, h, d));
    Spliced(p.buffer, Sent(env, h, d), p.length, h);
  }

  lemma {:induction false} InBuffer(b: seq<u8>, n: nat, h: seq<u8>, text: seq<u8>)
    requires n <= |b| && |h| == 9 && b[..n] == h + text
    ensures b[..9] == h && b[9..n] == text
  {
    assert b[..9] == b[..n][..9] && b[9..n] == b[..n][9..];
  }

  lemma {:induction false} Spliced(b: seq<u8>, x: seq<u8>, n: nat, h: seq<u8>)
    requires n == 9 + |x| <= |b| && b[..9] == h
    ensures Splice(b, 9, x)[..n] == h + x && Splice(b, 9, x)[n..] == b[n..]
  {
  }

  lemma {:induction false} CodeChecks(env: Env, b: Pdu, length: nat, h: seq<u8>, d: seq<u8>)
    requires |h| == 9 && length == |h| + |d| + 5 <= PDU_SIZE && b[..length] == h + Sent(env, h, d) && env.Encrypted()
    ensures Authentic(env, b, length) && DryRunBytes(env, b, length) == d
  {
    var plain := h + Sent(env, h, d);
    assert b[..length - 5] == b[..length][..length - 5] == plain[..length - 5] == h + d;
    assert b[length - 5..length] == b[..length][length - 5..] == plain[length - 5..];
    assert plain[length - 5..] == Cmac(env.ecb, env.authKey, h + d)[..5];
    assert b[9..length - 5] == b[..length][9..length - 5] == plain[9..length - 5] == d;
  }

  /**
   A packet sealed with the keys of the node for its session is opened, and taken exactly if its
   data is acceptable; the buffer then holds what the server had before it encrypted it.
   */
  lemma {:induction false} SealedIsTaken(env: Env, p: Prov, icb: Block, h: seq<u8>, d: seq<u8>, c: u16)
    requires env.Encrypted() && IsHeader(h, 2, p.sessionId, 1, c) && Arrived(p, Sealed(env, icb, h, d))
    requires LeVal(icb) == (LeVal(p.iv) + c) % TWO_128
    ensures var r := Judge(env, p);
            && r.0 == (if Acceptable(env.reader, env.st, d) then Success else InvalidDataResult) && r.1 == p.retry
            && r.2[..p.length] == h + d + Cmac(env.ecb, env.authKey, h + d)[..5]
            && r.2[p.length..] == p.buffer[p.length..]
  {
    var packet := Sealed(env, icb, h, d);
    assert packet[..9] == h;
    HeaderArrived(p, packet, h, 2, p.sessionId, 1, c);
    Unsealed(env, p, icb, h, d, 2, p.sessionId, c);
    CodeChecks(env, Decrypted(env, p.iv, p.buffer, p.length), p.length, h, d);
    Assoc(h, d, Cmac(env.ecb, env.authKey, h + d)[..5]);
  }

  /** Without encryption the packet is header and data. */
  lemma {:induction false} PlainIsTaken(env: Env, p: Prov, h: seq<u8>, d: seq<u8>, keyIndex: u8, c: u16)
    requires env.sort == Unsecured && IsHeader(h, 2, p.sessionId, keyIndex, c) && Arrived(p, h + d)
    ensures var r := Judge(env, p);
            && r.0 == (if keyIndex != 0 then InvalidPacket
                       else if Acceptable(env.reader, env.st, d) then Success else InvalidDataResult)
            && r.1 == p.retry && r.2 == p.buffer
  {
    var packet := h + d;
    assert packet[..9] == h;
    HeaderArrived(p, packet, h, 2, p.sessionId, keyIndex, c);
    assert p.buffer[9..p.length] == p.buffer[..p.length][9..] == d;
  }

  /** Packets of another session, another type or another key are not taken, whatever their data. */
  lemma {:induction false} OthersAreNot(env: Env, p: Prov, packet: seq<u8>, kind: u8, sessionId: u8, keyIndex: u8,
                                        c: u16)
    requires Arrived(p, packet) && |packet| >= 9 && IsHeader(packet[..9], kind, sessionId, keyIndex, c)
    requires Readable(env, p) && p.ev.rxdPacket
    ensures sessionId != p.sessionId ==> Judge(env, p) == (InvalidPacket, p.retry, p.buffer)
    ensures sessionId == p.sessionId && kind == 4 ==> Judge(env, p) == (Nack, env.nbRetry, p.buffer)
    ensures sessionId == p.sessionId && kind != 4 && kind != 2 ==> Judge(env, p) == (InvalidPacket, p.retry, p.buffer)
    ensures sessionId == p.sessionId && kind == 2 && env.Encrypted() && keyIndex != 1 ==>
              Judge(env, p) == (InvalidDataResult, p.retry, p.buffer)
  {
    HeaderArrived(p, packet, packet[..9], kind, sessionId, keyIndex, c);
  }

  /** Whatever is taken has been sealed with the keys of the node: nothing else is. */
  lemma {:induction false} TakenIsSealed(env: Env, p: Prov, icb: Block) returns (d: seq<u8>)
    requires env.Encrypted() && Readable(env, p) && p.ev.rxdPacket && Judge(env, p).0 == Success
    requires LeVal(icb) == (LeVal(p.iv) + CounterOf(p.buffer)) % TWO_128
    ensures IsHeader(p.buffer[..9], 2, p.sessionId, 1, CounterOf(p.buffer))
    ensures Arrived(p, Sealed(env, icb, p.buffer[..9], d)) && Acceptable(env.reader, env.st, d)
  {
    var text := TakenFacts(env, p, icb);
    d := text[..|text| - 5];
    Closed(env, Decrypted(env, p.iv, p.buffer, p.length), p.length, p.buffer[..9], text);
  }

  lemma {:induction false} TakenFacts(env: Env, p: Prov, icb: Block) returns (text: seq<u8>)
    requires env.Encrypted() && Readable(env, p) && p.ev.rxdPacket && Judge(env, p).0 == Success
    requires LeVal(icb) == (LeVal(p.iv) + CounterOf(p.buffer)) % TWO_128
    ensures IsHeader(p.buffer[..9], 2, p.sessionId, 1, CounterOf(p.buffer)) && |text| >= 5 && p.length == 9 + |text|
    ensures p.buffer[..p.length] == p.buffer[..9] + Ctr(env.ecb, env.encKey, icb, text)
    ensures var b := Decrypted(env, p.iv, p.buffer, p.length);
            && b[..p.length] == p.buffer[..9] + text && Authentic(env, b, p.length)
            && Acceptable(env.reader, env.st, DryRunBytes(env, b, p.length))
  {
    JudgeSays(env, p);
    HeaderOf(p.buffer);
    text := Opened(env, p, icb);
  }

  lemma {:induction false} JudgeSays(env: Env, p: Prov)
    requires env.Encrypted() && Readable(env, p) && p.ev.rxdPacket && Judge(env, p).0 == Success
    ensures TypeOf(p.buffer) == 2 && SessionOf(p.buffer) == p.sessionId && KeyIndexOf(p.buffer) == 1
    ensures 14 <= p.length <= PDU_SIZE
    ensures var b := Decrypted(env, p.iv, p.buffer, p.length);
            Authentic(env, b, p.length) && Acceptable(env.reader, env.st, DryRunBytes(env, b, p.length))
  {
  }

  lemma {:induction false} HeaderOf(b: Pdu)
    ensures IsHeader(b[..9], TypeOf(b), SessionOf(b), KeyIndexOf(b), CounterOf(b))
  {
    var lo: int, hi: int := b[7], b[8];
    assert CounterOf(b) % 0x100 == lo && CounterOf(b) / 0x100 == hi;
  }

  /** What decryption does to any packet. */
  lemma {:induction false} Opened(env: Env, p: Prov, icb: Block) returns (text: seq<u8>)
    requires 9 <= p.length <= PDU_SIZE && LeVal(icb) == (LeVal(p.iv) + CounterOf(p.buffer)) % TWO_128
    ensures p.length == 9 + |text|
    ensures p.buffer[..p.length] == p.buffer[..9] + Ctr(env.ecb, env.encKey, icb, text)
    ensures Decrypted(env, p.iv, p.buffer, p.length)[..p.length] == p.buffer[..9] + text
  {
    var cipher := p.buffer[9..p.length];
    text := Ctr(env.ecb, env.encKey, icb, cipher);
    CounterIs(p.iv, icb, CounterOf(p.buffer));
    Spliced(p.buffer, text, p.length, p.buffer[..9]);
    CtrInvolution(env.ecb, env.encKey, icb, cipher);
    assert p.buffer[..p.length] == p.buffer[..9] + cipher;
  }

  /** An authentic packet is a header and what the server would have sent behind it. */
  lemma {:induction false} Closed(env: Env, b: Pdu, length: nat, h: seq<u8>, text: seq<u8>)
    requires |h| == 9 && |text| >= 5 && length == 9 + |text| <= PDU_SIZE && b[..length] == h + text
    requires env.Encrypted() && Authentic(env, b, length)
    ensures var d := text[..|text| - 5]; text == Sent(env, h, d) && DryRunBytes(env, b, length) == d
  {
    var d := text[..|text| - 5];
    assert b[..length - 5] == b[..length][..length - 5] == h + d;
    assert b[length - 5..length] == b[..length][length - 5..] == text[|text| - 5..];
    assert text == d + text[|text| - 5..];
    assert b[9..length - 5] == b[..length - 5][9..] == d;
  }
}
