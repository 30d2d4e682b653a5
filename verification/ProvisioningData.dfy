/**
 Decoding of provisioning data (libraries/provisioning/data.c). The CBOR library is not
 part of the model: it is a function from bytes to the entries of a map.
 */
module ProvisioningData {
  import opened Wrappers
  import opened Bytes

  // ---- What the CBOR library delivers ---------------------------------------------------------

  /** The identifier of an entry, or why it cannot be read. */
  datatype Key = NotUnsigned | OutOfRange | Id(n: nat)

  /** A value, as each of the extraction functions sees it; `None` is an extraction error. */
  datatype Value = Value(kind: nat, bytes: Option<seq<u8>>, number: Option<u32>, small: Option<u8>,
                         user: Option<seq<u8>>)

  /** One entry; `keyStep` and `valueStep` tell whether the reader can advance past its two parts. */
  datatype Entry = Entry(key: Key, keyStep: bool, value: Value, valueStep: bool)

  datatype Cbor = Unreadable | NotMap | NoEntry | Map(entries: seq<Entry>)

  type CborReader = seq<u8> -> Cbor

  /** What the stack accepts as network parameters. */
  datatype Settings = Settings(address: u32 -> bool, channel: u8 -> bool, node: u32 -> bool, role: u8 -> bool)

  datatype UserCall = UserCall(id: nat, kind: nat, data: seq<u8>)

  const KEY_BYTES: nat := 16
  const INVALID_NET_ADDR: u32 := 0
  const INVALID_NET_CHAN: u8 := 0
  const INVALID_NODE_ADDR: u32 := 0
  const INVALID_NODE_ROLE: u8 := 0xff

  /** A byte string copied into a buffer of `capacity` bytes. */
  function CopyBytes(v: Value, capacity: nat): Option<seq<u8>>
  {
    if v.bytes.Some? && |v.bytes.value| <= capacity then v.bytes else None
  }

  // ---- Specification --------------------------------------------------------------------------

  /** Received parameters; a key is `Some` once it has been set. */
  datatype Params = Params(encKey: Option<seq<u8>>, authKey: Option<seq<u8>>,
                           netAddr: u32, netChan: u8, nodeAddr: u32, nodeRole: u8)

  predicate IsKey(v: Value) { v.bytes.Some? && |v.bytes.value| == KEY_BYTES }

  predicate WirepasOk(st: Settings, id: nat, v: Value) {
    if id <= 1 then IsKey(v)
    else if id == 2 then v.number.Some? && st.address(v.number.value)
    else if id == 3 then v.small.Some? && st.channel(v.small.value)
    else if id == 4 then v.number.Some? && st.node(v.number.value)
    else id == 5 && v.bytes.Some? && |v.bytes.value| == 1 && st.role(v.bytes.value[0])
  }

  predicate IsUserId(id: nat) { 128 <= id <= 255 }

  /** The entry is handed to the user's callback. */
  predicate Called(e: Entry) {
    e.key.Id? && e.keyStep && IsUserId(e.key.n) && e.value.user.Some?
  }

  predicate EntryOk(st: Settings, e: Entry) {
    e.valueStep && (Called(e) || (e.key.Id? && e.keyStep && WirepasOk(st, e.key.n, e.value)))
  }

  /** Number of entries looked at: everything up to the first that is in error. */
  function Looked(st: Settings, es: seq<Entry>): (n: nat)
    ensures n <= |es|
  {
    if es == [] then 0
    else if EntryOk(st, es[0]) then 1 + Looked(st, es[1..])
    else 1
  }

  /** The calls that entries cause, in order. */
  function Calls(es: seq<Entry>): seq<UserCall>
  {
    if es == [] then []
    else
      var e, init := es[|es| - 1], Calls(es[..|es| - 1]);
      if Called(e) then init + [UserCall(e.key.n, e.value.kind, e.value.user.value)] else init
  }

  predicate HasId(e: Entry, id: nat) { e.key == Id(id) }

  /** The value of the last entry with an identifier. */
  function Last(es: seq<Entry>, id: nat): Option<Value>
  {
    if es == [] then None
    else if HasId(es[|es| - 1], id) then Some(es[|es| - 1].value)
    else Last(es[..|es| - 1], id)
  }

  /** Of several entries with the same identifier the last one counts; what is missing is invalid. */
  function Network(es: seq<Entry>): Params
  {
    var enc, auth, addr, chan, node, role :=
      Last(es, 0), Last(es, 1), Last(es, 2), Last(es, 3), Last(es, 4), Last(es, 5);
    Params(
      if enc.Some? then enc.value.bytes else None,
      if auth.Some? then auth.value.bytes else None,
      if addr.Some? && addr.value.number.Some? then addr.value.number.value else INVALID_NET_ADDR,
      if chan.Some? && chan.value.small.Some? then chan.value.small.value else INVALID_NET_CHAN,
      if node.Some? && node.value.number.Some? then node.value.number.value else INVALID_NODE_ADDR,
      if role.Some? && role.value.bytes.Some? && |role.value.bytes.value| == 1 then role.value.bytes.value[0]
      else INVALID_NODE_ROLE)
  }

  predicate AllOk(st: Settings, es: seq<Entry>) { forall i | 0 <= i < |es| :: EntryOk(st, es[i]) }

  /** Both keys, the network address and the channel are mandatory. */
  predicate Complete(p: Params) {
    p.encKey.Some? && p.authKey.Some? && p.netAddr != INVALID_NET_ADDR && p.netChan != INVALID_NET_CHAN
  }

  predicate Acceptable(reader: CborReader, st: Settings, bytes: seq<u8>) {
    bytes != [] && reader(bytes).Map?
    && AllOk(st, reader(bytes).entries) && Complete(Network(reader(bytes).entries))
  }

  /** The calls that decoding causes, whether it succeeds or not. */
  function DecodeCalls(reader: CborReader, st: Settings, bytes: seq<u8>): seq<UserCall>
  {
    if bytes == [] || !reader(bytes).Map? then []
    else Calls(reader(bytes).entries[..Looked(st, reader(bytes).entries)])
  }

  /**
   An entry is in order exactly if both steps of the reader succeed and its identifier is reserved
   for a parameter with such a value or for the user; other identifiers are errors.
   */
  lemma EntryInOrder(st: Settings, e: Entry)
    ensures EntryOk(st, e) <==>
            && e.key.Id? && e.keyStep && e.valueStep
            && match e.key.n
               case 0 => e.value.bytes.Some? && |e.value.bytes.value| == 16
               case 1 => e.value.bytes.Some? && |e.value.bytes.value| == 16
               case 2 => e.value.number.Some? && st.address(e.value.number.value)
               case 3 => e.value.small.Some? && st.channel(e.value.small.value)
               case 4 => e.value.number.Some? && st.node(e.value.number.value)
               case 5 => e.value.bytes.Some? && |e.value.bytes.value| == 1 && st.role(e.value.bytes.value[0])
               case n => 0x80 <= n <= 0xff && e.value.user.Some?
  {
  }

  lemma {:induction false} LookedAll(st: Settings, es: seq<Entry>)
    requires AllOk(st, es)
    ensures Looked(st, es) == |es|
  {
    if es != [] {
      LookedAll(st, es[1..]);
    }
  }

  lemma {:induction false} LookedStep(st: Settings, es: seq<Entry>, n: nat)
    requires n < |es| && !EntryOk(st, es[n]) && forall k | 0 <= k < n :: EntryOk(st, es[k])
    ensures Looked(st, es) == n + 1
  {
    if n > 0 {
      assert forall k | 0 <= k < n - 1 :: es[1..][k] == es[k + 1];
      LookedStep(st, es[1..], n - 1);
    }
  }

  lemma {:induction false} LastIsLast(es: seq<Entry>, id: nat, k: nat)
    requires k < |es| && HasId(es[k], id) && forall i | k < i < |es| :: !HasId(es[i], id)
    ensures Last(es, id) == Some(es[k].value)
  {
    if k < |es| - 1 {
      LastIsLast(es[..|es| - 1], id, k);
    }
  }

  /** What an accepted buffer configures has passed the stack's checks. */
  lemma {:induction false} LastChecked(st: Settings, es: seq<Entry>, id: nat)
    requires AllOk(st, es) && id <= 5
    ensures Last(es, id).Some? ==> WirepasOk(st, id, Last(es, id).value)
  {
    if es != [] {
      var n := |es| - 1;
      assert EntryOk(st, es[n]);
      LastChecked(st, es[..n], id);
    }
  }

  lemma AcceptedNetwork(reader: CborReader, st: Settings, bytes: seq<u8>)
    requires Acceptable(reader, st, bytes)
    ensures var p := Network(reader(bytes).entries);
            && |p.encKey.value| == KEY_BYTES && |p.authKey.value| == KEY_BYTES
            && st.address(p.netAddr) && st.channel(p.netChan)
            && (p.nodeAddr != INVALID_NODE_ADDR ==> st.node(p.nodeAddr))
            && (p.nodeRole != INVALID_NODE_ROLE ==> st.role(p.nodeRole))
  {
    var es := reader(bytes).entries;
    LastChecked(st, es, 0);
    LastChecked(st, es, 1);
    LastChecked(st, es, 2);
    LastChecked(st, es, 3);
    LastChecked(st, es, 4);
    LastChecked(st, es, 5);
  }

  // ---- The decoder ----------------------------------------------------------------------------

  datatype Verdict = Accepts | InvalidParam | InvalidData

  class Decoder {
    const reader: CborReader
    const st: Settings
    var encKey: seq<u8>
    var isEncKeySet: bool
    var authKey: seq<u8>
    var isAuthKeySet: bool
    var netAddr: u32
    var netChan: u8
    var nodeAddr: u32
    var nodeRole: u8
    /** Calls of the user's callback so far. */
    var calls: seq<UserCall>

    constructor (reader: CborReader, st: Settings)
      ensures this.reader == reader && this.st == st && calls == []
    {
      this.reader, this.st := reader, st;
      encKey, isEncKeySet, authKey, isAuthKeySet := [], false, [], false;
      netAddr, netChan, nodeAddr, nodeRole := INVALID_NET_ADDR, INVALID_NET_CHAN, INVALID_NODE_ADDR, INVALID_NODE_ROLE;
      calls := [];
    }

    ghost function Stored(): Params
      reads this
    {
      Params(if isEncKeySet then Some(encKey) else None, if isAuthKeySet then Some(authKey) else None,
             netAddr, netChan, nodeAddr, nodeRole)
    }

    method ParseEncKey(v: Value) returns (ok: bool)
      modifies this`encKey, this`isEncKeySet
      ensures ok == IsKey(v)
      ensures ok ==> Stored() == old(Stored()).(encKey := v.bytes)
    {
      var bytes := CopyBytes(v, KEY_BYTES);
      if bytes == None {
        return false;
      }
      encKey := bytes.value + encKey[Min(|bytes.value|, |encKey|)..];
      if |bytes.value| != KEY_BYTES {
        return false;
      }
      encKey := bytes.value;
      isEncKeySet := true;
      ok := true;
    }

    method ParseAuthKey(v: Value) returns (ok: bool)
      modifies this`authKey, this`isAuthKeySet
      ensures ok == IsKey(v)
      ensures ok ==> Stored() == old(Stored()).(authKey := v.bytes)
    {
      var bytes := CopyBytes(v, KEY_BYTES);
      if bytes == None {
        return false;
      }
      authKey := bytes.value + authKey[Min(|bytes.value|, |authKey|)..];
      if |bytes.value| != KEY_BYTES {
        return false;
      }
      authKey := bytes.value;
      isAuthKeySet := true;
      ok := true;
    }

    method ParseNetAddress(v: Value) returns (ok: bool)
      modifies this`netAddr
      ensures ok == WirepasOk(st, 2, v)
      ensures ok ==> Stored() == old(Stored()).(netAddr := v.number.value)
    {
      if v.number == None {
        return false;
      }
      netAddr := v.number.value;
      if !st.address(netAddr) {
        netAddr := INVALID_NET_ADDR;
        return false;
      }
      ok := true;
    }

    method ParseNetChannel(v: Value) returns (ok: bool)
      modifies this`netChan
      ensures ok == WirepasOk(st, 3, v)
      ensures ok ==> Stored() == old(Stored()).(netChan := v.small.value)
    {
      if v.small == None {
        return false;
      }
      netChan := v.small.value;
      if !st.channel(netChan) {
        netChan := INVALID_NET_CHAN;
        return false;
      }
      ok := true;
    }

    method ParseNodeAddress(v: Value) returns (ok: bool)
      modifies this`nodeAddr
      ensures ok == WirepasOk(st, 4, v)
      ensures ok ==> Stored() == old(Stored()).(nodeAddr := v.number.value)
    {
      if v.number == None {
        return false;
      }
      nodeAddr := v.number.value;
      if !st.node(nodeAddr) {
        nodeAddr := INVALID_NODE_ADDR;
        return false;
      }
      ok := true;
    }

    method ParseNodeRole(v: Value) returns (ok: bool)
      modifies this`nodeRole
      ensures ok == WirepasOk(st, 5, v)
      ensures ok ==> Stored() == old(Stored()).(nodeRole := v.bytes.value[0])
    {
      var bytes := CopyBytes(v, 1);
      if bytes == None {
        return false;
      }
      if |bytes.value| == 1 {
        nodeRole := bytes.value[0];
      }
      if |bytes.value| != 1 || !st.role(nodeRole) {
        nodeRole := INVALID_NODE_ROLE;
        return false;
      }
      ok := true;
    }

    method ParseWirepasData(v: Value, id: nat) returns (ok: bool)
      modifies this`encKey, this`isEncKeySet, this`authKey, this`isAuthKeySet, this`netAddr, this`netChan,
               this`nodeAddr, this`nodeRole
      ensures ok == WirepasOk(st, id, v)
      ensures ok ==> Stored() == WithValue(old(Stored()), id, v)
    {
      if id == 0 {
        ok := ParseEncKey(v);
      } else if id == 1 {
        ok := ParseAuthKey(v);
      } else if id == 2 {
        ok := ParseNetAddress(v);
      } else if id == 3 {
        ok := ParseNetChannel(v);
      } else if id == 4 {
        ok := ParseNodeAddress(v);
      } else if id == 5 {
        ok := ParseNodeRole(v);
      } else {
        ok := false;
      }
    }

    /** `callback` tells whether the user's callback is to be called. */
    method ParseUserData(v: Value, id: nat, callback: bool) returns (ok: bool)
      modifies this`calls
      ensures ok == v.user.Some?
      ensures calls == old(calls) + if ok && callback then [UserCall(id, v.kind, v.user.value)] else []
    {
      if v.user == None {
        return false;
      }
      if callback {
        calls := calls + [UserCall(id, v.kind, v.user.value)];
      }
      ok := true;
    }

    /** One entry. */
    method ParseEntry(e: Entry, callback: bool) returns (ok: bool)
      modifies this
      ensures ok == EntryOk(st, e)
      ensures ok ==> Stored() == WithEntry(old(Stored()), e)
      ensures calls == old(calls) + if callback then Calls([e]) else []
    {
      assert [e][..0] == [];
      if !e.key.Id? || !e.keyStep {
        return false;
      }
      var id := e.key.n;
      if id <= 5 {
        ok := ParseWirepasData(e.value, id);
      } else if 128 <= id <= 255 {
        ok := ParseUserData(e.value, id, callback);
      } else {
        return false;
      }
      ok := ok && e.valueStep;
    }

    method Clear()
      modifies this
      ensures Stored() == Network([]) && calls == old(calls)
    {
      isAuthKeySet, isEncKeySet := false, false;
      netAddr, netChan, nodeAddr, nodeRole := INVALID_NET_ADDR, INVALID_NET_CHAN, INVALID_NODE_ADDR, INVALID_NODE_ROLE;
    }

    method ParseMap(es: seq<Entry>, callback: bool) returns (ok: bool)
      modifies this
      ensures ok == (AllOk(st, es) && Complete(Network(es)))
      ensures ok ==> Stored() == Network(es)
      ensures calls == old(calls) + if callback then Calls(es[..Looked(st, es)]) else []
    {
      Clear();
      var n := 0;
      assert es[..0] == [];
      while n < |es|
        invariant 0 <= n <= |es| && forall k | 0 <= k < n :: EntryOk(st, es[k])
        invariant Stored() == Network(es[..n])
        invariant calls == old(calls) + if callback then Calls(es[..n]) else []
      {
        ok := ParseEntry(es[n], callback);
        CallsSnoc(es, n);
        if !ok {
          LookedStep(st, es, n);
          return;
        }
        NetworkSnoc(st, es, n);
        n := n + 1;
      }
      assert es[..n] == es;
      LookedAll(st, es);
      ok := isEncKeySet && isAuthKeySet && netAddr != INVALID_NET_ADDR && netChan != INVALID_NET_CHAN;
    }

    /** Provisioning_Data_decode, up to the call of the end callback. */
    method Decode(buffer: seq<u8>, dryRun: bool) returns (r: Verdict)
      modifies this
      ensures r == Accepts <==> Acceptable(reader, st, buffer)
      ensures r == InvalidParam <==> buffer == []
      ensures r == Accepts ==> Stored() == Network(reader(buffer).entries)
      ensures calls == old(calls) + if dryRun then [] else DecodeCalls(reader, st, buffer)
    {
      if |buffer| == 0 {
        return InvalidParam;
      }
      var map_ := reader(buffer);
      if !map_.Map? {
        return InvalidData;
      }
      var ok := ParseMap(map_.entries, !dryRun);
      r := if ok then Accepts else InvalidData;
    }
  }

  /** `p` with the value of a wirepas entry stored. */
  function WithValue(p: Params, id: nat, v: Value): Params
  {
    if id == 0 then p.(encKey := v.bytes)
    else if id == 1 then p.(authKey := v.bytes)
    else if id == 2 && v.number.Some? then p.(netAddr := v.number.value)
    else if id == 3 && v.small.Some? then p.(netChan := v.small.value)
    else if id == 4 && v.number.Some? then p.(nodeAddr := v.number.value)
    else if id == 5 && v.bytes.Some? && |v.bytes.value| == 1 then p.(nodeRole := v.bytes.value[0])
    else p
  }

  function WithEntry(p: Params, e: Entry): Params
  {
    if e.key.Id? then WithValue(p, e.key.n, e.value) else p
  }

  lemma CallsSnoc(es: seq<Entry>, n: nat)
    requires n < |es|
    ensures Calls(es[..n + 1]) == Calls(es[..n]) + Calls([es[n]])
  {
    assert es[..n + 1][..n] == es[..n];
    assert [es[n]][..0] == [];
  }

  lemma NetworkSnoc(st: Settings, es: seq<Entry>, n: nat)
    requires n < |es| && EntryOk(st, es[n])
    ensures Network(es[..n + 1]) == WithEntry(Network(es[..n]), es[n])
  {
    LastSnoc(es, n, 0);
    LastSnoc(es, n, 1);
    LastSnoc(es, n, 2);
    LastSnoc(es, n, 3);
    LastSnoc(es, n, 4);
    LastSnoc(es, n, 5);
  }

  lemma LastSnoc(es: seq<Entry>, n: nat, id: nat)
    requires n < |es|
    ensures Last(es[..n + 1], id) == if HasId(es[n], id) then Some(es[n].value) else Last(es[..n], id)
  {
    assert es[..n + 1][..n] == es[..n];
  }

  /** On bytes that a dry run accepts, the run for good makes every call of the user's entries. */
  lemma AcceptedCalls(reader: CborReader, st: Settings, bytes: seq<u8>)
    requires Acceptable(reader, st, bytes)
    ensures DecodeCalls(reader, st, bytes) == Calls(reader(bytes).entries)
  {
    var es := reader(bytes).entries;
    LookedAll(st, es);
    assert es[..|es|] == es;
  }
}
