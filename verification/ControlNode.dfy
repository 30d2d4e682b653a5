/**
 The control node library as it is written (libraries/control_node/control_node.c): the search
 for a router with running maxima, and the callbacks and tasks that update the static variables.
 */
module ControlNode {
  import opened Wrappers
  import opened Bytes
  import opened ControlNodeState

  const MAX_NBORS: nat := 10

  /** The best candidate among the first `n` neighbours so far: index and RSSI, or none. */
  ghost predicate BestSoFar(ns: seq<Nbor>, exclude: u32, recent: bool, n: nat, idx: nat, rssi: i8)
    requires n <= |ns| <= MAX_NBORS
  {
    if idx == MAX_NBORS then rssi == -128 && NoCandidate(ns[..n], exclude, recent)
    else idx < n && IsBest(ns[..n], exclude, recent, idx) && rssi == ns[idx].rssi
  }

  lemma BestStep(ns: seq<Nbor>, exclude: u32, recent: bool, n: nat, idx: nat, rssi: i8)
    requires n < |ns| <= MAX_NBORS && BestSoFar(ns, exclude, recent, n, idx, rssi)
    ensures var better := ns[n].capable && ns[n].address != exclude && (recent ==> Recent(ns[n])) && ns[n].rssi > rssi;
            if better then BestSoFar(ns, exclude, recent, n + 1, n, ns[n].rssi)
            else BestSoFar(ns, exclude, recent, n + 1, idx, rssi)
  {
    var a, b := ns[..n], ns[..n + 1];
    assert forall k | 0 <= k < n :: b[k] == a[k];
    assert b[n] == ns[n];
  }

  /** get_da_router_address over the list of neighbours. */
  method GetDaRouterAddress(ns: seq<Nbor>, exclude: u32) returns (address: u32)
    requires |ns| <= MAX_NBORS
    ensures IsRouter(ns, exclude, address)
  {
    var maxRssi: i8, maxRssiWithinWindow: i8 := -128, -128;
    var idx: nat, idxWithinWindow: nat := MAX_NBORS, MAX_NBORS;
    var i := 0;
    while i < |ns|
      invariant 0 <= i <= |ns|
      invariant BestSoFar(ns, exclude, false, i, idx, maxRssi)
      invariant BestSoFar(ns, exclude, true, i, idxWithinWindow, maxRssiWithinWindow)
    {
      BestStep(ns, exclude, false, i, idx, maxRssi);
      BestStep(ns, exclude, true, i, idxWithinWindow, maxRssiWithinWindow);
      if ns[i].address != exclude && ns[i].capable {
        if ns[i].age < NBOR_MAX_TIME_LAST_SEEN && ns[i].rssi > maxRssiWithinWindow {
          maxRssiWithinWindow := ns[i].rssi;
          idxWithinWindow := i;
        }
        if ns[i].rssi > maxRssi {
          maxRssi := ns[i].rssi;
          idx := i;
        }
      }
      i := i + 1;
    }
    assert ns[..i] == ns;
    if idxWithinWindow != MAX_NBORS {
      address := ns[idxWithinWindow].address;
    } else if idx != MAX_NBORS {
      address := ns[idx].address;
    } else {
      address := NO_ROUTE;
    }
  }

  class Library {
    const ttlMs: u32
    var state: State
    var h0: Handle
    var h1: Handle
    var data: seq<u8>
    var sentCb: Option<nat>
    /** Number of sends that have begun; it names their callbacks. */
    var serial: nat
    /** Delays of the two tasks, where pending. */
    var backupTask: Option<nat>
    var resetTask: Option<nat>
    var out: Log

    ghost function Now(): Node
      reads this
    {
      Node(state, h0, h1, data, sentCb, serial, backupTask, resetTask, ttlMs, out)
    }

    constructor Init(packetTtlMs: u32)
      ensures Now() == Initial(packetTtlMs)
    {
      ttlMs := packetTtlMs;
      state, h0, h1 := Idle, Handle(false, false, NO_ROUTE), Handle(false, false, NO_ROUTE);
      data, sentCb, serial, backupTask, resetTask, out := [], None, 0, None, None, Empty;
    }

    /** Shared_Data_sendData; `ok` is the answer of the stack. */
    method SendData(dest: u32, ok: bool) returns (res: bool)
      modifies this`out
      ensures res == ok && out == Then(old(out), Handed(dest, data))
    {
      out := Then(out, Handed(dest, data));
      res := ok;
    }

    /** The packet is handed over for the primary route and, if refused, at once for the backup route. */
    method TrySend(ok0: bool, ok1: bool) returns (ok: bool)
      requires !h0.end && !h1.sent
      modifies this`h0, this`h1, this`state, this`out
      ensures ok == (ok0 || (h1.address != NO_ROUTE && ok1))
      ensures h0 == old(h0).(end := !ok0) && h1 == old(h1).(sent := !ok0 && h1.address != NO_ROUTE)
      ensures state == if ok then old(state) else Idle
      ensures var first := Then(old(out), Handed(h0.address, data));
              out == if h1.sent then Then(first, Handed(h1.address, data)) else first
    {
      var res := SendData(h0.address, ok0);
      if !res {
        h0 := h0.(end := true);
        if h1.address == NO_ROUTE {
          state := Idle;
          return false;
        }
        h1 := h1.(sent := true);
        res := SendData(h1.address, ok1);
        if !res {
          state := Idle;
          return false;
        }
      }
      ok := true;
    }

    /** The reset timer always, the backup timer only where there is a backup route not used yet. */
    method StartTimers()
      modifies this`resetTask, this`backupTask, this`h1
      ensures resetTask == Some(ttlMs * 2 % 0x1_0000_0000)
      ensures var spare := h1.address != NO_ROUTE && !h1.sent;
              && h1 == old(h1).(end := old(h1).end || !spare)
              && backupTask == if spare then Some(ttlMs / 2) else old(backupTask)
    {
      resetTask := Some(ttlMs * 2 % 0x1_0000_0000);
      if h1.address == NO_ROUTE || h1.sent {
        h1 := h1.(end := true);
      } else {
        backupTask := Some(ttlMs / 2);
      }
    }

    /** A send that has passed the checks, on the routes chosen. */
    method Transmit(a: Send) returns (r: Return)
      requires Begins(Now(), a)
      modifies this
      ensures r == SendReturn(old(Now()), a) && Now() == Sent(old(Now()), a)
    {
      state := Busy;
      h0, h1 := Handle(true, false, a.primary), Handle(false, false, a.backup);
      data := a.bytes;
      out := Then(out, Began(serial, a.bytes));
      sentCb := if a.callback then Some(serial) else None;
      serial := serial + 1;
      var ok := TrySend(a.ok0, a.ok1);
      if !ok {
        return SendError;
      }
      StartTimers();
      if a.callback {
        out := Then(out, Accepted(serial - 1));
      }
      r := Ok;
    }

    /** Control_Node_send; the list of neighbours and the answers of the stack come from outside. */
    method SendPacket(bytes: seq<u8>, callback: bool, ns: seq<Nbor>, ok0: bool, ok1: bool)
      returns (r: Return, a: Send)
      requires |ns| <= MAX_NBORS
      modifies this
      ensures a == Send(bytes, callback, a.primary, a.backup, ok0, ok1)
      ensures Begins(old(Now()), a) ==> IsRouter(ns, NO_ROUTE, a.primary) && IsRouter(ns, a.primary, a.backup)
      ensures r == SendReturn(old(Now()), a) && Now() == Sent(old(Now()), a)
    {
      a := Send(bytes, callback, NO_ROUTE, NO_ROUTE, ok0, ok1);
      if state != Idle {
        return InvalidState, a;
      }
      if |bytes| == 0 || |bytes| > MAX_PAYLOAD {
        return InvalidParam, a;
      }
      var primary := GetDaRouterAddress(ns, NO_ROUTE);
      var backup := GetDaRouterAddress(ns, primary);
      a := a.(primary := primary, backup := backup);
      r := Transmit(a);
    }

    /** The user's callback is called; it may be called only once. */
    method CallUser(success: bool)
      requires sentCb.Some?
      modifies this`out
      ensures out == Then(old(out), Called(sentCb.value, success))
    {
      out := Then(out, Called(sentCb.value, success));
    }

    /** reset_task; `again` tells whether the user's callback sends another packet, with these arguments. */
    method ResetFire(again: bool, bytes: seq<u8>, callback: bool, ns: seq<Nbor>, ok0: bool, ok1: bool)
      returns (ghost a: Option<Send>)
      requires |ns| <= MAX_NBORS && resetTask.Some?
      modifies this
      ensures Now() == Step(old(Now()), FireReset(a))
      ensures a.Some? == (again && old(sentCb).Some?)
      ensures a.Some? ==> a.value == Send(bytes, callback, a.value.primary, a.value.backup, ok0, ok1)
    {
      a := None;
      resetTask := None;
      backupTask := None;
      h0 := h0.(end := true, address := NO_ROUTE);
      h1 := h1.(end := true, address := NO_ROUTE);
      state := Idle;
      if sentCb != None {
        CallUser(false);
        if again {
          ghost var before := Now();
          var _, b := SendPacket(bytes, callback, ns, ok0, ok1);
          a := Some(b);
          assert Sent(before, b).(sentCb := None) == Sent(before.(sentCb := None), b).(sentCb := None);
        }
        sentCb := None;
      }
    }

    /** backup_route_task */
    method BackupFire(ok: bool)
      requires backupTask.Some?
      modifies this
      ensures Now() == Step(old(Now()), FireBackup(ok))
    {
      backupTask := None;
      h1 := h1.(sent := true);
      var res := SendData(h1.address, ok);
      if !res {
        h1 := h1.(end := true);
      }
      if h0.end && h1.end {
        resetTask := None;
        if sentCb != None {
          CallUser(false);
          sentCb := None;
        }
        state := Idle;
      }
    }

    /** packet_sent_cb; `ok` is the answer of the stack if the backup packet is sent from here. */
    method PacketSentCb(dest: u32, success: bool, ok: bool)
      modifies this
      ensures Now() == Step(old(Now()), PacketSent(dest, success, ok))
    {
      if state != Busy {
        return;
      }
      if dest == h0.address {
        h0 := h0.(end := true);
        backupTask := None;
        if !h1.sent {
          if success {
            h1 := h1.(end := true);
          } else {
            var res := SendData(h1.address, ok);
            h1 := h1.(sent := true);
            if !res {
              h1 := h1.(end := true);
            }
          }
        }
      } else if dest == h1.address {
        h1 := h1.(end := true);
      } else {
        h0 := h0.(end := true);
        h1 := h1.(end := true);
      }
      if success || (h0.end && h1.end) {
        if sentCb != None {
          CallUser(success);
          sentCb := None;
        }
      }
      if h0.end && h1.end {
        resetTask := None;
        state := Idle;
      }
    }
  }
}
