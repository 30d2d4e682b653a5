/**
 What one send of the control node comes to, stated on the routes, answers and timers alone.
 */
module ControlNodeSends {
  import opened Wrappers
  import opened Bytes
  import opened ControlNodeState

  /**
   A router is found whenever a capable one is heard; it comes before every other one, by having
   been heard within a minute, then by its RSSI, then by its place.
   */
  lemma RouterFound(ns: seq<Nbor>, exclude: u32, r: u32)
    requires IsRouter(ns, exclude, r)
    ensures (forall n <- ns :: !n.capable || n.address == exclude || n.rssi == -128) ==> r == 0
    ensures (exists n <- ns :: n.capable && n.address != exclude && n.rssi > -128) ==>
              exists i | 0 <= i < |ns| ::
                && ns[i].address == r != exclude && ns[i].capable && ns[i].rssi > -128
                && forall k | 0 <= k < |ns| && ns[k].capable && ns[k].address != exclude && ns[k].rssi > -128 ::
                     || (ns[i].age < 60 <= ns[k].age)
                     || ((ns[i].age < 60 || 60 <= ns[k].age) && ns[k].rssi < ns[i].rssi)
                     || ((ns[i].age < 60 || 60 <= ns[k].age) && ns[k].rssi == ns[i].rssi && i <= k)
  {
    if !NoCandidate(ns, exclude, true) {
      var i: nat :| IsBest(ns, exclude, true, i) && r == ns[i].address;
    } else if !NoCandidate(ns, exclude, false) {
      var i: nat :| IsBest(ns, exclude, false, i) && r == ns[i].address;
    }
  }

  /** What the caller is told, and that only an accepted send is waited for. */
  lemma SendAnswered(s: Node, a: Send)
    ensures SendReturn(s, a) == InvalidState <==> s.state == Busy
    ensures SendReturn(s, a) == InvalidParam <==> s.state == Idle && (|a.bytes| == 0 || 102 < |a.bytes|)
    ensures SendReturn(s, a) == Ok <==> s.state == Idle && Sent(s, a).state == Busy
    ensures SendReturn(s, a) == Ok <==>
            s.state == Idle && 1 <= |a.bytes| <= 102 && (a.ok0 || (a.backup != 0 && a.ok1))
    ensures SendReturn(s, a) in {InvalidState, InvalidParam} ==> Sent(s, a) == s
  {
  }

  /** An accepted send is given up after twice the time to live; a spare route is tried after half of it. */
  lemma SendTimed(s: Node, a: Send)
    requires SendReturn(s, a) == Ok
    ensures Sent(s, a).reset ==
                Some(if s.ttlMs < 0x8000_0000 then s.ttlMs + s.ttlMs else s.ttlMs + s.ttlMs - 0x1_0000_0000)
    ensures a.ok0 && a.backup != 0 ==>
              var b := Sent(s, a).backup;
              b.Some? && b.value + b.value <= s.ttlMs <= b.value + b.value + 1
    ensures !(a.ok0 && a.backup != 0) ==> Sent(s, a).backup == s.backup
  {
  }

  /**
   The primary route decides where its packet arrives; else the packet is handed over once more, even
   if there is no spare route, and a spare route decides. Then the callback is called, once, and the
   library is free.
   */
  lemma SendDecided(s: Node, a: Send, arrives: bool, spareOk: bool, spareArrives: bool, late: bool)
    requires SendReturn(s, a) == Ok && a.callback && a.ok0 && (a.primary != a.backup || a.backup == 0)
    ensures
      var sent := Then(Then(Then(s.out, Began(s.serial, a.bytes)), Handed(a.primary, a.bytes)), Accepted(s.serial));
      var handed := Then(sent, Handed(a.backup, a.bytes));
      var first := Step(Step(s, CallSend(a)), PacketSent(a.primary, arrives, spareOk));
      if arrives then first.state == Idle && first.out == Then(sent, Called(s.serial, true))
      else if a.backup == 0 || !spareOk then first.state == Idle && first.out == Then(handed, Called(s.serial, false))
      else
        var second := Step(first, PacketSent(a.backup, spareArrives, late));
        first.state == Busy && first.out == handed
        && second.state == Idle && second.out == Then(handed, Called(s.serial, spareArrives))
  {
  }

  /** A spare route tried in time does not take the decision away: the packet has arrived once either arrives. */
  lemma SpareDecided(s: Node, a: Send, arrives: bool, spareOk: bool, spareArrives: bool, late: bool)
    requires SendReturn(s, a) == Ok && a.callback && a.ok0 && a.primary != a.backup && a.backup != 0
    ensures
      var sent := Then(Then(Then(s.out, Began(s.serial, a.bytes)), Handed(a.primary, a.bytes)), Accepted(s.serial));
      var handed := Then(sent, Handed(a.backup, a.bytes));
      var timed := Step(Step(s, CallSend(a)), FireBackup(spareOk));
      var first := Step(timed, PacketSent(a.primary, arrives, late));
      var second := Step(first, PacketSent(a.backup, spareArrives, late));
      && timed.state == Busy && timed.out == handed
      && (!spareOk ==> first.state == Idle && first.out == Then(handed, Called(s.serial, arrives)))
      && (spareOk ==>
        && first.state == Busy && first.out == (if arrives then Then(handed, Called(s.serial, true)) else handed)
        && second.state == Idle
        && second.out == if arrives then first.out else Then(handed, Called(s.serial, spareArrives)))
  {
  }

  /** After a send is given up, no task is pending, its callback has been told, and late answers change nothing. */
  lemma SendGivenUp(s: Node, dest: u32, success: bool, ok: bool)
    requires s.state == Busy
    ensures
      var t := Step(s, FireReset(None));
      && t.state == Idle && t.backup == None && t.reset == None && t.sentCb == None
      && t.out == (if s.sentCb.Some? then Then(s.out, Called(s.sentCb.value, false)) else s.out)
      && Step(t, PacketSent(dest, success, ok)) == t
  {
  }
}
