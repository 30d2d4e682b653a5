/**
 Sending with a backup route for directed advertisers (libraries/control_node/control_node.c)
 as a transition system.
 */
module ControlNodeState {
  import opened Wrappers
  import opened Bytes

  // ---- Choosing a router --------------------------------------------------------------------

  type i8 = x: int | -128 <= x < 128

  /** A neighbour; `age` is the number of seconds since its values were updated. */
  datatype Nbor = Nbor(address: u32, age: u16, rssi: i8, capable: bool)

  const NBOR_MAX_TIME_LAST_SEEN := 60
  const NO_ROUTE: u32 := 0

  /** A router that may be chosen; the weakest RSSI never is, as the search starts from it. */
  predicate Candidate(n: Nbor, exclude: u32) { n.capable && n.address != exclude && n.rssi > -128 }

  predicate Recent(n: Nbor) { n.age < NBOR_MAX_TIME_LAST_SEEN }

  /** Neighbour `i` is the first with the best RSSI among the candidates, or among the recent ones. */
  predicate IsBest(ns: seq<Nbor>, exclude: u32, recent: bool, i: nat) {
    && i < |ns| && Candidate(ns[i], exclude) && (recent ==> Recent(ns[i]))
    && forall k | 0 <= k < |ns| && Candidate(ns[k], exclude) && (recent ==> Recent(ns[k])) ::
         ns[k].rssi < ns[i].rssi || (ns[k].rssi == ns[i].rssi && i <= k)
  }

  predicate NoCandidate(ns: seq<Nbor>, exclude: u32, recent: bool) {
    forall k | 0 <= k < |ns| :: !(Candidate(ns[k], exclude) && (recent ==> Recent(ns[k])))
  }

  /** The address chosen: the best recent router, else the best router, else none. */
  ghost predicate IsRouter(ns: seq<Nbor>, exclude: u32, r: u32) {
    if !NoCandidate(ns, exclude, true) then exists i: nat :: IsBest(ns, exclude, true, i) && r == ns[i].address
    else if !NoCandidate(ns, exclude, false) then exists i: nat :: IsBest(ns, exclude, false, i) && r == ns[i].address
    else r == NO_ROUTE
  }

  lemma BestUnique(ns: seq<Nbor>, exclude: u32, recent: bool, i: nat, j: nat)
    requires IsBest(ns, exclude, recent, i) && IsBest(ns, exclude, recent, j)
    ensures i == j
  {
  }

  lemma RouterUnique(ns: seq<Nbor>, exclude: u32, r: u32, q: u32)
    requires IsRouter(ns, exclude, r) && IsRouter(ns, exclude, q)
    ensures r == q
  {
    if !NoCandidate(ns, exclude, true) {
      var i: nat :| IsBest(ns, exclude, true, i) && r == ns[i].address;
      var j: nat :| IsBest(ns, exclude, true, j) && q == ns[j].address;
      BestUnique(ns, exclude, true, i, j);
    } else if !NoCandidate(ns, exclude, false) {
      var i: nat :| IsBest(ns, exclude, false, i) && r == ns[i].address;
      var j: nat :| IsBest(ns, exclude, false, j) && q == ns[j].address;
      BestUnique(ns, exclude, false, i, j);
    }
  }

  /** The backup router differs from the primary one, or there is none. */
  lemma BackupDiffers(ns: seq<Nbor>, primary: u32, backup: u32)
    requires IsRouter(ns, NO_ROUTE, primary) && IsRouter(ns, primary, backup)
    ensures backup == NO_ROUTE || backup != primary
    ensures primary == NO_ROUTE ==> backup == NO_ROUTE
  {
    if primary == NO_ROUTE { RouterUnique(ns, NO_ROUTE, primary, backup); }
  }

  // ---- The transition system ----------------------------------------------------------------

  datatype State = Idle | Busy

  /** What has become of the packet on one route. */
  datatype Handle = Handle(sent: bool, end: bool, address: u32)

  datatype Output =
    | Began(n: nat, bytes: seq<u8>)            // a send has passed the checks
    | Handed(to: u32, bytes: seq<u8>)          // a packet has been handed to the stack
    | Accepted(n: nat)                         // a send with a callback has returned OK
    | Called(n: nat, success: bool)            // the callback of a send has been called

  datatype Log = Empty | Then(past: Log, last: Output)

  /** Callbacks are known by the number of the send that brought them. */
  datatype Node = Node(
    state: State, h0: Handle, h1: Handle, data: seq<u8>, sentCb: Option<nat>, serial: nat,
    backup: Option<nat>, reset: Option<nat>, ttlMs: u32, out: Log)

  const MAX_PAYLOAD := 102

  /** The arguments of a send, the routes chosen, and whether the stack takes the packets. */
  datatype Send = Send(bytes: seq<u8>, callback: bool, primary: u32, backup: u32, ok0: bool, ok1: bool)

  datatype Return = Ok | InvalidState | InvalidParam | SendError

  datatype Event =
    | CallSend(a: Send)
    | PacketSent(dest: u32, success: bool, sendOk: bool)
    | FireBackup(sendOk: bool)
    | FireReset(again: Option<Send>)

  /** What the checks at the start of a send say. */
  predicate Begins(s: Node, a: Send) { s.state == Idle && 0 < |a.bytes| <= MAX_PAYLOAD }

  predicate Succeeds(a: Send) { a.ok0 || (a.backup != NO_ROUTE && a.ok1) }

  function SendReturn(s: Node, a: Send): Return
  {
    if s.state != Idle then InvalidState
    else if !(0 < |a.bytes| <= MAX_PAYLOAD) then InvalidParam
    else if Succeeds(a) then Ok else SendError
  }

  /** Control_Node_send: the primary route, at once the backup route if the stack refuses, else a timer for it. */
  function Sent(s: Node, a: Send): Node
  {
    if !Begins(s, a) then s
    else
      var spare, retried := a.backup != NO_ROUTE, !a.ok0 && a.backup != NO_ROUTE;
      var out1 := Then(Then(s.out, Began(s.serial, a.bytes)), Handed(a.primary, a.bytes));
      var out2 := if retried then Then(out1, Handed(a.backup, a.bytes)) else out1;
      s.(state := if Succeeds(a) then Busy else Idle,
         h0 := Handle(true, !a.ok0, a.primary),
         h1 := Handle(retried, Succeeds(a) && !(a.ok0 && spare), a.backup),
         data := a.bytes,
         sentCb := if a.callback then Some(s.serial) else None,
         serial := s.serial + 1,
         reset := if Succeeds(a) then Some(s.ttlMs * 2 % 0x1_0000_0000) else s.reset,
         backup := if a.ok0 && spare then Some(s.ttlMs / 2) else s.backup,
         out := if Succeeds(a) && a.callback then Then(out2, Accepted(s.serial)) else out2)
  }

  /** The user's callback, called once. */
  function CallBack(s: Node, success: bool): Node
  {
    if s.sentCb.Some? then s.(sentCb := None, out := Then(s.out, Called(s.sentCb.value, success))) else s
  }

  /** Both routes are done. */
  function Done(s: Node): Node { s.(state := Idle, reset := None) }

  /** reset_task; the user's callback may send again, but the callback it brings is then forgotten. */
  function ResetFired(s: Node, again: Option<Send>): Node
  {
    var s1 := s.(state := Idle, backup := None, reset := None,
                 h0 := s.h0.(end := true, address := NO_ROUTE), h1 := s.h1.(end := true, address := NO_ROUTE));
    if s.sentCb.None? then s1
    else
      var s2 := CallBack(s1, false);
      if again.Some? then Sent(s2, again.value).(sentCb := None) else s2
  }

  /** backup_route_task */
  function BackupFired(s: Node, sendOk: bool): Node
  {
    var s1 := s.(backup := None, h1 := s.h1.(sent := true, end := s.h1.end || !sendOk),
                 out := Then(s.out, Handed(s.h1.address, s.data)));
    if s1.h0.end && s1.h1.end then Done(CallBack(s1, false)) else s1
  }

  /** The routes after a sent callback, before the user's callback is considered. */
  function Routed(s: Node, dest: u32, success: bool, sendOk: bool): Node
  {
    if dest == s.h0.address then
      var s1 := s.(h0 := s.h0.(end := true), backup := None);
      if s.h1.sent then s1
      else if success then s1.(h1 := s.h1.(end := true))
      else s1.(h1 := s.h1.(sent := true, end := s.h1.end || !sendOk), out := Then(s.out, Handed(s.h1.address, s.data)))
    else if dest == s.h1.address then s.(h1 := s.h1.(end := true))
    else s.(h0 := s.h0.(end := true), h1 := s.h1.(end := true))
  }

  /** packet_sent_cb */
  function SentCalled(s: Node, dest: u32, success: bool, sendOk: bool): Node
  {
    if s.state != Busy then s
    else
      var s1 := Routed(s, dest, success, sendOk);
      var both := s1.h0.end && s1.h1.end;
      var s2 := if success || both then CallBack(s1, success) else s1;
      if both then Done(s2) else s2
  }

  predicate Enabled(s: Node, e: Event) {
    match e
    case FireBackup(_) => s.backup.Some?
    case FireReset(_) => s.reset.Some?
    case _ => true
  }

  function Step(s: Node, e: Event): Node
  {
    match e
    case CallSend(a) => Sent(s, a)
    case PacketSent(dest, success, sendOk) => SentCalled(s, dest, success, sendOk)
    case FireBackup(sendOk) => BackupFired(s, sendOk)
    case FireReset(again) => ResetFired(s, again)
  }

  function Initial(ttlMs: u32): Node
  {
    Node(Idle, Handle(false, false, NO_ROUTE), Handle(false, false, NO_ROUTE), [], None, 0, None, None, ttlMs, Empty)
  }
}
