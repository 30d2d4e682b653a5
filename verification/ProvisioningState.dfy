/**
 The coupled provisioning and joining state machines (libraries/provisioning/provisioning.c
 and joining.c) as one transition system: the static variables of both files, the pending
 tasks of the scheduler, the receive filter, and what the node has done so far.

 Each function gives the net effect of one C function.
 */
module ProvisioningState {
  import opened Wrappers
  import opened Bytes
  import opened Aes
  import opened ProvisioningData

  // ---- Types ------------------------------------------------------------------------------------

  datatype PState = Idle | WaitJoining | Start | WaitData | WaitAckSent

  datatype JState = JoinIdle | JoinStart | WaitScanEnd | WaitRouteChange

  datatype PEvents = PEvents(rxdPacket: bool, timeout: bool, start: bool, ackSent: bool, joined: bool)

  datatype JEvents = JEvents(scanEnd: bool, routeChange: bool, timeout: bool, start: bool)

  const NO_PEVENTS := PEvents(false, false, false, false, false)
  const NO_JEVENTS := JEvents(false, false, false, false)

  datatype Result =
    Success | Timeout | Nack | InvalidDataResult | InvalidPacket | ErrorSendingData | ErrorScanningBeacons
    | ErrorJoining | ErrorNoRoute | Stopped

  datatype Method = Unsecured | Secured | ExtendedUid | OtherMethod

  /** The callbacks known to the scheduler: state machine and timeout of either module. */
  datatype Task = PRun | PTimeout | JRun | JTimeout

  /** A data packet after decryption, and the session in which it was received. */
  datatype DataPacket = DataPacket(sessionId: u8, buffer: Pdu, length: nat)

  /** What has been done that can be seen from outside. */
  datatype Output =
    | Accepted                                              // Provisioning_start has returned OK
    | StopCalled                                            // Provisioning_stop has been called
    | Scan(ok: bool)                                        // a beacon scan has been attempted
    | StartPacket(ok: bool, sessionId: u8)                  // a START packet has been attempted
    | Validated(packet: DataPacket)                         // a dry run has accepted this packet
    | AckPacket(ok: bool)                                   // an ACK has been attempted
    | Decoded(bytes: seq<u8>, calls: seq<UserCall>)         // these bytes have been decoded for good
    | Ended(result: Result)                                 // the end callback has been called
    | Applied(params: Params)                               // the stack has been stopped to apply these

  /** Everything done so far, the latest last. */
  datatype Log = Empty | Then(past: Log, last: Output)

  const PDU_SIZE: nat := 102
  const DATA_OFFSET: nat := 9
  const MIC_SIZE: nat := 5
  const PACKET_DATA: u8 := 2
  const PACKET_NACK: u8 := 4
  const DELAY_RESEND_PACKET_MS: nat := 4000
  const DELAY_RESTART_SCAN_MS: nat := 5000
  const DELAY_WAIT_END_SCAN_MS: nat := 5000
  const DELAY_WAIT_END_JOINING_MS: nat := 20000

  type Pdu = b: seq<u8> | |b| == PDU_SIZE witness seq(PDU_SIZE, _ => 0)

  /** The configuration, without the timeout, which changes; and the libraries used. */
  datatype Env = Env(sort: Method, nbRetry: u8, authKey: Block, encKey: Block,
                     ecb: BlockCipher, reader: CborReader, st: Settings) {
    predicate Encrypted() { sort == Secured || sort == ExtendedUid }
  }

  /** The static variables of provisioning.c. */
  datatype Prov = Prov(state: PState, ev: PEvents, retry: u8, timeoutS: u16, sessionId: u8, joinResult: Result,
                       iv: Block, filterOn: bool, buffer: Pdu, length: nat)

  /** The static variables of joining.c. */
  datatype Join = Join(state: JState, ev: JEvents, retry: u8, numBeacons: nat, routeCb: bool)

  /** The scheduler has at most one entry for each task: its delay. */
  datatype Tasks = Tasks(pRun: Option<nat>, pTimeout: Option<nat>, jRun: Option<nat>, jTimeout: Option<nat>) {
    function Of(t: Task): Option<nat>
    {
      match t
      case PRun => pRun
      case PTimeout => pTimeout
      case JRun => jRun
      case JTimeout => jTimeout
    }

    function With(t: Task, d: Option<nat>): Tasks
    {
      match t
      case PRun => this.(pRun := d)
      case PTimeout => this.(pTimeout := d)
      case JRun => this.(jRun := d)
      case JTimeout => this.(jTimeout := d)
    }
  }

  datatype Node = Node(p: Prov, j: Join, tasks: Tasks, halted: bool, out: Log)

  /** What the world answers while a task runs. */
  datatype Beacon = NoBeacon | AlreadyJoined | JoiningStarted | JoiningRefused

  datatype Oracle = Oracle(sendOk: bool, scanOk: bool, beacon: Beacon, routeValid: bool, iv: Block,
                           apply: bool, restart: bool)

  datatype Event =
    | CallStart
    | CallStop(restart: bool)
    | Packet(bytes: seq<u8>)
    | AckSent
    | ScanEnd(numBeacons: nat)
    | RouteChange
    | Fire(t: Task, o: Oracle)

  // ---- Joining ----------------------------------------------------------------------------------

  /** One more retry: the count wraps at 256. */
  function Bump(retry: u8): u8 { (retry + 1) % 0x100 }

  /** Joining is over: the provisioning module learns the result and its state machine is to run. */
  function EndJoining(s: Node, retry: u8, r: Result): Node
  {
    s.(p := s.p.(joinResult := r, ev := s.p.ev.(joined := true)),
       j := s.j.(state := JoinIdle, ev := NO_JEVENTS, retry := retry, routeCb := false),
       tasks := Tasks(Some(0), s.tasks.pTimeout, None, None))
  }

  function JIdle(s: Node): Node
  {
    if s.j.ev.start then
      s.(j := s.j.(state := JoinStart, ev := NO_JEVENTS, retry := 0),
         tasks := s.tasks.(jRun := Some(0), jTimeout := None))
    else
      s.(j := s.j.(ev := NO_JEVENTS), tasks := s.tasks.(jRun := None, jTimeout := None))
  }

  function JStart(env: Env, s: Node, o: Oracle): Node
  {
    var s1, r := s.(out := Then(s.out, Scan(o.scanOk))), Bump(s.j.retry);
    if o.scanOk then
      s1.(j := s.j.(state := WaitScanEnd, ev := NO_JEVENTS),
          tasks := s.tasks.(jRun := None, jTimeout := Some(DELAY_WAIT_END_SCAN_MS)))
    else if r > env.nbRetry then EndJoining(s1, r, ErrorScanningBeacons)
    else s1.(j := s.j.(retry := r, ev := NO_JEVENTS), tasks := s.tasks.(jRun := Some(DELAY_RESTART_SCAN_MS)))
  }

  /** A scan or an attempt to join that led to nothing. */
  function JRetry(env: Env, s: Node, ev: JEvents, routeCb: bool, r: Result): Node
  {
    var n := Bump(s.j.retry);
    if n > env.nbRetry then EndJoining(s, n, r)
    else s.(j := s.j.(state := JoinStart, ev := ev, retry := n, routeCb := routeCb), tasks := s.tasks.(jRun := Some(0)))
  }

  function JWaitScanEnd(env: Env, s: Node, o: Oracle): Node
  {
    if s.j.ev.scanEnd then
      var s1 := s.(tasks := s.tasks.(jTimeout := None));
      if s.j.numBeacons == 0 || o.beacon == NoBeacon then JRetry(env, s1, NO_JEVENTS, s.j.routeCb, ErrorScanningBeacons)
      else if o.beacon == JoiningRefused then JRetry(env, s1, NO_JEVENTS, s.j.routeCb, ErrorJoining)
      else
        var already := o.beacon == AlreadyJoined;
        s.(j := s.j.(state := WaitRouteChange, ev := NO_JEVENTS.(routeChange := already),
                     routeCb := if already then s.j.routeCb else true),
           tasks := s.tasks.(jRun := if already then Some(0) else None, jTimeout := Some(DELAY_WAIT_END_JOINING_MS)))
    else if s.j.ev.timeout then JRetry(env, s, NO_JEVENTS, s.j.routeCb, Timeout)
    else s.(tasks := s.tasks.(jRun := None))
  }

  function JWaitRouteChange(env: Env, s: Node, o: Oracle): Node
  {
    var ev := s.j.ev.(routeChange := false);
    if o.routeValid then EndJoining(s, s.j.retry, Success)
    else if s.j.ev.timeout then JRetry(env, s, ev, false, ErrorNoRoute)
    else s.(j := s.j.(ev := ev), tasks := s.tasks.(jRun := None))
  }

  function JoinMachine(env: Env, s: Node, o: Oracle): Node
  {
    match s.j.state
    case JoinIdle => JIdle(s)
    case JoinStart => JStart(env, s, o)
    case WaitScanEnd => JWaitScanEnd(env, s, o)
    case WaitRouteChange => JWaitRouteChange(env, s, o)
  }

  // ---- Provisioning -----------------------------------------------------------------------------

  /**
   Everything is stopped. Stopping the joining module raises its `joined` event, so that the
   state machine is pending afterwards and the joining result is overwritten.
   */
  function Reset(s: Node): Node
  {
    s.(p := s.p.(state := Idle, ev := NO_PEVENTS.(joined := true), joinResult := Stopped, filterOn := false),
       j := s.j.(state := JoinIdle, ev := NO_JEVENTS, routeCb := false),
       tasks := Tasks(Some(0), None, s.tasks.jRun, None))
  }

  function ProvisioningStart(s: Node): Node
  {
    if s.p.state != Idle then s
    else s.(p := s.p.(ev := s.p.ev.(start := true)), tasks := s.tasks.(pRun := Some(0)), out := Then(s.out, Accepted))
  }

  /** The session is over; the end callback may call Provisioning_start. */
  function EndSession(s: Node, r: Result, restart: bool): Node
  {
    var s1 := Reset(s).(out := Then(s.out, Ended(r)));
    if restart then ProvisioningStart(s1) else s1
  }

  /** The same from within a state function, which clears all events before it returns. */
  function EndInTask(s: Node, r: Result, restart: bool): Node
  {
    var s1 := EndSession(s, r, restart);
    s1.(p := s1.p.(ev := NO_PEVENTS))
  }

  function PIdle(env: Env, s: Node, o: Oracle): Node
  {
    if !s.p.ev.start then
      s.(p := s.p.(ev := NO_PEVENTS, filterOn := false), tasks := s.tasks.(pRun := None, pTimeout := None))
    else if s.j.state != JoinIdle then
      EndInTask(s.(p := s.p.(retry := 0)), ErrorJoining, o.restart)
    else
      s.(p := s.p.(state := WaitJoining, ev := NO_PEVENTS, retry := 0, filterOn := false,
                   iv := if env.Encrypted() then o.iv else s.p.iv),
         j := s.j.(ev := s.j.ev.(start := true)),
         tasks := Tasks(None, None, Some(0), s.tasks.jTimeout))
  }

  /** A failure is reported as `Stopped`: the result is read after the reset, which has overwritten it. */
  function PWaitJoining(s: Node, o: Oracle): Node
  {
    if !s.p.ev.joined then s.(p := s.p.(ev := NO_PEVENTS), tasks := s.tasks.(pRun := None))
    else if s.p.joinResult == Success then
      s.(p := s.p.(state := Start, sessionId := (s.p.sessionId + 1) % 0x100, ev := NO_PEVENTS),
         tasks := s.tasks.(pRun := Some(0)))
    else EndInTask(s, Stopped, o.restart)
  }

  function PStart(env: Env, s: Node, o: Oracle): Node
  {
    var s1, r := s.(out := Then(s.out, StartPacket(o.sendOk, s.p.sessionId))), Bump(s.p.retry);
    if o.sendOk then
      s1.(p := s.p.(state := WaitData, filterOn := true, ev := NO_PEVENTS),
          tasks := s.tasks.(pRun := None, pTimeout := Some(s.p.timeoutS * 1000)))
    else if r > env.nbRetry then EndInTask(s1.(p := s.p.(retry := r)), ErrorSendingData, o.restart)
    else s1.(p := s.p.(retry := r, ev := NO_PEVENTS), tasks := s.tasks.(pRun := Some(DELAY_RESEND_PACKET_MS)))
  }

  // Data packets: type (1 byte), address (4), session id (1), key index (1), counter (2), data.

  function SessionOf(b: Pdu): u8 { b[5] }

  function TypeOf(b: Pdu): u8 { b[0] }

  function KeyIndexOf(b: Pdu): u8 { b[6] }

  function CounterOf(b: Pdu): u16 { var lo: int, hi: int := b[7], b[8]; lo + 0x100 * hi }

  /** The packet after decryption, which covers everything behind the counter. */
  function Decrypted(env: Env, iv: Block, b: Pdu, length: nat): Pdu
    requires DATA_OFFSET <= length <= PDU_SIZE
  {
    Splice(b, DATA_OFFSET, Ctr(env.ecb, env.encKey, CounterBlock(iv, CounterOf(b)), b[DATA_OFFSET..length]))
  }

  /** The last bytes of a packet authenticate all bytes before them. */
  predicate Authentic(env: Env, b: Pdu, length: nat)
    requires DATA_OFFSET + MIC_SIZE <= length <= PDU_SIZE
  {
    Cmac(env.ecb, env.authKey, b[..length - MIC_SIZE])[..MIC_SIZE] == b[length - MIC_SIZE..length]
  }

  /** The least length of a packet whose data can be looked at; the code does not check it. */
  function LeastLength(env: Env): nat
  {
    if env.Encrypted() then DATA_OFFSET + MIC_SIZE else DATA_OFFSET
  }

  /** The length of the data as the code computes it, in eight bits. */
  function CodeLength(env: Env, length: nat): u8
  {
    (length - DATA_OFFSET - if env.Encrypted() then MIC_SIZE else 0) % 0x100
  }

  /**
   Data that lies inside the received packet is what the code computes for packets of at least
   that length, and only for them: for shorter ones the length wraps and leads out of the buffer.
   */
  lemma ShortPacketWraps(env: Env, length: nat)
    requires length <= PDU_SIZE
    ensures DATA_OFFSET + CodeLength(env, length) <= length <==> length >= LeastLength(env)
    ensures length < LeastLength(env) ==> DATA_OFFSET + CodeLength(env, length) > PDU_SIZE
    ensures env.sort == Secured ==> CodeLength(env, 10) == 252
  {
  }

  predicate KeyIndexOk(env: Env, b: Pdu) {
    (env.sort == Unsecured && KeyIndexOf(b) == 0) || (env.Encrypted() && KeyIndexOf(b) == 1)
  }

  /** The bytes that are validated: without the authentication code of an encrypted packet. */
  function DryRunBytes(env: Env, b: Pdu, length: nat): seq<u8>
    requires LeastLength(env) <= length <= PDU_SIZE
  {
    b[DATA_OFFSET..if env.Encrypted() then length - MIC_SIZE else length]
  }

  /** A data packet of the current session, ready to be decrypted, is not too short. */
  predicate LongEnough(env: Env, b: Pdu, length: nat, sessionId: u8) {
    SessionOf(b) == sessionId && TypeOf(b) == PACKET_DATA && KeyIndexOk(env, b) ==> length >= LeastLength(env)
  }

  /** process_data_packet: the verdict and what the buffer holds afterwards. */
  function ProcessDataPacket(env: Env, p: Prov): (Result, Pdu)
    requires p.length <= PDU_SIZE && (KeyIndexOk(env, p.buffer) ==> p.length >= LeastLength(env))
  {
    if !KeyIndexOk(env, p.buffer) then
      (if env.sort == Unsecured then InvalidPacket else InvalidDataResult, p.buffer)
    else
      var b := if env.Encrypted() then Decrypted(env, p.iv, p.buffer, p.length) else p.buffer;
      if env.Encrypted() && !Authentic(env, b, p.length) then (InvalidDataResult, b)
      else if Acceptable(env.reader, env.st, DryRunBytes(env, b, p.length)) then (Success, b)
      else (InvalidDataResult, b)
  }

  /** The verdict on a received packet: result, retry count, buffer. */
  function Judge(env: Env, p: Prov): (Result, u8, Pdu)
    requires p.length <= PDU_SIZE && LongEnough(env, p.buffer, p.length, p.sessionId)
  {
    if SessionOf(p.buffer) != p.sessionId then (InvalidPacket, p.retry, p.buffer)
    else if TypeOf(p.buffer) == PACKET_NACK then (Nack, env.nbRetry, p.buffer)
    else if TypeOf(p.buffer) != PACKET_DATA then (InvalidPacket, p.retry, p.buffer)
    else var r := ProcessDataPacket(env, p); (r.0, p.retry, r.1)
  }

  /** Valid data: the filter is removed and an ACK sent. */
  function DataAccepted(env: Env, s: Node, b: Pdu, o: Oracle): Node
    requires LeastLength(env) <= s.p.length <= PDU_SIZE
  {
    s.(p := s.p.(state := WaitAckSent, filterOn := false, buffer := b, ev := NO_PEVENTS),
       tasks := if o.sendOk then s.tasks.(pRun := None, pTimeout := Some(s.p.timeoutS * 1000))
                else s.tasks.(pRun := Some(0), pTimeout := None),
       out := Then(Then(s.out, Validated(DataPacket(s.p.sessionId, b, s.p.length))), AckPacket(o.sendOk)))
  }

  /** No valid data: another START with twice the timeout, or the end. */
  function DataRefused(env: Env, s: Node, retry: u8, b: Pdu, r: Result, o: Oracle): Node
  {
    var n := Bump(retry);
    if n > env.nbRetry then EndInTask(s.(p := s.p.(retry := n, buffer := b)), r, o.restart)
    else
      s.(p := s.p.(state := Start, retry := n, timeoutS := s.p.timeoutS * 2 % 0x1_0000, filterOn := false,
                   buffer := b, ev := NO_PEVENTS),
         tasks := s.tasks.(pRun := Some(0), pTimeout := None))
  }

  predicate Readable(env: Env, p: Prov) {
    p.length <= PDU_SIZE && (p.ev.rxdPacket ==> LongEnough(env, p.buffer, p.length, p.sessionId))
  }

  function PWaitData(env: Env, s: Node, o: Oracle): Node
    requires Readable(env, s.p)
  {
    if s.p.ev.rxdPacket then
      var v := Judge(env, s.p);
      if v.0 == Success then DataAccepted(env, s, v.2, o) else DataRefused(env, s, v.1, v.2, v.0, o)
    else if s.p.ev.timeout then DataRefused(env, s, s.p.retry, s.p.buffer, Timeout, o)
    else s.(p := s.p.(ev := NO_PEVENTS), tasks := s.tasks.(pRun := None))
  }

  /** The bytes that are decoded for good: the authentication code is left out for one method only. */
  function ApplyBytes(env: Env, b: Pdu, length: nat): seq<u8>
    requires LeastLength(env) <= length <= PDU_SIZE
  {
    b[DATA_OFFSET..if env.sort == Secured then length - MIC_SIZE else length]
  }

  function PWaitAckSent(env: Env, s: Node, o: Oracle): Node
    requires LeastLength(env) <= s.p.length <= PDU_SIZE
  {
    if !s.p.ev.ackSent && !s.p.ev.timeout then s.(p := s.p.(ev := NO_PEVENTS), tasks := s.tasks.(pRun := None))
    else ApplyData(env, s, ApplyBytes(env, s.p.buffer, s.p.length), o)
  }

  /**
   The data is decoded for good. Stopping the stack does not return; and a start from inside
   the callback of a successful session is refused, as the session has not been reset yet.
   */
  function ApplyData(env: Env, s: Node, bytes: seq<u8>, o: Oracle): Node
  {
    var log := Then(s.out, Decoded(bytes, DecodeCalls(env.reader, env.st, bytes)));
    if !Acceptable(env.reader, env.st, bytes) then EndInTask(s.(out := log), InvalidDataResult, o.restart)
    else if o.apply then
      s.(tasks := s.tasks.(pTimeout := None), halted := true,
         out := Then(Then(log, Ended(Success)), Applied(Network(env.reader(bytes).entries))))
    else
      var s1 := Reset(s);
      s1.(p := s1.p.(ev := NO_PEVENTS), out := Then(log, Ended(Success)))
  }

  predicate Runnable(env: Env, s: Node) {
    Readable(env, s.p) && (s.p.state == WaitAckSent ==> s.p.length >= LeastLength(env))
  }

  function ProvMachine(env: Env, s: Node, o: Oracle): Node
    requires Runnable(env, s)
  {
    match s.p.state
    case Idle => PIdle(env, s, o)
    case WaitJoining => PWaitJoining(s, o)
    case Start => PStart(env, s, o)
    case WaitData => PWaitData(env, s, o)
    case WaitAckSent => PWaitAckSent(env, s, o)
  }

  // ---- Events -----------------------------------------------------------------------------------

  /** Bytes of a packet copied over the receive buffer. */
  function Received(b: Pdu, bytes: seq<u8>): Pdu
  {
    var n := Min(|bytes|, PDU_SIZE);
    bytes[..n] + b[n..]
  }

  /** What can happen: packets only pass the filter, route changes only reach a registered callback. */
  predicate Enabled(env: Env, s: Node, e: Event) {
    !s.halted && match e
    case Packet(bytes) =>
      s.p.filterOn && LongEnough(env, Received(s.p.buffer, bytes), Min(|bytes|, PDU_SIZE), s.p.sessionId)
    case RouteChange => s.j.routeCb
    case Fire(t, _) => s.tasks.Of(t).Some?
    case _ => true
  }

  function Fired(env: Env, s: Node, t: Task, o: Oracle): Node
    requires Runnable(env, s)
  {
    match t
    case PRun => ProvMachine(env, s, o)
    case PTimeout =>
      s.(p := s.p.(ev := s.p.ev.(timeout := true)), tasks := s.tasks.(pRun := Some(0), pTimeout := None))
    case JRun => JoinMachine(env, s, o)
    case JTimeout =>
      s.(j := s.j.(ev := s.j.ev.(timeout := true)), tasks := s.tasks.(jRun := Some(0), jTimeout := None))
  }

  function Step(env: Env, s: Node, e: Event): Node
    requires Runnable(env, s)
  {
    match e
    case CallStart => ProvisioningStart(s)
    case CallStop(restart) => EndSession(s.(out := Then(s.out, StopCalled)), Stopped, restart)
    case Packet(bytes) =>
      s.(p := s.p.(ev := s.p.ev.(rxdPacket := true), buffer := Received(s.p.buffer, bytes),
                   length := Min(|bytes|, PDU_SIZE)),
         tasks := s.tasks.(pRun := Some(0)))
    case AckSent => s.(p := s.p.(ev := s.p.ev.(ackSent := true)), tasks := s.tasks.(pRun := Some(0)))
    case ScanEnd(n) =>
      s.(j := s.j.(numBeacons := n, ev := s.j.ev.(scanEnd := true)), tasks := s.tasks.(jRun := Some(0)))
    case RouteChange => s.(j := s.j.(ev := s.j.ev.(routeChange := true)), tasks := s.tasks.(jRun := Some(0)))
    case Fire(t, o) => Fired(env, s, t, o)
  }

  /** The node after initialization. */
  function Initial(sessionId: u8, timeoutS: u16): Node
  {
    Node(Prov(Idle, NO_PEVENTS, 0, timeoutS, sessionId, Success, ZERO_BLOCK, false, seq(PDU_SIZE, _ => 0), 0),
         Join(JoinIdle, NO_JEVENTS, 0, 0, false), Tasks(None, None, None, None), false, Empty)
  }
}
