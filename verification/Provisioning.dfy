/**
 The provisioning library as it is written (libraries/provisioning/provisioning.c and
 joining.c): static variables updated step by step, tasks added and cancelled while others
 run, and the received packet decrypted in place. Every function is proved to have the
 effect that module `ProvisioningState` gives it.
 */
module Provisioning {
  import opened Wrappers
  import opened Bytes
  import opened Aes
  import opened ProvisioningData
  import opened ProvisioningState

  /**
   A task returns: unless it was added again or cancelled while it ran, its return value counts;
   `None` removes it.
   */
  ghost function Finish(s: Node, touched: set<Task>, t: Task, delay: Option<nat>): Node
  {
    if s.halted || t in touched then s else s.(tasks := s.tasks.With(t, delay))
  }

  /** The scheduler's entries, and those added or cancelled since the running task began. */
  datatype Scheduler = Scheduler(tasks: Tasks, touched: set<Task>) {
    function Add(t: Task, delay: nat): Scheduler { Scheduler(tasks.With(t, Some(delay)), touched + {t}) }

    function Cancel(t: Task): Scheduler { Scheduler(tasks.With(t, None), touched + {t}) }
  }

  /** The counter block of a packet: the 16-bit counter added to the first word of the IV, with carries. */
  method InitialCounter(iv: Block, counter: u16) returns (icb: Block)
    ensures icb == CounterBlock(iv, counter)
  {
    icb := iv;
    var temp := AddWord(WordAt(icb, 0), counter);
    if temp < WordAt(icb, 0) {
      icb := Incremented(icb, 1);
      if WordAt(icb, 1) == 0 {
        icb := Incremented(icb, 2);
        if WordAt(icb, 2) == 0 {
          icb := Incremented(icb, 3);
        }
      }
    }
    WithWordAt(icb, 0, temp);
    icb := WithWord(icb, 0, temp);
    CarryChain(iv, icb, counter);
    CounterSum(iv, icb, counter);
  }

  method Incremented(b: Block, j: nat) returns (r: Block)
    requires j < 4
    ensures forall i | 0 <= i < 4 :: WordAt(r, i) == if i == j then AddWord(WordAt(b, j), 1) else WordAt(b, i)
  {
    var w := AddWord(WordAt(b, j), 1);
    WithWordAt(b, j, w);
    r := WithWord(b, j, w);
  }

  lemma WrappedSum(v: nat, n: u16)
    requires v < TWO_128
    ensures (v + n) % TWO_128 == if v + n >= TWO_128 then v + n - TWO_128 else v + n
  {
  }

  lemma CounterSum(iv: Block, icb: Block, n: u16)
    requires LeVal(icb) == if LeVal(iv) + n >= TWO_128 then LeVal(iv) + n - TWO_128 else LeVal(iv) + n
    ensures icb == CounterBlock(iv, n)
  {
    IncValue(iv);
    CounterBlockValue(iv, n);
    WrappedSum(LeVal(iv), n);
    BlockFromValue(icb, CounterBlock(iv, n));
  }

  class Library {
    const env: Env
    const decoder: Decoder
    // provisioning.c
    var state: PState
    var events: PEvents
    var retry: u8
    var timeoutS: u16
    var sessionId: u8
    var joiningRes: Result
    var iv: Block
    var filterOn: bool
    const buffer: array<u8>
    var dataLength: nat
    // joining.c
    var jState: JState
    var jEvents: JEvents
    var jRetry: u8
    var numBeacons: nat
    var routeCb: bool
    var sched: Scheduler
    // the stack has been stopped; what has been done
    var halted: bool
    var out: Log

    /** Facts about what never changes. */
    ghost predicate Valid()
    {
      buffer.Length == PDU_SIZE && decoder.reader == env.reader && decoder.st == env.st
    }

    ghost function Now(): Node
      requires Valid()
      reads this, buffer
    {
      Node(Prov(state, events, retry, timeoutS, sessionId, joiningRes, iv, filterOn, buffer[..], dataLength),
           Join(jState, jEvents, jRetry, numBeacons, routeCb), sched.tasks, halted, out)
    }

    constructor Init(env: Env, timeoutS: u16, sessionId: u8)
      ensures Valid() && fresh(buffer) && fresh(decoder) && this.env == env && Now() == Initial(sessionId, timeoutS)
    {
      this.env := env;
      decoder := new Decoder(env.reader, env.st);
      state, events, retry, this.timeoutS, this.sessionId := Idle, NO_PEVENTS, 0, timeoutS, sessionId;
      joiningRes, iv, filterOn, dataLength := Success, ZERO_BLOCK, false, 0;
      var b := new u8[PDU_SIZE](_ => 0);
      buffer := b;
      jState, jEvents, jRetry, numBeacons, routeCb := JoinIdle, NO_JEVENTS, 0, 0, false;
      sched, halted, out := Scheduler(Tasks(None, None, None, None), {}), false, Empty;
      new;
      assert buffer[..] == seq(PDU_SIZE, _ => 0);
    }

    // ---- joining.c ----------------------------------------------------------------------------

    method EndJoiningCb(result: Result)
      requires Valid()
      modifies this
      ensures Now() == old(Now()).(p := old(Now()).p.(joinResult := result, ev := old(events).(joined := true)),
                                   tasks := old(sched).Add(PRun, 0).tasks)
      ensures sched == old(sched).Add(PRun, 0)
    {
      joiningRes := result;
      events := events.(joined := true);
      sched := sched.Add(PRun, 0);
    }

    method ResetJoining()
      requires Valid()
      modifies this
      ensures Now() == old(Now()).(j := old(Now()).j.(state := JoinIdle, ev := NO_JEVENTS, routeCb := false),
                                   tasks := old(sched).Cancel(JTimeout).tasks)
      ensures sched == old(sched).Cancel(JTimeout)
    {
      sched := sched.Cancel(JTimeout);
      routeCb := false;
      jState := JoinIdle;
      jEvents := NO_JEVENTS;
    }

    method JoiningStart() returns (ok: bool)
      requires Valid()
      modifies this
      ensures ok == (old(jState) == JoinIdle)
      ensures sched == if ok then old(sched).Add(JRun, 0) else old(sched)
      ensures Now() == if !ok then old(Now())
                       else old(Now()).(j := old(Now()).j.(ev := old(jEvents).(start := true)),
                                        tasks := old(sched).Add(JRun, 0).tasks)
    {
      if jState != JoinIdle {
        return false;
      }
      jEvents := jEvents.(start := true);
      sched := sched.Add(JRun, 0);
      ok := true;
    }

    method JoiningStop()
      requires Valid()
      modifies this
      ensures Now() == old(Now()).(p := old(Now()).p.(joinResult := Stopped, ev := old(events).(joined := true)),
                                   j := old(Now()).j.(state := JoinIdle, ev := NO_JEVENTS, routeCb := false),
                                   tasks := old(sched).Cancel(JTimeout).Add(PRun, 0).tasks)
      ensures sched == old(sched).Cancel(JTimeout).Add(PRun, 0)
    {
      ResetJoining();
      EndJoiningCb(Stopped);
    }

    method JoinStateIdle() returns (delay: Option<nat>)
      requires Valid() && jState == JoinIdle && JRun !in sched.touched && !halted
      modifies this
      ensures Finish(Now(), sched.touched, JRun, delay) == JIdle(old(Now()))
    {
      delay := None;
      if jEvents.start {
        jState := JoinStart;
        jRetry := 0;
        delay := Some(0);
      }
      sched := sched.Cancel(JTimeout);
      jEvents := NO_JEVENTS;
    }

    method JoinStateStart(o: Oracle) returns (delay: Option<nat>)
      requires Valid() && jState == JoinStart && JRun !in sched.touched && !halted
      modifies this
      ensures Finish(Now(), sched.touched, JRun, delay) == JStart(env, old(Now()), o)
    {
      delay := None;
      out := Then(out, Scan(o.scanOk));
      if !o.scanOk {
        delay := RetryScan();
      } else {
        sched := sched.Add(JTimeout, DELAY_WAIT_END_SCAN_MS);
        jState := WaitScanEnd;
      }
      jEvents := NO_JEVENTS;
    }

    /** Another scan later, or the end of joining. */
    method RetryScan() returns (delay: Option<nat>)
      requires Valid() && JRun !in sched.touched && !halted
      modifies this
      ensures JRun !in sched.touched
      ensures var s, r := old(Now()), Bump(old(jRetry));
              Finish(Now(), sched.touched, JRun, delay)
              == if r > env.nbRetry then EndJoining(s, r, ErrorScanningBeacons)
                 else s.(j := s.j.(retry := r), tasks := s.tasks.(jRun := Some(DELAY_RESTART_SCAN_MS)))
    {
      delay := None;
      jRetry := Bump(jRetry);
      if jRetry > env.nbRetry {
        ResetJoining();
        EndJoiningCb(ErrorScanningBeacons);
      } else {
        delay := Some(DELAY_RESTART_SCAN_MS);
      }
    }

    /** The scan has ended: joining starts, or `res` says why not. */
    method HandleScanEnd(o: Oracle) returns (res: Result, delay: Option<nat>)
      requires Valid() && jState == WaitScanEnd && JRun !in sched.touched && !halted && jEvents.scanEnd
      modifies this
      ensures JRun !in sched.touched
      ensures res == if old(numBeacons) == 0 || o.beacon == NoBeacon then ErrorScanningBeacons
                     else if o.beacon == JoiningRefused then ErrorJoining else Success
      ensures res != Success ==>
                delay == None && Now() == old(Now()).(j := old(Now()).j.(ev := NO_JEVENTS),
                                                      tasks := old(sched).tasks.With(JTimeout, None))
      ensures res == Success ==> Finish(Now(), sched.touched, JRun, delay) == JWaitScanEnd(env, old(Now()), o)
    {
      res, delay := Success, None;
      sched := sched.Cancel(JTimeout);
      jEvents := NO_JEVENTS;
      if numBeacons > 0 {
        if o.beacon != NoBeacon {
          if o.beacon != AlreadyJoined {
            if o.beacon == JoiningRefused {
              res := ErrorJoining;
            } else {
              routeCb := true;
              jState := WaitRouteChange;
              sched := sched.Add(JTimeout, DELAY_WAIT_END_JOINING_MS);
            }
          } else {
            jEvents := jEvents.(routeChange := true);
            jState := WaitRouteChange;
            delay := Some(0);
            sched := sched.Add(JTimeout, DELAY_WAIT_END_JOINING_MS);
          }
        } else {
          res := ErrorScanningBeacons;
        }
      } else {
        res := ErrorScanningBeacons;
      }
    }

    method JoinStateWaitScanEnd(o: Oracle) returns (delay: Option<nat>)
      requires Valid() && jState == WaitScanEnd && JRun !in sched.touched && !halted
      modifies this
      ensures Finish(Now(), sched.touched, JRun, delay) == JWaitScanEnd(env, old(Now()), o)
    {
      delay := None;
      var res := Success;
      if jEvents.scanEnd {
        res, delay := HandleScanEnd(o);
      } else if jEvents.timeout {
        res := Timeout;
      }
      if res != Success {
        delay := RetryJoining(res);
        jEvents := NO_JEVENTS;
      }
    }

    /** Another attempt, or the end of joining. */
    method RetryJoining(res: Result) returns (delay: Option<nat>)
      requires Valid() && JRun !in sched.touched && !halted
      modifies this
      ensures JRun !in sched.touched
      ensures Finish(Now(), sched.touched, JRun, delay) == JRetry(env, old(Now()), old(jEvents), old(routeCb), res)
    {
      delay := None;
      jRetry := Bump(jRetry);
      if jRetry > env.nbRetry {
        ResetJoining();
        EndJoiningCb(res);
      } else {
        jState := JoinStart;
        delay := Some(0);
      }
    }

    method JoinStateWaitRouteChange(o: Oracle) returns (delay: Option<nat>)
      requires Valid() && jState == WaitRouteChange && JRun !in sched.touched && !halted
      modifies this
      ensures Finish(Now(), sched.touched, JRun, delay) == JWaitRouteChange(env, old(Now()), o)
    {
      delay := None;
      if !o.routeValid {
        jEvents := jEvents.(routeChange := false);
      } else {
        sched := sched.Cancel(JTimeout);
        routeCb := false;
        ResetJoining();
        EndJoiningCb(Success);
      }
      if jEvents.timeout {
        routeCb := false;
        delay := RetryJoining(ErrorNoRoute);
      }
    }

    method JoinRunStateMachine(o: Oracle) returns (delay: Option<nat>)
      requires Valid() && JRun !in sched.touched && !halted
      modifies this
      ensures Finish(Now(), sched.touched, JRun, delay) == JoinMachine(env, old(Now()), o)
    {
      match jState {
        case JoinIdle => delay := JoinStateIdle();
        case JoinStart => delay := JoinStateStart(o);
        case WaitScanEnd => delay := JoinStateWaitScanEnd(o);
        case WaitRouteChange => delay := JoinStateWaitRouteChange(o);
      }
    }

    // ---- provisioning.c -----------------------------------------------------------------------

    method ResetProvisioning()
      requires Valid()
      modifies this
      ensures Now() == Reset(old(Now())) && PRun in sched.touched
    {
      filterOn := false;
      sched := sched.Cancel(PTimeout);
      sched := sched.Cancel(PRun);
      state := Idle;
      events := NO_PEVENTS;
      JoiningStop();
    }

    /** Provisioning_start; false where it reports that the state is not right. */
    method StartSession() returns (ok: bool)
      requires Valid()
      modifies this
      ensures ok == (old(state) == Idle) && Now() == ProvisioningStart(old(Now()))
      ensures old(sched.touched) <= sched.touched && (!ok ==> sched.touched == old(sched.touched))
    {
      if state != Idle {
        return false;
      }
      sched := sched.Add(PRun, 0);
      events := events.(start := true);
      out := Then(out, Accepted);
      ok := true;
    }

    /** The application's end callback; it may start another session. */
    method EndCb(result: Result, restart: bool)
      requires Valid()
      modifies this
      ensures old(sched.touched) <= sched.touched && (old(state) != Idle ==> sched.touched == old(sched.touched))
      ensures var s := old(Now()).(out := Then(old(out), Ended(result)));
              Now() == if restart then ProvisioningStart(s) else s
    {
      out := Then(out, Ended(result));
      if restart {
        var _ := StartSession();
      }
    }

    method StateIdle(o: Oracle) returns (delay: Option<nat>)
      requires Valid() && state == Idle && PRun !in sched.touched && !halted
      modifies this
      ensures Finish(Now(), sched.touched, PRun, delay) == PIdle(env, old(Now()), o)
    {
      delay := None;
      if events.start {
        BeginSession(o);
      }
      filterOn := false;
      sched := sched.Cancel(PTimeout);
      events := NO_PEVENTS;
    }

    /** A session begins: the joining module is started. */
    method BeginSession(o: Oracle)
      requires Valid() && state == Idle && PRun !in sched.touched
      modifies this
      ensures (PRun in sched.touched) == (old(jState) != JoinIdle)
      ensures var s := old(Now()).(p := old(Now()).p.(state := WaitJoining, retry := 0));
              Now() == if s.j.state != JoinIdle then EndSession(s, ErrorJoining, o.restart)
                       else s.(p := s.p.(iv := if env.Encrypted() then o.iv else s.p.iv),
                               j := s.j.(ev := s.j.ev.(start := true)), tasks := s.tasks.With(JRun, Some(0)))
    {
      state := WaitJoining;
      retry := 0;
      var ok := JoiningStart();
      if !ok {
        ResetProvisioning();
        EndCb(ErrorJoining, o.restart);
      } else if env.Encrypted() {
        iv := o.iv;
      }
    }

    method StateWaitJoining(o: Oracle) returns (delay: Option<nat>)
      requires Valid() && state == WaitJoining && PRun !in sched.touched && !halted
      modifies this
      ensures Finish(Now(), sched.touched, PRun, delay) == PWaitJoining(old(Now()), o)
    {
      delay := None;
      if events.joined {
        if joiningRes == Success {
          state := Start;
          sessionId := (sessionId + 1) % 0x100;
          delay := Some(0);
        } else {
          ResetProvisioning();
          EndCb(joiningRes, o.restart);
        }
      }
      events := NO_PEVENTS;
    }

    method StateStart(o: Oracle) returns (delay: Option<nat>)
      requires Valid() && state == Start && PRun !in sched.touched && !halted
      modifies this
      ensures Finish(Now(), sched.touched, PRun, delay) == PStart(env, old(Now()), o)
    {
      delay := None;
      out := Then(out, StartPacket(o.sendOk, sessionId));
      if !o.sendOk {
        delay := RetrySend(o);
      } else {
        filterOn := true;
        sched := sched.Add(PTimeout, timeoutS * 1000);
        state := WaitData;
      }
      events := NO_PEVENTS;
    }

    /** Another attempt to send later, or the end of the session. */
    method RetrySend(o: Oracle) returns (delay: Option<nat>)
      requires Valid() && PRun !in sched.touched && !halted
      modifies this
      ensures var s, r := old(Now()).(p := old(Now()).p.(retry := Bump(old(retry)))), Bump(old(retry));
              if r > env.nbRetry then PRun in sched.touched && Now() == EndSession(s, ErrorSendingData, o.restart)
              else PRun !in sched.touched && delay == Some(DELAY_RESEND_PACKET_MS) && Now() == s
    {
      delay := None;
      retry := Bump(retry);
      if retry > env.nbRetry {
        ResetProvisioning();
        EndCb(ErrorSendingData, o.restart);
      } else {
        delay := Some(DELAY_RESEND_PACKET_MS);
      }
    }

    /** Decryption of data and code, in place. */
    method Decrypt()
      requires Valid() && DATA_OFFSET <= dataLength <= PDU_SIZE
      modifies buffer
      ensures buffer[..] == Decrypted(env, iv, old(buffer[..]), dataLength)
    {
      var counter := PacketCounter(buffer[..]);
      var icb := InitialCounter(iv, counter);
      DecryptWith(icb, buffer[..]);
    }

    method PacketCounter(ghost b: Pdu) returns (counter: u16)
      requires buffer.Length == PDU_SIZE && buffer[..] == b
      ensures counter == CounterOf(b)
    {
      var lo: int, hi: int := buffer[7], buffer[8];
      assert b[7] == lo && b[8] == hi;
      counter := lo + 0x100 * hi;
    }

    method DecryptWith(icb: Block, ghost b: Pdu)
      requires DATA_OFFSET <= dataLength <= PDU_SIZE == buffer.Length && buffer[..] == b
      modifies buffer
      ensures buffer[..] == Splice(b, DATA_OFFSET, Ctr(env.ecb, env.encKey, icb, b[DATA_OFFSET..dataLength]))
    {
      var stream := new AesStream.SetupStream(env.ecb, env.encKey, icb);
      assert buffer[..] == b;
      stream.Crypto128Ctr(buffer, DATA_OFFSET, buffer, DATA_OFFSET, dataLength - DATA_OFFSET);
    }

    method ComputeMic(n: nat, ghost b: seq<u8>) returns (mic: seq<u8>)
      requires 0 < n <= buffer.Length && b == buffer[..]
      ensures mic == Cmac(env.ecb, env.authKey, b[..n])[..MIC_SIZE]
    {
      assert buffer[..n] == b[..n];
      var code := new u8[MIC_SIZE];
      var omac := new Omac1State.InitOmac1(env.ecb, env.authKey);
      assert buffer[..n] == b[..n];
      omac.Omac1(code, MIC_SIZE, buffer, n);
      mic := code[..];
    }

    /** Whether the code at the end of the packet is that of everything before it. */
    method CheckMic() returns (ok: bool)
      requires Valid() && DATA_OFFSET + MIC_SIZE <= dataLength <= PDU_SIZE
      ensures ok == Authentic(env, buffer[..], dataLength)
      ensures buffer[..] == old(buffer[..])
    {
      ghost var b := buffer[..];
      var received := ReceivedMic(dataLength - MIC_SIZE, b);
      var mic := ComputeMic(dataLength - MIC_SIZE, b);
      ok := mic == received;
    }

    method ReceivedMic(n: nat, ghost b: seq<u8>) returns (mic: seq<u8>)
      requires n + MIC_SIZE <= buffer.Length && b == buffer[..]
      ensures mic == b[n..n + MIC_SIZE]
    {
      mic := buffer[n..n + MIC_SIZE];
    }

    /** process_data_packet */
    method ProcessPacket() returns (res: Result)
      requires Valid() && dataLength <= PDU_SIZE && (KeyIndexOk(env, buffer[..]) ==> dataLength >= LeastLength(env))
      modifies buffer, decoder
      ensures (res, buffer[..]) == ProcessDataPacket(env, old(Now()).p)
    {
      res := Success;
      var keyIndex := buffer[6];
      var length := dataLength - DATA_OFFSET;
      if env.sort == Unsecured {
        if keyIndex != 0 {
          res := InvalidPacket;
        }
      } else if env.sort == Secured || env.sort == ExtendedUid {
        if keyIndex == 1 {
          length := length - MIC_SIZE;
          Decrypt();
          var ok := CheckMic();
          if !ok {
            res := InvalidDataResult;
          }
        } else {
          res := InvalidDataResult;
        }
      } else {
        res := InvalidDataResult;
      }
      if res == Success {
        assert buffer[DATA_OFFSET..DATA_OFFSET + length] == DryRunBytes(env, buffer[..], dataLength);
        var r := decoder.Decode(buffer[DATA_OFFSET..DATA_OFFSET + length], true);
        if r != Accepts {
          res := InvalidDataResult;
        }
      }
    }

    /** send_ack_packet */
    method SendAckPacket(sendOk: bool) returns (delay: Option<nat>)
      modifies this`out, this`sched
      ensures out == Then(old(out), AckPacket(sendOk))
      ensures if sendOk then delay == None && sched == old(sched).Add(PTimeout, timeoutS * 1000)
              else delay == Some(0) && sched == old(sched)
    {
      out := Then(out, AckPacket(sendOk));
      if !sendOk {
        return Some(0);
      }
      sched := sched.Add(PTimeout, timeoutS * 1000);
      delay := None;
    }

    /** The received packet is judged. */
    method JudgePacket() returns (res: Result)
      requires Valid() && events.rxdPacket && Readable(env, Now().p)
      modifies this`retry, buffer, decoder
      ensures var v := Judge(env, old(Now()).p);
              res == v.0 && retry == v.1 && buffer[..] == v.2
    {
      if buffer[5] != sessionId {
        res := InvalidPacket;
      } else if buffer[0] == PACKET_NACK {
        retry := env.nbRetry;
        res := Nack;
      } else if buffer[0] != PACKET_DATA {
        res := InvalidPacket;
      } else {
        res := ProcessPacket();
      }
    }

    /** A valid packet is acknowledged. */
    method AcceptPacket(o: Oracle) returns (delay: Option<nat>)
      requires Valid() && LeastLength(env) <= dataLength <= PDU_SIZE && PRun !in sched.touched && !halted
      modifies this
      ensures PRun !in sched.touched
      ensures delay == if o.sendOk then None else Some(0)
      ensures var s := old(Now());
              Now() == s.(p := s.p.(state := WaitAckSent, filterOn := false),
                          tasks := s.tasks.(pTimeout := if o.sendOk then Some(timeoutS * 1000) else None),
                          out := Then(Then(s.out, Validated(DataPacket(s.p.sessionId, s.p.buffer, s.p.length))),
                                      AckPacket(o.sendOk)))
    {
      out := Then(out, Validated(DataPacket(sessionId, buffer[..], dataLength)));
      state := WaitAckSent;
      filterOn := false;
      sched := sched.Cancel(PTimeout);
      delay := SendAckPacket(o.sendOk);
    }

    /** No valid data in time: another attempt or the end. */
    method Refuse(res: Result, o: Oracle) returns (delay: Option<nat>)
      requires Valid() && PRun !in sched.touched && !halted
      modifies this
      ensures var s := old(Now()).(p := old(Now()).p.(retry := Bump(old(retry))));
              if Bump(old(retry)) > env.nbRetry then PRun in sched.touched && Now() == EndSession(s, res, o.restart)
              else
                && PRun !in sched.touched && delay == Some(0)
                && Now() == s.(p := s.p.(state := Start, filterOn := false, timeoutS := s.p.timeoutS * 2 % 0x1_0000),
                               tasks := s.tasks.(pTimeout := None))
    {
      delay := None;
      retry := Bump(retry);
      if retry > env.nbRetry {
        ResetProvisioning();
        EndCb(res, o.restart);
      } else {
        timeoutS := timeoutS * 2 % 0x1_0000;
        state := Start;
        filterOn := false;
        sched := sched.Cancel(PTimeout);
        delay := Some(0);
      }
    }

    method StateWaitData(o: Oracle) returns (delay: Option<nat>)
      requires Valid() && state == WaitData && PRun !in sched.touched && !halted && Readable(env, Now().p)
      modifies this, buffer, decoder
      ensures Finish(Now(), sched.touched, PRun, delay) == PWaitData(env, old(Now()), o)
    {
      delay := None;
      var res := Success;
      ghost var s := Now();
      if events.rxdPacket {
        res := JudgePacket();
        assert Now() == s.(p := s.p.(retry := Judge(env, s.p).1, buffer := Judge(env, s.p).2));
        if res == Success {
          delay := AcceptPacket(o);
        }
      } else if events.timeout {
        res := Timeout;
      }
      if res != Success {
        delay := Refuse(res, o);
      }
      events := NO_PEVENTS;
    }

    /** Provisioning_Data_decode for good, with the callbacks; true where it reports success. */
    method DecodeAndApply(length: nat, o: Oracle) returns (ok: bool)
      requires Valid() && DATA_OFFSET + length <= PDU_SIZE && state == WaitAckSent && !halted
      modifies this, decoder
      ensures ok == Acceptable(env.reader, env.st, old(buffer[DATA_OFFSET..DATA_OFFSET + length]))
      ensures sched.touched == old(sched.touched)
      ensures var bytes := old(buffer[DATA_OFFSET..DATA_OFFSET + length]);
              var log := Then(old(out), Decoded(bytes, DecodeCalls(env.reader, env.st, bytes)));
              Now() == old(Now()).(
                halted := ok && o.apply,
                out := if !ok then log
                       else if o.apply then Then(Then(log, Ended(Success)), Applied(Network(env.reader(bytes).entries)))
                       else Then(log, Ended(Success)))
    {
      var bytes := buffer[DATA_OFFSET..DATA_OFFSET + length];
      var before := |decoder.calls|;
      var r := decoder.Decode(bytes, false);
      out := Then(out, Decoded(bytes, decoder.calls[before..]));
      ok := r == Accepts;
      if ok {
        EndCb(Success, o.restart);
        if o.apply {
          out := Then(out, Applied(Network(env.reader(bytes).entries)));
          halted := true;
        }
      }
    }

    method StateWaitAckSent(o: Oracle) returns (delay: Option<nat>)
      requires Valid() && state == WaitAckSent && PRun !in sched.touched && !halted
               && LeastLength(env) <= dataLength <= PDU_SIZE
      modifies this, buffer, decoder
      ensures Finish(Now(), sched.touched, PRun, delay) == PWaitAckSent(env, old(Now()), o)
    {
      delay := None;
      if events.ackSent || events.timeout {
        var length := dataLength - DATA_OFFSET;
        if env.sort == Secured {
          length := length - MIC_SIZE;
        }
        assert buffer[DATA_OFFSET..DATA_OFFSET + length] == ApplyBytes(env, buffer[..], dataLength);
        sched := sched.Cancel(PTimeout);
        var ok := DecodeAndApply(length, o);
        if halted {
          return;
        }
        ResetProvisioning();
        if !ok {
          EndCb(InvalidDataResult, o.restart);
        }
      }
      events := NO_PEVENTS;
    }

    method RunStateMachine(o: Oracle) returns (delay: Option<nat>)
      requires Valid() && PRun !in sched.touched && !halted && Runnable(env, Now())
      modifies this, buffer, decoder
      ensures Finish(Now(), sched.touched, PRun, delay) == ProvMachine(env, old(Now()), o)
    {
      match state {
        case Idle => delay := StateIdle(o);
        case WaitJoining => delay := StateWaitJoining(o);
        case Start => delay := StateStart(o);
        case WaitData => delay := StateWaitData(o);
        case WaitAckSent => delay := StateWaitAckSent(o);
      }
    }

    // ---- Callbacks and calls of the application -----------------------------------------------

    /** The first bytes of the buffer are overwritten. */
    method CopyIn(bytes: seq<u8>, n: nat)
      requires Valid() && n <= |bytes| && n <= PDU_SIZE
      modifies buffer
      ensures buffer[..] == bytes[..n] + old(buffer[..])[n..]
    {
      ghost var b := buffer[..];
      var i := 0;
      while i < n
        invariant 0 <= i <= n
        invariant forall k | 0 <= k < buffer.Length :: buffer[k] == if k < i then bytes[k] else b[k]
      {
        buffer[i] := bytes[i];
        i := i + 1;
      }
    }

    method PktReceivedCb(bytes: seq<u8>)
      requires Valid() && Runnable(env, Now())
      modifies this, buffer
      ensures Now() == Step(env, old(Now()), Packet(bytes))
    {
      events := events.(rxdPacket := true);
      dataLength := Min(|bytes|, PDU_SIZE);
      CopyIn(bytes, dataLength);
      sched := sched.Add(PRun, 0);
    }

    method PTimeoutTask() returns (delay: Option<nat>)
      requires Valid() && PTimeout !in sched.touched && !halted
      modifies this
      ensures Runnable(env, old(Now())) ==>
                forall o :: Finish(Now(), sched.touched, PTimeout, delay) == Fired(env, old(Now()), PTimeout, o)
    {
      events := events.(timeout := true);
      sched := sched.Add(PRun, 0);
      delay := None;
    }

    method JTimeoutTask() returns (delay: Option<nat>)
      requires Valid() && JTimeout !in sched.touched && !halted
      modifies this
      ensures Runnable(env, old(Now())) ==>
                forall o :: Finish(Now(), sched.touched, JTimeout, delay) == Fired(env, old(Now()), JTimeout, o)
    {
      jEvents := jEvents.(timeout := true);
      sched := sched.Add(JRun, 0);
      delay := None;
    }

    method PacketSentCb()
      requires Valid() && Runnable(env, Now())
      modifies this
      ensures Now() == Step(env, old(Now()), AckSent)
    {
      events := events.(ackSent := true);
      sched := sched.Add(PRun, 0);
    }

    method JoiningBeaconRxCb(num: nat)
      requires Valid() && Runnable(env, Now())
      modifies this
      ensures Now() == Step(env, old(Now()), ScanEnd(num))
    {
      numBeacons := num;
      jEvents := jEvents.(scanEnd := true);
      sched := sched.Add(JRun, 0);
    }

    method RouteChangedCb()
      requires Valid() && Runnable(env, Now())
      modifies this
      ensures Now() == Step(env, old(Now()), RouteChange)
    {
      jEvents := jEvents.(routeChange := true);
      sched := sched.Add(JRun, 0);
    }

    /** Provisioning_stop */
    method Stop(restart: bool)
      requires Valid() && Runnable(env, Now())
      modifies this
      ensures Now() == Step(env, old(Now()), CallStop(restart))
    {
      out := Then(out, StopCalled);
      ResetProvisioning();
      EndCb(Stopped, restart);
    }

    /** The scheduler runs a task whose time has come. */
    method PerformTask(t: Task, o: Oracle)
      requires Valid() && Runnable(env, Now()) && Enabled(env, Now(), Fire(t, o))
      modifies this, buffer, decoder
      ensures Now() == Step(env, old(Now()), Fire(t, o))
    {
      sched := sched.(touched := {});
      var delay;
      match t {
        case PRun => delay := RunStateMachine(o);
        case PTimeout => delay := PTimeoutTask();
        case JRun => delay := JoinRunStateMachine(o);
        case JTimeout => delay := JTimeoutTask();
      }
      if !halted && t !in sched.touched {
        sched := sched.(tasks := sched.tasks.With(t, delay));
      }
    }
  }
}
