/**
 What was validated is what is applied: in every run, bytes are decoded for good and parameters
 applied only from the packet that a dry run accepted in the current session.
 */
module ProvisioningTrust {
  import opened Wrappers
  import opened Bytes
  import opened ProvisioningData
  import opened ProvisioningState
  import opened ProvisioningRuns

  /** A data packet of its session that is authentic, if it was encrypted, and that a dry run accepts. */
  predicate Vetted(env: Env, k: DataPacket) {
    && LeastLength(env) <= k.length <= PDU_SIZE
    && SessionOf(k.buffer) == k.sessionId && TypeOf(k.buffer) == PACKET_DATA && KeyIndexOk(env, k.buffer)
    && (env.Encrypted() ==> Authentic(env, k.buffer, k.length))
    && Acceptable(env.reader, env.st, DryRunBytes(env, k.buffer, k.length))
  }

  /** A packet judged valid is vetted: decryption leaves its header alone. */
  lemma {:induction false} JudgedVetted(env: Env, p: Prov)
    requires Readable(env, p) && p.ev.rxdPacket && Judge(env, p).0 == Success
    ensures Vetted(env, DataPacket(p.sessionId, Judge(env, p).2, p.length))
  {
    if env.Encrypted() {
      assert Decrypted(env, p.iv, p.buffer, p.length)[..DATA_OFFSET] == p.buffer[..DATA_OFFSET];
    }
  }

  /** The session that has been announced last, in a START packet. */
  function LastSession(log: Log): Option<u8>
  {
    if log.Empty? then None
    else if log.last.StartPacket? then Some(log.last.sessionId)
    else LastSession(log.past)
  }

  /** What a dry run has accepted since the last START packet. */
  function LastValidated(log: Log): Option<DataPacket>
  {
    if log.Empty? || log.last.StartPacket? then None
    else if log.last.Validated? then Some(log.last.packet)
    else LastValidated(log.past)
  }

  /** The bytes decoded, the calls made and the parameters applied are those of this packet. */
  predicate Follows(env: Env, o: Output, k: DataPacket)
    requires Vetted(env, k)
  {
    var bytes := DryRunBytes(env, k.buffer, k.length);
    && (o.Decoded? ==> o.bytes == bytes && o.calls == Calls(env.reader(bytes).entries))
    && (o.Applied? ==> o.params == Network(env.reader(bytes).entries))
  }

  /**
   Every dry run accepts a vetted packet of the session announced last; and what is decoded for
   good or applied follows the packet that the last dry run of that session has accepted.
   */
  predicate Faithful(env: Env, log: Log) {
    log.Then? ==>
      && Faithful(env, log.past)
      && (log.last.Validated? ==>
            Vetted(env, log.last.packet) && LastSession(log.past) == Some(log.last.packet.sessionId))
      && (log.last.Decoded? || log.last.Applied? ==>
            && LastValidated(log.past).Some?
            && var k := LastValidated(log.past).value;
            && Vetted(env, k) && LastSession(log.past) == Some(k.sessionId) && Follows(env, log.last, k))
  }

  /**
   The session of the machine has been announced; while the ACK is awaited the buffer is the packet
   validated last.
   */
  predicate Trusted(env: Env, s: Node) {
    && (s.p.state == WaitData || s.p.state == WaitAckSent ==> LastSession(s.out) == Some(s.p.sessionId))
    && (s.p.state == WaitAckSent ==>
          var k := DataPacket(s.p.sessionId, s.p.buffer, s.p.length);
          Vetted(env, k) && LastValidated(s.out) == Some(k))
  }

  predicate Plain(o: Output) { !o.StartPacket? && !o.Validated? && !o.Decoded? && !o.Applied? }

  lemma {:induction false} PlainLog(env: Env, log: Log, o: Output)
    requires Plain(o)
    ensures LastSession(Then(log, o)) == LastSession(log) && LastValidated(Then(log, o)) == LastValidated(log)
    ensures Faithful(env, Then(log, o)) == Faithful(env, log)
  {
  }

  /** The two windows of the buffer agree exactly for the methods other than EXTENDED_UID. */
  lemma {:induction false} SameWindow(env: Env, b: Pdu, length: nat)
    requires LeastLength(env) <= length <= PDU_SIZE
    ensures ApplyBytes(env, b, length) == DryRunBytes(env, b, length) <==> env.sort != ExtendedUid
    ensures env.sort == ExtendedUid ==>
              ApplyBytes(env, b, length) == DryRunBytes(env, b, length) + b[length - MIC_SIZE..length]
  {
    assert env.sort == ExtendedUid ==> |ApplyBytes(env, b, length)| == |DryRunBytes(env, b, length)| + MIC_SIZE;
  }

  predicate Good(env: Env, s: Node) { Trusted(env, s) && Faithful(env, s.out) }

  lemma {:induction false} GoodEnd(env: Env, s: Node, r: Result, restart: bool)
    requires Faithful(env, s.out)
    ensures Good(env, EndInTask(s, r, restart)) && Good(env, EndSession(s, r, restart))
  {
    PlainLog(env, s.out, Ended(r));
    PlainLog(env, Then(s.out, Ended(r)), Accepted);
  }

  lemma {:induction false} GoodStart(env: Env, s: Node, o: Oracle)
    requires Faithful(env, s.out) && s.p.state == Start
    ensures Good(env, PStart(env, s, o))
  {
    var log := Then(s.out, StartPacket(o.sendOk, s.p.sessionId));
    assert LastSession(log) == Some(s.p.sessionId) && Faithful(env, log);
    GoodEnd(env, s.(p := s.p.(retry := Bump(s.p.retry)), out := log), ErrorSendingData, o.restart);
  }

  lemma {:induction false} GoodRefused(env: Env, s: Node, retry: u8, b: Pdu, r: Result, o: Oracle)
    requires Faithful(env, s.out)
    ensures Good(env, DataRefused(env, s, retry, b, r, o))
  {
    GoodEnd(env, s.(p := s.p.(retry := Bump(retry), buffer := b)), r, o.restart);
  }

  lemma {:induction false} GoodAccepted(env: Env, s: Node, b: Pdu, o: Oracle)
    requires Good(env, s) && s.p.state == WaitData && Vetted(env, DataPacket(s.p.sessionId, b, s.p.length))
    ensures Good(env, DataAccepted(env, s, b, o))
  {
    var k := DataPacket(s.p.sessionId, b, s.p.length);
    var log := Then(s.out, Validated(k));
    assert LastSession(log) == Some(k.sessionId) && LastValidated(log) == Some(k) && Faithful(env, log);
    PlainLog(env, log, AckPacket(o.sendOk));
  }

  lemma {:induction false} GoodWaitData(env: Env, s: Node, o: Oracle)
    requires Shape(env, s) && Good(env, s) && s.p.state == WaitData
    ensures Good(env, PWaitData(env, s, o))
  {
    if s.p.ev.rxdPacket {
      var v := Judge(env, s.p);
      if v.0 == Success {
        JudgedVetted(env, s.p);
        GoodAccepted(env, s, v.2, o);
      } else {
        GoodRefused(env, s, v.1, v.2, v.0, o);
      }
    } else {
      GoodRefused(env, s, s.p.retry, s.p.buffer, Timeout, o);
    }
  }

  /** The log after the packet has been decoded for good. */
  lemma {:induction false} DecodedFollows(env: Env, log: Log, k: DataPacket)
    requires Faithful(env, log) && Vetted(env, k) && LastValidated(log) == Some(k)
             && LastSession(log) == Some(k.sessionId)
    ensures var bytes := DryRunBytes(env, k.buffer, k.length);
            var l := Then(log, Decoded(bytes, DecodeCalls(env.reader, env.st, bytes)));
            Faithful(env, l) && LastValidated(l) == Some(k) && LastSession(l) == Some(k.sessionId)
  {
    AcceptedCalls(env.reader, env.st, DryRunBytes(env, k.buffer, k.length));
  }

  lemma {:induction false} GoodApply(env: Env, s: Node, o: Oracle)
    requires env.sort != ExtendedUid && Shape(env, s) && Good(env, s) && s.p.state == WaitAckSent
    ensures Good(env, PWaitAckSent(env, s, o))
  {
    if s.p.ev.ackSent || s.p.ev.timeout {
      var k := DataPacket(s.p.sessionId, s.p.buffer, s.p.length);
      var bytes := ApplyBytes(env, s.p.buffer, s.p.length);
      SameWindow(env, s.p.buffer, s.p.length);
      DecodedFollows(env, s.out, k);
      var log := Then(s.out, Decoded(bytes, DecodeCalls(env.reader, env.st, bytes)));
      PlainLog(env, log, Ended(Success));
      var ended := Then(log, Ended(Success));
      assert Faithful(env, Then(ended, Applied(Network(env.reader(bytes).entries))));
    }
  }

  lemma {:induction false} GoodProvisioning(env: Env, s: Node, o: Oracle)
    requires env.sort != ExtendedUid && Shape(env, s) && Good(env, s)
    ensures Good(env, ProvMachine(env, s, o))
  {
    match s.p.state
    case Idle =>
    case WaitJoining => GoodEnd(env, s, Stopped, o.restart);
    case Start => GoodStart(env, s, o);
    case WaitData => GoodWaitData(env, s, o);
    case WaitAckSent => GoodApply(env, s, o);
  }

  lemma {:induction false} GoodJoining(env: Env, s: Node, o: Oracle)
    requires Shape(env, s) && Good(env, s)
    ensures Good(env, JoinMachine(env, s, o))
  {
    PlainLog(env, s.out, Scan(o.scanOk));
  }

  /** The filter is off while the ACK is awaited, so that no packet replaces the one validated. */
  lemma {:induction false} TrustedStep(env: Env, s: Node, e: Event)
    requires env.sort != ExtendedUid && Shape(env, s) && Good(env, s) && Enabled(env, s, e)
    ensures Good(env, Step(env, s, e))
  {
    match e
    case Fire(PRun, o) => GoodProvisioning(env, s, o);
    case Fire(JRun, o) => GoodJoining(env, s, o);
    case CallStart => PlainLog(env, s.out, Accepted);
    case CallStop(restart) =>
      PlainLog(env, s.out, StopCalled);
      GoodEnd(env, s.(out := Then(s.out, StopCalled)), Stopped, restart);
    case _ =>
  }

  lemma {:induction false} TrustedRun(env: Env, s: Node, es: seq<Event>)
    requires env.sort != ExtendedUid && Shape(env, s) && Good(env, s) && Feasible(env, s, es)
    ensures Good(env, After(env, s, es))
    decreases |es|
  {
    if es != [] {
      ShapeStep(env, s, es[0]);
      TrustedStep(env, s, es[0]);
      TrustedRun(env, Step(env, s, es[0]), es[1..]);
    }
  }

  /**
   What is applied, and what the user sees, is exactly what a dry run has accepted, from a packet
   of the session announced last, authentic if the method encrypts.
   */
  lemma {:induction false} AppliedIsValidated(env: Env, sessionId: u8, timeoutS: u16, es: seq<Event>)
    requires env.sort != ExtendedUid && Feasible(env, Initial(sessionId, timeoutS), es)
    ensures Faithful(env, After(env, Initial(sessionId, timeoutS), es).out)
  {
    TrustedRun(env, Initial(sessionId, timeoutS), es);
  }
}
