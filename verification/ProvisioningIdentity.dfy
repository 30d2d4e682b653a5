/**
 What tells sessions apart: the session id, the initialization vector, and how long each waits.
 */
module ProvisioningIdentity {
  import opened Wrappers
  import opened Bytes
  import opened ProvisioningData
  import opened ProvisioningState
  import opened ProvisioningRuns

  // ---- What a step changes ------------------------------------------------------------------------

  /** The node has joined a network for a session. */
  predicate Joins(s: Node, e: Event) {
    e.Fire? && e.t == PRun && s.p.state == WaitJoining && s.p.ev.joined && s.p.joinResult == Success
  }

  /** A session begins to join. */
  predicate Begins(s: Node, e: Event) {
    e.Fire? && e.t == PRun && s.p.state == Idle && s.p.ev.start && s.j.state == JoinIdle
  }

  /** A packet has been taken by the stack, and its answer is waited for. */
  predicate Waits(s: Node, t: Node) {
    (t.p.state == WaitData && s.p.state != WaitData) || (t.p.state == WaitAckSent && s.p.state != WaitAckSent)
  }

  /** The wait is as long as the timeout, in milliseconds. */
  predicate TimedAs(s: Node) {
    s.tasks.pTimeout.Some? && s.tasks.pTimeout.value / 1000 == s.p.timeoutS && s.tasks.pTimeout.value % 1000 == 0
  }

  function NextId(id: u8): u8 { if id == 255 then 0 else id + 1 }

  lemma {:induction false} IdentityData(env: Env, s: Node, o: Oracle)
    requires Runnable(env, s) && s.p.state == WaitData
    ensures var t := PWaitData(env, s, o);
            && t.p.sessionId == s.p.sessionId && t.p.iv == s.p.iv
            && (Waits(s, t) && o.sendOk ==> TimedAs(t))
  {
    if s.p.ev.rxdPacket {
      var v := Judge(env, s.p);
      if v.0 == Success {
        var t := DataAccepted(env, s, v.2, o);
        assert t.p.iv == s.p.iv;
      } else {
        var t := DataRefused(env, s, v.1, v.2, v.0, o);
        assert t.p.iv == s.p.iv && t.p.state != WaitAckSent;
      }
    } else {
      var t := DataRefused(env, s, s.p.retry, s.p.buffer, Timeout, o);
      assert t.p.iv == s.p.iv && t.p.state != WaitAckSent;
    }
  }

  lemma {:induction false} IdentityProvisioning(env: Env, s: Node, o: Oracle)
    requires Runnable(env, s)
    ensures var t, e := ProvMachine(env, s, o), Fire(PRun, o);
            && t.p.sessionId == (if Joins(s, e) then NextId(s.p.sessionId) else s.p.sessionId)
            && t.p.iv == (if Begins(s, e) && env.sort in {Secured, ExtendedUid} then o.iv else s.p.iv)
            && (Waits(s, t) && o.sendOk ==> TimedAs(t))
  {
    match s.p.state
    case Idle =>
    case WaitJoining =>
    case Start =>
    case WaitData => IdentityData(env, s, o);
    case WaitAckSent => IdentityApply(env, s, ApplyBytes(env, s.p.buffer, s.p.length), o);
  }

  lemma {:induction false} IdentityApply(env: Env, s: Node, bytes: seq<u8>, o: Oracle)
    requires s.p.state == WaitAckSent
    ensures var t := ApplyData(env, s, bytes, o);
            t.p.sessionId == s.p.sessionId && t.p.iv == s.p.iv && !Waits(s, t)
  {
  }

  /**
   The session id is counted on by joining alone, in 8 bits; the vector is drawn when an encrypted
   session begins and never changes while it lasts; and a packet taken is waited for as long as
   the timeout says.
   */
  lemma {:induction false} IdentityStep(env: Env, s: Node, e: Event)
    requires Runnable(env, s)
    ensures var t := Step(env, s, e);
            && t.p.sessionId == (if Joins(s, e) then NextId(s.p.sessionId) else s.p.sessionId)
            && t.p.iv == (if Begins(s, e) && env.sort in {Secured, ExtendedUid} then e.o.iv else s.p.iv)
            && (Waits(s, t) && e.o.sendOk ==> TimedAs(t))
  {
    if e.Fire? && e.t == PRun { IdentityProvisioning(env, s, e.o); }
  }

  // ---- One id in a session ------------------------------------------------------------------------

  /** The id in the START packets since the last session was accepted. */
  function LastId(log: Log): Option<u8>
  {
    if log.Empty? || log.last.Accepted? then None
    else if log.last.StartPacket? then Some(log.last.sessionId)
    else LastId(log.past)
  }

  /** All START packets of a session have the same id. */
  predicate OneId(log: Log) {
    log.Then? ==>
      && OneId(log.past)
      && (log.last.StartPacket? && LastId(log.past).Some? ==> LastId(log.past).value == log.last.sessionId)
  }

  predicate Identified(s: Node) {
    && OneId(s.out)
    && match s.p.state
       case Idle => s.p.ev.start ==> LastId(s.out) == None
       case WaitJoining => LastId(s.out) == None
       case _ => LastId(s.out).Some? ==> LastId(s.out).value == s.p.sessionId
  }

  lemma {:induction false} QuietId(log: Log, o: Output)
    requires !o.StartPacket? && !o.Accepted?
    ensures LastId(Then(log, o)) == LastId(log) && OneId(Then(log, o)) == OneId(log)
  {
  }

  lemma {:induction false} IdentifiedEnd(s: Node, r: Result, restart: bool)
    requires OneId(s.out)
    ensures Identified(EndInTask(s, r, restart)) && Identified(EndSession(s, r, restart))
  {
    QuietId(s.out, Ended(r));
    assert OneId(Then(Then(s.out, Ended(r)), Accepted));
  }

  lemma {:induction false} IdentifiedStart(env: Env, s: Node, o: Oracle)
    requires Identified(s) && s.p.state == Start
    ensures Identified(PStart(env, s, o))
  {
    var log := Then(s.out, StartPacket(o.sendOk, s.p.sessionId));
    assert OneId(log) && LastId(log) == Some(s.p.sessionId);
    IdentifiedEnd(s.(p := s.p.(retry := Bump(s.p.retry)), out := log), ErrorSendingData, o.restart);
  }

  lemma {:induction false} IdentifiedData(env: Env, s: Node, o: Oracle)
    requires Runnable(env, s) && Identified(s) && s.p.state == WaitData
    ensures Identified(PWaitData(env, s, o))
  {
    if s.p.ev.rxdPacket {
      var v := Judge(env, s.p);
      var first := Validated(DataPacket(s.p.sessionId, v.2, s.p.length));
      QuietId(s.out, first);
      QuietId(Then(s.out, first), AckPacket(o.sendOk));
      IdentifiedEnd(s.(p := s.p.(retry := Bump(v.1), buffer := v.2)), v.0, o.restart);
    } else {
      IdentifiedEnd(s.(p := s.p.(retry := Bump(s.p.retry))), Timeout, o.restart);
    }
  }

  lemma {:induction false} IdentifiedApply(env: Env, s: Node, bytes: seq<u8>, o: Oracle)
    requires Identified(s) && s.p.state == WaitAckSent
    ensures Identified(ApplyData(env, s, bytes, o))
  {
    var decoded := Decoded(bytes, DecodeCalls(env.reader, env.st, bytes));
    var log := Then(s.out, decoded);
    QuietId(s.out, decoded);
    QuietId(log, Ended(Success));
    IdentifiedEnd(s.(out := log), InvalidDataResult, o.restart);
    if Acceptable(env.reader, env.st, bytes) {
      QuietId(Then(log, Ended(Success)), Applied(Network(env.reader(bytes).entries)));
    }
  }

  lemma {:induction false} IdentifiedProvisioning(env: Env, s: Node, o: Oracle)
    requires Runnable(env, s) && Identified(s)
    ensures Identified(ProvMachine(env, s, o))
  {
    match s.p.state
    case Idle => IdentifiedEnd(s.(p := s.p.(retry := 0)), ErrorJoining, o.restart);
    case WaitJoining => IdentifiedEnd(s, Stopped, o.restart);
    case Start => IdentifiedStart(env, s, o);
    case WaitData => IdentifiedData(env, s, o);
    case WaitAckSent => IdentifiedApply(env, s, ApplyBytes(env, s.p.buffer, s.p.length), o);
  }

  lemma {:induction false} IdentifiedJoining(env: Env, s: Node, o: Oracle)
    requires Identified(s)
    ensures Identified(JoinMachine(env, s, o))
  {
    QuietId(s.out, Scan(o.scanOk));
  }

  lemma {:induction false} IdentifiedStep(env: Env, s: Node, e: Event)
    requires Runnable(env, s) && Identified(s)
    ensures Identified(Step(env, s, e))
  {
    match e
    case Fire(PRun, o) => IdentifiedProvisioning(env, s, o);
    case Fire(JRun, o) => IdentifiedJoining(env, s, o);
    case CallStart => assert OneId(Then(s.out, Accepted)) && LastId(Then(s.out, Accepted)) == None;
    case CallStop(restart) =>
      QuietId(s.out, StopCalled);
      IdentifiedEnd(s.(out := Then(s.out, StopCalled)), Stopped, restart);
    case _ =>
  }

  lemma {:induction false} IdentifiedRun(env: Env, s: Node, es: seq<Event>)
    requires Feasible(env, s, es) && Identified(s)
    ensures Identified(After(env, s, es))
    decreases |es|
  {
    if es != [] {
      IdentifiedStep(env, s, es[0]);
      IdentifiedRun(env, Step(env, s, es[0]), es[1..]);
    }
  }

  /** Joinings in a run. */
  ghost function TimesJoined(env: Env, s: Node, es: seq<Event>): nat
    requires Feasible(env, s, es)
    decreases |es|
  {
    if es == [] then 0
    else (if Joins(s, es[0]) then 1 else 0) + TimesJoined(env, Step(env, s, es[0]), es[1..])
  }

  lemma {:induction false} IdRun(env: Env, s: Node, es: seq<Event>)
    requires Feasible(env, s, es)
    ensures After(env, s, es).p.sessionId == (s.p.sessionId as int + TimesJoined(env, s, es)) % 0x100
    decreases |es|
  {
    if es != [] {
      IdentityStep(env, s, es[0]);
      IdRun(env, Step(env, s, es[0]), es[1..]);
    }
  }

  /**
   In every run the START packets of a session have one id, however often data is asked for again,
   and the id has been counted on by one for each network joined.
   */
  lemma {:induction false} SessionsTold(env: Env, sessionId: u8, timeoutS: u16, es: seq<Event>)
    requires Feasible(env, Initial(sessionId, timeoutS), es)
    ensures var s0 := Initial(sessionId, timeoutS);
            OneId(After(env, s0, es).out)
            && After(env, s0, es).p.sessionId == (sessionId as int + TimesJoined(env, s0, es)) % 0x100
  {
    IdentifiedRun(env, Initial(sessionId, timeoutS), es);
    IdRun(env, Initial(sessionId, timeoutS), es);
  }
}
