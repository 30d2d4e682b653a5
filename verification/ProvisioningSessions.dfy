/**
 The account of sessions: which are accepted, and how often the end callback is called for them,
 in every run of the state machines.
 */
module ProvisioningSessions {
  import opened Bytes
  import opened ProvisioningData
  import opened ProvisioningState
  import opened ProvisioningRuns

  // ---- What the log says ------------------------------------------------------------------------

  /** A session has been accepted and its end callback has not been called yet. */
  predicate Open(log: Log) {
    log.Then? && (log.last.Accepted? || (!log.last.Ended? && Open(log.past)))
  }

  /** Calls of Provisioning_start that returned OK. */
  function AcceptCount(log: Log): nat
  {
    if log.Empty? then 0 else AcceptCount(log.past) + if log.last.Accepted? then 1 else 0
  }

  /** Calls of the end callback that closed a session. */
  function EndCount(log: Log): nat
  {
    if log.Empty? then 0 else EndCount(log.past) + if log.last.Ended? && Open(log.past) then 1 else 0
  }

  /**
   The end callback is only called for an open session, which it closes, or directly for a call of
   Provisioning_stop.
   */
  predicate EndsOnce(log: Log) {
    log.Then? ==>
      && EndsOnce(log.past)
      && (log.last.Ended? ==> Open(log.past) || (log.past.Then? && log.past.last.StopCalled?))
  }

  /** START packets attempted since the last session was accepted. */
  function StartCount(log: Log): nat
  {
    if log.Empty? || log.last.Accepted? then 0
    else if log.last.StartPacket? then StartCount(log.past) + 1
    else StartCount(log.past)
  }

  /** Beacon scans attempted since the last session was accepted. */
  function ScanCount(log: Log): nat
  {
    if log.Empty? || log.last.Accepted? then 0
    else if log.last.Scan? then ScanCount(log.past) + 1
    else ScanCount(log.past)
  }

  /** Whatever the log: no more sessions are closed than have been accepted. */
  lemma {:induction false} EndsAtMostAccepts(log: Log)
    ensures EndCount(log) + (if Open(log) then 1 else 0) <= AcceptCount(log)
  {
    if log.Then? {
      EndsAtMostAccepts(log.past);
    }
  }

  predicate Quiet(o: Output) { !o.Accepted? && !o.Ended? }

  lemma {:induction false} QuietLog(log: Log, o: Output)
    requires Quiet(o)
    ensures Open(Then(log, o)) == Open(log) && EndsOnce(Then(log, o)) == EndsOnce(log)
    ensures AcceptCount(Then(log, o)) == AcceptCount(log) && EndCount(Then(log, o)) == EndCount(log)
  {
  }

  lemma {:induction false} QuietCounts(log: Log, o: Output)
    requires !o.Accepted? && !o.StartPacket? && !o.Scan?
    ensures StartCount(Then(log, o)) == StartCount(log) && ScanCount(Then(log, o)) == ScanCount(log)
  {
  }

  // ---- The end callback is called once for each accepted session ----------------------------------

  predicate Sane(s: Node) { EndsOnce(s.out) && (Active(s) ==> Open(s.out)) }

  /** Sessions accepted and not ended: exactly the one that is active. */
  predicate Accounted(s: Node) {
    Open(s.out) == Active(s) && AcceptCount(s.out) == EndCount(s.out) + if Active(s) then 1 else 0
  }

  /** From `s` to `t` the account of sessions is kept exactly if none is lost. */
  predicate Booked(s: Node, t: Node, lost: bool) {
    (Sane(s) ==> Sane(t)) && (Accounted(s) ==> (Accounted(t) <==> !lost))
  }

  /** The state machine is about to end the session with something else than success. */
  predicate WillFail(env: Env, s: Node, o: Oracle)
    requires Runnable(env, s)
  {
    match s.p.state
    case Idle => false
    case WaitJoining => s.p.ev.joined && s.p.joinResult != Success
    case Start => !o.sendOk && Bump(s.p.retry) > env.nbRetry
    case WaitData =>
      if s.p.ev.rxdPacket then Judge(env, s.p).0 != Success && Bump(Judge(env, s.p).1) > env.nbRetry
      else s.p.ev.timeout && Bump(s.p.retry) > env.nbRetry
    case WaitAckSent =>
      (s.p.ev.ackSent || s.p.ev.timeout)
      && !Acceptable(env.reader, env.st, ApplyBytes(env, s.p.buffer, s.p.length))
  }

  /** The end callback starts a new session while the state machine that called it has yet to clear all events. */
  predicate StartLost(env: Env, s: Node, e: Event)
    requires Runnable(env, s)
  {
    e.Fire? && e.t == PRun && e.o.restart && WillFail(env, s, e.o)
  }

  /** A session is accepted while another one has been and the state machine has not run yet. */
  predicate DoubleStart(s: Node, e: Event) { e.CallStart? && s.p.state == Idle && s.p.ev.start }

  /** A session is accepted that will not have an end callback of its own. */
  predicate SessionLost(env: Env, s: Node, e: Event)
    requires Runnable(env, s)
  {
    StartLost(env, s, e) || DoubleStart(s, e)
  }

  lemma {:induction false} EndLog(s: Node, r: Result, restart: bool)
    ensures var t := EndInTask(s, r, restart);
            && !Active(t) && t.halted == s.halted
            && t.out == if restart then Then(Then(s.out, Ended(r)), Accepted) else Then(s.out, Ended(r))
  {
  }

  lemma {:induction false} EndCounts(log: Log, r: Result)
    requires Open(log)
    ensures var l := Then(log, Ended(r));
            !Open(l) && AcceptCount(l) == AcceptCount(log) && EndCount(l) == EndCount(log) + 1
            && (EndsOnce(log) ==> EndsOnce(l))
  {
  }

  lemma {:induction false} AcceptCounts(log: Log)
    ensures var l := Then(log, Accepted);
            Open(l) && AcceptCount(l) == AcceptCount(log) + 1 && EndCount(l) == EndCount(log)
            && (EndsOnce(log) ==> EndsOnce(l))
  {
  }

  /** A session ends from within the state machine: a start from inside its callback is lost. */
  lemma {:induction false} BookedEnd(s: Node, s': Node, r: Result, restart: bool)
    requires Active(s) && s'.halted == s.halted
    requires Open(s'.out) == Open(s.out) && (EndsOnce(s.out) ==> EndsOnce(s'.out))
    requires AcceptCount(s'.out) == AcceptCount(s.out) && EndCount(s'.out) == EndCount(s.out)
    ensures Booked(s, EndInTask(s', r, restart), restart)
  {
    EndLog(s', r, restart);
    if Open(s'.out) {
      EndCounts(s'.out, r);
      AcceptCounts(Then(s'.out, Ended(r)));
    }
  }

  lemma {:induction false} BookedIdle(env: Env, s: Node, o: Oracle)
    requires Shape(env, s) && s.p.state == Idle && !s.halted
    ensures Booked(s, PIdle(env, s, o), false)
  {
  }

  lemma {:induction false} BookedWaitJoining(env: Env, s: Node, o: Oracle)
    requires Shape(env, s) && s.p.state == WaitJoining && !s.halted
    ensures Booked(s, PWaitJoining(s, o), o.restart && WillFail(env, s, o))
  {
    BookedEnd(s, s, Stopped, o.restart);
  }

  lemma {:induction false} BookedStart(env: Env, s: Node, o: Oracle)
    requires Shape(env, s) && s.p.state == Start && !s.halted
    ensures Booked(s, PStart(env, s, o), o.restart && WillFail(env, s, o))
  {
    var sent := StartPacket(o.sendOk, s.p.sessionId);
    var s1 := s.(p := s.p.(retry := Bump(s.p.retry)), out := Then(s.out, sent));
    QuietLog(s.out, sent);
    BookedEnd(s, s1, ErrorSendingData, o.restart);
  }

  lemma {:induction false} BookedRefused(env: Env, s: Node, retry: u8, b: Pdu, r: Result, o: Oracle)
    requires Active(s) && s.p.state == WaitData
    ensures Booked(s, DataRefused(env, s, retry, b, r, o), o.restart && Bump(retry) > env.nbRetry)
  {
    BookedEnd(s, s.(p := s.p.(retry := Bump(retry), buffer := b)), r, o.restart);
  }

  lemma {:induction false} BookedAccepted(env: Env, s: Node, b: Pdu, o: Oracle)
    requires Active(s) && s.p.state == WaitData && LeastLength(env) <= s.p.length <= PDU_SIZE
    ensures Booked(s, DataAccepted(env, s, b, o), false)
  {
    var first := Validated(DataPacket(s.p.sessionId, b, s.p.length));
    QuietLog(s.out, first);
    QuietLog(Then(s.out, first), AckPacket(o.sendOk));
  }

  lemma {:induction false} BookedWaitData(env: Env, s: Node, o: Oracle)
    requires Shape(env, s) && s.p.state == WaitData && !s.halted
    ensures Booked(s, PWaitData(env, s, o), o.restart && WillFail(env, s, o))
  {
    if s.p.ev.rxdPacket {
      var v := Judge(env, s.p);
      if v.0 == Success {
        BookedAccepted(env, s, v.2, o);
      } else {
        BookedRefused(env, s, v.1, v.2, v.0, o);
      }
    } else {
      BookedRefused(env, s, s.p.retry, s.p.buffer, Timeout, o);
    }
  }

  lemma {:induction false} BookedSuccess(s: Node, t: Node, log: Log, params: Params)
    requires Active(s) && !Active(t) && Open(log) == Open(s.out) && (EndsOnce(s.out) ==> EndsOnce(log))
    requires AcceptCount(log) == AcceptCount(s.out) && EndCount(log) == EndCount(s.out)
    requires var l := Then(log, Ended(Success)); t.out == l || t.out == Then(l, Applied(params))
    ensures Booked(s, t, false)
  {
    if Open(log) {
      EndCounts(log, Success);
      QuietLog(Then(log, Ended(Success)), Applied(params));
    }
  }

  lemma {:induction false} BookedApply(env: Env, s: Node, bytes: seq<u8>, o: Oracle)
    requires Active(s) && s.p.state == WaitAckSent
    ensures Booked(s, ApplyData(env, s, bytes, o), o.restart && !Acceptable(env.reader, env.st, bytes))
  {
    var decoded := Decoded(bytes, DecodeCalls(env.reader, env.st, bytes));
    var log := Then(s.out, decoded);
    QuietLog(s.out, decoded);
    if Acceptable(env.reader, env.st, bytes) {
      BookedSuccess(s, ApplyData(env, s, bytes, o), log, Network(env.reader(bytes).entries));
    } else {
      BookedEnd(s, s.(out := log), InvalidDataResult, o.restart);
    }
  }

  lemma {:induction false} BookedWaitAckSent(env: Env, s: Node, o: Oracle)
    requires Shape(env, s) && s.p.state == WaitAckSent && !s.halted
    ensures Booked(s, PWaitAckSent(env, s, o), o.restart && WillFail(env, s, o))
  {
    BookedApply(env, s, ApplyBytes(env, s.p.buffer, s.p.length), o);
  }

  /** The joining machine calls no end callback and accepts no session. */
  lemma {:induction false} BookedJoining(env: Env, s: Node, o: Oracle)
    requires Shape(env, s) && !s.halted
    ensures Booked(s, JoinMachine(env, s, o), false)
  {
    QuietLog(s.out, Scan(o.scanOk));
  }

  lemma {:induction false} BookedStop(env: Env, s: Node, restart: bool)
    requires !s.halted
    ensures Booked(s, EndSession(s.(out := Then(s.out, StopCalled)), Stopped, restart), false)
  {
    var called := Then(s.out, StopCalled);
    QuietLog(s.out, StopCalled);
    if Open(called) {
      EndCounts(called, Stopped);
    }
    AcceptCounts(Then(called, Ended(Stopped)));
  }

  lemma {:induction false} BookedCall(s: Node)
    requires !s.halted
    ensures Booked(s, ProvisioningStart(s), DoubleStart(s, CallStart))
  {
    AcceptCounts(s.out);
  }

  lemma {:induction false} BookedProvisioning(env: Env, s: Node, o: Oracle)
    requires Shape(env, s) && !s.halted
    ensures Booked(s, ProvMachine(env, s, o), o.restart && WillFail(env, s, o))
  {
    match s.p.state
    case Idle => BookedIdle(env, s, o);
    case WaitJoining => BookedWaitJoining(env, s, o);
    case Start => BookedStart(env, s, o);
    case WaitData => BookedWaitData(env, s, o);
    case WaitAckSent => BookedWaitAckSent(env, s, o);
  }

  lemma {:induction false} BookedStep(env: Env, s: Node, e: Event)
    requires Shape(env, s) && Enabled(env, s, e)
    ensures Booked(s, Step(env, s, e), SessionLost(env, s, e))
  {
    match e
    case Fire(PRun, o) => BookedProvisioning(env, s, o);
    case Fire(JRun, o) => BookedJoining(env, s, o);
    case CallStart => BookedCall(s);
    case CallStop(restart) => BookedStop(env, s, restart);
    case _ =>
  }

  /** A step keeps the account exactly if it does not lose a session. */
  lemma {:induction false} AccountedStep(env: Env, s: Node, e: Event)
    requires Shape(env, s) && Accounted(s) && Enabled(env, s, e)
    ensures Accounted(Step(env, s, e)) <==> !SessionLost(env, s, e)
  {
    BookedStep(env, s, e);
  }

  /** The account is right in every state of a run. */
  ghost predicate AlwaysAccounted(env: Env, s: Node, es: seq<Event>)
    requires Feasible(env, s, es)
    decreases |es|
  {
    Accounted(s) && (es != [] ==> AlwaysAccounted(env, Step(env, s, es[0]), es[1..]))
  }

  /** No step of a run loses a session. */
  ghost predicate NoneLost(env: Env, s: Node, es: seq<Event>)
    requires Feasible(env, s, es)
    decreases |es|
  {
    es != [] ==> !SessionLost(env, s, es[0]) && NoneLost(env, Step(env, s, es[0]), es[1..])
  }

  lemma {:induction false} SaneRun(env: Env, s: Node, es: seq<Event>)
    requires Shape(env, s) && Sane(s) && Feasible(env, s, es)
    ensures Sane(After(env, s, es))
    decreases |es|
  {
    if es != [] {
      ShapeStep(env, s, es[0]);
      BookedStep(env, s, es[0]);
      SaneRun(env, Step(env, s, es[0]), es[1..]);
    }
  }

  lemma {:induction false} AccountedRun(env: Env, s: Node, es: seq<Event>)
    requires Shape(env, s) && Accounted(s) && Feasible(env, s, es)
    ensures AlwaysAccounted(env, s, es) <==> NoneLost(env, s, es)
    ensures NoneLost(env, s, es) ==> Accounted(After(env, s, es))
    decreases |es|
  {
    if es != [] {
      ShapeStep(env, s, es[0]);
      AccountedStep(env, s, es[0]);
      if !SessionLost(env, s, es[0]) {
        AccountedRun(env, Step(env, s, es[0]), es[1..]);
      }
    }
  }

  /**
   In every run the end callback is only called for an open session or directly for a call of
   Provisioning_stop, and closes no more sessions than have been accepted.
   */
  lemma {:induction false} NoSpuriousEnd(env: Env, sessionId: u8, timeoutS: u16, es: seq<Event>)
    requires Feasible(env, Initial(sessionId, timeoutS), es)
    ensures var s := After(env, Initial(sessionId, timeoutS), es);
            EndsOnce(s.out) && EndCount(s.out) + (if Active(s) then 1 else 0) <= AcceptCount(s.out)
  {
    SaneRun(env, Initial(sessionId, timeoutS), es);
    EndsAtMostAccepts(After(env, Initial(sessionId, timeoutS), es).out);
  }

  /**
   The end callback is called once for each accepted session: all through a run the sessions
   accepted are those ended and the active one, exactly if no step of the run loses a session.
   */
  lemma {:induction false} EndCallbackOnce(env: Env, sessionId: u8, timeoutS: u16, es: seq<Event>)
    requires Feasible(env, Initial(sessionId, timeoutS), es)
    ensures AlwaysAccounted(env, Initial(sessionId, timeoutS), es) <==> NoneLost(env, Initial(sessionId, timeoutS), es)
    ensures var s := After(env, Initial(sessionId, timeoutS), es);
            NoneLost(env, Initial(sessionId, timeoutS), es) ==>
              && (Open(s.out) <==> Active(s))
              && AcceptCount(s.out) == EndCount(s.out) + if Active(s) then 1 else 0
  {
    AccountedRun(env, Initial(sessionId, timeoutS), es);
  }
}
