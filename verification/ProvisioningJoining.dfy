/**
 What the user is told when joining the network fails: never why, and always that the session
 has been stopped.
 */
module ProvisioningJoining {
  import opened Bytes
  import opened ProvisioningData
  import opened ProvisioningState
  import opened ProvisioningRuns
  import opened ProvisioningSessions
  import opened ProvisioningAttempts
  import opened ProvisioningLimits

  // ---- Joining errors are not reported ----------------------------------------------------------

  predicate JoinError(r: Result) { r == ErrorScanningBeacons || r == ErrorJoining || r == ErrorNoRoute }

  predicate NoJoinError(log: Log) {
    log.Then? ==> NoJoinError(log.past) && (log.last.Ended? ==> !JoinError(log.last.result))
  }

  lemma {:induction false} NoJoinErrorEnd(s: Node, r: Result, restart: bool)
    requires NoJoinError(s.out) && !JoinError(r)
    ensures NoJoinError(EndInTask(s, r, restart).out) && NoJoinError(EndSession(s, r, restart).out)
  {
    assert NoJoinError(Then(s.out, Ended(r)));
  }

  lemma {:induction false} NoJoinErrorData(env: Env, s: Node, o: Oracle)
    requires Shape(env, s) && NoJoinError(s.out) && s.p.state == WaitData
    ensures NoJoinError(PWaitData(env, s, o).out)
  {
    if s.p.ev.rxdPacket {
      var v := Judge(env, s.p);
      if v.0 == Success {
        assert NoJoinError(Then(s.out, Validated(DataPacket(s.p.sessionId, v.2, s.p.length))));
      } else {
        NoJoinErrorEnd(s.(p := s.p.(retry := Bump(v.1), buffer := v.2)), v.0, o.restart);
      }
    } else {
      NoJoinErrorEnd(s.(p := s.p.(retry := Bump(s.p.retry))), Timeout, o.restart);
    }
  }

  lemma {:induction false} NoJoinErrorApply(env: Env, s: Node, o: Oracle)
    requires Shape(env, s) && NoJoinError(s.out) && s.p.state == WaitAckSent
    ensures NoJoinError(PWaitAckSent(env, s, o).out)
  {
    var bytes := ApplyBytes(env, s.p.buffer, s.p.length);
    var log := Then(s.out, Decoded(bytes, DecodeCalls(env.reader, env.st, bytes)));
    assert NoJoinError(log) && NoJoinError(Then(log, Ended(Success)));
    NoJoinErrorEnd(s.(out := log), InvalidDataResult, o.restart);
  }

  lemma {:induction false} NoJoinErrorProvisioning(env: Env, s: Node, o: Oracle)
    requires Shape(env, s) && NoJoinError(s.out)
    ensures NoJoinError(ProvMachine(env, s, o).out)
  {
    match s.p.state
    case Idle =>
    case WaitJoining => NoJoinErrorEnd(s, Stopped, o.restart);
    case Start =>
      var log := Then(s.out, StartPacket(o.sendOk, s.p.sessionId));
      NoJoinErrorEnd(s.(p := s.p.(retry := Bump(s.p.retry)), out := log), ErrorSendingData, o.restart);
    case WaitData => NoJoinErrorData(env, s, o);
    case WaitAckSent => NoJoinErrorApply(env, s, o);
  }

  lemma {:induction false} NoJoinErrorStep(env: Env, s: Node, e: Event)
    requires Shape(env, s) && NoJoinError(s.out) && Enabled(env, s, e)
    ensures NoJoinError(Step(env, s, e).out)
  {
    match e
    case CallStop(restart) => NoJoinErrorEnd(s.(out := Then(s.out, StopCalled)), Stopped, restart);
    case Fire(PRun, o) => NoJoinErrorProvisioning(env, s, o);
    case _ =>
  }

  lemma {:induction false} NoJoinErrorRun(env: Env, s: Node, es: seq<Event>)
    requires Shape(env, s) && NoJoinError(s.out) && Feasible(env, s, es)
    ensures NoJoinError(After(env, s, es).out)
    decreases |es|
  {
    if es != [] {
      ShapeStep(env, s, es[0]);
      NoJoinErrorStep(env, s, es[0]);
      NoJoinErrorRun(env, Step(env, s, es[0]), es[1..]);
    }
  }

  /** No run ever reports one of the documented results for a failure to join. */
  lemma {:induction false} JoinErrorsNeverReported(env: Env, sessionId: u8, timeoutS: u16, es: seq<Event>)
    requires Feasible(env, Initial(sessionId, timeoutS), es)
    ensures NoJoinError(After(env, Initial(sessionId, timeoutS), es).out)
  {
    NoJoinErrorRun(env, Initial(sessionId, timeoutS), es);
  }

  // ---- A failure to join is reported as stopped -------------------------------------------------

  /** While joining, a session is ended by the state machine exactly when joining has failed, and as stopped. */
  lemma {:induction false} FailureReported(s: Node, o: Oracle)
    requires s.p.state == WaitJoining
    ensures s.p.ev.joined && s.p.joinResult != Success <==> PWaitJoining(s, o).out == WithEnd(s.out, Stopped, o.restart)
    ensures !(s.p.ev.joined && s.p.joinResult != Success) <==> PWaitJoining(s, o).out == s.out
  {
    LogLength(s.out, Ended(Stopped));
    LogLength(Then(s.out, Ended(Stopped)), Accepted);
  }

  /** The end callback has been called, and perhaps a new session accepted from inside it. */
  function WithEnd(log: Log, r: Result, restart: bool): Log
  {
    if restart then Then(Then(log, Ended(r)), Accepted) else Then(log, Ended(r))
  }

  function Length(log: Log): nat
  {
    if log.Empty? then 0 else Length(log.past) + 1
  }

  lemma {:induction false} LogLength(log: Log, o: Output)
    ensures Length(Then(log, o)) == Length(log) + 1
  {
  }

  /** A session that has ended without having sent a START packet is reported as stopped. */
  predicate EarlyStopped(log: Log) {
    log.Then? ==>
      EarlyStopped(log.past) && (log.last.Ended? && StartCount(log.past) == 0 ==> log.last.result == Stopped)
  }

  /** What waits for data, or for its ACK to be sent, has sent a START packet. */
  predicate Begun(s: Node) {
    EarlyStopped(s.out) && (s.p.state == WaitData || s.p.state == WaitAckSent ==> StartCount(s.out) > 0)
  }

  lemma {:induction false} QuietStopped(log: Log, o: Output)
    requires !o.Accepted? && !o.StartPacket? && !o.Ended?
    ensures StartCount(Then(log, o)) == StartCount(log) && EarlyStopped(Then(log, o)) == EarlyStopped(log)
  {
  }

  lemma {:induction false} BegunEnd(s: Node, r: Result, restart: bool)
    requires EarlyStopped(s.out) && (StartCount(s.out) > 0 || r == Stopped)
    ensures Begun(EndInTask(s, r, restart)) && Begun(EndSession(s, r, restart))
  {
    var log := Then(s.out, Ended(r));
    assert EarlyStopped(log) && EarlyStopped(Then(log, Accepted));
  }

  lemma {:induction false} BegunStart(env: Env, s: Node, o: Oracle)
    requires Begun(s) && s.p.state == Start
    ensures Begun(PStart(env, s, o))
  {
    var log := Then(s.out, StartPacket(o.sendOk, s.p.sessionId));
    assert StartCount(log) == StartCount(s.out) + 1 && EarlyStopped(log);
    BegunEnd(s.(p := s.p.(retry := Bump(s.p.retry)), out := log), ErrorSendingData, o.restart);
  }

  lemma {:induction false} BegunData(env: Env, s: Node, o: Oracle)
    requires Shape(env, s) && Begun(s) && s.p.state == WaitData
    ensures Begun(PWaitData(env, s, o))
  {
    if s.p.ev.rxdPacket {
      var v := Judge(env, s.p);
      if v.0 == Success {
        var first := Validated(DataPacket(s.p.sessionId, v.2, s.p.length));
        QuietStopped(s.out, first);
        QuietStopped(Then(s.out, first), AckPacket(o.sendOk));
      } else {
        BegunEnd(s.(p := s.p.(retry := Bump(v.1), buffer := v.2)), v.0, o.restart);
      }
    } else {
      BegunEnd(s.(p := s.p.(retry := Bump(s.p.retry))), Timeout, o.restart);
    }
  }

  lemma {:induction false} BegunApply(env: Env, s: Node, o: Oracle)
    requires Shape(env, s) && Begun(s) && s.p.state == WaitAckSent
    ensures Begun(PWaitAckSent(env, s, o))
  {
    var bytes := ApplyBytes(env, s.p.buffer, s.p.length);
    var decoded := Decoded(bytes, DecodeCalls(env.reader, env.st, bytes));
    var log := Then(s.out, decoded);
    QuietStopped(s.out, decoded);
    BegunEnd(s.(out := log), InvalidDataResult, o.restart);
    var ended := Then(log, Ended(Success));
    assert EarlyStopped(ended);
    if Acceptable(env.reader, env.st, bytes) {
      QuietStopped(ended, Applied(Network(env.reader(bytes).entries)));
    }
  }

  lemma {:induction false} BegunProvisioning(env: Env, s: Node, o: Oracle)
    requires Shape(env, s) && Begun(s)
    ensures Begun(ProvMachine(env, s, o))
  {
    match s.p.state
    case Idle =>
    case WaitJoining => BegunEnd(s, Stopped, o.restart);
    case Start => BegunStart(env, s, o);
    case WaitData => BegunData(env, s, o);
    case WaitAckSent => BegunApply(env, s, o);
  }

  lemma {:induction false} BegunJoining(env: Env, s: Node, o: Oracle)
    requires Shape(env, s) && Begun(s)
    ensures Begun(JoinMachine(env, s, o))
  {
    QuietStopped(s.out, Scan(o.scanOk));
  }

  lemma {:induction false} BegunStep(env: Env, s: Node, e: Event)
    requires Shape(env, s) && Begun(s) && Enabled(env, s, e)
    ensures Begun(Step(env, s, e))
  {
    match e
    case Fire(PRun, o) => BegunProvisioning(env, s, o);
    case Fire(JRun, o) => BegunJoining(env, s, o);
    case CallStop(restart) =>
      QuietStopped(s.out, StopCalled);
      BegunEnd(s.(out := Then(s.out, StopCalled)), Stopped, restart);
    case _ =>
  }

  lemma {:induction false} BegunRun(env: Env, s: Node, es: seq<Event>)
    requires Shape(env, s) && Begun(s) && Feasible(env, s, es)
    ensures Begun(After(env, s, es))
    decreases |es|
  {
    if es != [] {
      ShapeStep(env, s, es[0]);
      BegunStep(env, s, es[0]);
      BegunRun(env, Step(env, s, es[0]), es[1..]);
    }
  }

  /**
   In every run a session that ends before it has sent a START packet is reported as stopped, whatever
   has ended it.
   */
  lemma {:induction false} FailuresStopped(env: Env, sessionId: u8, timeoutS: u16, es: seq<Event>)
    requires Feasible(env, Initial(sessionId, timeoutS), es)
    ensures EarlyStopped(After(env, Initial(sessionId, timeoutS), es).out)
  {
    BegunRun(env, Initial(sessionId, timeoutS), es);
  }

  /** The scan is refused by the stack. */
  function ScanRefused(): Event
  {
    Fire(JRun, Oracle(true, false, NoBeacon, false, seq(16, _ => 0), false, false))
  }

  /** Scans that are refused use up the retries one by one. */
  lemma {:induction false} ReachRefusedScans(env: Env, sessionId: u8, timeoutS: u16, n: nat)
    returns (es: seq<Event>, t: Node)
    requires Limited(env) && n <= env.nbRetry
    ensures Leads(env, Initial(sessionId, timeoutS), es, t)
    ensures t.p.state == WaitJoining && t.j.state == JoinStart && t.tasks.jRun.Some? && !t.halted && t.j.retry == n
    ensures ScanCount(t.out) == n && StartCount(t.out) == 0 && EndCount(t.out) == 0
    decreases n
  {
    if n == 0 {
      es, t := ReachScan(env, sessionId, timeoutS);
    } else {
      var es0, s := ReachRefusedScans(env, sessionId, timeoutS, n - 1);
      ShapeRun(env, Initial(sessionId, timeoutS), es0);
      LeadsThen(env, Initial(sessionId, timeoutS), es0, s, ScanRefused());
      es, t := es0 + [ScanRefused()], Step(env, s, ScanRefused());
    }
  }

  /** A run in which all scans are refused: the joining machine has reported why, the user is told something else. */
  lemma {:induction false} FailureStopped(env: Env, sessionId: u8, timeoutS: u16)
    returns (es: seq<Event>, s: Node, t: Node)
    requires Limited(env)
    ensures Leads(env, Initial(sessionId, timeoutS), es, s) && Runnable(env, s) && Enabled(env, s, Runs(PRun, true))
    ensures s.p.ev.joined && s.p.joinResult == ErrorScanningBeacons && ScanCount(s.out) == env.nbRetry as int + 1
    ensures t == Step(env, s, Runs(PRun, true)) && t.out == Then(s.out, Ended(Stopped)) && !Active(t)
  {
    var es0, s0 := ReachRefusedScans(env, sessionId, timeoutS, env.nbRetry);
    ShapeRun(env, Initial(sessionId, timeoutS), es0);
    LeadsThen(env, Initial(sessionId, timeoutS), es0, s0, ScanRefused());
    es, s := es0 + [ScanRefused()], Step(env, s0, ScanRefused());
    ShapeRun(env, Initial(sessionId, timeoutS), es);
    t := Step(env, s, Runs(PRun, true));
  }
}
