/**
 How long a session can last: the number of scans and START packets, a measure that every
 session uses up, and the timeout.
 */
module ProvisioningAttempts {
  import opened Wrappers
  import opened Bytes
  import opened ProvisioningData
  import opened ProvisioningState
  import opened ProvisioningRuns
  import opened ProvisioningSessions

  // ---- Bounded attempts -------------------------------------------------------------------------

  /** With this few retries the 8-bit count can exceed the limit. */
  predicate Limited(env: Env) { env.nbRetry <= 254 }

  /** Whatever the state of a session, this many have been attempted at most. */
  predicate Within(env: Env, log: Log) {
    StartCount(log) <= env.nbRetry as int + 1 && ScanCount(log) <= env.nbRetry as int + 1
  }

  predicate StartsCounted(env: Env, s: Node) {
    match s.p.state
    case Idle => s.p.ev.start ==> StartCount(s.out) == 0 && ScanCount(s.out) == 0
    case WaitJoining => StartCount(s.out) == 0 == s.p.retry
    case Start => StartCount(s.out) == s.p.retry && s.p.retry <= env.nbRetry
    case WaitData => StartCount(s.out) == s.p.retry as int + 1 && s.p.retry <= env.nbRetry
    case WaitAckSent => true
  }

  predicate ScansCounted(env: Env, s: Node) {
    match s.j.state
    case JoinIdle => s.j.ev.start ==> ScanCount(s.out) == 0
    case JoinStart => ScanCount(s.out) == s.j.retry && s.j.retry <= env.nbRetry
    case _ => ScanCount(s.out) == s.j.retry as int + 1 && s.j.retry <= env.nbRetry
  }

  /** The retry counts agree with what has been attempted in the session. */
  predicate Counted(env: Env, s: Node) { Within(env, s.out) && StartsCounted(env, s) && ScansCounted(env, s) }

  lemma {:induction false} BumpLimited(env: Env, retry: u8)
    requires Limited(env) && retry <= env.nbRetry
    ensures Bump(retry) == retry + 1
  {
  }

  lemma {:induction false} CountedEnd(env: Env, s: Node, r: Result, restart: bool)
    requires Within(env, s.out)
    ensures Counted(env, EndInTask(s, r, restart)) && Counted(env, EndSession(s, r, restart))
  {
    QuietCounts(s.out, Ended(r));
  }

  lemma {:induction false} CountedIdle(env: Env, s: Node, o: Oracle)
    requires Shape(env, s) && Counted(env, s) && s.p.state == Idle
    ensures Counted(env, PIdle(env, s, o))
  {
  }

  lemma {:induction false} CountedWaitJoining(env: Env, s: Node, o: Oracle)
    requires Shape(env, s) && Counted(env, s) && s.p.state == WaitJoining
    ensures Counted(env, PWaitJoining(s, o))
  {
    CountedEnd(env, s, Stopped, o.restart);
  }

  lemma {:induction false} CountedStart(env: Env, s: Node, o: Oracle)
    requires Limited(env) && Shape(env, s) && Counted(env, s) && s.p.state == Start
    ensures Counted(env, PStart(env, s, o))
  {
    BumpLimited(env, s.p.retry);
    var log := Then(s.out, StartPacket(o.sendOk, s.p.sessionId));
    assert StartCount(log) == StartCount(s.out) + 1 && ScanCount(log) == ScanCount(s.out);
    CountedEnd(env, s.(p := s.p.(retry := Bump(s.p.retry)), out := log), ErrorSendingData, o.restart);
  }

  lemma {:induction false} CountedRefused(env: Env, s: Node, retry: u8, b: Pdu, r: Result, o: Oracle)
    requires Limited(env) && Shape(env, s) && Counted(env, s) && s.p.state == WaitData
    requires retry == s.p.retry || retry == env.nbRetry
    ensures Counted(env, DataRefused(env, s, retry, b, r, o))
  {
    BumpLimited(env, retry);
    CountedEnd(env, s.(p := s.p.(retry := Bump(retry), buffer := b)), r, o.restart);
  }

  lemma {:induction false} CountedAccepted(env: Env, s: Node, b: Pdu, o: Oracle)
    requires Shape(env, s) && Counted(env, s) && s.p.state == WaitData && LeastLength(env) <= s.p.length <= PDU_SIZE
    ensures Counted(env, DataAccepted(env, s, b, o))
  {
    var first := Validated(DataPacket(s.p.sessionId, b, s.p.length));
    QuietCounts(s.out, first);
    QuietCounts(Then(s.out, first), AckPacket(o.sendOk));
  }

  lemma {:induction false} CountedWaitData(env: Env, s: Node, o: Oracle)
    requires Limited(env) && Shape(env, s) && Counted(env, s) && s.p.state == WaitData
    ensures Counted(env, PWaitData(env, s, o))
  {
    if s.p.ev.rxdPacket {
      var v := Judge(env, s.p);
      if v.0 == Success {
        CountedAccepted(env, s, v.2, o);
      } else {
        CountedRefused(env, s, v.1, v.2, v.0, o);
      }
    } else {
      CountedRefused(env, s, s.p.retry, s.p.buffer, Timeout, o);
    }
  }

  lemma {:induction false} CountedApply(env: Env, s: Node, bytes: seq<u8>, o: Oracle)
    requires Counted(env, s) && s.p.state == WaitAckSent && s.j.state == JoinIdle && !s.j.ev.start
    ensures Counted(env, ApplyData(env, s, bytes, o))
  {
    var decoded := Decoded(bytes, DecodeCalls(env.reader, env.st, bytes));
    var log := Then(s.out, decoded);
    QuietCounts(s.out, decoded);
    CountedEnd(env, s.(out := log), InvalidDataResult, o.restart);
    QuietCounts(log, Ended(Success));
    if Acceptable(env.reader, env.st, bytes) {
      QuietCounts(Then(log, Ended(Success)), Applied(Network(env.reader(bytes).entries)));
    }
  }

  lemma {:induction false} CountedWaitAckSent(env: Env, s: Node, o: Oracle)
    requires Shape(env, s) && Counted(env, s) && s.p.state == WaitAckSent
    ensures Counted(env, PWaitAckSent(env, s, o))
  {
    CountedApply(env, s, ApplyBytes(env, s.p.buffer, s.p.length), o);
  }

  lemma {:induction false} CountedProvisioning(env: Env, s: Node, o: Oracle)
    requires Limited(env) && Shape(env, s) && Counted(env, s)
    ensures Counted(env, ProvMachine(env, s, o))
  {
    match s.p.state
    case Idle => CountedIdle(env, s, o);
    case WaitJoining => CountedWaitJoining(env, s, o);
    case Start => CountedStart(env, s, o);
    case WaitData => CountedWaitData(env, s, o);
    case WaitAckSent => CountedWaitAckSent(env, s, o);
  }

  lemma {:induction false} CountedRetry(env: Env, s: Node, ev: JEvents, routeCb: bool, r: Result)
    requires Limited(env) && s.p.state == WaitJoining && StartCount(s.out) == 0 == s.p.retry
    requires ScanCount(s.out) == s.j.retry as int + 1 && s.j.retry <= env.nbRetry
    ensures Counted(env, JRetry(env, s, ev, routeCb, r))
  {
    BumpLimited(env, s.j.retry);
  }

  lemma {:induction false} CountedJoinIdle(env: Env, s: Node)
    requires Shape(env, s) && Counted(env, s) && s.j.state == JoinIdle
    ensures Counted(env, JIdle(s))
  {
  }

  lemma {:induction false} CountedJoinStart(env: Env, s: Node, o: Oracle)
    requires Limited(env) && Shape(env, s) && Counted(env, s) && s.j.state == JoinStart
    ensures Counted(env, JStart(env, s, o))
  {
    BumpLimited(env, s.j.retry);
    var log := Then(s.out, Scan(o.scanOk));
    assert ScanCount(log) == ScanCount(s.out) + 1 && StartCount(log) == StartCount(s.out);
  }

  lemma {:induction false} CountedWaitScanEnd(env: Env, s: Node, o: Oracle)
    requires Limited(env) && Shape(env, s) && Counted(env, s) && s.j.state == WaitScanEnd
    ensures Counted(env, JWaitScanEnd(env, s, o))
  {
    var s1 := s.(tasks := s.tasks.(jTimeout := None));
    CountedRetry(env, s1, NO_JEVENTS, s.j.routeCb, ErrorScanningBeacons);
    CountedRetry(env, s1, NO_JEVENTS, s.j.routeCb, ErrorJoining);
    CountedRetry(env, s, NO_JEVENTS, s.j.routeCb, Timeout);
  }

  lemma {:induction false} CountedWaitRouteChange(env: Env, s: Node, o: Oracle)
    requires Limited(env) && Shape(env, s) && Counted(env, s) && s.j.state == WaitRouteChange
    ensures Counted(env, JWaitRouteChange(env, s, o))
  {
    CountedRetry(env, s, s.j.ev.(routeChange := false), false, ErrorNoRoute);
  }

  lemma {:induction false} CountedJoining(env: Env, s: Node, o: Oracle)
    requires Limited(env) && Shape(env, s) && Counted(env, s)
    ensures Counted(env, JoinMachine(env, s, o))
  {
    match s.j.state
    case JoinIdle => CountedJoinIdle(env, s);
    case JoinStart => CountedJoinStart(env, s, o);
    case WaitScanEnd => CountedWaitScanEnd(env, s, o);
    case WaitRouteChange => CountedWaitRouteChange(env, s, o);
  }

  lemma {:induction false} CountedStep(env: Env, s: Node, e: Event)
    requires Limited(env) && Shape(env, s) && Counted(env, s) && Enabled(env, s, e)
    ensures Counted(env, Step(env, s, e))
  {
    match e
    case Fire(PRun, o) => CountedProvisioning(env, s, o);
    case Fire(JRun, o) => CountedJoining(env, s, o);
    case CallStop(restart) =>
      QuietCounts(s.out, StopCalled);
      CountedEnd(env, s.(out := Then(s.out, StopCalled)), Stopped, restart);
    case _ =>
  }

  lemma {:induction false} CountedRun(env: Env, s: Node, es: seq<Event>)
    requires Limited(env) && Shape(env, s) && Counted(env, s) && Feasible(env, s, es)
    ensures Counted(env, After(env, s, es))
    decreases |es|
  {
    if es != [] {
      ShapeStep(env, s, es[0]);
      CountedStep(env, s, es[0]);
      CountedRun(env, Step(env, s, es[0]), es[1..]);
    }
  }

  /** No session makes more than `nbRetry + 1` scans or sends more than `nbRetry + 1` START packets. */
  lemma {:induction false} AttemptsBounded(env: Env, sessionId: u8, timeoutS: u16, es: seq<Event>)
    requires Limited(env) && Feasible(env, Initial(sessionId, timeoutS), es)
    ensures var s := After(env, Initial(sessionId, timeoutS), es);
            StartCount(s.out) <= env.nbRetry as int + 1 && ScanCount(s.out) <= env.nbRetry as int + 1
  {
    CountedRun(env, Initial(sessionId, timeoutS), es);
  }

  // ---- Every session ends -----------------------------------------------------------------------

  /** How far the joining module is from being done. */
  function JoinRank(env: Env, s: Node): int
  {
    var left := env.nbRetry as int + 1 - s.j.retry;
    match s.j.state
    case JoinIdle => if s.j.ev.start then 3 * (env.nbRetry as int + 1) + 1 else 0
    case JoinStart => 3 * left
    case WaitScanEnd => 3 * left - 1
    case WaitRouteChange => 3 * left - 2
  }

  /** How far the session is from its end. */
  function Rank(env: Env, s: Node): int
  {
    var all, left := env.nbRetry as int + 1, env.nbRetry as int + 1 - s.p.retry;
    match s.p.state
    case Idle => if s.p.ev.start then 5 * all + 4 else 0
    case WaitJoining => 2 * all + 2 + JoinRank(env, s)
    case Start => 2 * left + 1
    case WaitData => 2 * left
    case WaitAckSent => if s.halted then 0 else 1
  }

  function Measure(env: Env, s: Node): int
  {
    2 * Rank(env, s) + if Active(s) && (Driver(s) == PTimeout || Driver(s) == JTimeout) then 1 else 0
  }

  /** From `s` to `t` the measure does not grow, and it drops if the driver has run. */
  predicate Nearer(env: Env, s: Node, t: Node, driver: bool) {
    Measure(env, t) <= Measure(env, s) && (driver ==> Measure(env, t) < Measure(env, s))
  }

  /** Ranks do not depend on what has been counted otherwise. */
  predicate InRange(env: Env, s: Node) {
    && (s.p.state == Start || s.p.state == WaitData ==> s.p.retry <= env.nbRetry)
    && (s.j.state != JoinIdle ==> s.j.retry <= env.nbRetry)
    && (s.p.state == WaitJoining ==> s.p.retry == 0)
  }

  lemma {:induction false} NearerRetry(env: Env, s: Node, ev: JEvents, routeCb: bool, r: Result, from: Node)
    requires Limited(env) && s.p.state == WaitJoining && s.j.retry <= env.nbRetry && !s.halted
    requires Rank(env, from) >= 2 * (env.nbRetry as int + 1) + 2 + 3 * (env.nbRetry as int + 1 - s.j.retry) - 2
    ensures Measure(env, JRetry(env, s, ev, routeCb, r)) < Measure(env, from)
  {
    BumpLimited(env, s.j.retry);
  }

  lemma {:induction false} NearerJoinIdle(env: Env, s: Node)
    requires Limited(env) && Shape(env, s) && InRange(env, s) && s.j.state == JoinIdle && s.p.state == WaitJoining
             && !s.halted
    ensures Nearer(env, s, JIdle(s), Driver(s) == JRun)
  {
  }

  lemma {:induction false} NearerJoinStart(env: Env, s: Node, o: Oracle)
    requires Limited(env) && Shape(env, s) && InRange(env, s) && s.j.state == JoinStart && s.p.state == WaitJoining
             && !s.halted
    ensures Nearer(env, s, JStart(env, s, o), true)
  {
    BumpLimited(env, s.j.retry);
  }

  lemma {:induction false} NearerWaitScanEnd(env: Env, s: Node, o: Oracle)
    requires Limited(env) && Shape(env, s) && InRange(env, s) && s.j.state == WaitScanEnd && s.p.state == WaitJoining
             && !s.halted
    ensures Nearer(env, s, JWaitScanEnd(env, s, o), Driver(s) == JRun)
  {
    var s1 := s.(tasks := s.tasks.(jTimeout := None));
    NearerRetry(env, s1, NO_JEVENTS, s.j.routeCb, ErrorScanningBeacons, s);
    NearerRetry(env, s1, NO_JEVENTS, s.j.routeCb, ErrorJoining, s);
    NearerRetry(env, s, NO_JEVENTS, s.j.routeCb, Timeout, s);
  }

  lemma {:induction false} NearerWaitRouteChange(env: Env, s: Node, o: Oracle)
    requires Limited(env) && Shape(env, s) && InRange(env, s) && s.j.state == WaitRouteChange
             && s.p.state == WaitJoining && !s.halted
    ensures Nearer(env, s, JWaitRouteChange(env, s, o), Driver(s) == JRun)
  {
    NearerRetry(env, s, s.j.ev.(routeChange := false), false, ErrorNoRoute, s);
  }

  lemma {:induction false} NearerJoining(env: Env, s: Node, o: Oracle)
    requires Limited(env) && Shape(env, s) && InRange(env, s) && !s.halted
    ensures Nearer(env, s, JoinMachine(env, s, o), Active(s) && Driver(s) == JRun)
  {
    if s.p.state == WaitJoining {
      match s.j.state
      case JoinIdle => NearerJoinIdle(env, s);
      case JoinStart => NearerJoinStart(env, s, o);
      case WaitScanEnd => NearerWaitScanEnd(env, s, o);
      case WaitRouteChange => NearerWaitRouteChange(env, s, o);
    }
  }

  /** A session that has ended, and been started again in vain or not, is as near as can be. */
  lemma {:induction false} EndedIsNearest(env: Env, s: Node, r: Result, restart: bool)
    ensures Measure(env, EndInTask(s, r, restart)) == 0
  {
  }

  lemma {:induction false} NearerIdle(env: Env, s: Node, o: Oracle)
    requires Limited(env) && Shape(env, s) && Live(s) && s.p.state == Idle && !s.halted
    ensures Nearer(env, s, PIdle(env, s, o), Active(s))
  {
  }

  lemma {:induction false} NearerWaitJoining(env: Env, s: Node, o: Oracle)
    requires Limited(env) && Shape(env, s) && Live(s) && InRange(env, s) && s.p.state == WaitJoining && !s.halted
    ensures Nearer(env, s, PWaitJoining(s, o), Driver(s) == PRun)
  {
    EndedIsNearest(env, s, Stopped, o.restart);
  }

  lemma {:induction false} NearerStart(env: Env, s: Node, o: Oracle)
    requires Limited(env) && Shape(env, s) && InRange(env, s) && s.p.state == Start && !s.halted
    ensures Nearer(env, s, PStart(env, s, o), true)
  {
    BumpLimited(env, s.p.retry);
    var s1 := s.(p := s.p.(retry := Bump(s.p.retry)), out := Then(s.out, StartPacket(o.sendOk, s.p.sessionId)));
    EndedIsNearest(env, s1, ErrorSendingData, o.restart);
  }

  lemma {:induction false} NearerRefused(env: Env, s: Node, retry: u8, b: Pdu, r: Result, o: Oracle)
    requires Limited(env) && InRange(env, s) && s.p.state == WaitData && !s.halted
    requires retry == s.p.retry || retry == env.nbRetry
    ensures Measure(env, DataRefused(env, s, retry, b, r, o)) < Measure(env, s)
  {
    BumpLimited(env, retry);
    EndedIsNearest(env, s.(p := s.p.(retry := Bump(retry), buffer := b)), r, o.restart);
  }

  lemma {:induction false} NearerWaitData(env: Env, s: Node, o: Oracle)
    requires Limited(env) && Shape(env, s) && Live(s) && InRange(env, s) && s.p.state == WaitData && !s.halted
    requires !AckRefused(env, s, Fire(PRun, o))
    ensures Nearer(env, s, PWaitData(env, s, o), Driver(s) == PRun)
  {
    if s.p.ev.rxdPacket {
      var v := Judge(env, s.p);
      if v.0 != Success {
        NearerRefused(env, s, v.1, v.2, v.0, o);
      }
    } else {
      NearerRefused(env, s, s.p.retry, s.p.buffer, Timeout, o);
    }
  }

  lemma {:induction false} NearerWaitAckSent(env: Env, s: Node, o: Oracle)
    requires Shape(env, s) && Live(s) && s.p.state == WaitAckSent && !s.halted
    ensures Nearer(env, s, PWaitAckSent(env, s, o), Driver(s) == PRun)
  {
    var bytes := ApplyBytes(env, s.p.buffer, s.p.length);
    var log := Then(s.out, Decoded(bytes, DecodeCalls(env.reader, env.st, bytes)));
    EndedIsNearest(env, s.(out := log), InvalidDataResult, o.restart);
  }

  lemma {:induction false} NearerProvisioning(env: Env, s: Node, o: Oracle)
    requires Limited(env) && Shape(env, s) && InRange(env, s) && Live(s) && !s.halted
    requires !AckRefused(env, s, Fire(PRun, o))
    ensures Nearer(env, s, ProvMachine(env, s, o), Active(s) && Driver(s) == PRun)
  {
    match s.p.state
    case Idle => NearerIdle(env, s, o);
    case WaitJoining => NearerWaitJoining(env, s, o);
    case Start => NearerStart(env, s, o);
    case WaitData => NearerWaitData(env, s, o);
    case WaitAckSent => NearerWaitAckSent(env, s, o);
  }

  /** Nothing but a start of a session leads away from its end; and whenever its driver runs, it comes closer. */
  lemma {:induction false} MeasureStep(env: Env, s: Node, e: Event)
    requires Limited(env) && Shape(env, s) && Counted(env, s) && Live(s) && Enabled(env, s, e)
    requires !AckRefused(env, s, e) && e != CallStart && e != CallStop(true)
    ensures Measure(env, Step(env, s, e)) <= Measure(env, s)
    ensures Active(s) && e.Fire? && e.t == Driver(s) ==> Measure(env, Step(env, s, e)) < Measure(env, s)
  {
    MeasureBounds(env, s);
    match e
    case Fire(PRun, o) => NearerProvisioning(env, s, o);
    case Fire(JRun, o) => NearerJoining(env, s, o);
    case _ =>
  }

  lemma {:induction false} MeasureBounds(env: Env, s: Node)
    requires Limited(env) && Shape(env, s) && Counted(env, s)
    ensures InRange(env, s) && 0 <= Measure(env, s) <= 10 * env.nbRetry as int + 19
    ensures Active(s) ==> Measure(env, s) > 0
  {
  }

  /** Nothing starts a session in these events. */
  predicate NoStart(es: seq<Event>) { forall i | 0 <= i < |es| :: es[i] != CallStart && es[i] != CallStop(true) }

  /** How often the entry is run on which the active session depends. */
  ghost function DriverRuns(env: Env, s: Node, es: seq<Event>): nat
    requires Feasible(env, s, es)
    decreases |es|
  {
    if es == [] then 0
    else
      var here := if Active(s) && es[0].Fire? && es[0].t == Driver(s) then 1 else 0;
      here + DriverRuns(env, Step(env, s, es[0]), es[1..])
  }

  lemma {:induction false} MeasureRun(env: Env, s: Node, es: seq<Event>)
    requires Limited(env) && Shape(env, s) && Counted(env, s) && Live(s)
    requires Feasible(env, s, es) && AcksAccepted(env, s, es) && NoStart(es)
    ensures DriverRuns(env, s, es) + Measure(env, After(env, s, es)) <= Measure(env, s)
    decreases |es|
  {
    if es != [] {
      var e, s1 := es[0], Step(env, s, es[0]);
      ShapeStep(env, s, e);
      LiveStep(env, s, e);
      CountedStep(env, s, e);
      MeasureStep(env, s, e);
      MeasureRun(env, s1, es[1..]);
    }
  }

  /** A session of any run is over after at most `10 * nbRetry + 19` runs of the entry it depends on. */
  lemma {:induction false} SessionsEnd(env: Env, s: Node, es: seq<Event>)
    requires Limited(env) && Shape(env, s) && Counted(env, s) && Live(s)
    requires Feasible(env, s, es) && AcksAccepted(env, s, es) && NoStart(es)
    ensures DriverRuns(env, s, es) <= 10 * env.nbRetry as int + 19
    ensures DriverRuns(env, s, es) == 10 * env.nbRetry as int + 19 ==> !Active(After(env, s, es))
  {
    MeasureRun(env, s, es);
    MeasureBounds(env, s);
    ShapeRun(env, s, es);
    CountedRun(env, s, es);
    MeasureBounds(env, After(env, s, es));
  }

  // ---- The timeout --------------------------------------------------------------------------------

  /** The step asks for data once more, after data has been refused or has not come. */
  predicate AsksAgain(env: Env, s: Node, e: Event)
    requires Runnable(env, s)
  {
    e.Fire? && e.t == PRun && s.p.state == WaitData && PWaitData(env, s, e.o).p.state == Start
  }

  lemma {:induction false} TimeoutWaitData(env: Env, s: Node, o: Oracle)
    requires Runnable(env, s) && s.p.state == WaitData
    ensures var s' := PWaitData(env, s, o);
            s'.p.timeoutS == if s'.p.state == Start then s.p.timeoutS * 2 % 0x1_0000 else s.p.timeoutS
  {
  }

  lemma {:induction false} TimeoutProvisioning(env: Env, s: Node, o: Oracle)
    requires Runnable(env, s)
    ensures ProvMachine(env, s, o).p.timeoutS
         == if AsksAgain(env, s, Fire(PRun, o)) then s.p.timeoutS * 2 % 0x1_0000 else s.p.timeoutS
  {
    if s.p.state == WaitData { TimeoutWaitData(env, s, o); }
  }

  /** Asking again doubles the timeout, in 16 bits; nothing else changes it, not even the next session. */
  lemma {:induction false} TimeoutStep(env: Env, s: Node, e: Event)
    requires Runnable(env, s)
    ensures Step(env, s, e).p.timeoutS == if AsksAgain(env, s, e) then s.p.timeoutS * 2 % 0x1_0000 else s.p.timeoutS
  {
    if e.Fire? && e.t == PRun { TimeoutProvisioning(env, s, e.o); }
  }

  ghost function TimesAsked(env: Env, s: Node, es: seq<Event>): nat
    requires Feasible(env, s, es)
    decreases |es|
  {
    if es == [] then 0
    else (if AsksAgain(env, s, es[0]) then 1 else 0) + TimesAsked(env, Step(env, s, es[0]), es[1..])
  }

  lemma {:induction false} DoubleOnce(t: u16, n: nat)
    ensures (t * 2 % 0x1_0000) * Pow2(n) % 0x1_0000 == t * Pow2(n + 1) % 0x1_0000
  {
    var q, r, p := t * 2 / 0x1_0000, t * 2 % 0x1_0000, Pow2(n);
    assert t * Pow2(n + 1) == (0x1_0000 * q + r) * p;
    WrapAway(q * p, r * p);
    assert (0x1_0000 * q + r) * p == 0x1_0000 * (q * p) + r * p;
  }

  lemma {:induction false} WrapAway(k: nat, x: nat)
    ensures (0x1_0000 * k + x) % 0x1_0000 == x % 0x1_0000
  {
  }

  /** After any run the timeout is the first one times two to the number of times data was asked for again. */
  lemma {:induction false} TimeoutRun(env: Env, s: Node, es: seq<Event>)
    requires Feasible(env, s, es)
    ensures After(env, s, es).p.timeoutS == s.p.timeoutS * Pow2(TimesAsked(env, s, es)) % 0x1_0000
    decreases |es|
  {
    if es != [] {
      var s1 := Step(env, s, es[0]);
      TimeoutStep(env, s, es[0]);
      TimeoutRun(env, s1, es[1..]);
      if AsksAgain(env, s, es[0]) {
        DoubleOnce(s.p.timeoutS, TimesAsked(env, s1, es[1..]));
      }
    }
  }
}
