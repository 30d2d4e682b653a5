/**
 When a session is given up: not before its last scan or its last START packet.
 */
module ProvisioningRetries {
  import opened Bytes
  import opened ProvisioningData
  import opened ProvisioningState
  import opened ProvisioningRuns
  import opened ProvisioningSessions
  import opened ProvisioningAttempts

  /** What has been attempted, by the log so far, when a session ends with this result. */
  predicate Spent(env: Env, log: Log, r: Result) {
    match r
    case Stopped => (log.Then? && log.last.StopCalled?) || ScanCount(log) == env.nbRetry as int + 1
    case Success => log.Then? && log.last.Decoded?
    case InvalidDataResult => (log.Then? && log.last.Decoded?) || StartCount(log) == env.nbRetry as int + 1
    case Nack => StartCount(log) > 0
    case _ => StartCount(log) == env.nbRetry as int + 1
  }

  predicate AllSpent(env: Env, log: Log) {
    log.Then? ==> AllSpent(env, log.past) && (log.last.Ended? ==> Spent(env, log.past, log.last.result))
  }

  /** Joining has failed only after the last scan. */
  predicate Spending(env: Env, s: Node) {
    && Counted(env, s) && AllSpent(env, s.out)
    && (s.p.state == WaitJoining && s.p.ev.joined && s.p.joinResult != Success ==>
          ScanCount(s.out) == env.nbRetry as int + 1)
  }

  lemma {:induction false} SpentEnd(env: Env, s: Node, r: Result, restart: bool)
    requires AllSpent(env, s.out) && Spent(env, s.out, r)
    ensures AllSpent(env, EndInTask(s, r, restart).out) && AllSpent(env, EndSession(s, r, restart).out)
  {
    assert AllSpent(env, Then(s.out, Ended(r)));
  }

  lemma {:induction false} SpentStart(env: Env, s: Node, o: Oracle)
    requires Limited(env) && Shape(env, s) && Spending(env, s) && s.p.state == Start
    ensures AllSpent(env, PStart(env, s, o).out)
  {
    BumpLimited(env, s.p.retry);
    var log := Then(s.out, StartPacket(o.sendOk, s.p.sessionId));
    assert StartCount(log) == StartCount(s.out) + 1 && AllSpent(env, log);
    if !o.sendOk && s.p.retry == env.nbRetry {
      SpentEnd(env, s.(p := s.p.(retry := Bump(s.p.retry)), out := log), ErrorSendingData, o.restart);
    }
  }

  lemma {:induction false} SpentRefused(env: Env, s: Node, retry: u8, b: Pdu, r: Result, o: Oracle)
    requires Limited(env) && Spending(env, s) && s.p.state == WaitData && retry <= env.nbRetry
    requires r == Nack || (retry == s.p.retry && r in {Timeout, InvalidPacket, InvalidDataResult})
    ensures AllSpent(env, DataRefused(env, s, retry, b, r, o).out)
  {
    BumpLimited(env, retry);
    if retry == env.nbRetry {
      SpentEnd(env, s.(p := s.p.(retry := Bump(retry), buffer := b)), r, o.restart);
    }
  }

  lemma {:induction false} SpentData(env: Env, s: Node, o: Oracle)
    requires Limited(env) && Shape(env, s) && Spending(env, s) && s.p.state == WaitData
    ensures AllSpent(env, PWaitData(env, s, o).out)
  {
    if s.p.ev.rxdPacket {
      var v := Judge(env, s.p);
      if v.0 == Success {
        assert AllSpent(env, Then(s.out, Validated(DataPacket(s.p.sessionId, v.2, s.p.length))));
      } else {
        SpentRefused(env, s, v.1, v.2, v.0, o);
      }
    } else {
      SpentRefused(env, s, s.p.retry, s.p.buffer, Timeout, o);
    }
  }

  lemma {:induction false} SpentApply(env: Env, s: Node, bytes: seq<u8>, o: Oracle)
    requires AllSpent(env, s.out)
    ensures AllSpent(env, ApplyData(env, s, bytes, o).out)
  {
    var log := Then(s.out, Decoded(bytes, DecodeCalls(env.reader, env.st, bytes)));
    assert AllSpent(env, log);
    assert AllSpent(env, Then(log, Ended(Success)));
    SpentEnd(env, s.(out := log), InvalidDataResult, o.restart);
  }

  lemma {:induction false} SpentProvisioning(env: Env, s: Node, o: Oracle)
    requires Limited(env) && Shape(env, s) && Spending(env, s)
    ensures AllSpent(env, ProvMachine(env, s, o).out)
  {
    match s.p.state
    case Idle =>
    case WaitJoining =>
      if s.p.ev.joined && s.p.joinResult != Success {
        SpentEnd(env, s, Stopped, o.restart);
      }
    case Start => SpentStart(env, s, o);
    case WaitData => SpentData(env, s, o);
    case WaitAckSent => SpentApply(env, s, ApplyBytes(env, s.p.buffer, s.p.length), o);
  }

  /** Joining fails in a step only where the scans counted are all that are allowed. */
  lemma {:induction false} SpentJoining(env: Env, s: Node, o: Oracle)
    requires Limited(env) && Shape(env, s) && Spending(env, s)
    ensures Spending(env, JoinMachine(env, s, o))
  {
    CountedJoining(env, s, o);
    if s.j.state == JoinStart {
      BumpLimited(env, s.j.retry);
      assert ScanCount(Then(s.out, Scan(o.scanOk))) == ScanCount(s.out) + 1;
    }
  }

  lemma {:induction false} SpendingStep(env: Env, s: Node, e: Event)
    requires Limited(env) && Shape(env, s) && Spending(env, s) && Enabled(env, s, e)
    ensures Spending(env, Step(env, s, e))
  {
    CountedStep(env, s, e);
    match e
    case Fire(PRun, o) => SpentProvisioning(env, s, o);
    case Fire(JRun, o) => SpentJoining(env, s, o);
    case CallStop(restart) => SpentEnd(env, s.(out := Then(s.out, StopCalled)), Stopped, restart);
    case _ =>
  }

  lemma {:induction false} SpendingRun(env: Env, s: Node, es: seq<Event>)
    requires Limited(env) && Shape(env, s) && Spending(env, s) && Feasible(env, s, es)
    ensures Spending(env, After(env, s, es))
    decreases |es|
  {
    if es != [] {
      ShapeStep(env, s, es[0]);
      SpendingStep(env, s, es[0]);
      SpendingRun(env, Step(env, s, es[0]), es[1..]);
    }
  }

  /**
   In every run, a session that nobody stops and that is given up has used up its attempts: all
   `nb_retry` + 1 scans if it has not joined, else all `nb_retry` + 1 START packets, unless the
   server has refused it or its data has been rejected at last.
   */
  lemma {:induction false} GivenUpAtLast(env: Env, sessionId: u8, timeoutS: u16, es: seq<Event>)
    requires Limited(env) && Feasible(env, Initial(sessionId, timeoutS), es)
    ensures AllSpent(env, After(env, Initial(sessionId, timeoutS), es).out)
  {
    SpendingRun(env, Initial(sessionId, timeoutS), es);
  }

  // ---- Attempts to join ---------------------------------------------------------------------------

  /** This attempt to join comes to nothing in this run of the joining machine. */
  predicate AttemptFails(s: Node, o: Oracle) {
    match s.j.state
    case JoinIdle => false
    case JoinStart => !o.scanOk
    case WaitScanEnd =>
      if s.j.ev.scanEnd then s.j.numBeacons == 0 || o.beacon in {NoBeacon, JoiningRefused} else s.j.ev.timeout
    case WaitRouteChange => !o.routeValid && s.j.ev.timeout
  }

  /**
   A session goes on from joining only over a valid route; it is lost exactly by an attempt that
   fails and is the last one; any other attempt that fails is followed by a scan; and a beacon that
   is taken is followed by the wait for a route, which something is going to end.
   */
  lemma JoiningDecided(env: Env, s: Node, o: Oracle)
    requires Shape(env, s) && s.j.state != JoinIdle
    ensures
      var t := JoinMachine(env, s, o);
      var last := s.j.retry < 255 && s.j.retry >= env.nbRetry;
      && (t.p.ev.joined && t.p.joinResult == Success <==> s.j.state == WaitRouteChange && o.routeValid)
      && (t.p.ev.joined && t.p.joinResult != Success <==> AttemptFails(s, o) && last)
      && (t.p.ev.joined ==> t.j.state == JoinIdle && t.tasks.pRun.Some? && t.tasks.jTimeout.None?)
      && (AttemptFails(s, o) && !last ==>
            t.j.state == JoinStart && t.tasks.jRun.Some? && t.j.retry == if s.j.retry == 255 then 0 else s.j.retry + 1)
      && (s.j.state == JoinStart && o.scanOk ==> t.j.state == WaitScanEnd && t.tasks.jTimeout.Some?)
      && (s.j.state == WaitScanEnd && s.j.ev.scanEnd && !AttemptFails(s, o) ==>
            && t.j.state == WaitRouteChange && t.tasks.jTimeout.Some?
            && (if o.beacon == AlreadyJoined then t.tasks.jRun.Some? else t.halted || Enabled(env, t, RouteChange)))
  {
  }
}
