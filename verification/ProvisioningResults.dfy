/**
 What the user is told at the end of a session: which result, in which step, and what follows from
 data that never comes.
 */
module ProvisioningResults {
  import opened Bytes
  import opened ProvisioningData
  import opened ProvisioningState
  import opened ProvisioningRuns
  import opened ProvisioningSessions
  import opened ProvisioningAttempts
  import opened ProvisioningLimits

  /** Calls of the end callback with this result. */
  function ResultCount(log: Log, r: Result): nat
  {
    if log.Empty? then 0 else ResultCount(log.past, r) + if log.last == Ended(r) then 1 else 0
  }

  /** One more retry would be too many; the count is one of 8 bits. */
  predicate LastTry(env: Env, retry: u8) { retry == 255 || retry + 1 > env.nbRetry }

  /** What the wait for data ends with if this was the last try: the verdict on the packet, or a timeout. */
  predicate DataFails(env: Env, s: Node, r: Result)
    requires Readable(env, s.p)
  {
    if !s.p.ev.rxdPacket then s.p.ev.timeout && r == Timeout && s.p.retry < 255 && LastTry(env, s.p.retry)
    else
      var v := Judge(env, s.p);
      r == v.0 && r != Success && if r == Nack then env.nbRetry < 255 else s.p.retry < 255 && LastTry(env, s.p.retry)
  }

  /** The result `r` is reported in this step. */
  predicate Reports(env: Env, s: Node, e: Event, r: Result)
    requires Runnable(env, s)
  {
    match e
    case CallStop(_) => r == Stopped
    case Fire(PRun, o) =>
      (match s.p.state
       case Idle => false
       case WaitJoining => s.p.ev.joined && s.p.joinResult != Success && r == Stopped
       case Start => !o.sendOk && s.p.retry < 255 && LastTry(env, s.p.retry) && r == ErrorSendingData
       case WaitData => DataFails(env, s, r)
       case WaitAckSent =>
         && (s.p.ev.ackSent || s.p.ev.timeout)
         && r == if Acceptable(env.reader, env.st, ApplyBytes(env, s.p.buffer, s.p.length)) then Success
                 else InvalidDataResult)
    case _ => false
  }

  lemma {:induction false} NoResult(log: Log, o: Output, r: Result)
    requires !o.Ended?
    ensures ResultCount(Then(log, o), r) == ResultCount(log, r)
  {
  }

  lemma {:induction false} OneResult(s: Node, result: Result, restart: bool, r: Result)
    ensures ResultCount(EndInTask(s, result, restart).out, r) == ResultCount(s.out, r) + if r == result then 1 else 0
    ensures ResultCount(EndSession(s, result, restart).out, r) == ResultCount(s.out, r) + if r == result then 1 else 0
  {
    NoResult(Then(s.out, Ended(result)), Accepted, r);
  }

  lemma {:induction false} ResultStart(env: Env, s: Node, o: Oracle, r: Result)
    requires Runnable(env, s) && s.p.state == Start
    ensures ResultCount(PStart(env, s, o).out, r) ==
                ResultCount(s.out, r) + if Reports(env, s, Fire(PRun, o), r) then 1 else 0
  {
    var log := Then(s.out, StartPacket(o.sendOk, s.p.sessionId));
    NoResult(s.out, StartPacket(o.sendOk, s.p.sessionId), r);
    OneResult(s.(p := s.p.(retry := Bump(s.p.retry)), out := log), ErrorSendingData, o.restart, r);
  }

  lemma {:induction false} ResultRefused(env: Env, s: Node, retry: u8, b: Pdu, result: Result, o: Oracle, r: Result)
    ensures ResultCount(DataRefused(env, s, retry, b, result, o).out, r)
         == ResultCount(s.out, r) + if r == result && retry < 255 && LastTry(env, retry) then 1 else 0
  {
    OneResult(s.(p := s.p.(retry := Bump(retry), buffer := b)), result, o.restart, r);
  }

  lemma {:induction false} ResultData(env: Env, s: Node, o: Oracle, r: Result)
    requires Runnable(env, s) && s.p.state == WaitData
    ensures ResultCount(PWaitData(env, s, o).out, r) == ResultCount(s.out, r) + if DataFails(env, s, r) then 1 else 0
  {
    if s.p.ev.rxdPacket {
      var v := Judge(env, s.p);
      if v.0 == Success {
        var first := Validated(DataPacket(s.p.sessionId, v.2, s.p.length));
        NoResult(s.out, first, r);
        NoResult(Then(s.out, first), AckPacket(o.sendOk), r);
      } else {
        ResultRefused(env, s, v.1, v.2, v.0, o, r);
        JudgedRetry(env, s.p);
      }
    } else {
      ResultRefused(env, s, s.p.retry, s.p.buffer, Timeout, o, r);
    }
  }

  lemma {:induction false} JudgedRetry(env: Env, p: Prov)
    requires Readable(env, p) && p.ev.rxdPacket
    ensures Judge(env, p).1 == if Judge(env, p).0 == Nack then env.nbRetry else p.retry
  {
  }

  lemma {:induction false} ResultApply(env: Env, s: Node, bytes: seq<u8>, o: Oracle, r: Result)
    ensures var result := if Acceptable(env.reader, env.st, bytes) then Success else InvalidDataResult;
            ResultCount(ApplyData(env, s, bytes, o).out, r) == ResultCount(s.out, r) + if r == result then 1 else 0
  {
    var decoded := Decoded(bytes, DecodeCalls(env.reader, env.st, bytes));
    var log := Then(s.out, decoded);
    NoResult(s.out, decoded, r);
    if Acceptable(env.reader, env.st, bytes) {
      NoResult(Then(log, Ended(Success)), Applied(Network(env.reader(bytes).entries)), r);
    } else {
      OneResult(s.(out := log), InvalidDataResult, o.restart, r);
    }
  }

  lemma {:induction false} ResultProvisioning(env: Env, s: Node, o: Oracle, r: Result)
    requires Shape(env, s) && !s.halted
    ensures ResultCount(ProvMachine(env, s, o).out, r)
         == ResultCount(s.out, r) + if Reports(env, s, Fire(PRun, o), r) then 1 else 0
  {
    match s.p.state
    case Idle =>
    case WaitJoining => OneResult(s, Stopped, o.restart, r);
    case Start => ResultStart(env, s, o, r);
    case WaitData => ResultData(env, s, o, r);
    case WaitAckSent => ResultApply(env, s, ApplyBytes(env, s.p.buffer, s.p.length), o, r);
  }

  /** In each step exactly this result is reported, if any. */
  lemma {:induction false} ResultStep(env: Env, s: Node, e: Event, r: Result)
    requires Shape(env, s) && Enabled(env, s, e)
    ensures ResultCount(Step(env, s, e).out, r) == ResultCount(s.out, r) + if Reports(env, s, e, r) then 1 else 0
  {
    match e
    case Fire(PRun, o) => ResultProvisioning(env, s, o, r);
    case Fire(JRun, o) => NoResult(s.out, Scan(o.scanOk), r);
    case CallStart => NoResult(s.out, Accepted, r);
    case CallStop(restart) =>
      NoResult(s.out, StopCalled, r);
      OneResult(s.(out := Then(s.out, StopCalled)), Stopped, restart, r);
    case _ =>
  }

  // ---- Data that never comes ----------------------------------------------------------------------

  function Expires(): Event { Fire(PTimeout, Runs(PRun, true).o) }

  /** A START packet has been sent, and the timer has run out. */
  lemma {:induction false} WaitedOnce(env: Env, s0: Node, es: seq<Event>, s: Node) returns (es': seq<Event>, t: Node)
    requires Leads(env, s0, es, s) && s.p.state == Start && s.tasks.pRun.Some? && !s.halted
    ensures Leads(env, s0, es', t) && Runnable(env, t) && t.p.state == WaitData && t.tasks.pRun.Some? && !t.halted
    ensures t.p.ev.timeout && !t.p.ev.rxdPacket && t.p.retry == s.p.retry
    ensures t.out == Then(s.out, StartPacket(true, s.p.sessionId))
  {
    ShapeRun(env, s0, es);
    LeadsThen(env, s0, es, s, Runs(PRun, true));
    var s1 := Step(env, s, Runs(PRun, true));
    LeadsThen(env, s0, es + [Runs(PRun, true)], s1, Expires());
    es', t := es + [Runs(PRun, true)] + [Expires()], Step(env, s1, Expires());
    ShapeRun(env, s0, es');
  }

  /** Data has not come `n` times. */
  lemma {:induction false} ReachAsked(env: Env, sessionId: u8, timeoutS: u16, n: nat) returns (es: seq<Event>, t: Node)
    requires Limited(env) && n <= env.nbRetry
    ensures Leads(env, Initial(sessionId, timeoutS), es, t)
    ensures t.p.state == Start && t.tasks.pRun.Some? && !t.halted && t.p.retry == n
    ensures StartCount(t.out) == n && Open(t.out)
    decreases n
  {
    if n == 0 {
      es, t := ReachStart(env, sessionId, timeoutS);
    } else {
      var es0, s := ReachAsked(env, sessionId, timeoutS, n - 1);
      var es1, s1 := WaitedOnce(env, Initial(sessionId, timeoutS), es0, s);
      LeadsThen(env, Initial(sessionId, timeoutS), es1, s1, Runs(PRun, true));
      es, t := es1 + [Runs(PRun, true)], Step(env, s1, Runs(PRun, true));
      QuietLog(s.out, StartPacket(true, s.p.sessionId));
    }
  }

  /** A session whose data never comes asks for it `nb_retry` + 1 times, and is then reported as timed out. */
  lemma {:induction false} DataNeverComes(env: Env, sessionId: u8, timeoutS: u16) returns (es: seq<Event>, t: Node)
    requires Limited(env)
    ensures Leads(env, Initial(sessionId, timeoutS), es, t) && !Active(t)
    ensures t.out.Then? && t.out.last == Ended(Timeout) && StartCount(t.out) == env.nbRetry as int + 1
  {
    var es0, s := ReachAsked(env, sessionId, timeoutS, env.nbRetry);
    var es1, s1 := WaitedOnce(env, Initial(sessionId, timeoutS), es0, s);
    LeadsThen(env, Initial(sessionId, timeoutS), es1, s1, Runs(PRun, true));
    es, t := es1 + [Runs(PRun, true)], Step(env, s1, Runs(PRun, true));
    assert t.out == Then(s1.out, Ended(Timeout));
    QuietCounts(s1.out, Ended(Timeout));
  }
}
