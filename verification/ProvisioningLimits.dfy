/**
 Where the promises end: inputs for which they fail, each reached from the initial state.
 */
module ProvisioningLimits {
  import opened Bytes
  import opened ProvisioningData
  import opened ProvisioningState
  import opened ProvisioningRuns
  import opened ProvisioningSessions
  import opened ProvisioningAttempts

  // ---- Runs from the initial state ----------------------------------------------------------------

  /** The state machine, or the joining machine, runs while the stack takes all packets and finds a route at once. */
  function Runs(t: Task, sendOk: bool): Event
  {
    Fire(t, Oracle(sendOk, true, AlreadyJoined, true, seq(16, _ => 0), false, false))
  }

  /** The events lead from `s` to `t`. */
  ghost predicate Leads(env: Env, s: Node, es: seq<Event>, t: Node) {
    Shape(env, s) && Feasible(env, s, es) && After(env, s, es) == t
  }

  lemma {:induction false} LeadsThen(env: Env, s: Node, es: seq<Event>, t: Node, e: Event)
    requires Leads(env, s, es, t) && Enabled(env, t, e)
    ensures Shape(env, t) && Leads(env, s, es + [e], Step(env, t, e))
    decreases |es|
  {
    ShapeRun(env, s, es);
    if es == [] {
      FeasibleCons(env, s, e, []);
      assert es + [e] == [e] + [];
    } else {
      var s1 := Step(env, s, es[0]);
      ShapeStep(env, s, es[0]);
      LeadsThen(env, s1, es[1..], t, e);
      FeasibleCons(env, s, es[0], es[1..] + [e]);
      assert es + [e] == [es[0]] + (es[1..] + [e]);
    }
  }

  /** A session is accepted and the joining machine gets ready to scan. */
  lemma {:induction false} ReachScan(env: Env, sessionId: u8, timeoutS: u16) returns (es: seq<Event>, t: Node)
    ensures Leads(env, Initial(sessionId, timeoutS), es, t)
    ensures t.p.state == WaitJoining && t.j.state == JoinStart && t.tasks.jRun.Some? && !t.halted && t.j.retry == 0
    ensures t.out == Then(Empty, Accepted) && t.p.sessionId == sessionId && t.p.timeoutS == timeoutS && t.p.retry == 0
  {
    var s0 := Initial(sessionId, timeoutS);
    var s1 := Step(env, s0, CallStart);
    var s2 := Step(env, s1, Runs(PRun, true));
    t := Step(env, s2, Runs(JRun, true));
    LeadsThen(env, s0, [], s0, CallStart);
    LeadsThen(env, s0, [] + [CallStart], s1, Runs(PRun, true));
    LeadsThen(env, s0, [] + [CallStart] + [Runs(PRun, true)], s2, Runs(JRun, true));
    es := [] + [CallStart] + [Runs(PRun, true)] + [Runs(JRun, true)];
  }

  /** The scan finds a beacon. */
  lemma {:induction false} ReachBeacon(env: Env, sessionId: u8, timeoutS: u16) returns (es: seq<Event>, t: Node)
    ensures Leads(env, Initial(sessionId, timeoutS), es, t)
    ensures t.p.state == WaitJoining && t.j.state == WaitScanEnd && t.j.ev.scanEnd && t.j.numBeacons == 1
    ensures t.tasks.jRun.Some? && !t.halted && t.out == Then(Then(Empty, Accepted), Scan(true))
    ensures t.p.sessionId == sessionId && t.p.timeoutS == timeoutS && t.p.retry == 0
  {
    var es0, s0 := ReachScan(env, sessionId, timeoutS);
    var s := Initial(sessionId, timeoutS);
    LeadsThen(env, s, es0, s0, Runs(JRun, true));
    var s1 := Step(env, s0, Runs(JRun, true));
    LeadsThen(env, s, es0 + [Runs(JRun, true)], s1, ScanEnd(1));
    t := Step(env, s1, ScanEnd(1));
    es := es0 + [Runs(JRun, true)] + [ScanEnd(1)];
  }

  /** The network is joined, and the first START packet is due. */
  lemma {:induction false} ReachStart(env: Env, sessionId: u8, timeoutS: u16) returns (es: seq<Event>, t: Node)
    ensures Leads(env, Initial(sessionId, timeoutS), es, t)
    ensures t.p.state == Start && t.tasks.pRun.Some? && !t.halted && Open(t.out) && StartCount(t.out) == 0
    ensures t.p.retry == 0 && AcceptCount(t.out) == 1 && EndCount(t.out) == 0
    ensures t.p.sessionId == (sessionId + 1) % 0x100 && t.p.timeoutS == timeoutS
  {
    var es0, s0 := ReachBeacon(env, sessionId, timeoutS);
    var s := Initial(sessionId, timeoutS);
    LeadsThen(env, s, es0, s0, Runs(JRun, true));
    var s1 := Step(env, s0, Runs(JRun, true));
    LeadsThen(env, s, es0 + [Runs(JRun, true)], s1, Runs(JRun, true));
    var s2 := Step(env, s1, Runs(JRun, true));
    LeadsThen(env, s, es0 + [Runs(JRun, true)] + [Runs(JRun, true)], s2, Runs(PRun, true));
    t := Step(env, s2, Runs(PRun, true));
    es := es0 + [Runs(JRun, true)] + [Runs(JRun, true)] + [Runs(PRun, true)];
    assert s0.out == Then(Then(Empty, Accepted), Scan(true)) && t.out == s0.out;
    var one := Then(Empty, Accepted);
    assert StartCount(one) == 0 && Open(one) && AcceptCount(one) == 1 && EndCount(one) == 0;
  }

  /** A START packet has been sent. */
  lemma {:induction false} ReachWaitData(env: Env, sessionId: u8, timeoutS: u16) returns (es: seq<Event>, t: Node)
    ensures Leads(env, Initial(sessionId, timeoutS), es, t)
    ensures t.p.state == WaitData && t.p.filterOn && !t.halted && t.p.sessionId == (sessionId + 1) % 0x100
    ensures t.tasks.pTimeout.Some? && !t.p.ev.rxdPacket && t.p.retry == 0 && t.p.timeoutS == timeoutS
            && AcceptCount(t.out) == 1
  {
    var es0, s0 := ReachStart(env, sessionId, timeoutS);
    LeadsThen(env, Initial(sessionId, timeoutS), es0, s0, Runs(PRun, true));
    t := Step(env, s0, Runs(PRun, true));
    es := es0 + [Runs(PRun, true)];
  }

  // ---- The timeout ----------------------------------------------------------------------------------

  /** Data that has not come once makes the next session start with twice the timeout. */
  lemma {:induction false} LaterTimeout(env: Env, sessionId: u8, timeoutS: u16) returns (es: seq<Event>, t: Node)
    requires env.nbRetry > 0
    ensures Leads(env, Initial(sessionId, timeoutS), es, t)
    ensures t.p.state == Idle && Active(t) && AcceptCount(t.out) == 2 && t.p.timeoutS == timeoutS * 2 % 0x1_0000
  {
    var s := Initial(sessionId, timeoutS);
    var es0, s0 := ReachWaitData(env, sessionId, timeoutS);
    var expired := Fire(PTimeout, Runs(PRun, true).o);
    ShapeRun(env, s, es0);
    LeadsThen(env, s, es0, s0, expired);
    var s1 := Step(env, s0, expired);
    LeadsThen(env, s, es0 + [expired], s1, Runs(PRun, true));
    var s2 := Step(env, s1, Runs(PRun, true));
    assert s2.p.state == Start && s2.out == s0.out;
    LeadsThen(env, s, es0 + [expired] + [Runs(PRun, true)], s2, CallStop(true));
    es, t := es0 + [expired] + [Runs(PRun, true)] + [CallStop(true)], Step(env, s2, CallStop(true));
    var stopped := Then(Then(s0.out, StopCalled), Ended(Stopped));
    assert AcceptCount(stopped) == 1 && t.out == Then(stopped, Accepted);
  }

  // ---- Sessions that are lost ---------------------------------------------------------------------

  /** Two sessions accepted before the state machine runs have one end callback between them. */
  lemma {:induction false} TwoStartsOneEnd(env: Env, sessionId: u8, timeoutS: u16) returns (es: seq<Event>, t: Node)
    ensures Leads(env, Initial(sessionId, timeoutS), es, t)
    ensures !Active(t) && AcceptCount(t.out) == 2 && EndCount(t.out) == 1
  {
    var s0 := Initial(sessionId, timeoutS);
    var s1 := Step(env, s0, CallStart);
    var s2 := Step(env, s1, CallStart);
    t := Step(env, s2, CallStop(false));
    LeadsThen(env, s0, [], s0, CallStart);
    LeadsThen(env, s0, [] + [CallStart], s1, CallStart);
    LeadsThen(env, s0, [] + [CallStart] + [CallStart], s2, CallStop(false));
    es := [] + [CallStart] + [CallStart] + [CallStop(false)];
    var one, two := Then(Empty, Accepted), Then(Then(Empty, Accepted), Accepted);
    assert AcceptCount(one) == 1 && EndCount(one) == 0;
    assert AcceptCount(two) == 2 && EndCount(two) == 0 && Open(two);
    QuietLog(two, StopCalled);
    EndCounts(Then(two, StopCalled), Stopped);
  }

  /** A session accepted from inside the end callback of a session that fails is not started. */
  lemma {:induction false} StartInsideEnd(env: Env, sessionId: u8, timeoutS: u16) returns (es: seq<Event>, t: Node)
    requires env.nbRetry == 0
    ensures Leads(env, Initial(sessionId, timeoutS), es, t)
    ensures !Active(t) && Open(t.out) && AcceptCount(t.out) == EndCount(t.out) + 1
  {
    var es0, s0 := ReachStart(env, sessionId, timeoutS);
    var e := Fire(PRun, Oracle(false, true, NoBeacon, false, s0.p.iv, false, true));
    LeadsThen(env, Initial(sessionId, timeoutS), es0, s0, e);
    es, t := es0 + [e], Step(env, s0, e);
    var log := Then(s0.out, StartPacket(false, s0.p.sessionId));
    QuietLog(s0.out, StartPacket(false, s0.p.sessionId));
    EndCounts(log, ErrorSendingData);
    AcceptCounts(Then(log, Ended(ErrorSendingData)));
  }

  // ---- A refused ACK --------------------------------------------------------------------------------

  /** A refused ACK leaves this state behind: nothing but a stop or a late sent-callback ends the session. */
  predicate Deserted(env: Env, s: Node) {
    && Shape(env, s) && !s.halted && s.p.state == WaitAckSent && s.tasks.pTimeout.None?
    && !s.p.ev.ackSent && !s.p.ev.timeout
  }

  lemma {:induction false} RefusedAckDeserts(env: Env, s: Node, e: Event)
    requires Shape(env, s) && Enabled(env, s, e) && AckRefused(env, s, e)
    ensures Deserted(env, Step(env, s, e))
  {
    ShapeStep(env, s, e);
  }

  /** The unsecured packet with these data, for a session. */
  function PacketOf(sessionId: u8, data: seq<u8>): seq<u8>
  {
    [PACKET_DATA, 0, 0, 0, 0, sessionId, 0, 0, 0] + data
  }

  /** Whenever there is data that is accepted, there is a run in which its ACK is refused. */
  lemma {:induction false} ReachDeserted(env: Env, sessionId: u8, timeoutS: u16, data: seq<u8>)
    returns (es: seq<Event>, t: Node)
    requires env.sort == Unsecured && |data| <= PDU_SIZE - DATA_OFFSET && Acceptable(env.reader, env.st, data)
    ensures Leads(env, Initial(sessionId, timeoutS), es, t) && Deserted(env, t)
  {
    var es0, s0 := ReachWaitData(env, sessionId, timeoutS);
    var s, packet := Initial(sessionId, timeoutS), PacketOf(s0.p.sessionId, data);
    LeadsThen(env, s, es0, s0, Packet(packet));
    var s1 := Step(env, s0, Packet(packet));
    assert s1.p.buffer[..|packet|] == packet;
    assert DryRunBytes(env, s1.p.buffer, s1.p.length) == data;
    LeadsThen(env, s, es0 + [Packet(packet)], s1, Runs(PRun, false));
    t := Step(env, s1, Runs(PRun, false));
    es := es0 + [Packet(packet)] + [Runs(PRun, false)];
    RefusedAckDeserts(env, s1, Runs(PRun, false));
  }

  /** Then, unless the application stops it or a late sent-callback arrives, the session never ends. */
  lemma {:induction false} DesertedForever(env: Env, s: Node, es: seq<Event>)
    requires Deserted(env, s) && Feasible(env, s, es)
    requires forall i | 0 <= i < |es| :: !es[i].AckSent? && !es[i].CallStop?
    ensures Deserted(env, After(env, s, es)) && After(env, s, es).out == s.out
    decreases |es|
  {
    if es != [] {
      DesertedStep(env, s, es[0]);
      DesertedForever(env, Step(env, s, es[0]), es[1..]);
    }
  }

  lemma {:induction false} DesertedStep(env: Env, s: Node, e: Event)
    requires Deserted(env, s) && Enabled(env, s, e) && !e.AckSent? && !e.CallStop?
    ensures Deserted(env, Step(env, s, e)) && Step(env, s, e).out == s.out
  {
    ShapeStep(env, s, e);
  }

  // ---- The retry limit --------------------------------------------------------------------------------

  /** A NACK ends the session without another START exactly when the retry count can exceed its limit. */
  lemma {:induction false} NackEnds(env: Env, s: Node, o: Oracle)
    requires Shape(env, s) && s.p.state == WaitData && s.p.ev.rxdPacket
    requires SessionOf(s.p.buffer) == s.p.sessionId && TypeOf(s.p.buffer) == PACKET_NACK
    ensures PWaitData(env, s, o).p.state == Idle <==> Limited(env)
    ensures Limited(env) && !o.restart ==> PWaitData(env, s, o).out == Then(s.out, Ended(Nack))
  {
  }

  lemma {:induction false} StartRefused(env: Env, s: Node)
    requires env.nbRetry == 255 && Shape(env, s) && !s.halted && s.p.state == Start && s.tasks.pRun.Some?
    ensures Enabled(env, s, Runs(PRun, false))
    ensures var t := Step(env, s, Runs(PRun, false));
            && t.p.state == Start && t.tasks.pRun.Some? && !t.halted
            && t.out == Then(s.out, StartPacket(false, s.p.sessionId))
  {
  }

  /** With 255 retries some run of the first session attempts any number of START packets. */
  lemma {:induction false} UnlimitedRetries(env: Env, sessionId: u8, timeoutS: u16, n: nat)
    returns (es: seq<Event>, t: Node)
    requires env.nbRetry == 255
    ensures Leads(env, Initial(sessionId, timeoutS), es, t) && Open(t.out) && StartCount(t.out) == n
    ensures t.p.state == Start && t.tasks.pRun.Some? && !t.halted
    decreases n
  {
    if n == 0 {
      es, t := ReachStart(env, sessionId, timeoutS);
    } else {
      var es0, s0 := UnlimitedRetries(env, sessionId, timeoutS, n - 1);
      ShapeRun(env, Initial(sessionId, timeoutS), es0);
      StartRefused(env, s0);
      LeadsThen(env, Initial(sessionId, timeoutS), es0, s0, Runs(PRun, false));
      es, t := es0 + [Runs(PRun, false)], Step(env, s0, Runs(PRun, false));
      QuietLog(s0.out, StartPacket(false, s0.p.sessionId));
    }
  }
}
