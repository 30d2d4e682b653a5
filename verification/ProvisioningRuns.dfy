/**
 Runs of the coupled provisioning and joining state machines: an invariant of all reachable
 states, and why they are never stuck.
 */
module ProvisioningRuns {
  import opened Wrappers
  import opened Bytes
  import opened ProvisioningState

  // ---- Runs -------------------------------------------------------------------------------------

  /** The events can happen one after the other. */
  ghost predicate Feasible(env: Env, s: Node, es: seq<Event>)
    decreases |es|
  {
    es != [] ==> Runnable(env, s) && Enabled(env, s, es[0]) && Feasible(env, Step(env, s, es[0]), es[1..])
  }

  ghost function After(env: Env, s: Node, es: seq<Event>): Node
    requires Feasible(env, s, es)
    decreases |es|
  {
    if es == [] then s else After(env, Step(env, s, es[0]), es[1..])
  }

  lemma FeasibleCons(env: Env, s: Node, e: Event, rest: seq<Event>)
    requires Runnable(env, s) && Enabled(env, s, e) && Feasible(env, Step(env, s, e), rest)
    ensures Feasible(env, s, [e] + rest) && After(env, s, [e] + rest) == After(env, Step(env, s, e), rest)
  {
    assert ([e] + rest)[1..] == rest;
  }

  // ---- The shape of reachable states ------------------------------------------------------------

  /** Events, timers and the filter belong to the states that wait for them. */
  predicate Shape(env: Env, s: Node) {
    && (s.p.filterOn <==> s.p.state == WaitData)
    && (s.p.ev.rxdPacket ==> s.p.state == WaitData)
    && (s.tasks.pTimeout.Some? || s.p.ev.timeout ==> s.p.state == WaitData || s.p.state == WaitAckSent)
    && (s.j.state != JoinIdle || s.j.ev.start ==> s.p.state == WaitJoining && !s.p.ev.joined)
    && Runnable(env, s)
  }

  lemma ShapeIdle(env: Env, s: Node, o: Oracle)
    requires Shape(env, s) && s.p.state == Idle
    ensures Shape(env, PIdle(env, s, o))
  {
  }

  lemma ShapeWaitJoining(env: Env, s: Node, o: Oracle)
    requires Shape(env, s) && s.p.state == WaitJoining
    ensures Shape(env, PWaitJoining(s, o))
  {
  }

  lemma ShapeStart(env: Env, s: Node, o: Oracle)
    requires Shape(env, s) && s.p.state == Start
    ensures Shape(env, PStart(env, s, o))
  {
  }

  lemma ShapeWaitData(env: Env, s: Node, o: Oracle)
    requires Shape(env, s) && s.p.state == WaitData
    ensures Shape(env, PWaitData(env, s, o))
  {
  }

  lemma ShapeWaitAckSent(env: Env, s: Node, o: Oracle)
    requires Shape(env, s) && s.p.state == WaitAckSent
    ensures Shape(env, PWaitAckSent(env, s, o))
  {
  }

  lemma ShapeJoinIdle(env: Env, s: Node)
    requires Shape(env, s) && s.j.state == JoinIdle
    ensures Shape(env, JIdle(s))
  {
  }

  lemma ShapeRetry(env: Env, s: Node, ev: JEvents, routeCb: bool, r: Result)
    requires Shape(env, s) && s.p.state == WaitJoining && !s.p.ev.joined
    ensures Shape(env, JRetry(env, s, ev, routeCb, r))
  {
  }

  lemma ShapeJoinStart(env: Env, s: Node, o: Oracle)
    requires Shape(env, s) && s.j.state == JoinStart
    ensures Shape(env, JStart(env, s, o))
  {
  }

  lemma ShapeWaitScanEnd(env: Env, s: Node, o: Oracle)
    requires Shape(env, s) && s.j.state == WaitScanEnd
    ensures Shape(env, JWaitScanEnd(env, s, o))
  {
    var s1 := s.(tasks := s.tasks.(jTimeout := None));
    ShapeRetry(env, s1, NO_JEVENTS, s.j.routeCb, ErrorScanningBeacons);
    ShapeRetry(env, s1, NO_JEVENTS, s.j.routeCb, ErrorJoining);
    ShapeRetry(env, s, NO_JEVENTS, s.j.routeCb, Timeout);
  }

  lemma ShapeWaitRouteChange(env: Env, s: Node, o: Oracle)
    requires Shape(env, s) && s.j.state == WaitRouteChange
    ensures Shape(env, JWaitRouteChange(env, s, o))
  {
    ShapeRetry(env, s, s.j.ev.(routeChange := false), false, ErrorNoRoute);
  }

  lemma ShapeStep(env: Env, s: Node, e: Event)
    requires Shape(env, s) && Enabled(env, s, e)
    ensures Shape(env, Step(env, s, e))
  {
    match e
    case Fire(PRun, o) =>
      match s.p.state {
        case Idle => ShapeIdle(env, s, o);
        case WaitJoining => ShapeWaitJoining(env, s, o);
        case Start => ShapeStart(env, s, o);
        case WaitData => ShapeWaitData(env, s, o);
        case WaitAckSent => ShapeWaitAckSent(env, s, o);
      }
    case Fire(JRun, o) =>
      match s.j.state {
        case JoinIdle => ShapeJoinIdle(env, s);
        case JoinStart => ShapeJoinStart(env, s, o);
        case WaitScanEnd => ShapeWaitScanEnd(env, s, o);
        case WaitRouteChange => ShapeWaitRouteChange(env, s, o);
      }
    case _ =>
  }

  // ---- Never stuck ------------------------------------------------------------------------------

  /** Every state but idle has a wake-up task or an event with its run pending. */
  predicate Live(s: Node) {
    && (match s.p.state
        case Idle => s.p.ev.start ==> s.tasks.pRun.Some?
        case WaitJoining => s.j.state != JoinIdle || s.j.ev.start || (s.p.ev.joined && s.tasks.pRun.Some?)
        case Start => s.tasks.pRun.Some?
        case WaitData => s.tasks.pTimeout.Some? || ((s.p.ev.rxdPacket || s.p.ev.timeout) && s.tasks.pRun.Some?)
        case WaitAckSent => s.halted || AckWakeUp(s))
    && (match s.j.state
        case JoinIdle => s.j.ev.start ==> s.tasks.jRun.Some?
        case JoinStart => s.tasks.jRun.Some?
        case WaitScanEnd => s.tasks.jTimeout.Some? || ((s.j.ev.scanEnd || s.j.ev.timeout) && s.tasks.jRun.Some?)
        case WaitRouteChange => s.tasks.jTimeout.Some? || (s.j.ev.timeout && s.tasks.jRun.Some?))
  }

  predicate AckWakeUp(s: Node) {
    s.tasks.pTimeout.Some? || ((s.p.ev.ackSent || s.p.ev.timeout) && s.tasks.pRun.Some?)
  }

  /** The step sends an ACK and the stack refuses it. */
  predicate AckRefused(env: Env, s: Node, e: Event)
    requires Runnable(env, s)
  {
    e.Fire? && e.t == PRun && !e.o.sendOk
    && s.p.state == WaitData && s.p.ev.rxdPacket && Judge(env, s.p).0 == Success
  }

  lemma LiveProvisioning(env: Env, s: Node, o: Oracle)
    requires Shape(env, s) && Live(s) && !s.halted
    ensures Live(ProvMachine(env, s, o)) <==> !AckRefused(env, s, Fire(PRun, o))
  {
  }

  lemma LiveJoining(env: Env, s: Node, o: Oracle)
    requires Shape(env, s) && Live(s) && !s.halted
    ensures Live(JoinMachine(env, s, o))
  {
  }

  /** A step keeps the machines alive, unless the ACK is refused: then, and only then, they are stuck. */
  lemma LiveStep(env: Env, s: Node, e: Event)
    requires Shape(env, s) && Live(s) && Enabled(env, s, e)
    ensures Live(Step(env, s, e)) <==> !AckRefused(env, s, e)
  {
    match e
    case Fire(PRun, o) => LiveProvisioning(env, s, o);
    case Fire(JRun, o) => LiveJoining(env, s, o);
    case _ =>
  }

  /** A session is under way, or will be as soon as the state machine runs. */
  predicate Active(s: Node) { !s.halted && (s.p.state != Idle || s.p.ev.start) }

  /** The task on which an active session depends: a state machine that has something to do, or a timeout. */
  function Driver(s: Node): Task
  {
    match s.p.state
    case WaitJoining =>
      (match s.j.state
       case JoinIdle => if s.j.ev.start then JRun else PRun
       case JoinStart => JRun
       case WaitScanEnd => if (s.j.ev.scanEnd || s.j.ev.timeout) && s.tasks.jRun.Some? then JRun else JTimeout
       case WaitRouteChange => if s.j.ev.timeout && s.tasks.jRun.Some? then JRun else JTimeout)
    case WaitData => if (s.p.ev.rxdPacket || s.p.ev.timeout) && s.tasks.pRun.Some? then PRun else PTimeout
    case WaitAckSent => if (s.p.ev.ackSent || s.p.ev.timeout) && s.tasks.pRun.Some? then PRun else PTimeout
    case _ => PRun
  }

  /** The driver of an active session is pending, so that it will run. */
  lemma DriverPending(env: Env, s: Node)
    requires Shape(env, s) && Live(s) && Active(s)
    ensures s.tasks.Of(Driver(s)).Some?
  {
  }

  /** In no step of the run an ACK is refused. */
  ghost predicate AcksAccepted(env: Env, s: Node, es: seq<Event>)
    requires Feasible(env, s, es)
    decreases |es|
  {
    es != [] ==> !AckRefused(env, s, es[0]) && AcksAccepted(env, Step(env, s, es[0]), es[1..])
  }

  lemma {:induction false} ShapeRun(env: Env, s: Node, es: seq<Event>)
    requires Shape(env, s) && Feasible(env, s, es)
    ensures Shape(env, After(env, s, es))
    decreases |es|
  {
    if es != [] {
      ShapeStep(env, s, es[0]);
      ShapeRun(env, Step(env, s, es[0]), es[1..]);
    }
  }

  /** The machines are alive in every state of a run. */
  ghost predicate AlwaysLive(env: Env, s: Node, es: seq<Event>)
    requires Feasible(env, s, es)
    decreases |es|
  {
    Live(s) && (es != [] ==> AlwaysLive(env, Step(env, s, es[0]), es[1..]))
  }

  lemma {:induction false} LiveRun(env: Env, s: Node, es: seq<Event>)
    requires Shape(env, s) && Live(s) && Feasible(env, s, es)
    ensures AlwaysLive(env, s, es) <==> AcksAccepted(env, s, es)
    ensures AcksAccepted(env, s, es) ==> Live(After(env, s, es))
    decreases |es|
  {
    if es != [] {
      ShapeStep(env, s, es[0]);
      LiveStep(env, s, es[0]);
      if !AckRefused(env, s, es[0]) {
        LiveRun(env, Step(env, s, es[0]), es[1..]);
      }
    }
  }

  /**
   The machines are alive all through a run exactly if no ACK is refused in it; and then they are
   never stuck: the entry an active session depends on is pending.
   */
  lemma {:induction false} NeverStuck(env: Env, sessionId: u8, timeoutS: u16, es: seq<Event>)
    requires Feasible(env, Initial(sessionId, timeoutS), es)
    ensures AlwaysLive(env, Initial(sessionId, timeoutS), es) <==> AcksAccepted(env, Initial(sessionId, timeoutS), es)
    ensures var s := After(env, Initial(sessionId, timeoutS), es);
            AcksAccepted(env, Initial(sessionId, timeoutS), es) ==>
              Live(s) && (Active(s) ==> s.tasks.Of(Driver(s)).Some?)
  {
    var s0 := Initial(sessionId, timeoutS);
    LiveRun(env, s0, es);
    ShapeRun(env, s0, es);
    if AcksAccepted(env, s0, es) && Active(After(env, s0, es)) {
      DriverPending(env, After(env, s0, es));
    }
  }
}
