/**
 What holds in every run of the control node's transition system: which callbacks are called and
 how often, how many packets a send takes, and to whom they go; and the runs for which it fails.
 */
module ControlNodeRuns {
  import opened Wrappers
  import opened Bytes
  import opened ControlNodeState

  // ---- Runs -----------------------------------------------------------------------------------

  predicate Feasible(s: Node, es: seq<Event>)
    decreases |es|
  {
    es != [] ==> Enabled(s, es[0]) && Feasible(Step(s, es[0]), es[1..])
  }

  function After(s: Node, es: seq<Event>): Node
    decreases |es|
  {
    if es == [] then s else After(Step(s, es[0]), es[1..])
  }

  /** The events lead from `s` to `t`. */
  ghost predicate Leads(s: Node, es: seq<Event>, t: Node) { Feasible(s, es) && After(s, es) == t }

  lemma {:induction false} LeadsThen(s: Node, es: seq<Event>, t: Node, e: Event)
    requires Leads(s, es, t) && Enabled(t, e)
    ensures Leads(s, es + [e], Step(t, e))
    decreases |es|
  {
    if es == [] {
      assert (es + [e])[1..] == [];
    } else {
      LeadsThen(Step(s, es[0]), es[1..], t, e);
      assert (es + [e])[1..] == es[1..] + [e];
    }
  }

  // ---- The callback of an accepted send is called exactly once ----------------------------------

  predicate WasAccepted(log: Log, n: nat) {
    log.Then? && (log.last == Accepted(n) || WasAccepted(log.past, n))
  }

  function CallCount(log: Log, n: nat): nat
  {
    if log.Empty? then 0
    else CallCount(log.past, n) + if log.last.Called? && log.last.n == n then 1 else 0
  }

  /** An accepted callback has been called once, or is still to be called because the library is busy. */
  predicate CallbackOnce(s: Node, n: nat) {
    && (WasAccepted(s.out, n) ==> CallCount(s.out, n) == if s.state == Busy && s.sentCb == Some(n) then 0 else 1)
    && CallCount(s.out, n) <= 1
    && (s.sentCb == Some(n) ==> CallCount(s.out, n) == 0)
    && (n >= s.serial ==> !WasAccepted(s.out, n) && CallCount(s.out, n) == 0 && s.sentCb != Some(n))
  }

  /** While busy the reset task is pending, and only then. */
  predicate Guarded(s: Node) { s.state == Busy <==> s.reset.Some? }

  lemma GuardedStep(s: Node, e: Event)
    requires Guarded(s) && Enabled(s, e)
    ensures Guarded(Step(s, e))
  {
  }

  /** A send from inside the callback of the reset that is accepted with a callback of its own. */
  predicate CallbackForgotten(s: Node, e: Event) {
    e.FireReset? && e.again.Some? && s.sentCb.Some?
    && 0 < |e.again.value.bytes| <= MAX_PAYLOAD && Succeeds(e.again.value) && e.again.value.callback
  }

  lemma HandedOnce(s: Node, log: Log, o: Output, n: nat)
    requires log == Then(s.out, o) && (o.Handed? || o.Began?)
    ensures WasAccepted(log, n) == WasAccepted(s.out, n) && CallCount(log, n) == CallCount(s.out, n)
  {
  }

  lemma SentOnce(s: Node, a: Send, n: nat)
    requires CallbackOnce(s, n)
    ensures CallbackOnce(Sent(s, a), n)
  {
    if Begins(s, a) {
      var log1 := Then(s.out, Began(s.serial, a.bytes));
      var log2 := Then(log1, Handed(a.primary, a.bytes));
      var log3 := Then(log2, Handed(a.backup, a.bytes));
      HandedOnce(s, log1, Began(s.serial, a.bytes), n);
      HandedOnce(s.(out := log1), log2, Handed(a.primary, a.bytes), n);
      HandedOnce(s.(out := log2), log3, Handed(a.backup, a.bytes), n);
    }
  }

  lemma ResetOnce(s: Node, again: Option<Send>, n: nat)
    requires CallbackOnce(s, n) && s.state == Busy
    requires !CallbackForgotten(s, FireReset(again))
    ensures CallbackOnce(ResetFired(s, again), n)
  {
    var s1 := s.(state := Idle, backup := None, reset := None,
                 h0 := s.h0.(end := true, address := NO_ROUTE), h1 := s.h1.(end := true, address := NO_ROUTE));
    var s2 := CallBack(s1, false);
    assert CallbackOnce(s2, n);
    if again.Some? && s.sentCb.Some? {
      SentOnce(s2, again.value, n);
    }
  }

  /** Calling the user settles what is owed to the current send. */
  lemma {:induction false} CallBackOnce(s: Node, success: bool, n: nat)
    requires CallbackOnce(s, n) && s.state == Busy
    ensures CallbackOnce(CallBack(s, success), n) && CallbackOnce(Done(CallBack(s, success)), n)
  {
    if s.sentCb.Some? {
      var log := Then(s.out, Called(s.sentCb.value, success));
      assert WasAccepted(log, n) == WasAccepted(s.out, n);
      assert CallCount(log, n) == CallCount(s.out, n) + if s.sentCb.value == n then 1 else 0;
    }
  }

  lemma {:induction false} BackupOnce(s: Node, sendOk: bool, n: nat)
    requires CallbackOnce(s, n)
    ensures CallbackOnce(BackupFired(s, sendOk), n)
  {
    var log := Then(s.out, Handed(s.h1.address, s.data));
    HandedOnce(s, log, Handed(s.h1.address, s.data), n);
    var s1 := s.(backup := None, h1 := s.h1.(sent := true, end := s.h1.end || !sendOk), out := log);
    assert CallbackOnce(s1, n);
    if s.state == Busy {
      CallBackOnce(s1, false, n);
    }
  }

  lemma {:induction false} RoutedOnce(s: Node, dest: u32, success: bool, sendOk: bool, n: nat)
    requires CallbackOnce(s, n)
    ensures CallbackOnce(Routed(s, dest, success, sendOk), n) && Routed(s, dest, success, sendOk).state == s.state
  {
    HandedOnce(s, Then(s.out, Handed(s.h1.address, s.data)), Handed(s.h1.address, s.data), n);
  }

  lemma {:induction false} SentCalledOnce(s: Node, dest: u32, success: bool, sendOk: bool, n: nat)
    requires CallbackOnce(s, n)
    ensures CallbackOnce(SentCalled(s, dest, success, sendOk), n)
  {
    if s.state == Busy {
      RoutedOnce(s, dest, success, sendOk, n);
      CallBackOnce(Routed(s, dest, success, sendOk), success, n);
    }
  }

  ghost predicate AllOnce(s: Node) { Guarded(s) && forall n: nat :: CallbackOnce(s, n) }

  /** Whatever the order of events, every step keeps the promise, unless a callback is forgotten. */
  lemma AllOnceStep(s: Node, e: Event)
    requires AllOnce(s) && Enabled(s, e)
    ensures AllOnce(Step(s, e)) <==> !CallbackForgotten(s, e)
  {
    GuardedStep(s, e);
    if CallbackForgotten(s, e) {
      Forgotten(s, e.again.value);
    } else {
      forall n: nat
        ensures CallbackOnce(Step(s, e), n)
      {
        assert CallbackOnce(s, n);
        match e
        case CallSend(a) => SentOnce(s, a, n);
        case PacketSent(dest, success, sendOk) => SentCalledOnce(s, dest, success, sendOk, n);
        case FireBackup(sendOk) => BackupOnce(s, sendOk, n);
        case FireReset(again) => ResetOnce(s, again, n);
      }
    }
  }

  /** The callback brought by a send from inside the reset has been accepted, but will not be called. */
  lemma Forgotten(s: Node, a: Send)
    requires AllOnce(s) && CallbackForgotten(s, FireReset(Some(a)))
    ensures !CallbackOnce(ResetFired(s, Some(a)), s.serial)
  {
    assert CallbackOnce(s, s.serial);
    var s1 := s.(state := Idle, backup := None, reset := None,
                 h0 := s.h0.(end := true, address := NO_ROUTE), h1 := s.h1.(end := true, address := NO_ROUTE));
    var s2 := CallBack(s1, false);
    assert CallCount(s2.out, s.serial) == 0;
    SentOnceCount(s2, a, s.serial);
    assert WasAccepted(Sent(s2, a).out, s.serial);
  }

  lemma SentOnceCount(s: Node, a: Send, n: nat)
    ensures CallCount(Sent(s, a).out, n) == CallCount(s.out, n)
  {
    if Begins(s, a) {
      var log1 := Then(s.out, Began(s.serial, a.bytes));
      var log2 := Then(log1, Handed(a.primary, a.bytes));
      var log3 := Then(log2, Handed(a.backup, a.bytes));
      HandedOnce(s, log1, Began(s.serial, a.bytes), n);
      HandedOnce(s.(out := log1), log2, Handed(a.primary, a.bytes), n);
      HandedOnce(s.(out := log2), log3, Handed(a.backup, a.bytes), n);
    }
  }

  /** A run that ends idle although an accepted callback has not been called. */
  lemma {:induction false} ReachForgotten(ttlMs: u32) returns (es: seq<Event>, t: Node)
    ensures Leads(Initial(ttlMs), es, t) && t.state == Idle && WasAccepted(t.out, 1) && CallCount(t.out, 1) == 0
  {
    var s0 := Initial(ttlMs);
    var first, second := Send([1], true, 5, NO_ROUTE, true, true), Send([2], true, 5, NO_ROUTE, true, true);
    var s1 := Step(s0, CallSend(first));
    var s2 := Step(s1, FireReset(Some(second)));
    LeadsThen(s0, [], s0, CallSend(first));
    LeadsThen(s0, [] + [CallSend(first)], s1, FireReset(Some(second)));
    LeadsThen(s0, [] + [CallSend(first)] + [FireReset(Some(second))], s2, FireReset(None));
    es := [] + [CallSend(first)] + [FireReset(Some(second))] + [FireReset(None)];
    t := Step(s2, FireReset(None));
    var log := Then(Then(Then(Empty, Began(0, [1])), Handed(5, [1])), Accepted(0));
    assert CallCount(log, 1) == 0;
    var log2 := Then(Then(Then(log, Called(0, false)), Began(1, [2])), Handed(5, [2]));
    assert CallCount(log2, 1) == 0 && t.out == Then(log2, Accepted(1));
  }

  predicate NoneForgotten(s: Node, es: seq<Event>)
    decreases |es|
  {
    es != [] ==> !CallbackForgotten(s, es[0]) && NoneForgotten(Step(s, es[0]), es[1..])
  }

  /** The promise holds in every state of a run. */
  ghost predicate AlwaysOnce(s: Node, es: seq<Event>)
    decreases |es|
  {
    AllOnce(s) && (es != [] ==> AlwaysOnce(Step(s, es[0]), es[1..]))
  }

  lemma {:induction false} AllOnceRun(s: Node, es: seq<Event>)
    requires AllOnce(s) && Feasible(s, es)
    ensures AlwaysOnce(s, es) <==> NoneForgotten(s, es)
    ensures NoneForgotten(s, es) ==> AllOnce(After(s, es))
    decreases |es|
  {
    if es != [] {
      AllOnceStep(s, es[0]);
      if !CallbackForgotten(s, es[0]) {
        AllOnceRun(Step(s, es[0]), es[1..]);
      }
    }
  }

  /**
   In every run, with sent callbacks in any order: exactly if no callback is forgotten the promise
   holds all along, and then, once the library is idle, each accepted callback has been called once.
   */
  lemma CalledExactlyOnce(ttlMs: u32, es: seq<Event>)
    requires Feasible(Initial(ttlMs), es)
    ensures AlwaysOnce(Initial(ttlMs), es) <==> NoneForgotten(Initial(ttlMs), es)
    ensures var s := After(Initial(ttlMs), es);
            NoneForgotten(Initial(ttlMs), es) ==>
              && (s.state == Busy ==> s.reset.Some?)
              && forall n: nat | s.state == Idle && WasAccepted(s.out, n) :: CallCount(s.out, n) == 1
  {
    AllOnceRun(Initial(ttlMs), es);
    var s := After(Initial(ttlMs), es);
    if NoneForgotten(Initial(ttlMs), es) {
      forall n: nat | s.state == Idle && WasAccepted(s.out, n)
        ensures CallCount(s.out, n) == 1
      {
        assert CallbackOnce(s, n);
      }
    }
  }

  // ---- Only accepted sends are called back ------------------------------------------------------

  /** Every callback that has been called belongs to a send that had returned OK. */
  predicate Rightful(log: Log) {
    log.Then? ==> Rightful(log.past) && (log.last.Called? ==> WasAccepted(log.past, log.last.n))
  }

  /** The callback kept is that of an accepted send while busy, and of a refused one while idle. */
  predicate Owed(s: Node) {
    && (s.sentCb.Some? ==> s.sentCb.value < s.serial && (WasAccepted(s.out, s.sentCb.value) <==> s.state == Busy))
    && Below(s.out, s.serial)
  }

  /** Only sends that have begun have been accepted. */
  predicate Below(log: Log, serial: nat) {
    log.Then? ==> Below(log.past, serial) && (log.last.Accepted? ==> log.last.n < serial)
  }

  lemma {:induction false} BelowNot(log: Log, serial: nat, n: nat)
    requires Below(log, serial) && serial <= n
    ensures !WasAccepted(log, n)
    decreases log
  {
    if log.Then? { BelowNot(log.past, serial, n); }
  }

  lemma {:induction false} BelowMore(log: Log, serial: nat)
    requires Below(log, serial)
    ensures Below(log, serial + 1)
    decreases log
  {
    if log.Then? { BelowMore(log.past, serial); }
  }

  lemma {:induction false} PassingLog(log: Log, o: Output, serial: nat, n: nat)
    requires !o.Accepted?
    ensures Below(Then(log, o), serial) == Below(log, serial) && WasAccepted(Then(log, o), n) == WasAccepted(log, n)
    ensures !o.Called? ==> Rightful(Then(log, o)) == Rightful(log)
  {
  }

  /**
   The backup task finds both routes done although the library is idle: it calls back for a send that
   has been refused.
   */
  predicate Unowed(s: Node, e: Event) {
    e.FireBackup? && s.state == Idle && s.sentCb.Some? && s.h0.end && (s.h1.end || !e.sendOk)
  }

  lemma {:induction false} OwedSend(s: Node, a: Send)
    requires Owed(s) && Guarded(s)
    ensures Owed(Sent(s, a)) && Rightful(Sent(s, a).out) == Rightful(s.out)
  {
    if Begins(s, a) {
      var n, log0 := s.serial, s.out;
      var log1 := Then(log0, Began(n, a.bytes));
      var log2 := Then(log1, Handed(a.primary, a.bytes));
      var log3 := Then(log2, Handed(a.backup, a.bytes));
      BelowNot(log0, n, n);
      BelowMore(log0, n);
      PassingLog(log0, Began(n, a.bytes), n + 1, n);
      PassingLog(log1, Handed(a.primary, a.bytes), n + 1, n);
      PassingLog(log2, Handed(a.backup, a.bytes), n + 1, n);
      assert Rightful(Then(log2, Accepted(n))) == Rightful(log2) && Rightful(Then(log3, Accepted(n))) == Rightful(log3);
    }
  }

  /** Calling back is rightful while busy, and only then. */
  lemma {:induction false} OwedCall(s: Node, success: bool)
    requires Owed(s)
    ensures var c := CallBack(s, success);
            && c.sentCb.None? && Owed(c)
            && (Rightful(c.out) <==> Rightful(s.out) && (s.sentCb.Some? ==> s.state == Busy))
  {
    if s.sentCb.Some? {
      PassingLog(s.out, Called(s.sentCb.value, success), s.serial, s.sentCb.value);
    }
  }

  lemma {:induction false} OwedHanded(s: Node, t: Node, to: u32)
    requires Owed(s) && t.out == Then(s.out, Handed(to, s.data))
    requires t.state == s.state && t.sentCb == s.sentCb && t.serial == s.serial
    ensures Owed(t) && Rightful(t.out) == Rightful(s.out)
  {
    PassingLog(s.out, Handed(to, s.data), s.serial, if s.sentCb.Some? then s.sentCb.value else 0);
  }

  lemma {:induction false} OwedBackup(s: Node, sendOk: bool)
    requires Owed(s) && Rightful(s.out)
    ensures Owed(BackupFired(s, sendOk))
    ensures Rightful(BackupFired(s, sendOk).out) <==> !Unowed(s, FireBackup(sendOk))
  {
    var s1 := s.(backup := None, h1 := s.h1.(sent := true, end := s.h1.end || !sendOk),
                 out := Then(s.out, Handed(s.h1.address, s.data)));
    OwedHanded(s, s1, s.h1.address);
    OwedCall(s1, false);
  }

  lemma {:induction false} OwedPacket(s: Node, dest: u32, success: bool, sendOk: bool)
    requires Owed(s) && Rightful(s.out)
    ensures Owed(SentCalled(s, dest, success, sendOk)) && Rightful(SentCalled(s, dest, success, sendOk).out)
  {
    if s.state == Busy {
      var s1 := Routed(s, dest, success, sendOk);
      PassingLog(s.out, Handed(s.h1.address, s.data), s.serial, if s.sentCb.Some? then s.sentCb.value else 0);
      assert Owed(s1) && Rightful(s1.out);
      OwedCall(s1, success);
    }
  }

  lemma {:induction false} OwedReset(s: Node, again: Option<Send>)
    requires Owed(s) && Rightful(s.out) && s.state == Busy && s.reset.Some?
    ensures Owed(ResetFired(s, again)) && Rightful(ResetFired(s, again).out)
  {
    if s.sentCb.Some? {
      OwedCall(s, false);
      var s1 := s.(state := Idle, backup := None, reset := None,
                   h0 := s.h0.(end := true, address := NO_ROUTE), h1 := s.h1.(end := true, address := NO_ROUTE));
      var s2 := CallBack(s1, false);
      assert s2.out == CallBack(s, false).out && Owed(s2);
      if again.Some? { OwedSend(s2, again.value); }
    }
  }

  /** A step calls back only for an accepted send, except in this one case. */
  lemma {:induction false} RightfulStep(s: Node, e: Event)
    requires Owed(s) && Guarded(s) && Rightful(s.out) && Enabled(s, e)
    ensures Owed(Step(s, e)) && (Rightful(Step(s, e).out) <==> !Unowed(s, e))
  {
    match e
    case CallSend(a) => OwedSend(s, a);
    case PacketSent(dest, success, sendOk) => OwedPacket(s, dest, success, sendOk);
    case FireBackup(sendOk) => OwedBackup(s, sendOk);
    case FireReset(again) => OwedReset(s, again);
  }

  predicate NoneUnowed(s: Node, es: seq<Event>)
    decreases |es|
  {
    es != [] ==> !Unowed(s, es[0]) && NoneUnowed(Step(s, es[0]), es[1..])
  }

  /** What has been called once without right stays in the log. */
  lemma {:induction false} RightfulPast(s: Node, e: Event)
    requires Rightful(Step(s, e).out)
    ensures Rightful(s.out)
  {
    var l0 := Step(s, e).out;
    var l1 := Past(l0);
    var l2 := Past(l1);
    var l3 := Past(l2);
    var l4 := Past(l3);
    assert Rightful(l1) && Rightful(l2) && Rightful(l3) && Rightful(l4) && Rightful(Past(l4));
  }

  function Past(log: Log): Log { if log.Then? then log.past else log }

  lemma {:induction false} RightfulBefore(s: Node, es: seq<Event>)
    requires Rightful(After(s, es).out)
    ensures Rightful(s.out)
    decreases |es|
  {
    if es != [] {
      RightfulBefore(Step(s, es[0]), es[1..]);
      RightfulPast(s, es[0]);
    }
  }

  lemma {:induction false} RightfulRun(s: Node, es: seq<Event>)
    requires Owed(s) && Guarded(s) && Rightful(s.out) && Feasible(s, es)
    ensures Rightful(After(s, es).out) <==> NoneUnowed(s, es)
    decreases |es|
  {
    if es != [] {
      RightfulStep(s, es[0]);
      GuardedStep(s, es[0]);
      if Unowed(s, es[0]) {
        if Rightful(After(s, es).out) { RightfulBefore(Step(s, es[0]), es[1..]); }
      } else {
        RightfulRun(Step(s, es[0]), es[1..]);
      }
    }
  }

  /** In every run all callbacks called belong to accepted sends, exactly if the backup task never does this. */
  lemma {:induction false} OnlyAcceptedCalled(ttlMs: u32, es: seq<Event>)
    requires Feasible(Initial(ttlMs), es)
    ensures Rightful(After(Initial(ttlMs), es).out) <==> NoneUnowed(Initial(ttlMs), es)
  {
    RightfulRun(Initial(ttlMs), es);
  }

  // ---- What the user is told --------------------------------------------------------------------

  /** Calls of the callback of send `n` with this outcome. */
  function ToldCount(log: Log, n: nat, success: bool): nat
  {
    if log.Empty? then 0
    else ToldCount(log.past, n, success) + if log.last == Called(n, success) then 1 else 0
  }

  /** The user learns of a success: a sent callback reports it while the callback of the send is kept. */
  predicate TellsSuccess(s: Node, e: Event, n: nat) {
    e.PacketSent? && e.success && s.state == Busy && s.sentCb == Some(n)
  }

  /**
   The user learns of a failure: the last route that was left has failed, by its sent callback or by the
   stack's refusal, or the time is over.
   */
  predicate TellsFailure(s: Node, e: Event, n: nat) {
    s.sentCb == Some(n) &&
    match e
    case CallSend(_) => false
    case PacketSent(dest, success, sendOk) =>
      && s.state == Busy && !success
      && (if dest == s.h0.address then s.h1.end || (!s.h1.sent && !sendOk)
          else if dest == s.h1.address then s.h0.end else true)
    case FireBackup(sendOk) => s.h0.end && (s.h1.end || !sendOk)
    case FireReset(_) => true
  }

  lemma {:induction false} ToldNothing(log: Log, o: Output, n: nat, success: bool)
    requires !o.Called?
    ensures ToldCount(Then(log, o), n, success) == ToldCount(log, n, success)
  {
  }

  lemma {:induction false} ToldCall(s: Node, told: bool, n: nat, success: bool)
    ensures ToldCount(CallBack(s, told).out, n, success)
         == ToldCount(s.out, n, success) + if s.sentCb == Some(n) && told == success then 1 else 0
  {
  }

  lemma {:induction false} ToldSend(s: Node, a: Send, n: nat, success: bool)
    ensures ToldCount(Sent(s, a).out, n, success) == ToldCount(s.out, n, success)
  {
    if Begins(s, a) {
      var log1 := Then(s.out, Began(s.serial, a.bytes));
      var log2 := Then(log1, Handed(a.primary, a.bytes));
      var log3 := Then(log2, Handed(a.backup, a.bytes));
      ToldNothing(s.out, Began(s.serial, a.bytes), n, success);
      ToldNothing(log1, Handed(a.primary, a.bytes), n, success);
      ToldNothing(log2, Handed(a.backup, a.bytes), n, success);
      ToldNothing(log2, Accepted(s.serial), n, success);
      ToldNothing(log3, Accepted(s.serial), n, success);
    }
  }

  lemma {:induction false} ToldPacket(s: Node, dest: u32, success: bool, sendOk: bool, n: nat, told: bool)
    ensures ToldCount(SentCalled(s, dest, success, sendOk).out, n, told)
         == ToldCount(s.out, n, told)
          + if told && TellsSuccess(s, PacketSent(dest, success, sendOk), n) then 1
            else if !told && TellsFailure(s, PacketSent(dest, success, sendOk), n) then 1 else 0
  {
    ToldNothing(s.out, Handed(s.h1.address, s.data), n, told);
    ToldCall(Routed(s, dest, success, sendOk), success, n, told);
  }

  lemma {:induction false} ToldReset(s: Node, again: Option<Send>, n: nat, told: bool)
    ensures ToldCount(ResetFired(s, again).out, n, told)
         == ToldCount(s.out, n, told) + if !told && s.sentCb == Some(n) then 1 else 0
  {
    var s1 := s.(state := Idle, backup := None, reset := None,
                 h0 := s.h0.(end := true, address := NO_ROUTE), h1 := s.h1.(end := true, address := NO_ROUTE));
    ToldCall(s1, false, n, told);
    if again.Some? { ToldSend(CallBack(s1, false), again.value, n, told); }
  }

  /** In each step the user is told of a success in this case, of a failure in those, and otherwise nothing. */
  lemma {:induction false} ToldStep(s: Node, e: Event, n: nat)
    ensures ToldCount(Step(s, e).out, n, true)
         == ToldCount(s.out, n, true) + if TellsSuccess(s, e, n) then 1 else 0
    ensures ToldCount(Step(s, e).out, n, false)
         == ToldCount(s.out, n, false) + if TellsFailure(s, e, n) then 1 else 0
  {
    forall told: bool
      ensures ToldCount(Step(s, e).out, n, told)
           == ToldCount(s.out, n, told)
            + if told && TellsSuccess(s, e, n) then 1 else if !told && TellsFailure(s, e, n) then 1 else 0
    {
      match e
      case CallSend(a) => ToldSend(s, a, n, told);
      case PacketSent(dest, success, sendOk) => ToldPacket(s, dest, success, sendOk, n, told);
      case FireReset(again) => ToldReset(s, again, n, told);
      case FireBackup(sendOk) =>
        ToldNothing(s.out, Handed(s.h1.address, s.data), n, told);
        ToldCall(s.(backup := None, h1 := s.h1.(sent := true, end := s.h1.end || !sendOk),
                    out := Then(s.out, Handed(s.h1.address, s.data))), false, n, told);
    }
  }

  /** Somewhere in the run a sent callback reports success while the callback of send `n` is kept. */
  predicate SuccessComes(s: Node, es: seq<Event>, n: nat)
    decreases |es|
  {
    es != [] && (TellsSuccess(s, es[0], n) || SuccessComes(Step(s, es[0]), es[1..], n))
  }

  lemma {:induction false} ToldRun(s: Node, es: seq<Event>, n: nat)
    ensures ToldCount(After(s, es).out, n, true) > ToldCount(s.out, n, true) <==> SuccessComes(s, es, n)
    ensures ToldCount(After(s, es).out, n, true) >= ToldCount(s.out, n, true)
    decreases |es|
  {
    if es != [] {
      ToldStep(s, es[0], n);
      ToldRun(Step(s, es[0]), es[1..], n);
    }
  }

  /** In every run the user is told that a send has succeeded exactly if such a sent callback has come. */
  lemma {:induction false} SuccessIsTrue(ttlMs: u32, es: seq<Event>, n: nat)
    ensures ToldCount(After(Initial(ttlMs), es).out, n, true) > 0 <==> SuccessComes(Initial(ttlMs), es, n)
  {
    ToldRun(Initial(ttlMs), es, n);
  }

  // ---- At most two packets for a send -----------------------------------------------------------

  /** Packets handed over since the last send began. */
  function HandCount(log: Log): nat
  {
    if log.Empty? || log.last.Began? then 0
    else HandCount(log.past) + if log.last.Handed? then 1 else 0
  }

  /** The data of the last send that began. */
  function LastData(log: Log): seq<u8>
  {
    if log.Empty? then [] else if log.last.Began? then log.last.bytes else LastData(log.past)
  }

  /** Every packet carries the data of the send it belongs to. */
  predicate Loyal(log: Log) {
    log.Then? ==> Loyal(log.past) && (log.last.Handed? ==> log.last.bytes == LastData(log.past))
  }

  /** A sent callback names one of the current send's addresses. */
  predicate Named(s: Node, e: Event) {
    e.PacketSent? && s.state == Busy ==> e.dest == s.h0.address || e.dest == s.h1.address
  }

  /** The backup task is pending only while it is to be expected, and packets are counted by the handles. */
  predicate Economical(s: Node) {
    && (s.backup.Some? ==> s.state == Busy && !s.h1.sent && !s.h0.end)
    && HandCount(s.out) == (if s.h0.sent then 1 else 0) + (if s.h1.sent then 1 else 0)
    && s.data == LastData(s.out) && Loyal(s.out)
  }

  lemma EconomicalSend(s: Node, a: Send)
    requires Economical(s)
    ensures Economical(Sent(s, a))
  {
    if Begins(s, a) {
      var log1 := Then(s.out, Began(s.serial, a.bytes));
      var log2 := Then(log1, Handed(a.primary, a.bytes));
      var log3 := Then(log2, Handed(a.backup, a.bytes));
      assert HandCount(log2) == 1 && LastData(log2) == a.bytes && Loyal(log1) && Loyal(log2);
      assert HandCount(log3) == 2 && LastData(log3) == a.bytes && Loyal(log3);
    }
  }

  lemma EconomicalCall(s: Node, success: bool)
    ensures var c := CallBack(s, success);
            HandCount(c.out) == HandCount(s.out) && LastData(c.out) == LastData(s.out) && Loyal(c.out) == Loyal(s.out)
  {
  }

  lemma EconomicalReset(s: Node, again: Option<Send>)
    requires Economical(s)
    ensures Economical(ResetFired(s, again))
  {
    var s1 := s.(state := Idle, backup := None, reset := None,
                 h0 := s.h0.(end := true, address := NO_ROUTE), h1 := s.h1.(end := true, address := NO_ROUTE));
    EconomicalCall(s1, false);
    if s.sentCb.Some? && again.Some? {
      EconomicalSend(CallBack(s1, false), again.value);
    }
  }

  lemma {:induction false} HandedCounts(log: Log, to: u32, bytes: seq<u8>)
    ensures var l := Then(log, Handed(to, bytes));
            HandCount(l) == HandCount(log) + 1 && LastData(l) == LastData(log)
            && (Loyal(l) <==> Loyal(log) && bytes == LastData(log))
  {
  }

  /** The routes after a sent callback agree with what has been handed over. */
  lemma {:induction false} EconomicalRouted(s: Node, dest: u32, success: bool, sendOk: bool)
    requires Economical(s) && s.state == Busy
    ensures var t := Routed(s, dest, success, sendOk);
            && HandCount(t.out) == (if t.h0.sent then 1 else 0) + (if t.h1.sent then 1 else 0)
            && t.data == LastData(t.out) && Loyal(t.out) && t.state == Busy
            && (t.backup.Some? ==> !t.h1.sent && s.backup.Some?)
            && (dest == s.h0.address ==> t.backup.None?)
            && (dest != s.h0.address && dest == s.h1.address ==> t.h0 == s.h0)
            && (dest != s.h0.address && dest != s.h1.address ==> t.h0.end && t.h1.end && t.backup == s.backup)
  {
    HandedCounts(s.out, s.h1.address, s.data);
  }

  lemma {:induction false} EconomicalSent(s: Node, dest: u32, success: bool, sendOk: bool)
    requires Economical(s) && Guarded(s)
    ensures Economical(SentCalled(s, dest, success, sendOk))
            <==> Named(s, PacketSent(dest, success, sendOk)) || s.backup.None?
  {
    if s.state == Busy {
      EconomicalRouted(s, dest, success, sendOk);
      EconomicalCall(Routed(s, dest, success, sendOk), success);
    }
  }

  /** A step keeps this, unless a sent callback of another send comes while the backup task is pending. */
  lemma EconomicalStep(s: Node, e: Event)
    requires Economical(s) && Guarded(s) && Enabled(s, e)
    ensures Economical(Step(s, e)) <==> Named(s, e) || s.backup.None?
  {
    match e
    case CallSend(a) => EconomicalSend(s, a);
    case PacketSent(dest, success, sendOk) => EconomicalSent(s, dest, success, sendOk);
    case FireBackup(sendOk) =>
      HandedCounts(s.out, s.h1.address, s.data);
      EconomicalCall(s.(out := Then(s.out, Handed(s.h1.address, s.data))), false);
    case FireReset(again) => EconomicalReset(s, again);
  }

  /** No sent callback for another address comes while the backup task is pending. */
  predicate NoneLate(s: Node, es: seq<Event>)
    decreases |es|
  {
    es != [] ==> (Named(s, es[0]) || s.backup.None?) && NoneLate(Step(s, es[0]), es[1..])
  }

  /** Backup task and packets are as expected in every state of a run. */
  predicate AlwaysEconomical(s: Node, es: seq<Event>)
    decreases |es|
  {
    Economical(s) && (es != [] ==> AlwaysEconomical(Step(s, es[0]), es[1..]))
  }

  lemma {:induction false} EconomicalRun(s: Node, es: seq<Event>)
    requires Economical(s) && Guarded(s) && Feasible(s, es)
    ensures AlwaysEconomical(s, es) <==> NoneLate(s, es)
    ensures NoneLate(s, es) ==> Economical(After(s, es))
    decreases |es|
  {
    if es != [] {
      EconomicalStep(s, es[0]);
      GuardedStep(s, es[0]);
      if Economical(Step(s, es[0])) {
        EconomicalRun(Step(s, es[0]), es[1..]);
      }
    }
  }

  /** No send hands over more than two packets, all of them carrying its data, unless such a callback comes late. */
  lemma AtMostTwoPackets(ttlMs: u32, es: seq<Event>)
    requires Feasible(Initial(ttlMs), es)
    ensures AlwaysEconomical(Initial(ttlMs), es) <==> NoneLate(Initial(ttlMs), es)
    ensures var s := After(Initial(ttlMs), es);
            NoneLate(Initial(ttlMs), es) ==>
              && HandCount(s.out) <= 2 && Loyal(s.out)
              && (s.backup.Some? ==> s.state == Busy && !s.h1.sent && !s.h0.end)
  {
    EconomicalRun(Initial(ttlMs), es);
  }

  /** A packet has been handed over for this address. */
  predicate WasHanded(log: Log, to: u32) {
    log.Then? && ((log.last.Handed? && log.last.to == to) || WasHanded(log.past, to))
  }

  /** Sent callbacks only come for addresses to which a packet has been handed. */
  predicate Answers(s: Node, es: seq<Event>)
    decreases |es|
  {
    es != [] ==> (es[0].PacketSent? ==> WasHanded(s.out, es[0].dest)) && Answers(Step(s, es[0]), es[1..])
  }

  lemma {:induction false} AnswersThen(s: Node, es: seq<Event>, t: Node, e: Event)
    requires Leads(s, es, t) && Answers(s, es) && (e.PacketSent? ==> WasHanded(t.out, e.dest))
    ensures Answers(s, es + [e])
    decreases |es|
  {
    if es == [] {
      assert (es + [e])[1..] == [];
    } else {
      AnswersThen(Step(s, es[0]), es[1..], t, e);
      assert (es + [e])[1..] == es[1..] + [e];
    }
  }

  /** A send for address 9 is given up. */
  lemma {:induction false} ReachGivenUp(ttlMs: u32) returns (es: seq<Event>, t: Node)
    ensures Leads(Initial(ttlMs), es, t) && Answers(Initial(ttlMs), es) && WasHanded(t.out, 9)
    ensures t.state == Idle && t.backup.None? && t.serial == 1 && !WasAccepted(t.out, 2) && CallCount(t.out, 2) == 0
  {
    var s0 := Initial(ttlMs);
    var first := CallSend(Send([1], true, 9, NO_ROUTE, true, true));
    var s1 := Step(s0, first);
    LeadsThen(s0, [], s0, first);
    AnswersThen(s0, [], s0, first);
    LeadsThen(s0, [] + [first], s1, FireReset(None));
    AnswersThen(s0, [] + [first], s1, FireReset(None));
    es, t := [] + [first] + [FireReset(None)], Step(s1, FireReset(None));
    var log := Then(Then(Empty, Began(0, [1])), Handed(9, [1]));
    var done := Then(Then(log, Accepted(0)), Called(0, false));
    assert WasHanded(log, 9) && WasHanded(done.past, 9) && t.out == done;
    assert !WasAccepted(log, 2) && CallCount(log, 2) == 0;
  }

  /** The next send waits for its backup timer. */
  lemma {:induction false} ReachLate(ttlMs: u32) returns (es: seq<Event>, t: Node)
    ensures Leads(Initial(ttlMs), es, t) && Answers(Initial(ttlMs), es) && WasHanded(t.out, 9)
    ensures t.state == Busy && t.backup.Some? && t.h0.address == 5 && t.h1.address == 6
    ensures !t.h0.end && !t.h1.end && !t.h1.sent
    ensures t.serial == 2 && t.sentCb == Some(1) && !WasAccepted(t.out, 2) && CallCount(t.out, 2) == 0
  {
    var s0 := Initial(ttlMs);
    var es0, s := ReachGivenUp(ttlMs);
    var second := CallSend(Send([2], true, 5, 6, true, true));
    LeadsThen(s0, es0, s, second);
    AnswersThen(s0, es0, s, second);
    es, t := es0 + [second], Step(s, second);
    var begun := Then(s.out, Began(1, [2]));
    var handed := Then(begun, Handed(5, [2]));
    assert WasHanded(begun, 9) && !WasAccepted(begun, 2) && CallCount(begun, 2) == 0;
    assert WasHanded(handed, 9) && !WasAccepted(handed, 2) && CallCount(handed, 2) == 0;
    assert t.out == Then(handed, Accepted(1));
  }

  lemma {:induction false} Untouched(log: Log, o: Output, n: nat)
    requires o != Accepted(n) && (o.Called? ==> o.n != n)
    ensures WasAccepted(Then(log, o), n) == WasAccepted(log, n) && CallCount(Then(log, o), n) == CallCount(log, n)
  {
  }

  /** A late callback for address 9 has ended the second send, and its backup task is still pending. */
  lemma {:induction false} ReachLeftOver(ttlMs: u32) returns (es: seq<Event>, t: Node)
    ensures Leads(Initial(ttlMs), es, t) && Answers(Initial(ttlMs), es)
    ensures t.state == Idle && t.backup.Some? && t.serial == 2 && t.sentCb == None
    ensures !WasAccepted(t.out, 2) && CallCount(t.out, 2) == 0
  {
    var es0, s := ReachLate(ttlMs);
    LeadsThen(Initial(ttlMs), es0, s, PacketSent(9, true, true));
    AnswersThen(Initial(ttlMs), es0, s, PacketSent(9, true, true));
    es, t := es0 + [PacketSent(9, true, true)], Step(s, PacketSent(9, true, true));
    Untouched(s.out, Called(1, true), 2);
  }

  /**
   A late callback of an earlier send that leaves the backup task pending can make the next send hand
   over three packets.
   */
  lemma {:induction false} ThreePackets(ttlMs: u32) returns (es: seq<Event>, t: Node)
    ensures Leads(Initial(ttlMs), es, t) && Answers(Initial(ttlMs), es) && HandCount(t.out) == 3
  {
    var s0 := Initial(ttlMs);
    var es0, s2 := ReachLeftOver(ttlMs);
    var third := CallSend(Send([3], true, 5, 6, false, true));
    var s3 := Step(s2, third);
    LeadsThen(s0, es0, s2, third);
    AnswersThen(s0, es0, s2, third);
    var log := Then(Then(s2.out, Began(s2.serial, [3])), Handed(5, [3]));
    assert HandCount(Then(s2.out, Began(s2.serial, [3]))) == 0 && HandCount(log) == 1;
    HandedCounts(log, 6, [3]);
    assert s3.out == Then(Then(log, Handed(6, [3])), Accepted(s2.serial)) && HandCount(s3.out) == 2;
    LeadsThen(s0, es0 + [third], s3, FireBackup(true));
    AnswersThen(s0, es0 + [third], s3, FireBackup(true));
    es, t := es0 + [third] + [FireBackup(true)], Step(s3, FireBackup(true));
    HandedCounts(s3.out, 6, [3]);
  }

  /** It takes a late callback of an earlier send for the backup task to run while idle. */
  lemma {:induction false} UnowedIsLate(s: Node, es: seq<Event>)
    requires Economical(s) && Guarded(s) && Feasible(s, es) && NoneLate(s, es)
    ensures NoneUnowed(s, es)
    decreases |es|
  {
    if es != [] {
      EconomicalStep(s, es[0]);
      GuardedStep(s, es[0]);
      UnowedIsLate(Step(s, es[0]), es[1..]);
    }
  }

  /**
   A late callback of an earlier send is taken for the current one: in this run the user is told that the
   second send has succeeded, although its packet has only been handed over and neither route has reported.
   */
  lemma {:induction false} MistakenSuccess(ttlMs: u32) returns (es: seq<Event>, s: Node, e: Event)
    ensures Leads(Initial(ttlMs), es + [e], Step(s, e)) && Answers(Initial(ttlMs), es + [e])
    ensures TellsSuccess(s, e, 1) && !Named(s, e) && !s.h0.end && !s.h1.end && !s.h1.sent
  {
    es, s := ReachLate(ttlMs);
    e := PacketSent(9, true, true);
    LeadsThen(Initial(ttlMs), es, s, e);
    AnswersThen(Initial(ttlMs), es, s, e);
  }

  /** A run in which the callback is called of a send that has returned an error. */
  lemma {:induction false} RefusedCalled(ttlMs: u32) returns (es: seq<Event>, t: Node)
    ensures Leads(Initial(ttlMs), es, t) && Answers(Initial(ttlMs), es)
    ensures CallCount(t.out, 2) == 1 && !WasAccepted(t.out, 2) && !Rightful(t.out)
  {
    var s0 := Initial(ttlMs);
    var es0, s2 := ReachLeftOver(ttlMs);
    var third := CallSend(Send([3], true, 5, 6, false, false));
    var s3 := Step(s2, third);
    LeadsThen(s0, es0, s2, third);
    AnswersThen(s0, es0, s2, third);
    RefusedSend(s2);
    LeadsThen(s0, es0 + [third], s3, FireBackup(false));
    AnswersThen(s0, es0 + [third], s3, FireBackup(false));
    es, t := es0 + [third] + [FireBackup(false)], Step(s3, FireBackup(false));
    var log := Then(s3.out, Handed(6, [3]));
    Untouched(s3.out, Handed(6, [3]), 2);
    assert t.out == Then(log, Called(2, false));
  }

  /** A send that both routes refuse leaves its callback behind. */
  lemma {:induction false} RefusedSend(s: Node)
    requires s.state == Idle && s.serial == 2 && !WasAccepted(s.out, 2) && CallCount(s.out, 2) == 0
    ensures var t := Step(s, CallSend(Send([3], true, 5, 6, false, false)));
            && t.state == Idle && t.backup == s.backup && t.sentCb == Some(2) && t.h0.end && t.h1.address == 6
            && t.data == [3]
            && !WasAccepted(t.out, 2) && CallCount(t.out, 2) == 0
  {
    var begun := Then(s.out, Began(2, [3]));
    Untouched(s.out, Began(2, [3]), 2);
    Untouched(begun, Handed(5, [3]), 2);
    Untouched(Then(begun, Handed(5, [3])), Handed(6, [3]), 2);
  }

  // ---- To whom packets go -------------------------------------------------------------------------

  /** Packets with these data handed over for an address. */
  function HandedTo(log: Log, to: u32, bytes: seq<u8>): nat
  {
    if log.Empty? then 0
    else HandedTo(log.past, to, bytes) + if log.last == Handed(to, bytes) then 1 else 0
  }

  /** A send hands its data to the primary, and at once to the backup if there is one and the stack refuses. */
  function SendHands(s: Node, a: Send, to: u32, bytes: seq<u8>): nat
  {
    if s.state == Busy || |a.bytes| == 0 || |a.bytes| > 102 || bytes != a.bytes then 0
    else (if to == a.primary then 1 else 0) + if !a.ok0 && a.backup != 0 && to == a.backup then 1 else 0
  }

  /** Later the data kept goes to the backup: when the primary reports a failure first, or its time is over. */
  function StepHands(s: Node, e: Event, to: u32, bytes: seq<u8>): nat
  {
    match e
    case CallSend(a) => SendHands(s, a, to, bytes)
    case PacketSent(dest, success, _) =>
      var first := s.state == Busy && dest == s.h0.address && !success && !s.h1.sent;
      if first && to == s.h1.address && bytes == s.data then 1 else 0
    case FireBackup(_) => if to == s.h1.address && bytes == s.data then 1 else 0
    case FireReset(again) =>
      if again.Some? && s.sentCb.Some? then SendHands(s.(state := Idle), again.value, to, bytes) else 0
  }

  lemma {:induction false} HandsSend(s: Node, a: Send, to: u32, bytes: seq<u8>)
    ensures HandedTo(Sent(s, a).out, to, bytes) == HandedTo(s.out, to, bytes) + SendHands(s, a, to, bytes)
  {
    if Begins(s, a) {
      var log1 := Then(s.out, Began(s.serial, a.bytes));
      var log2 := Then(log1, Handed(a.primary, a.bytes));
      var log3 := Then(log2, Handed(a.backup, a.bytes));
      assert HandedTo(log1, to, bytes) == HandedTo(s.out, to, bytes);
      assert HandedTo(log2, to, bytes) == HandedTo(log1, to, bytes) + if Handed(to, bytes) == log2.last then 1 else 0;
      assert HandedTo(log3, to, bytes) == HandedTo(log2, to, bytes) + if Handed(to, bytes) == log3.last then 1 else 0;
      assert HandedTo(Then(log2, Accepted(s.serial)), to, bytes) == HandedTo(log2, to, bytes);
      assert HandedTo(Then(log3, Accepted(s.serial)), to, bytes) == HandedTo(log3, to, bytes);
    }
  }

  lemma {:induction false} HandsCall(s: Node, success: bool, to: u32, bytes: seq<u8>)
    ensures HandedTo(CallBack(s, success).out, to, bytes) == HandedTo(s.out, to, bytes)
  {
  }

  /** In each step packets go where and when these say, and nowhere else. */
  lemma {:induction false} HandsStep(s: Node, e: Event, to: u32, bytes: seq<u8>)
    ensures HandedTo(Step(s, e).out, to, bytes) == HandedTo(s.out, to, bytes) + StepHands(s, e, to, bytes)
  {
    match e
    case CallSend(a) => HandsSend(s, a, to, bytes);
    case PacketSent(dest, success, sendOk) => HandsCall(Routed(s, dest, success, sendOk), success, to, bytes);
    case FireBackup(sendOk) =>
      HandsCall(s.(backup := None, h1 := s.h1.(sent := true, end := s.h1.end || !sendOk),
                   out := Then(s.out, Handed(s.h1.address, s.data))), false, to, bytes);
    case FireReset(again) =>
      var s1 := s.(state := Idle, backup := None, reset := None,
                   h0 := s.h0.(end := true, address := NO_ROUTE), h1 := s.h1.(end := true, address := NO_ROUTE));
      HandsCall(s1, false, to, bytes);
      if again.Some? { HandsSend(CallBack(s1, false), again.value, to, bytes); }
  }

  // ---- Packets for no address ---------------------------------------------------------------------

  /** Packets handed over for address 0, which stands for no route. */
  function StrayCount(log: Log): nat
  {
    if log.Empty? then 0
    else StrayCount(log.past) + if log.last.Handed? && log.last.to == NO_ROUTE then 1 else 0
  }

  predicate BeginsStray(s: Node, a: Send) { Begins(s, a) && a.primary == NO_ROUTE }

  /** No router at all; or a failed primary, or a backup timer, without a backup route. */
  predicate Strays(s: Node, e: Event) {
    match e
    case CallSend(a) => BeginsStray(s, a)
    case PacketSent(dest, success, _) =>
      s.state == Busy && dest == s.h0.address && !success && !s.h1.sent && s.h1.address == NO_ROUTE
    case FireBackup(_) => s.h1.address == NO_ROUTE
    case FireReset(again) =>
      again.Some? && s.sentCb.Some? && 0 < |again.value.bytes| <= MAX_PAYLOAD && again.value.primary == NO_ROUTE
  }

  lemma {:induction false} StraySend(s: Node, a: Send)
    ensures StrayCount(Sent(s, a).out) == StrayCount(s.out) + if BeginsStray(s, a) then 1 else 0
  {
    if Begins(s, a) {
      var log1 := Then(s.out, Began(s.serial, a.bytes));
      var log2 := Then(log1, Handed(a.primary, a.bytes));
      var log3 := Then(log2, Handed(a.backup, a.bytes));
      assert StrayCount(log1) == StrayCount(s.out);
      assert StrayCount(log2) == StrayCount(log1) + if a.primary == NO_ROUTE then 1 else 0;
      assert a.backup != NO_ROUTE ==> StrayCount(log3) == StrayCount(log2);
      assert StrayCount(Then(log2, Accepted(s.serial))) == StrayCount(log2);
      assert StrayCount(Then(log3, Accepted(s.serial))) == StrayCount(log3);
    }
  }

  lemma {:induction false} StrayCall(s: Node, success: bool)
    ensures StrayCount(CallBack(s, success).out) == StrayCount(s.out)
  {
  }

  lemma {:induction false} StrayReset(s: Node, again: Option<Send>)
    ensures StrayCount(ResetFired(s, again).out) == StrayCount(s.out) + if Strays(s, FireReset(again)) then 1 else 0
  {
    var s1 := s.(state := Idle, backup := None, reset := None,
                 h0 := s.h0.(end := true, address := NO_ROUTE), h1 := s.h1.(end := true, address := NO_ROUTE));
    StrayCall(s1, false);
    if again.Some? {
      StraySend(CallBack(s1, false), again.value);
    }
  }

  /** A packet is handed over for address 0 in exactly these steps. */
  lemma {:induction false} StrayStep(s: Node, e: Event)
    ensures StrayCount(Step(s, e).out) == StrayCount(s.out) + if Strays(s, e) then 1 else 0
  {
    match e
    case CallSend(a) => StraySend(s, a);
    case PacketSent(dest, success, sendOk) => StrayCall(Routed(s, dest, success, sendOk), success);
    case FireBackup(sendOk) =>
      StrayCall(s.(backup := None, h1 := s.h1.(sent := true, end := s.h1.end || !sendOk),
                   out := Then(s.out, Handed(s.h1.address, s.data))), false);
    case FireReset(again) => StrayReset(s, again);
  }
}
