/** Safety of the hand-over: over every run, who may hold the port and when. */
module HandoverSafety {
  import opened Common
  import opened ServerState
  import opened IdleMonitor
  import opened PortControl
  import opened Handover

  /** The proxy sits on the port of a server that is booting: its machine is STARTING. */
  predicate HoldsBootingPort(w: World) {
    w.port.m.state == Starting && w.port.listener.Some?
  }

  /** How listener, lockout, rebind flag, bind loop and OS sockets fit together. */
  ghost predicate Wired(w: World) {
    && (w.port.lockout ==> w.port.listener.None?)
    && (w.port.rebinding <==> w.loop.Some?)
    && (w.loop.Some? ==> w.port.listener.None? && 1 <= w.loop.value.attempt < BIND_ATTEMPTS)
    && w.port.sockets == (if w.port.listener.Some? then {w.port.listener.value} else {})
    && (!w.trace.adopted && w.port.m.state == Starting ==> w.port.lockout)
  }

  predicate ProxyInactive(w: World) {
    w.port.listener.None? && w.loop.None? && w.spawned == 0
  }

  /** A booting server is protected by the lockout, or by there being nothing left that could bind. */
  predicate StartGuarded(w: World) {
    w.port.m.state == Starting ==> w.port.lockout || ProxyInactive(w)
  }

  /** The step reconciles a snapshot that says STARTING with a running server. */
  predicate AdoptsBoot(w: World, e: Event) {
    e.Polled? && w.pending.Some? && Adopts(w.pending.value, e.r.running && !e.r.crashed) &&
    StateNamed(w.pending.value.state) == Some(Starting)
  }

  predicate CleanStep(w: World, e: Event) {
    AdoptsBoot(w, e) ==> w.port.lockout || ProxyInactive(w)
  }

  predicate CleanRun(cfg: Config, w: World, run: seq<Stamped>)
    requires Admissible(cfg, w, run)
    decreases |run|
  {
    run == [] ||
    (CleanStep(w, run[0].event) && CleanRun(cfg, Step(cfg, w, run[0].event, run[0].time), run[1..]))
  }

  lemma StepKeepsWired(cfg: Config, w: World, e: Event, t: real)
    requires Wired(w) && Enabled(w, e, t)
    ensures Wired(Step(cfg, w, e, t))
  {
    if e.Polled? {
      PollLeavesThePort(cfg, w, e.r, t);
    } else {
      MoveStepKeepsWired(cfg, w, e, t);
    }
  }

  /** A poll touches the machine only, and without a snapshot it never makes it STARTING. */
  lemma PollLeavesThePort(cfg: Config, w: World, r: Reading, t: real)
    requires Enabled(w, Polled(r), t)
    ensures var w' := Step(cfg, w, Polled(r), t);
            && w'.port == w.port.(m := w'.port.m) && w'.loop == w.loop && w'.spawned == w.spawned
            && w'.pending.None? && (w.trace.adopted ==> w'.trace.adopted)
            && (w'.port.m.state == Starting ==> w.port.m.state == Starting || AdoptsBoot(w, Polled(r)))
            && (AdoptsBoot(w, Polled(r)) ==> w'.trace.adopted)
  {
  }

  /** The events that may bind, or close, a listener. */
  predicate TouchesListener(e: Event) {
    e.Ensured? || e.SpawnedRuns? || e.LoopWakes? || e.ShutsDown?
  }

  lemma MoveStepKeepsWired(cfg: Config, w: World, e: Event, t: real)
    requires Wired(w) && Enabled(w, e, t) && !e.Polled?
    ensures Wired(Step(cfg, w, e, t))
  {
    hide *;
    if e.Ensured? {
      PassKeepsWired(cfg, w, e.bind, t);
    } else if TouchesListener(e) {
      LoopKeepsWired(cfg, w, e, t);
    } else if e.LoginArrives? || e.StartEvent? {
      ReleaseKeepsWired(cfg, w, e, t);
    } else if e.StartCallFails? {
      FailedStartKeepsWired(cfg, w, e.bind, t);
    } else {
      OthersKeepWired(cfg, w, e, t);
    }
  }

  lemma PassKeepsWired(cfg: Config, w: World, bind: Option<nat>, t: real)
    requires Wired(w) && Enabled(w, Ensured(bind), t)
    ensures Wired(Step(cfg, w, Ensured(bind), t))
  {
  }

  lemma LoopKeepsWired(cfg: Config, w: World, e: Event, t: real)
    requires Wired(w) && Enabled(w, e, t) && TouchesListener(e) && !e.Ensured?
    ensures Wired(Step(cfg, w, e, t))
  {
  }

  lemma ReleaseKeepsWired(cfg: Config, w: World, e: Event, t: real)
    requires Wired(w) && Enabled(w, e, t) && (e.LoginArrives? || e.StartEvent?)
    ensures Wired(Step(cfg, w, e, t))
  {
    hide LastEntries;
  }

  lemma FailedStartKeepsWired(cfg: Config, w: World, bind: Option<nat>, t: real)
    requires Wired(w) && Enabled(w, StartCallFails(bind), t)
    ensures Wired(Step(cfg, w, StartCallFails(bind), t))
  {
    hide LastEntries;
  }

  lemma OthersKeepWired(cfg: Config, w: World, e: Event, t: real)
    requires Wired(w) && Enabled(w, e, t)
    requires !e.Polled? && !TouchesListener(e) && !e.LoginArrives? && !e.StartEvent? && !e.StartCallFails?
    ensures Wired(Step(cfg, w, e, t))
  {
    hide LastEntries;
  }

  lemma StepKeepsGuard(cfg: Config, w: World, e: Event, t: real)
    requires Wired(w) && StartGuarded(w) && Enabled(w, e, t) && CleanStep(w, e)
    ensures StartGuarded(Step(cfg, w, e, t))
  {
    hide LastEntries;
    if e.Polled? {
      PollLeavesThePort(cfg, w, e.r, t);
    } else {
      hide PollStep;
    }
  }

  lemma {:induction false} RunsStayWired(cfg: Config, w: World, run: seq<Stamped>)
    requires Wired(w) && Admissible(cfg, w, run)
    ensures Wired(Exec(cfg, w, run))
    decreases |run|
  {
    if run == [] {
    } else {
      StepKeepsWired(cfg, w, run[0].event, run[0].time);
      RunsStayWired(cfg, Step(cfg, w, run[0].event, run[0].time), run[1..]);
    }
  }

  lemma {:induction false} CleanRunsStayGuarded(cfg: Config, w: World, run: seq<Stamped>)
    requires Wired(w) && StartGuarded(w) && Admissible(cfg, w, run) && CleanRun(cfg, w, run)
    ensures StartGuarded(Exec(cfg, w, run))
    decreases |run|
  {
    if run == [] {
    } else {
      StepKeepsWired(cfg, w, run[0].event, run[0].time);
      StepKeepsGuard(cfg, w, run[0].event, run[0].time);
      CleanRunsStayGuarded(cfg, Step(cfg, w, run[0].event, run[0].time), run[1..]);
    }
  }

  /** Without a waiting snapshot every run is clean. */
  lemma {:induction false} FreshRunsAreClean(cfg: Config, w: World, run: seq<Stamped>)
    requires w.pending.None? && Admissible(cfg, w, run)
    ensures CleanRun(cfg, w, run)
    ensures Exec(cfg, w, run).trace.adopted == w.trace.adopted
    decreases |run|
  {
    if run == [] {
    } else {
      var v := Step(cfg, w, run[0].event, run[0].time);
      assert v.pending.None? && v.trace.adopted == w.trace.adopted;
      FreshRunsAreClean(cfg, v, run[1..]);
    }
  }

  /** Main result: in every run of a process started without a snapshot, a booting server is locked
      out, a locked port has no listener, and the OS has exactly the recorded socket open. */
  lemma PortSafety(cfg: Config, t0: real, run: seq<Stamped>)
    requires Admissible(cfg, Start(None, t0), run)
    ensures var w := Exec(cfg, Start(None, t0), run);
            && (w.port.m.state == Starting ==> w.port.lockout)
            && (w.port.lockout ==> w.port.listener.None? && w.port.sockets == {})
            && !HoldsBootingPort(w)
  {
    RunsStayWired(cfg, Start(None, t0), run);
    FreshRunsAreClean(cfg, Start(None, t0), run);
  }

  /** With a snapshot waiting, the port stays safe as long as a STARTING snapshot is adopted only
      while the port is locked or the proxy is inactive. */
  lemma PortSafetyAfterRestore(cfg: Config, snap: Snapshot, t0: real, run: seq<Stamped>)
    requires Admissible(cfg, Start(Some(snap), t0), run) && CleanRun(cfg, Start(Some(snap), t0), run)
    ensures !HoldsBootingPort(Exec(cfg, Start(Some(snap), t0), run))
  {
    var w := Start(Some(snap), t0);
    RunsStayWired(cfg, w, run);
    CleanRunsStayGuarded(cfg, w, run);
  }

  /** A snapshot reconciled before anything else happens is always adopted cleanly. */
  lemma FirstPollIsClean(cfg: Config, snap: Snapshot, t0: real, run: seq<Stamped>)
    requires Admissible(cfg, Start(Some(snap), t0), run)
    requires run != [] ==> run[0].event.Polled?
    ensures CleanRun(cfg, Start(Some(snap), t0), run)
  {
    if run == [] {
    } else {
      FreshRunsAreClean(cfg, Step(cfg, Start(Some(snap), t0), run[0].event, run[0].time), run[1..]);
    }
  }

  /** The guard is exact: once no snapshot waits, every continuation is safe iff the guard holds now. */
  lemma GuardIsExact(cfg: Config, w: World)
    requires Wired(w) && w.pending.None?
    ensures (forall run :: Admissible(cfg, w, run) ==> !HoldsBootingPort(Exec(cfg, w, run)))
            <==> StartGuarded(w)
  {
    if StartGuarded(w) {
      forall run | Admissible(cfg, w, run)
        ensures !HoldsBootingPort(Exec(cfg, w, run))
      {
        RunsStayWired(cfg, w, run);
        FreshRunsAreClean(cfg, w, run);
        CleanRunsStayGuarded(cfg, w, run);
      }
    } else {
      var bad := BindNow(w);
      assert Admissible(cfg, w, bad);
      if bad != [] {
        var v := Step(cfg, w, bad[0].event, bad[0].time);
        assert bad[1..] == [] && Exec(cfg, v, []) == v;
      }
      assert HoldsBootingPort(Exec(cfg, w, bad));
    }
  }

  /** The run that puts an unguarded proxy on the port: whatever can bind does. */
  function BindNow(w: World): seq<Stamped> {
    if w.port.listener.Some? then []
    else [Stamped(if w.loop.Some? then LoopWakes(Some(0)) else SpawnedRuns(Some(0)), w.now)]
  }

  /** The unguarded case is reachable: a stop event reaches the new process before its first poll,
      the port is bound, and the poll then adopts the STARTING snapshot of the last process. */
  lemma AdoptionCanUnguard(cfg: Config, started: real, t0: real)
    requires started != 0.0 && t0 - started <= cfg.startTimeoutSeconds as real
    ensures var snap := Snapshot(Some("STARTING"), None, None, Some(started), [], 1, 0);
            var run := [Stamped(StopEvent(false), t0), Stamped(SpawnedRuns(Some(0)), t0),
                        Stamped(Polled(Reading(true, false, 0, false)), t0)];
            Admissible(cfg, Start(Some(snap), t0), run) && HoldsBootingPort(Exec(cfg, Start(Some(snap), t0), run))
  {
    StateNameRoundTrip(Starting);
    var w0 := Start(Some(Snapshot(Some("STARTING"), None, None, Some(started), [], 1, 0)), t0);
    var stop, rebind, poll := StopEvent(false), SpawnedRuns(Some(0)), Polled(Reading(true, false, 0, false));
    var run := [Stamped(stop, t0), Stamped(rebind, t0), Stamped(poll, t0)];
    var w1 := Step(cfg, w0, stop, t0);
    var w2 := Step(cfg, w1, rebind, t0);
    var w3 := Step(cfg, w2, poll, t0);
    assert run[1..] == [Stamped(rebind, t0), Stamped(poll, t0)];
    assert run[1..][1..] == [Stamped(poll, t0)];
    assert run[1..][1..][1..] == [];
    assert Admissible(cfg, w3, []) && Exec(cfg, w3, []) == w3;
    assert Admissible(cfg, w2, run[1..][1..]) && Exec(cfg, w2, run[1..][1..]) == w3;
    assert Admissible(cfg, w1, run[1..]) && Exec(cfg, w1, run[1..]) == w3;
  }

  /** The same, read at the poll that adopts: a server left booting by an earlier process is safe in
      every continuation iff the port is locked or the proxy is inactive when its snapshot is adopted. */
  lemma AdoptionIsSafeExactly(cfg: Config, w: World, r: Reading, t: real)
    requires Wired(w) && Enabled(w, Polled(r), t) && AdoptsBoot(w, Polled(r))
    requires Step(cfg, w, Polled(r), t).port.m.state == Starting
    ensures var w' := Step(cfg, w, Polled(r), t);
            (forall run :: Admissible(cfg, w', run) ==> !HoldsBootingPort(Exec(cfg, w', run)))
            <==> w.port.lockout || ProxyInactive(w)
  {
    StepKeepsWired(cfg, w, Polled(r), t);
    GuardIsExact(cfg, Step(cfg, w, Polled(r), t));
  }

  // ----- The lockout over runs

  /** No world of the run, the first and the last included, is in STOPPED or CRASHED. */
  predicate AwakeThroughout(cfg: Config, w: World, run: seq<Stamped>)
    requires Admissible(cfg, w, run)
    decreases |run|
  {
    !Asleep(w.port.m.state) &&
    (run == [] || AwakeThroughout(cfg, Step(cfg, w, run[0].event, run[0].time), run[1..]))
  }

  /** A step that clears the lockout leaves the machine in STOPPED or CRASHED, and one that sets it is
      a release, which leaves it STARTING. */
  lemma LockoutStep(cfg: Config, w: World, e: Event, t: real)
    requires Enabled(w, e, t)
    ensures var w' := Step(cfg, w, e, t);
            && (w.port.lockout && !w'.port.lockout ==> Asleep(w'.port.m.state))
            && (!w.port.lockout && w'.port.lockout ==>
                  Asleep(w.port.m.state) && w'.port.m.state == Starting && e in {LoginArrives, StartEvent})
  {
    hide LastEntries;
    if e.Polled? {
      PollLeavesThePort(cfg, w, e.r, t);
    } else {
      hide PollStep;
    }
  }

  lemma {:induction false} LockoutOutlivesTheServer(cfg: Config, w: World, run: seq<Stamped>)
    requires w.port.lockout && Admissible(cfg, w, run) && AwakeThroughout(cfg, w, run)
    ensures Exec(cfg, w, run).port.lockout
    decreases |run|
  {
    if run == [] {
    } else {
      var v := Step(cfg, w, run[0].event, run[0].time);
      LockoutStep(cfg, w, run[0].event, run[0].time);
      assert AwakeThroughout(cfg, v, run[1..]);
      LockoutOutlivesTheServer(cfg, v, run[1..]);
    }
  }

  // ----- The port comes back

  predicate AsleepThroughout(cfg: Config, w: World, run: seq<Stamped>)
    requires Admissible(cfg, w, run)
    decreases |run|
  {
    Asleep(w.port.m.state) &&
    (run == [] || AsleepThroughout(cfg, Step(cfg, w, run[0].event, run[0].time), run[1..]))
  }

  /** A bind attempt that the OS grants: by the live loop, or by anyone when there is none. */
  predicate GrantedAttempt(w: World, e: Event) {
    match e
    case LoopWakes(bind) => bind.Some?
    case Ensured(bind) => bind.Some? && w.loop.None?
    case SpawnedRuns(bind) => bind.Some? && w.loop.None?
    case StartCallFails(bind) => bind.Some? && w.loop.None?
    case _ => false
  }

  predicate SomeAttemptIsGranted(cfg: Config, w: World, run: seq<Stamped>)
    requires Admissible(cfg, w, run)
    decreases |run|
  {
    run != [] &&
    (GrantedAttempt(w, run[0].event) ||
     SomeAttemptIsGranted(cfg, Step(cfg, w, run[0].event, run[0].time), run[1..]))
  }

  predicate StaysUp(run: seq<Stamped>) {
    forall i :: 0 <= i < |run| ==> !run[i].event.ShutsDown?
  }

  /** The proxy will have the port of this sleeping server: in every run in which it stays asleep and the
      process stays up, the first attempt the OS grants binds for good, whoever owns the bind loop. */
  ghost predicate GetsItsPort(cfg: Config, w: World) {
    forall run :: Admissible(cfg, w, run) && AsleepThroughout(cfg, w, run) && StaysUp(run) ==>
      (w.port.listener.Some? || SomeAttemptIsGranted(cfg, w, run) ==> Exec(cfg, w, run).port.listener.Some?)
  }

  /** A sleeping server's port stays unlocked and bound, and a granted attempt binds it. */
  lemma SleepingStep(cfg: Config, w: World, e: Event, t: real)
    requires Wired(w) && Enabled(w, e, t) && !e.ShutsDown?
    requires Asleep(w.port.m.state) && Asleep(Step(cfg, w, e, t).port.m.state) && !w.port.lockout
    ensures var v := Step(cfg, w, e, t);
            !v.port.lockout && (w.port.listener.Some? || GrantedAttempt(w, e) ==> v.port.listener.Some?)
  {
    if e.Polled? {
      PollLeavesThePort(cfg, w, e.r, t);
    }
    hide LastEntries;
  }

  lemma {:induction false} SleepingRun(cfg: Config, w: World, run: seq<Stamped>)
    requires Wired(w) && !w.port.lockout && Admissible(cfg, w, run)
    requires AsleepThroughout(cfg, w, run) && StaysUp(run)
    requires w.port.listener.Some? || SomeAttemptIsGranted(cfg, w, run)
    ensures Exec(cfg, w, run).port.listener.Some?
    decreases |run|
  {
    hide Step;
    if run == [] {
    } else {
      var e, t := run[0].event, run[0].time;
      var v := Step(cfg, w, e, t);
      assert AsleepThroughout(cfg, v, run[1..]) && Asleep(v.port.m.state);
      StepKeepsWired(cfg, w, e, t);
      SleepingStep(cfg, w, e, t);
      SleepingRun(cfg, v, run[1..]);
    }
  }

  lemma SleepingServerGetsItsPort(cfg: Config, w: World)
    requires Wired(w) && Asleep(w.port.m.state) && !w.port.lockout
    ensures GetsItsPort(cfg, w)
  {
    forall run | Admissible(cfg, w, run) && AsleepThroughout(cfg, w, run) && StaysUp(run)
                 && (w.port.listener.Some? || SomeAttemptIsGranted(cfg, w, run))
      ensures Exec(cfg, w, run).port.listener.Some?
    {
      SleepingRun(cfg, w, run);
    }
  }

  /** A start that never comes up: the first poll past the deadline and the listener pass after it unlock the
      port and put the proxy back on it, or leave a bind loop alive that will. */
  lemma FailedBootGivesPortBack(cfg: Config, w: World, r: Reading, t: real, later: real, bind: Option<nat>)
    requires Wired(w) && Reconcile(w, r).port.m.state == Starting
    requires StartTimedOut(cfg, Reconcile(w, r).port.m, t) && !r.running && !r.crashed
    requires Enabled(w, Polled(r), t) && t <= later && Grantable(w, bind)
    ensures var polled := Step(cfg, w, Polled(r), t);
            && Enabled(polled, Ensured(bind), later)
            && var back := Step(cfg, polled, Ensured(bind), later);
               && back.port.m.state == Stopped && !back.port.lockout
               && (back.port.listener.Some? || back.loop.Some?)
               && (w.loop.None? && bind.Some? ==> back.port.listener.Some?)
               && GetsItsPort(cfg, back)
  {
    var polled := Step(cfg, w, Polled(r), t);
    PollLeavesThePort(cfg, w, r, t);
    StepKeepsWired(cfg, w, Polled(r), t);
    assert polled.port.m.state == Stopped && polled.stopCall == w.stopCall;
    StepKeepsWired(cfg, polled, Ensured(bind), later);
    PassOutcome(polled.port, bind);
    SleepingServerGetsItsPort(cfg, Step(cfg, polled, Ensured(bind), later));
  }

  /** A server that goes down: the stop event unlocks its port and spawns a rebind, so an attempt can be made
      at once, by that task or by the loop that is live, and if the OS grants it the proxy is on the port. */
  lemma StopEventTakesPortBack(cfg: Config, w: World, crashed: bool, t: real, later: real, fd: nat)
    requires Wired(w) && !Asleep(w.port.m.state)
    requires Enabled(w, StopEvent(crashed), t) && t <= later && fd !in w.port.sockets
    ensures var down := Step(cfg, w, StopEvent(crashed), t);
            && Asleep(down.port.m.state) && !down.port.lockout && GetsItsPort(cfg, down)
            && var attempt := if down.loop.Some? then LoopWakes(Some(fd)) else SpawnedRuns(Some(fd));
               && Enabled(down, attempt, later) && GrantedAttempt(down, attempt)
               && Step(cfg, down, attempt, later).port.listener.Some?
  {
    var down := Step(cfg, w, StopEvent(crashed), t);
    StepKeepsWired(cfg, w, StopEvent(crashed), t);
    assert Asleep(down.port.m.state) && !down.port.lockout && down.port.sockets == w.port.sockets;
    SleepingServerGetsItsPort(cfg, down);
    SleepingStep(cfg, down, if down.loop.Some? then LoopWakes(Some(fd)) else SpawnedRuns(Some(fd)), later);
  }

  // ----- Start calls

  /** The start call of a login finds the port locked and closed if the server has been awake since the
      login released it. */
  lemma StartCallFindsThePortClosed(cfg: Config, w: World, t: real, run: seq<Stamped>)
    requires Wired(w) && Enabled(w, LoginArrives, t) && Asleep(w.port.m.state)
    requires var v := Step(cfg, w, LoginArrives, t);
             Admissible(cfg, v, run) && AwakeThroughout(cfg, v, run)
    ensures var u := Exec(cfg, Step(cfg, w, LoginArrives, t), run);
            u.port.lockout && u.port.listener.None? && u.port.sockets == {}
  {
    var v := Step(cfg, w, LoginArrives, t);
    StepKeepsWired(cfg, w, LoginArrives, t);
    LockoutOutlivesTheServer(cfg, v, run);
    RunsStayWired(cfg, v, run);
  }

  /** More than `sent` start calls have been made, the server sleeps, and the proxy holds its port. */
  predicate HoldsPortPastCall(w: World, sent: nat) {
    w.calling > 0 && w.trace.startCalls > sent && Asleep(w.port.m.state) && w.port.listener.Some?
  }

  ghost predicate CanHoldPortPastCall(cfg: Config, w: World, sent: nat) {
    exists run :: Admissible(cfg, w, run) && HoldsPortPastCall(Exec(cfg, w, run), sent)
  }

  lemma OneStepBefore(cfg: Config, w: World, e: Event, t: real, sent: nat)
    requires Enabled(w, e, t) && CanHoldPortPastCall(cfg, Step(cfg, w, e, t), sent)
    ensures CanHoldPortPastCall(cfg, w, sent)
  {
    hide Step;
    var v := Step(cfg, w, e, t);
    var run :| Admissible(cfg, v, run) && HoldsPortPastCall(Exec(cfg, v, run), sent);
    var longer := [Stamped(e, t)] + run;
    assert longer[1..] == run;
    assert Admissible(cfg, w, longer) && Exec(cfg, w, longer) == Exec(cfg, v, run);
  }

  /** And if it has gone back to sleep by then, some continuation has the proxy on the port when a new call is
      sent: nothing cancels a login's pause. */
  lemma SleepUnderAPauseIsEnough(cfg: Config, w: World)
    requires Wired(w) && Asleep(w.port.m.state) && w.paused > 0
    ensures CanHoldPortPastCall(cfg, w, w.trace.startCalls)
    decreases if w.port.listener.Some? then 0 else 1, if w.stopCall.Some? then 1 else 0, if w.loop.Some? then 1 else 0
  {
    var e :=
      if w.port.listener.Some? then PauseEnds
      else if w.stopCall.Some? then StopCallReturns
      else if w.loop.Some? then LoopWakes(Some(0))
      else Ensured(Some(0));
    var v := Step(cfg, w, e, w.now);
    StepKeepsWired(cfg, w, e, w.now);
    if w.port.listener.Some? {
      assert Admissible(cfg, v, []) && Exec(cfg, v, []) == v;
    } else {
      SleepUnderAPauseIsEnough(cfg, v);
    }
    OneStepBefore(cfg, w, e, w.now, w.trace.startCalls);
  }

  // ----- Listener and loop conservation

  /** A bind never overwrites a live listener: sockets only change one at a time, and the one that
      disappears is the one that was recorded. */
  lemma SocketsAreConserved(cfg: Config, w: World, e: Event, t: real)
    requires Wired(w) && Enabled(w, e, t)
    ensures var p, q := w.port, Step(cfg, w, e, t).port;
            && (q.listener != p.listener ==> p.listener.None? || q.listener.None?)
            && |q.sockets| <= 1
            && (|q.sockets| == 1 <==> q.listener.Some?)
  {
    StepKeepsWired(cfg, w, e, t);
  }

  /** A watcher that shuts down closes every listener it has recorded, and nothing else changes. */
  lemma ShutdownLetsGo(cfg: Config, w: World, t: real)
    requires Wired(w) && Enabled(w, ShutsDown, t)
    ensures var v := Step(cfg, w, ShutsDown, t);
            && v.port.listener.None? && v.port.sockets == {}
            && v == w.(port := w.port.(listener := None, sockets := {}), now := t)
  {
    StepKeepsWired(cfg, w, ShutsDown, t);
  }

  /** How many bind attempts the live loop has still to make. */
  function AttemptsLeft(w: World): nat {
    if w.loop.Some? && w.loop.value.attempt < BIND_ATTEMPTS then BIND_ATTEMPTS - w.loop.value.attempt else 0
  }

  /** Every wake-up of a bind loop uses up one of its at most 14 remaining attempts or ends it, nothing
      else touches a live loop, and no second loop ever starts beside it. */
  lemma LoopProgress(cfg: Config, w: World, e: Event, t: real)
    requires Wired(w) && Enabled(w, e, t)
    ensures var w' := Step(cfg, w, e, t);
            && AttemptsLeft(w') <= BIND_ATTEMPTS - 1
            && (w.loop.Some? && e.LoopWakes? ==> AttemptsLeft(w') < AttemptsLeft(w))
            && (w.loop.Some? && !e.LoopWakes? ==> w'.loop == w.loop)
            && (w.loop.None? && w'.loop.Some? ==> w'.loop.value.attempt == 1)
  {
    StepKeepsWired(cfg, w, e, t);
  }

  function Wakes(run: seq<Stamped>): nat {
    if run == [] then 0 else (if run[0].event.LoopWakes? then 1 else 0) + Wakes(run[1..])
  }

  predicate LoopLivesThrough(cfg: Config, w: World, run: seq<Stamped>)
    requires Admissible(cfg, w, run)
    decreases |run|
  {
    w.loop.Some? &&
    (run == [] || LoopLivesThrough(cfg, Step(cfg, w, run[0].event, run[0].time), run[1..]))
  }

  /** One loop: its first attempt is made before it is registered, and it survives at most 13 of the
      wake-ups that follow, so the 14th is its 15th and last attempt. */
  lemma {:induction false} LoopEndsWithin15(cfg: Config, w: World, run: seq<Stamped>)
    requires Wired(w) && Admissible(cfg, w, run) && LoopLivesThrough(cfg, w, run)
    ensures Wakes(run) + AttemptsLeft(Exec(cfg, w, run)) <= AttemptsLeft(w) <= 14
    ensures 1 <= AttemptsLeft(Exec(cfg, w, run)) && Wakes(run) <= 13
    decreases |run|
  {
    if run == [] {
    } else {
      var e, t := run[0].event, run[0].time;
      var v := Step(cfg, w, e, t);
      StepKeepsWired(cfg, w, e, t);
      LoopProgress(cfg, w, e, t);
      assert LoopLivesThrough(cfg, v, run[1..]);
      LoopEndsWithin15(cfg, v, run[1..]);
    }
  }
}
