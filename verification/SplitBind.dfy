/** The hand-over with a bind attempt in two steps.  `asyncio.start_server` suspends between the lockout
    check and the recording of the new listener, so other coroutines may run in between.  A refused attempt
    changes nothing until it returns, so only a granted one is split. */
module SplitBind {
  import opened Common
  import opened ServerState
  import opened IdleMonitor
  import opened PortControl
  import opened Handover
  import opened HandoverSafety

  /** A bind under way: its OS socket is open and nothing records it yet. */
  datatype Opening = Opening(fd: nat, byPoller: bool)

  datatype SplitWorld = SplitWorld(w: World, opening: Option<Opening>)

  /** A step of some coroutine, which may open a bind, or the recording of the one that is open. */
  datatype SplitEvent = Runs(event: Event) | BindLands

  datatype SplitStamped = SplitStamped(event: SplitEvent, time: real)

  /** The poll loop also waits for a bind that it opened itself. */
  predicate SplitEnabled(x: SplitWorld, e: SplitEvent, t: real) {
    match e
    case Runs(event) =>
      && Enabled(x.w, event, t)
      && ((event.Polled? || event.Ensured?) && x.opening.Some? ==> !x.opening.value.byPoller)
    case BindLands => x.opening.Some? && x.w.now <= t
  }

  predicate Binds(w: World, v: World) {
    w.port.listener.None? && v.port.listener.Some?
  }

  predicate ByPoller(w: World, e: Event) {
    e.Ensured? || (e.LoopWakes? && w.loop.Some? && w.loop.value.byPoller)
  }

  /** The new listener not recorded yet; the loop that asked for it still owns the rebind flag. */
  function Unrecorded(v: World): World {
    v.(port := v.port.(listener := None, rebinding := true))
  }

  function SplitStep(cfg: Config, x: SplitWorld, e: SplitEvent, t: real): SplitWorld
    requires SplitEnabled(x, e, t)
  {
    match e
    case Runs(event) =>
      var v := Step(cfg, x.w, event, t);
      if Binds(x.w, v) then
        SplitWorld(Unrecorded(v), Some(Opening(v.port.listener.value, ByPoller(x.w, event))))
      else x.(w := v)
    case BindLands =>
      SplitWorld(x.w.(port := x.w.port.(listener := Some(x.opening.value.fd), rebinding := false), now := t), None)
  }

  predicate SplitAdmissible(cfg: Config, x: SplitWorld, run: seq<SplitStamped>)
    decreases |run|
  {
    run == [] ||
    (SplitEnabled(x, run[0].event, run[0].time) &&
     SplitAdmissible(cfg, SplitStep(cfg, x, run[0].event, run[0].time), run[1..]))
  }

  function SplitExec(cfg: Config, x: SplitWorld, run: seq<SplitStamped>): SplitWorld
    requires SplitAdmissible(cfg, x, run)
    decreases |run|
  {
    if run == [] then x
    else SplitExec(cfg, SplitStep(cfg, x, run[0].event, run[0].time), run[1..])
  }

  function Whole(w: World): SplitWorld {
    SplitWorld(w, None)
  }

  // ----- Discipline

  /** The step releases the port for a start. */
  predicate Releases(w: World, e: Event) {
    Asleep(w.port.m.state) && (e.LoginArrives? || (e.StartEvent? && !w.port.lockout))
  }

  predicate DisciplinedStep(x: SplitWorld, e: SplitEvent) {
    x.opening.Some? && e.Runs? ==> !Releases(x.w, e.event)
  }

  /** No release goes through while a bind is open. */
  predicate Disciplined(cfg: Config, x: SplitWorld, run: seq<SplitStamped>)
    requires SplitAdmissible(cfg, x, run)
    decreases |run|
  {
    run == [] ||
    (DisciplinedStep(x, run[0].event) &&
     Disciplined(cfg, SplitStep(cfg, x, run[0].event, run[0].time), run[1..]))
  }

  /** The proxy has a socket on the port of a server that its machine says is STARTING. */
  predicate OccupiesBootingPort(x: SplitWorld) {
    x.w.port.m.state == Starting && x.w.port.sockets != {}
  }

  predicate SafeThroughout(cfg: Config, x: SplitWorld, run: seq<SplitStamped>)
    requires SplitAdmissible(cfg, x, run)
    decreases |run|
  {
    !OccupiesBootingPort(x) &&
    (run == [] || SafeThroughout(cfg, SplitStep(cfg, x, run[0].event, run[0].time), run[1..]))
  }

  // ----- How the parts fit together, in every run

  ghost predicate SplitWired(x: SplitWorld) {
    && (x.w.port.rebinding <==> x.w.loop.Some? || x.opening.Some?)
    && !(x.w.loop.Some? && x.opening.Some?)
    && (x.w.port.rebinding ==> x.w.port.listener.None?)
    && x.w.port.sockets == (if x.w.port.listener.Some? then {x.w.port.listener.value}
                            else if x.opening.Some? then {x.opening.value.fd} else {})
  }

  /** The events that can bind, and those that can only close. */
  predicate MayBind(e: Event) {
    e.Ensured? || e.SpawnedRuns? || e.LoopWakes? || e.StartCallFails?
  }

  predicate MayClose(e: Event) {
    e.Ensured? || e.LoginArrives? || e.StartEvent? || e.ShutsDown?
  }

  lemma OtherStepsLeaveTheListener(cfg: Config, w: World, e: Event, t: real)
    requires Enabled(w, e, t) && !MayBind(e) && !MayClose(e)
    ensures var v := Step(cfg, w, e, t);
            && v.port == w.port.(m := v.port.m, lockout := v.port.lockout) && v.loop == w.loop
            && (v.port.m.state == Starting ==>
                  && (w.port.m.state == Starting || AdoptsBoot(w, e))
                  && v.port.lockout == w.port.lockout && v.spawned == w.spawned)
  {
    if e.Polled? {
      PollLeavesThePort(cfg, w, e.r, t);
    }
    hide LastEntries;
  }

  lemma BindStepKeepsWired(cfg: Config, x: SplitWorld, e: Event, t: real)
    requires SplitWired(x) && SplitEnabled(x, Runs(e), t) && MayBind(e)
    ensures SplitWired(SplitStep(cfg, x, Runs(e), t))
  {
    hide Move;
  }

  lemma CloseStepKeepsWired(cfg: Config, x: SplitWorld, e: Event, t: real)
    requires SplitWired(x) && SplitEnabled(x, Runs(e), t) && MayClose(e) && !MayBind(e)
    ensures SplitWired(SplitStep(cfg, x, Runs(e), t))
  {
    hide Move;
  }

  lemma SplitStepKeepsWired(cfg: Config, x: SplitWorld, e: SplitEvent, t: real)
    requires SplitWired(x) && SplitEnabled(x, e, t)
    ensures SplitWired(SplitStep(cfg, x, e, t))
  {
    hide Step;
    if e.BindLands? {
    } else if MayBind(e.event) {
      BindStepKeepsWired(cfg, x, e.event, t);
    } else if MayClose(e.event) {
      CloseStepKeepsWired(cfg, x, e.event, t);
    } else {
      OtherStepsLeaveTheListener(cfg, x.w, e.event, t);
    }
  }

  // ----- Safe exactly when disciplined

  /** No socket of ours on the port, and it is locked or nothing is left that could bind it. */
  predicate OffThePort(x: SplitWorld) {
    x.w.port.sockets == {} && (x.w.port.lockout || (x.w.loop.None? && x.w.spawned == 0))
  }

  predicate SplitGuarded(x: SplitWorld) {
    x.w.port.m.state == Starting ==> OffThePort(x)
  }

  /** A snapshot that says STARTING is adopted only while we are off the port. */
  predicate SplitCleanStep(x: SplitWorld, e: SplitEvent) {
    e.Runs? && AdoptsBoot(x.w, e.event) ==> OffThePort(x)
  }

  predicate SplitCleanRun(cfg: Config, x: SplitWorld, run: seq<SplitStamped>)
    requires SplitAdmissible(cfg, x, run)
    decreases |run|
  {
    run == [] ||
    (SplitCleanStep(x, run[0].event) &&
     SplitCleanRun(cfg, SplitStep(cfg, x, run[0].event, run[0].time), run[1..]))
  }

  lemma BindStepKeepsGuard(cfg: Config, x: SplitWorld, e: Event, t: real)
    requires SplitWired(x) && SplitGuarded(x) && SplitEnabled(x, Runs(e), t) && MayBind(e)
    ensures SplitGuarded(SplitStep(cfg, x, Runs(e), t))
  {
    hide LastEntries;
  }

  lemma CloseStepKeepsGuard(cfg: Config, x: SplitWorld, e: Event, t: real)
    requires SplitWired(x) && SplitGuarded(x) && SplitEnabled(x, Runs(e), t) && MayClose(e) && !MayBind(e)
    requires DisciplinedStep(x, Runs(e))
    ensures SplitGuarded(SplitStep(cfg, x, Runs(e), t))
  {
    hide LastEntries;
  }

  lemma SplitStepKeepsGuard(cfg: Config, x: SplitWorld, e: SplitEvent, t: real)
    requires SplitWired(x) && SplitGuarded(x)
    requires SplitEnabled(x, e, t) && DisciplinedStep(x, e) && SplitCleanStep(x, e)
    ensures SplitGuarded(SplitStep(cfg, x, e, t))
  {
    hide Step;
    if e.BindLands? {
    } else if MayBind(e.event) {
      BindStepKeepsGuard(cfg, x, e.event, t);
    } else if MayClose(e.event) {
      CloseStepKeepsGuard(cfg, x, e.event, t);
    } else {
      OtherStepsLeaveTheListener(cfg, x.w, e.event, t);
    }
  }

  /** A release that goes through while a bind is open leaves the server booting with the socket open: the
      close that comes first does not see the listener that is about to be recorded. */
  lemma UndisciplinedStepOccupies(cfg: Config, x: SplitWorld, e: SplitEvent, t: real)
    requires SplitWired(x) && SplitEnabled(x, e, t) && !DisciplinedStep(x, e)
    ensures OccupiesBootingPort(SplitStep(cfg, x, e, t))
  {
    hide LastEntries;
  }

  lemma NoSnapshotAppears(cfg: Config, x: SplitWorld, e: SplitEvent, t: real)
    requires x.w.pending.None? && SplitEnabled(x, e, t)
    ensures SplitStep(cfg, x, e, t).w.pending.None?
  {
    hide Move, Decide;
  }

  /** Disciplined and clean is enough for safety at every step, with or without a waiting snapshot. */
  lemma {:induction false} DisciplinedRunsAreSafe(cfg: Config, x: SplitWorld, run: seq<SplitStamped>)
    requires SplitWired(x) && SplitGuarded(x)
    requires SplitAdmissible(cfg, x, run) && Disciplined(cfg, x, run) && SplitCleanRun(cfg, x, run)
    ensures SafeThroughout(cfg, x, run) && SplitGuarded(SplitExec(cfg, x, run))
    decreases |run|
  {
    hide SplitStep;
    if run == [] {
    } else {
      var e, t := run[0].event, run[0].time;
      SplitStepKeepsWired(cfg, x, e, t);
      SplitStepKeepsGuard(cfg, x, e, t);
      DisciplinedRunsAreSafe(cfg, SplitStep(cfg, x, e, t), run[1..]);
    }
  }

  /** Main result for a restored process. */
  lemma PortSafetyAfterRestoreWithSplitBinds(cfg: Config, snap: Snapshot, t0: real, run: seq<SplitStamped>)
    requires var x := Whole(Start(Some(snap), t0));
             SplitAdmissible(cfg, x, run) && Disciplined(cfg, x, run) && SplitCleanRun(cfg, x, run)
    ensures SafeThroughout(cfg, Whole(Start(Some(snap), t0)), run)
  {
    DisciplinedRunsAreSafe(cfg, Whole(Start(Some(snap), t0)), run);
  }

  lemma {:induction false} NoSnapshotIsClean(cfg: Config, x: SplitWorld, run: seq<SplitStamped>)
    requires x.w.pending.None? && SplitAdmissible(cfg, x, run)
    ensures SplitCleanRun(cfg, x, run)
    decreases |run|
  {
    hide SplitStep;
    if run == [] {
    } else {
      NoSnapshotAppears(cfg, x, run[0].event, run[0].time);
      NoSnapshotIsClean(cfg, SplitStep(cfg, x, run[0].event, run[0].time), run[1..]);
    }
  }

  /** Once no snapshot waits, a run from a guarded world is safe at every step iff it is disciplined. */
  lemma {:induction false} SafeIffDisciplined(cfg: Config, x: SplitWorld, run: seq<SplitStamped>)
    requires SplitWired(x) && SplitGuarded(x) && x.w.pending.None? && SplitAdmissible(cfg, x, run)
    ensures SafeThroughout(cfg, x, run) <==> Disciplined(cfg, x, run)
    decreases |run|
  {
    hide SplitStep;
    if run == [] {
    } else {
      var e, t := run[0].event, run[0].time;
      var y := SplitStep(cfg, x, e, t);
      SplitStepKeepsWired(cfg, x, e, t);
      NoSnapshotAppears(cfg, x, e, t);
      if DisciplinedStep(x, e) {
        SplitStepKeepsGuard(cfg, x, e, t);
        SafeIffDisciplined(cfg, y, run[1..]);
      } else {
        UndisciplinedStepOccupies(cfg, x, e, t);
        assert !SafeThroughout(cfg, y, run[1..]);
      }
    }
  }

  /** Main result: a process started without a snapshot never has a socket on a booting server's port, at any
      step of a run, iff no release goes through while a bind is open. */
  lemma PortSafetyWithSplitBinds(cfg: Config, t0: real, run: seq<SplitStamped>)
    requires SplitAdmissible(cfg, Whole(Start(None, t0)), run)
    ensures SafeThroughout(cfg, Whole(Start(None, t0)), run) <==> Disciplined(cfg, Whole(Start(None, t0)), run)
  {
    SafeIffDisciplined(cfg, Whole(Start(None, t0)), run);
  }

  /** The guard is exact: once no snapshot waits, every disciplined continuation of a world is safe iff no
      booting server has a half-open or recorded bind, and it is locked or nothing is left that could bind. */
  lemma SplitGuardIsExact(cfg: Config, x: SplitWorld)
    requires SplitWired(x) && x.w.pending.None?
    ensures (forall run :: SplitAdmissible(cfg, x, run) && Disciplined(cfg, x, run) ==>
                             !OccupiesBootingPort(SplitExec(cfg, x, run)))
            <==> SplitGuarded(x)
  {
    if SplitGuarded(x) {
      forall run | SplitAdmissible(cfg, x, run) && Disciplined(cfg, x, run)
        ensures !OccupiesBootingPort(SplitExec(cfg, x, run))
      {
        NoSnapshotIsClean(cfg, x, run);
        DisciplinedRunsAreSafe(cfg, x, run);
      }
    } else {
      UnguardedIsUnsafe(cfg, x);
    }
  }

  /** From an unguarded world at most one bind is missing. */
  lemma UnguardedIsUnsafe(cfg: Config, x: SplitWorld)
    requires SplitWired(x) && !SplitGuarded(x)
    ensures exists run :: SplitAdmissible(cfg, x, run) && Disciplined(cfg, x, run)
                          && OccupiesBootingPort(SplitExec(cfg, x, run))
  {
    if x.w.port.sockets != {} {
      assert SplitAdmissible(cfg, x, []) && Disciplined(cfg, x, []) && SplitExec(cfg, x, []) == x;
    } else {
      var e := Runs(if x.w.loop.Some? then LoopWakes(Some(0)) else SpawnedRuns(Some(0)));
      var run := [SplitStamped(e, x.w.now)];
      var y := SplitStep(cfg, x, e, x.w.now);
      assert run[1..] == [] && SplitAdmissible(cfg, y, []) && Disciplined(cfg, y, []) && SplitExec(cfg, y, []) == y;
      assert SplitAdmissible(cfg, x, run) && Disciplined(cfg, x, run) && OccupiesBootingPort(SplitExec(cfg, x, run));
    }
  }

  /** Undisciplined runs exist: a login inside the very first bind. */
  lemma LoginInsideABind(cfg: Config, t0: real)
    ensures var x := Whole(Start(None, t0));
            var run := [SplitStamped(Runs(StopEvent(false)), t0), SplitStamped(Runs(SpawnedRuns(Some(0))), t0),
                        SplitStamped(Runs(LoginArrives), t0), SplitStamped(BindLands, t0)];
            SplitAdmissible(cfg, x, run) && HoldsBootingPort(SplitExec(cfg, x, run).w)
  {
    var x0 := Whole(Start(None, t0));
    var stop, bind, login := Runs(StopEvent(false)), Runs(SpawnedRuns(Some(0))), Runs(LoginArrives);
    var run := [SplitStamped(stop, t0), SplitStamped(bind, t0), SplitStamped(login, t0), SplitStamped(BindLands, t0)];
    var x1 := SplitStep(cfg, x0, stop, t0);
    var x2 := SplitStep(cfg, x1, bind, t0);
    var x3 := SplitStep(cfg, x2, login, t0);
    var x4 := SplitStep(cfg, x3, BindLands, t0);
    assert run[3..][1..] == [] && SplitAdmissible(cfg, x4, []) && SplitExec(cfg, x4, []) == x4;
    assert run[2..][1..] == run[3..] && SplitAdmissible(cfg, x3, run[3..]) && SplitExec(cfg, x3, run[3..]) == x4;
    assert run[1..][1..] == run[2..] && SplitAdmissible(cfg, x2, run[2..]) && SplitExec(cfg, x2, run[2..]) == x4;
    assert SplitAdmissible(cfg, x1, run[1..]) && SplitExec(cfg, x1, run[1..]) == x4;
  }

  // ----- Disciplined runs are the runs with whole binds

  /** The run with whole binds has come as far: equal, or its bind loop is still parked before the attempt. */
  predicate Matches(x: SplitWorld, w: World) {
    if x.opening.None? then w == x.w
    else
      && w.loop.Some? && w.loop.value.byPoller == x.opening.value.byPoller
      && w.now <= x.w.now && !w.port.lockout
      && w == x.w.(loop := w.loop, now := w.now, port := x.w.port.(sockets := {}))
  }

  /** What stands for a step in the run with whole binds: a bind happens when it lands, and a first attempt
      that only opened is refused before that. */
  function AtomicStep(cfg: Config, x: SplitWorld, e: SplitEvent, t: real): seq<Stamped>
    requires SplitEnabled(x, e, t)
  {
    match e
    case BindLands => [Stamped(LoopWakes(Some(x.opening.value.fd)), t)]
    case Runs(event) =>
      if !Binds(x.w, Step(cfg, x.w, event, t)) then [Stamped(event, t)]
      else
        match event
        case Ensured(_) => [Stamped(Ensured(None), t)]
        case SpawnedRuns(_) => [Stamped(SpawnedRuns(None), t)]
        case StartCallFails(_) => [Stamped(StartCallFails(None), t)]
        case _ => []
  }

  function AtomicRun(cfg: Config, x: SplitWorld, run: seq<SplitStamped>): seq<Stamped>
    requires SplitAdmissible(cfg, x, run)
    decreases |run|
  {
    if run == [] then []
    else
      var e, t := run[0].event, run[0].time;
      AtomicStep(cfg, x, e, t) + AtomicRun(cfg, SplitStep(cfg, x, e, t), run[1..])
  }

  /** `atomic` is at most one step, enabled in `w`, and leads to a world that matches `x`. */
  ghost predicate LeadsToMatch(cfg: Config, w: World, atomic: seq<Stamped>, x: SplitWorld) {
    if atomic == [] then Matches(x, w)
    else |atomic| == 1 && Enabled(w, atomic[0].event, atomic[0].time)
         && Matches(x, Step(cfg, w, atomic[0].event, atomic[0].time))
  }

  /** A first attempt, opened here and refused there. */
  lemma FirstAttemptMatches(cfg: Config, x: SplitWorld, e: Event, t: real)
    requires SplitWired(x) && x.opening.None? && SplitEnabled(x, Runs(e), t)
    requires MayBind(e) && !e.LoopWakes? && Binds(x.w, Step(cfg, x.w, e, t))
    ensures LeadsToMatch(cfg, x.w, AtomicStep(cfg, x, Runs(e), t), SplitStep(cfg, x, Runs(e), t))
  {
    hide Move;
  }

  lemma LaterAttemptMatches(cfg: Config, x: SplitWorld, bind: Option<nat>, t: real)
    requires SplitWired(x) && x.opening.None? && SplitEnabled(x, Runs(LoopWakes(bind)), t)
    requires Binds(x.w, Step(cfg, x.w, LoopWakes(bind), t))
    ensures AtomicStep(cfg, x, Runs(LoopWakes(bind)), t) == []
    ensures Matches(SplitStep(cfg, x, Runs(LoopWakes(bind)), t), x.w)
  {
    hide Move;
  }

  lemma OnlyBindersBind(cfg: Config, w: World, e: Event, t: real)
    requires Enabled(w, e, t) && Binds(w, Step(cfg, w, e, t))
    ensures MayBind(e)
  {
    hide Move, Decide;
  }

  lemma WholeStepMatches(cfg: Config, x: SplitWorld, e: SplitEvent, t: real)
    requires SplitWired(x) && x.opening.None? && SplitEnabled(x, e, t)
    ensures LeadsToMatch(cfg, x.w, AtomicStep(cfg, x, e, t), SplitStep(cfg, x, e, t))
  {
    hide Step;
    if !Binds(x.w, Step(cfg, x.w, e.event, t)) {
    } else {
      OnlyBindersBind(cfg, x.w, e.event, t);
      if e.event.LoopWakes? {
        LaterAttemptMatches(cfg, x, e.event.bind, t);
      } else {
        FirstAttemptMatches(cfg, x, e.event, t);
      }
    }
  }

  /** While a bind is open nothing else binds, and a disciplined step does the same in both worlds. */
  ghost predicate SameStep(cfg: Config, x: SplitWorld, w: World, e: Event, t: real)
    requires SplitEnabled(x, Runs(e), t)
  {
    && Enabled(w, e, t) && !Binds(x.w, Step(cfg, x.w, e, t))
    && Matches(SplitStep(cfg, x, Runs(e), t), Step(cfg, w, e, t))
  }

  lemma LandingMatches(cfg: Config, x: SplitWorld, w: World, t: real)
    requires SplitWired(x) && x.opening.Some? && Matches(x, w) && SplitEnabled(x, BindLands, t)
    ensures LeadsToMatch(cfg, w, AtomicStep(cfg, x, BindLands, t), SplitStep(cfg, x, BindLands, t))
  {
    hide Move;
  }

  lemma PollMatches(cfg: Config, x: SplitWorld, w: World, r: Reading, t: real)
    requires SplitWired(x) && x.opening.Some? && Matches(x, w) && SplitEnabled(x, Runs(Polled(r)), t)
    ensures SameStep(cfg, x, w, Polled(r), t)
  {
    hide Move, Decide;
  }

  lemma BinderMatches(cfg: Config, x: SplitWorld, w: World, e: Event, t: real)
    requires SplitWired(x) && x.opening.Some? && Matches(x, w) && SplitEnabled(x, Runs(e), t) && MayBind(e)
    ensures SameStep(cfg, x, w, e, t)
  {
    hide Move;
  }

  lemma CloserMatches(cfg: Config, x: SplitWorld, w: World, e: Event, t: real)
    requires SplitWired(x) && x.opening.Some? && Matches(x, w) && SplitEnabled(x, Runs(e), t)
    requires MayClose(e) && !MayBind(e) && DisciplinedStep(x, Runs(e))
    ensures SameStep(cfg, x, w, e, t)
  {
    hide Move;
  }

  lemma OtherMatches(cfg: Config, x: SplitWorld, w: World, e: Event, t: real)
    requires SplitWired(x) && x.opening.Some? && Matches(x, w) && SplitEnabled(x, Runs(e), t)
    requires !MayClose(e) && !MayBind(e) && !e.Polled?
    ensures SameStep(cfg, x, w, e, t)
  {
    hide Move;
  }

  lemma OpenStepMatches(cfg: Config, x: SplitWorld, w: World, e: SplitEvent, t: real)
    requires SplitWired(x) && x.opening.Some? && Matches(x, w) && SplitEnabled(x, e, t) && DisciplinedStep(x, e)
    ensures LeadsToMatch(cfg, w, AtomicStep(cfg, x, e, t), SplitStep(cfg, x, e, t))
  {
    hide Step, Matches;
    if e.BindLands? {
      LandingMatches(cfg, x, w, t);
    } else if e.event.Polled? {
      PollMatches(cfg, x, w, e.event.r, t);
    } else if MayBind(e.event) {
      BinderMatches(cfg, x, w, e.event, t);
    } else if MayClose(e.event) {
      CloserMatches(cfg, x, w, e.event, t);
    } else {
      OtherMatches(cfg, x, w, e.event, t);
    }
  }

  /** Main result: a run in which no release goes through while a bind is open is a run with whole binds, up
      to the bind that is still open at its end.  Everything proved of `Exec` holds of it. */
  lemma {:induction false} DisciplinedRunsAreAtomic(cfg: Config, x: SplitWorld, w: World, run: seq<SplitStamped>)
    requires SplitWired(x) && Matches(x, w) && SplitAdmissible(cfg, x, run) && Disciplined(cfg, x, run)
    ensures Admissible(cfg, w, AtomicRun(cfg, x, run))
    ensures Matches(SplitExec(cfg, x, run), Exec(cfg, w, AtomicRun(cfg, x, run)))
    decreases |run|
  {
    hide SplitStep, Step, Matches;
    if run == [] {
    } else {
      var e, t := run[0].event, run[0].time;
      var y, first := SplitStep(cfg, x, e, t), AtomicStep(cfg, x, e, t);
      SplitStepKeepsWired(cfg, x, e, t);
      if x.opening.None? {
        assert w == x.w by { MatchesWhole(x, w); }
        WholeStepMatches(cfg, x, e, t);
      } else {
        OpenStepMatches(cfg, x, w, e, t);
      }
      var later := AtomicRun(cfg, y, run[1..]);
      assert AtomicRun(cfg, x, run) == first + later;
      if first == [] {
        assert first + later == later;
        DisciplinedRunsAreAtomic(cfg, y, w, run[1..]);
      } else {
        assert (first + later)[0] == first[0] && (first + later)[1..] == later;
        DisciplinedRunsAreAtomic(cfg, y, Step(cfg, w, first[0].event, first[0].time), run[1..]);
      }
    }
  }

  lemma MatchesWhole(x: SplitWorld, w: World)
    requires Matches(x, w) && x.opening.None?
    ensures w == x.w
  {
  }

  /** The other way round: every run with whole binds is one in which each bind lands as it opens. */
  function SplitRun(cfg: Config, w: World, run: seq<Stamped>): seq<SplitStamped>
    requires Admissible(cfg, w, run)
    decreases |run|
  {
    if run == [] then []
    else
      var e, t := run[0].event, run[0].time;
      var v := Step(cfg, w, e, t);
      [SplitStamped(Runs(e), t)]
      + (if Binds(w, v) then [SplitStamped(BindLands, t)] else [])
      + SplitRun(cfg, v, run[1..])
  }

  lemma OpenThenLand(cfg: Config, w: World, e: Event, t: real)
    requires SplitWired(Whole(w)) && Enabled(w, e, t)
    ensures var v, x := Step(cfg, w, e, t), SplitStep(cfg, Whole(w), Runs(e), t);
            if Binds(w, v) then SplitEnabled(x, BindLands, t) && SplitStep(cfg, x, BindLands, t) == Whole(v)
            else x == Whole(v)
  {
    hide Move, Decide;
  }

  lemma {:induction false} AtomicRunsAreSplitRuns(cfg: Config, w: World, run: seq<Stamped>)
    requires SplitWired(Whole(w)) && Admissible(cfg, w, run)
    ensures SplitAdmissible(cfg, Whole(w), SplitRun(cfg, w, run))
    ensures SplitExec(cfg, Whole(w), SplitRun(cfg, w, run)) == Whole(Exec(cfg, w, run))
    decreases |run|
  {
    hide SplitStep, Step;
    if run == [] {
    } else {
      var e, t := run[0].event, run[0].time;
      var v, x := Step(cfg, w, e, t), SplitStep(cfg, Whole(w), Runs(e), t);
      OpenThenLand(cfg, w, e, t);
      SplitStepKeepsWired(cfg, Whole(w), Runs(e), t);
      var later := SplitRun(cfg, v, run[1..]);
      var split := SplitRun(cfg, w, run);
      if Binds(w, v) {
        SplitStepKeepsWired(cfg, x, BindLands, t);
        AtomicRunsAreSplitRuns(cfg, v, run[1..]);
        assert split[1..][0] == SplitStamped(BindLands, t) && split[1..][1..] == later;
        assert SplitAdmissible(cfg, x, split[1..]);
      } else {
        AtomicRunsAreSplitRuns(cfg, v, run[1..]);
        assert split[1..] == later;
      }
    }
  }
}
