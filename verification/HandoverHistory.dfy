/** What whole runs of the hand-over conserve: the machine invariant, the bounded history, the idle
    window behind every stop, the shutdown rate, and the accounts of starts and refusals. */
module HandoverHistory {
  import opened Common
  import opened ServerState
  import opened IdleMonitor
  import opened PortControl
  import opened Handover
  import HandoverSafety

  // ===== The invariant

  /** The deque is the tail of the full log, which is in time order. */
  ghost predicate HistoryInv(w: World) {
    && w.port.m.history == LastEntries(w.trace.marks)
    && Sorted(w.trace.marks) && AllUpTo(w.trace.marks, w.now)
  }

  /** Every poll strictly after `since` was quiet. */
  ghost predicate QuietSince(polls: seq<PollRecord>, since: real) {
    forall i :: 0 <= i < |polls| && polls[i].time > since ==> polls[i].quiet
  }

  ghost predicate JustifiedStop(cfg: Config, polls: seq<PollRecord>, s: StopRequest) {
    && s.polls <= |polls|
    && QuietSince(polls[..s.polls], s.idleSince)
    && s.time - s.idleSince >= Seconds(cfg.idleTimeoutMinutes)
  }

  ghost predicate PollsPast(polls: seq<PollRecord>, now: real) {
    forall i :: 0 <= i < |polls| ==> polls[i].time <= now
  }

  /** The clock of an IDLE machine covers quiet polls only. */
  ghost predicate ClockQuiet(m: Machine, polls: seq<PollRecord>) {
    m.state == Idle && m.idleSince.Some? ==> QuietSince(polls, m.idleSince.value)
  }

  /** So do the idle seconds of a stop call in flight. */
  ghost predicate CallQuiet(call: Option<StopCall>, polls: seq<PollRecord>, now: real) {
    call.Some? ==>
      call.value.at <= now && call.value.idle >= 0.0 && QuietSince(polls, call.value.at - call.value.idle)
  }

  ghost predicate StopsJustified(cfg: Config, polls: seq<PollRecord>, requests: seq<StopRequest>) {
    forall i :: 0 <= i < |requests| ==> JustifiedStop(cfg, polls, requests[i])
  }

  ghost predicate IdleInv(cfg: Config, w: World) {
    && PollsPast(w.trace.polls, w.now)
    && ClockQuiet(w.port.m, w.trace.polls)
    && CallQuiet(w.stopCall, w.trace.polls, w.now)
    && StopsJustified(cfg, w.trace.polls, w.trace.requests)
  }

  /** Until its first poll a process has seen nothing and stopped nothing. */
  ghost predicate PendingInv(w: World) {
    w.pending.Some? ==>
      && SnapshotInv(w.pending.value, w.now)
      && w.trace.polls == [] && w.trace.requests == [] && w.trace.completed == []
      && !w.trace.adopted && !w.trace.inherits && w.port.m.state != Stopping
  }

  ghost predicate AccountInv(w: World) {
    && w.trace.startCalls + w.paused == w.trace.loginReleases
    && (!w.trace.adopted ==>
          && w.port.m.startCount == w.trace.loginReleases + w.trace.eventReleases
          && w.trace.loginReleases + w.trace.eventReleases + (if Asleep(w.port.m.state) then 1 else 0)
             <= w.trace.sleepPeriods
          && |w.trace.marks| == w.port.m.startCount + w.port.m.stopCount)
  }

  ghost predicate Inv(cfg: Config, w: World) {
    && MachineInv(w.port.m, w.now)
    && PendingInv(w)
    && HistoryInv(w)
    && IdleInv(cfg, w)
    && AccountInv(w)
  }

  lemma StartInv(cfg: Config, pending: Option<Snapshot>, t0: real)
    requires pending.Some? ==> SnapshotInv(pending.value, t0)
    ensures Inv(cfg, Start(pending, t0))
  {
  }

  // ----- Machine and history

  lemma LastOfLast(log: seq<real>, t: real)
    ensures LastEntries(LastEntries(log) + [t]) == LastEntries(log + [t])
  {
  }

  /** One transition keeps machine and log in step. */
  lemma SettleKeepsHistory(w: World, p: Port, target: State, t: real)
    requires MachineInv(w.port.m, w.now) && HistoryInv(w) && w.now <= t
    requires p.m == Move(w.port.m, target, t)
    ensures MachineInv(p.m, t) && HistoryInv(Settle(w, p, t))
  {
    MoveKeepsInv(w.port.m, target, w.now, t);
    LastOfLast(w.trace.marks, t);
  }

  /** The parts of two traces that the machine's transitions and the polls write. */
  predicate SameRecord(a: Trace, b: Trace) {
    && a.marks == b.marks && a.completed == b.completed && a.sleepPeriods == b.sleepPeriods
    && a.requests == b.requests && a.polls == b.polls && a.starts == b.starts && a.stops == b.stops
    && a.adopted == b.adopted && a.inherits == b.inherits
  }

  /** A step that moves the machine by at most one accepted transition, never into STOPPING or IDLE, and
      records no more than that. */
  ghost predicate MovesOnce(w: World, w': World, t: real) {
    && (exists target :: (target == w.port.m.state || target in Targets(w.port.m.state))
                         && w'.port.m == Move(w.port.m, target, t))
    && (w'.port.m.state == Stopping ==> w.port.m.state == Stopping)
    && (w'.port.m.state == Idle ==> w'.port.m == w.port.m)
    && SameRecord(w'.trace, Settle(w, w'.port, t).trace)
    && w'.pending == w.pending && w'.now == t
    && (w'.stopCall == w.stopCall || w'.stopCall.None?)
  }

  lemma AcceptedMoveIsOne(w: World, w': World, target: State, t: real)
    requires target == w.port.m.state || (target in Targets(w.port.m.state) && target !in {Stopping, Idle})
    requires w'.port.m == Move(w.port.m, target, t)
    requires SameRecord(w'.trace, Settle(w, w'.port, t).trace)
    requires w'.pending == w.pending && w'.now == t && w'.stopCall == w.stopCall
    ensures MovesOnce(w, w', t)
  {
    hide LastEntries;
  }

  /** Every step but a poll and a stop rollback does that. */
  lemma OneMove(cfg: Config, w: World, e: Event, t: real)
    requires Enabled(w, e, t) && !e.Polled? && !e.StopCallFails?
    ensures MovesOnce(w, Step(cfg, w, e, t), t)
  {
    hide *;
    if e.LoginArrives? || e.StartEvent? {
      ReleaseMovesOnce(cfg, w, e, t);
    } else if e.StopEvent? {
      ReclaimMovesOnce(cfg, w, e.crashed, t);
    } else if e.StartCallFails? {
      FailedStartMovesOnce(cfg, w, e.bind, t);
    } else {
      OthersMoveNothing(cfg, w, e, t);
    }
  }

  lemma ReleaseMovesOnce(cfg: Config, w: World, e: Event, t: real)
    requires Enabled(w, e, t) && (e.LoginArrives? || e.StartEvent?)
    ensures MovesOnce(w, Step(cfg, w, e, t), t)
  {
    var m := w.port.m;
    var released := if e.LoginArrives? then LoginWakes(w.port, t).1 else ReleaseForStart(w.port, t).1 == Released;
    var target := if released then Starting else m.state;
    GraphByTarget(m.state, target);
    assert Move(m, m.state, t) == m;
    hide Move, Targets, MovesOnce;
    AcceptedMoveIsOne(w, Step(cfg, w, e, t), target, t);
  }

  lemma ReclaimMovesOnce(cfg: Config, w: World, crashed: bool, t: real)
    requires Enabled(w, StopEvent(crashed), t)
    ensures MovesOnce(w, Step(cfg, w, StopEvent(crashed), t), t)
  {
    var m := w.port.m;
    var target := if Asleep(m.state) then m.state else if crashed then Crashed else Stopped;
    GraphByTarget(m.state, target);
    assert Move(m, m.state, t) == m;
    hide Move, Targets, MovesOnce;
    AcceptedMoveIsOne(w, Step(cfg, w, StopEvent(crashed), t), target, t);
  }

  lemma FailedStartMovesOnce(cfg: Config, w: World, bind: Option<nat>, t: real)
    requires Enabled(w, StartCallFails(bind), t)
    ensures MovesOnce(w, Step(cfg, w, StartCallFails(bind), t), t)
  {
    GraphByTarget(w.port.m.state, Stopped);
    hide Move, Targets, MovesOnce;
    AcceptedMoveIsOne(w, Step(cfg, w, StartCallFails(bind), t), Stopped, t);
  }

  lemma OthersMoveNothing(cfg: Config, w: World, e: Event, t: real)
    requires Enabled(w, e, t) && !e.Polled? && !e.StopCallFails?
    requires !e.LoginArrives? && !e.StartEvent? && !e.StopEvent? && !e.StartCallFails?
    ensures MovesOnce(w, Step(cfg, w, e, t), t)
  {
    assert Step(cfg, w, e, t).port.m == Move(w.port.m, w.port.m.state, t);
    hide Move;
  }

  lemma ReconcileKeeps(w: World, r: Reading, t: real)
    requires MachineInv(w.port.m, w.now) && HistoryInv(w) && PendingInv(w) && w.now <= t
    ensures var v := Reconcile(w, r);
            MachineInv(v.port.m, v.now) && HistoryInv(v) && v.now == w.now
  {
    if w.pending.Some? {
      RestoreKeepsInv(w.port.m, w.pending.value, r.running && !r.crashed, w.now);
    }
  }

  /** A failed stop call lands in IDLE whatever happened meanwhile: every state has that edge. */
  lemma StopFailedLandsIdle(m: Machine, idle: real, before: real, now: real)
    requires MachineInv(m, before) && before <= now && idle >= 0.0
    ensures var back := StopFailed(m, idle, now);
            && back.state == Idle && back.idleSince == Some(now - idle)
            && back.refused == m.refused && MachineInv(back, now)
  {
  }

  /** What a poll does to the world, apart from the port and the counters. */
  lemma PollShape(cfg: Config, w: World, r: Reading, t: real)
    requires Enabled(w, Polled(r), t)
    ensures var v, w' := Reconcile(w, r), Step(cfg, w, Polled(r), t);
            var d := Decide(cfg, v.port.m, r, t);
            var settled := Settle(v, v.port.(m := d.m), t);
            && w'.port.m == d.m && w'.now == t && w'.pending.None?
            && w'.trace.polls == w.trace.polls + [PollRecord(t, Quiet(r))]
            && w'.stopCall == (if d.stop.Some? then Some(StopCall(d.stop.value, t)) else None)
            && w'.trace.requests ==
               (if d.stop.None? then w.trace.requests else
                  w.trace.requests
                  + [StopRequest(t, t - d.stop.value, |w.trace.polls| + 1, |settled.trace.starts|)])
            && w'.trace.marks == settled.trace.marks && w'.trace.completed == settled.trace.completed
            && w'.trace.starts == settled.trace.starts && w'.trace.stops == settled.trace.stops
            && w'.trace.inherits == settled.trace.inherits
  {
    hide Decide, LastEntries;
  }

  lemma StepKeepsMachine(cfg: Config, w: World, e: Event, t: real)
    requires Inv(cfg, w) && Enabled(w, e, t)
    ensures var w' := Step(cfg, w, e, t);
            MachineInv(w'.port.m, w'.now) && HistoryInv(w') && PendingInv(w')
  {
    hide Step, Decide, LastEntries, MachineInv, IdleInv, AccountInv;
    var w' := Step(cfg, w, e, t);
    if e.Polled? {
      var v := Reconcile(w, e.r);
      PollShape(cfg, w, e.r, t);
      ReconcileKeeps(w, e.r, t);
      DecideMakesOneMove(cfg, v.port.m, e.r, t);
      var target :| Decide(cfg, v.port.m, e.r, t).m == Move(v.port.m, target, t);
      SettleKeepsHistory(v, v.port.(m := Move(v.port.m, target, t)), target, t);
    } else if e.StopCallFails? {
      RollbackKeepsMachine(cfg, w, t);
    } else {
      OneMove(cfg, w, e, t);
      var target :| w'.port.m == Move(w.port.m, target, t);
      SettleKeepsHistory(w, w'.port, target, t);
      if w.pending.Some? {
        SnapshotStaysSound(w.pending.value, w.now, t);
      }
    }
  }

  lemma SnapshotStaysSound(snap: Snapshot, before: real, now: real)
    requires SnapshotInv(snap, before) && before <= now
    ensures SnapshotInv(snap, now)
  {
  }

  lemma RollbackKeepsMachine(cfg: Config, w: World, t: real)
    requires Inv(cfg, w) && Enabled(w, StopCallFails, t)
    ensures var w' := Step(cfg, w, StopCallFails, t);
            MachineInv(w'.port.m, w'.now) && HistoryInv(w') && PendingInv(w')
  {
    hide LastEntries;
    StopFailedLandsIdle(w.port.m, w.stopCall.value.idle, w.now, t);
    SettleKeepsHistory(w, w.port.(m := Move(w.port.m, Idle, t)), Idle, t);
    if w.pending.Some? {
      SnapshotStaysSound(w.pending.value, w.now, t);
    }
  }

  // ----- The idle window

  lemma StepKeepsIdle(cfg: Config, w: World, e: Event, t: real)
    requires Inv(cfg, w) && Enabled(w, e, t)
    ensures IdleInv(cfg, Step(cfg, w, e, t))
  {
    hide *;
    if e.Polled? {
      PollKeepsIdle(cfg, w, e.r, t);
    } else if e.StopCallFails? {
      RollbackKeepsIdle(cfg, w, t);
    } else {
      MoveStepKeepsIdle(cfg, w, e, t);
    }
  }

  /** The rolled-back clock reaches no further back than the one captured with the request. */
  lemma RollbackKeepsIdle(cfg: Config, w: World, t: real)
    requires Inv(cfg, w) && Enabled(w, StopCallFails, t)
    ensures IdleInv(cfg, Step(cfg, w, StopCallFails, t))
  {
    hide JustifiedStop, LastEntries;
    StopFailedLandsIdle(w.port.m, w.stopCall.value.idle, w.now, t);
  }

  lemma MoveStepKeepsIdle(cfg: Config, w: World, e: Event, t: real)
    requires Inv(cfg, w) && Enabled(w, e, t) && !e.Polled? && !e.StopCallFails?
    ensures IdleInv(cfg, Step(cfg, w, e, t))
  {
    hide Step, Move, StopsJustified, QuietSince, MachineInv, AccountInv, HistoryInv;
    OneMove(cfg, w, e, t);
  }

  /** A poll leaves IDLE only on a quiet reading, with the old clock or one that starts now. */
  lemma PollKeepsClock(cfg: Config, m: Machine, polls: seq<PollRecord>, r: Reading, t: real)
    requires ClockQuiet(m, polls) && PollsPast(polls, t)
    ensures ClockQuiet(Decide(cfg, m, r, t).m, polls + [PollRecord(t, Quiet(r))])
  {
    hide Decide;
    if Decide(cfg, m, r, t).m.state == Idle {
      IdleAfterPoll(cfg, m, r, t);
    }
  }

  /** A requested stop captures a clock that was quiet, this poll included. */
  lemma PollKeepsCall(cfg: Config, m: Machine, polls: seq<PollRecord>, r: Reading, t: real)
    requires ClockQuiet(m, polls) && MachineInv(m, t)
    requires Decide(cfg, m, r, t).stop.Some?
    ensures var stop := Decide(cfg, m, r, t).stop.value;
            && CallQuiet(Some(StopCall(stop, t)), polls + [PollRecord(t, Quiet(r))], t)
            && QuietSince(polls + [PollRecord(t, Quiet(r))], t - stop)
            && stop >= Seconds(cfg.idleTimeoutMinutes)
  {
    hide Decide, IsFlapping;
    StopRequestedExactly(cfg, m, r, t);
    assert t - IdleElapsed(m, t) == m.idleSince.value;
  }

  lemma PollKeepsRequests(cfg: Config, polls: seq<PollRecord>, rec: PollRecord, requests: seq<StopRequest>)
    requires StopsJustified(cfg, polls, requests)
    ensures StopsJustified(cfg, polls + [rec], requests)
  {
    forall i | 0 <= i < |requests|
      ensures JustifiedStop(cfg, polls + [rec], requests[i])
    {
      var s := requests[i];
      assert JustifiedStop(cfg, polls, s);
      assert (polls + [rec])[..s.polls] == polls[..s.polls];
    }
  }

  lemma NewRequestIsJustified(cfg: Config, polls: seq<PollRecord>, s: StopRequest)
    requires s.polls == |polls| && QuietSince(polls, s.idleSince)
    requires s.time - s.idleSince >= Seconds(cfg.idleTimeoutMinutes)
    ensures JustifiedStop(cfg, polls, s)
  {
    assert polls[..s.polls] == polls;
  }

  lemma PollKeepsIdle(cfg: Config, w: World, r: Reading, t: real)
    requires Inv(cfg, w) && Enabled(w, Polled(r), t)
    ensures IdleInv(cfg, Step(cfg, w, Polled(r), t))
  {
    hide Step, Decide, Reconcile, QuietSince, JustifiedStop, AccountInv;
    var v, w' := Reconcile(w, r), Step(cfg, w, Polled(r), t);
    var d := Decide(cfg, v.port.m, r, t);
    PollShape(cfg, w, r, t);
    ReconcileKeeps(w, r, t);
    ReconciledClock(w, r);
    PollKeepsClock(cfg, v.port.m, w.trace.polls, r, t);
    PollKeepsRequests(cfg, w.trace.polls, PollRecord(t, Quiet(r)), w.trace.requests);
    if d.stop.Some? {
      PollKeepsCall(cfg, v.port.m, w.trace.polls, r, t);
      NewRequestIsJustified(cfg, w'.trace.polls, w'.trace.requests[|w.trace.requests|]);
    }
  }

  /** The clock a snapshot brings in has no poll of this process to cover. */
  lemma ReconciledClock(w: World, r: Reading)
    requires PendingInv(w) && ClockQuiet(w.port.m, w.trace.polls)
    ensures ClockQuiet(Reconcile(w, r).port.m, w.trace.polls)
  {
  }

  // ----- The shutdown rate

  ghost predicate SpacedBy(times: seq<real>, gap: real) {
    forall i, j :: 0 <= i < j < |times| ==> times[j] - times[i] >= gap
  }

  /** The most completions a flap window may hold: twice the cycle limit, and if that allows none, the one
      that an adopted shutdown brings in. */
  function Limit(cfg: Config, inherits: bool): int {
    if cfg.flapMaxCycles < 1 && inherits then 1 else cfg.flapMaxCycles * 2
  }

  /** Among the shutdowns up to the i-th, those in the window that ends with it respect the limit. */
  ghost predicate WindowsBounded(cfg: Config, limit: int, times: seq<real>) {
    forall i :: 0 <= i < |times| ==> WindowBounded(cfg, limit, times, i)
  }

  predicate WindowBounded(cfg: Config, limit: int, times: seq<real>, i: nat)
    requires i < |times|
  {
    CountAfter(times[..i + 1], times[i] - Seconds(cfg.flapWindowMinutes)) <= limit
  }

  /** No more of `part` than of `whole` lie after any instant. */
  ghost predicate Dominated(part: seq<real>, whole: seq<real>) {
    forall x :: CountAfter(part, x) <= CountAfter(whole, x)
  }

  /** A machine that is STOPPING got there past the cooldown and the flap guard, on the full log, or came
      so with the adopted snapshot. */
  ghost predicate StoppingJustified(cfg: Config, w: World) {
    w.port.m.state == Stopping ==>
      if w.trace.requests == [] then w.trace.inherits && w.trace.completed == []
      else
        var at := w.trace.requests[|w.trace.requests| - 1].time;
        at <= w.now && !InStopCooldown(cfg, w.port.m, at) && !FlappingOn(cfg, w.trace.marks, at)
  }

  /** The completed shutdowns are past, before the last stop, spaced, bounded, and all in the log. */
  ghost predicate CompletionsInv(cfg: Config, limit: int, done: seq<real>, marks: seq<real>, lastStop: Option<real>) {
    && (done != [] ==> lastStop.Some? && AllUpTo(done, lastStop.value))
    && Sorted(done) && SpacedBy(done, Seconds(cfg.stopCooldownMinutes))
    && WindowsBounded(cfg, limit, done)
    && Dominated(done, marks)
  }

  ghost predicate RateInv(cfg: Config, w: World) {
    && CompletionsInv(cfg, Limit(cfg, w.trace.inherits), w.trace.completed, w.trace.marks, w.port.m.lastStop)
    && StoppingJustified(cfg, w)
  }

  lemma WindowsExtend(cfg: Config, limit: int, done: seq<real>, t: real)
    requires WindowsBounded(cfg, limit, done)
    requires CountAfter(done + [t], t - Seconds(cfg.flapWindowMinutes)) <= limit
    ensures WindowsBounded(cfg, limit, done + [t])
  {
    var all := done + [t];
    forall i | 0 <= i < |all|
      ensures WindowBounded(cfg, limit, all, i)
    {
      assert i < |done| ==> WindowBounded(cfg, limit, done, i);
      assert all[..i + 1] == if i < |done| then done[..i + 1] else all;
    }
  }

  /** The window of a shutdown requested at `at` past the flap guard and completed at `t`. */
  lemma NewestWindow(cfg: Config, done: seq<real>, marks: seq<real>, at: real, t: real)
    requires Dominated(done, marks) && at <= t && !FlappingOn(cfg, marks, at)
    ensures CountAfter(done + [t], t - Seconds(cfg.flapWindowMinutes)) <= cfg.flapMaxCycles * 2
  {
    var window := Seconds(cfg.flapWindowMinutes);
    CountAfterAppend(done, t, t - window);
    CountAfterMonotone(done, at - window, t - window);
    assert CountAfter(done, at - window) <= CountAfter(marks, at - window);
  }

  lemma CompletionKeepsRate(cfg: Config, limit: int, done: seq<real>, marks: seq<real>, m: Machine, at: real, t: real)
    requires CompletionsInv(cfg, limit, done, marks, m.lastStop) && at <= t && cfg.flapMaxCycles * 2 <= limit
    requires !InStopCooldown(cfg, m, at) && !FlappingOn(cfg, marks, at)
    requires UpTo(m.lastStop, t)
    ensures CompletionsInv(cfg, limit, done + [t], marks + [t], Some(t))
  {
    hide CountAfter;
    MarkKeepsDominated(done, marks, t);
    NewestWindow(cfg, done, marks, at, t);
    WindowsExtend(cfg, limit, done, t);
  }

  /** An adopted shutdown that completes is the first completion of its process. */
  lemma InheritedCompletion(cfg: Config, limit: int, marks: seq<real>, lastStop: Option<real>, t: real)
    requires CompletionsInv(cfg, limit, [], marks, lastStop) && limit >= 1
    ensures CompletionsInv(cfg, limit, [t], marks + [t], Some(t))
  {
    MarkKeepsDominated([], marks, t);
    assert [] + [t] == [t];
    CountAfterBounds([t], t - Seconds(cfg.flapWindowMinutes));
    WindowsExtend(cfg, limit, [], t);
  }

  lemma MarkKeepsDominated(part: seq<real>, whole: seq<real>, t: real)
    requires Dominated(part, whole)
    ensures Dominated(part, whole + [t]) && Dominated(part + [t], whole + [t])
  {
    forall x
      ensures CountAfter(part, x) <= CountAfter(whole + [t], x)
      ensures CountAfter(part + [t], x) <= CountAfter(whole + [t], x)
    {
      CountAfterAppend(part, t, x);
      CountAfterAppend(whole, t, x);
      assert CountAfter(part, x) <= CountAfter(whole, x);
    }
  }

  /** A start or stop recorded beside the completions keeps the invariant. */
  lemma MarkKeepsCompletions(cfg: Config, limit: int, done: seq<real>, marks: seq<real>,
                             lastStop: Option<real>, t: real)
    requires CompletionsInv(cfg, limit, done, marks, lastStop) && UpTo(lastStop, t)
    ensures CompletionsInv(cfg, limit, done, marks + [t], lastStop)
    ensures CompletionsInv(cfg, limit, done, marks + [t], Some(t))
  {
    hide CountAfter, WindowBounded;
    MarkKeepsDominated(done, marks, t);
  }

  lemma SettleKeepsRate(cfg: Config, w: World, p: Port, target: State, t: real)
    requires RateInv(cfg, w) && UpTo(w.port.m.lastStop, w.now) && w.now <= t
    requires p.m == Move(w.port.m, target, t) && (p.m.state == Stopping ==> w.port.m.state == Stopping)
    ensures RateInv(cfg, Settle(w, p, t))
  {
    hide CompletionsInv, LastEntries;
    var m, tr := w.port.m, w.trace;
    var tr' := Settle(w, p, t).trace;
    var limit := Limit(cfg, tr.inherits);
    if m.state == p.m.state {
      assert tr' == tr && p.m.lastStop == m.lastStop;
    } else {
      MarkKeepsCompletions(cfg, limit, tr.completed, tr.marks, m.lastStop, t);
      if m.state == Stopping && p.m.state == Stopped {
        if tr.requests == [] {
          InheritedCompletion(cfg, limit, tr.marks, m.lastStop, t);
          assert tr'.completed == [t];
        } else {
          CompletionKeepsRate(cfg, limit, tr.completed, tr.marks, m, tr.requests[|tr.requests| - 1].time, t);
        }
      }
      assert CompletionsInv(cfg, limit, tr'.completed, tr'.marks, p.m.lastStop);
    }
  }

  /** The rate invariant reads the machine, the record and the time only. */
  lemma RateReadsRecord(cfg: Config, w: World, v: World)
    requires RateInv(cfg, w) && SameRecord(w.trace, v.trace) && w.now == v.now
    requires w.port.m.state == v.port.m.state && w.port.m.lastStop == v.port.m.lastStop
    ensures RateInv(cfg, v)
  {
    hide CompletionsInv;
  }

  lemma StepKeepsRate(cfg: Config, w: World, e: Event, t: real)
    requires cfg.flapMaxCycles * 2 <= HISTORY_LENGTH
    requires Inv(cfg, w) && RateInv(cfg, w) && Enabled(w, e, t)
    ensures RateInv(cfg, Step(cfg, w, e, t))
  {
    hide *;
    if e.Polled? {
      PollKeepsRate(cfg, w, e.r, t);
    } else if e.StopCallFails? {
      RollbackKeepsRate(cfg, w, t);
    } else {
      MoveStepKeepsRate(cfg, w, e, t);
    }
  }

  lemma RollbackKeepsRate(cfg: Config, w: World, t: real)
    requires Inv(cfg, w) && RateInv(cfg, w) && Enabled(w, StopCallFails, t)
    ensures RateInv(cfg, Step(cfg, w, StopCallFails, t))
  {
    hide RateInv, LastEntries;
    var p := w.port.(m := Move(w.port.m, Idle, t));
    SettleKeepsRate(cfg, w, p, Idle, t);
    RateReadsRecord(cfg, Settle(w, p, t), Step(cfg, w, StopCallFails, t));
  }

  lemma MoveStepKeepsRate(cfg: Config, w: World, e: Event, t: real)
    requires Inv(cfg, w) && RateInv(cfg, w) && Enabled(w, e, t) && !e.Polled? && !e.StopCallFails?
    ensures RateInv(cfg, Step(cfg, w, e, t))
  {
    hide Step, RateInv, Move, HistoryInv, IdleInv, AccountInv;
    var w' := Step(cfg, w, e, t);
    OneMove(cfg, w, e, t);
    var target :| w'.port.m == Move(w.port.m, target, t);
    SettleKeepsRate(cfg, w, w'.port, target, t);
    RateReadsRecord(cfg, Settle(w, w'.port, t), w');
  }

  /** Adopting a snapshot starts from no completions, on whatever log it brings. */
  lemma ReconcileKeepsRate(cfg: Config, w: World, r: Reading)
    requires PendingInv(w) && RateInv(cfg, w)
    ensures RateInv(cfg, Reconcile(w, r))
  {
    var v := Reconcile(w, r);
    if v.trace != w.trace {
      assert v.trace.completed == [];
    }
  }

  lemma PollKeepsRate(cfg: Config, w: World, r: Reading, t: real)
    requires cfg.flapMaxCycles * 2 <= HISTORY_LENGTH
    requires Inv(cfg, w) && RateInv(cfg, w) && Enabled(w, Polled(r), t)
    ensures RateInv(cfg, Step(cfg, w, Polled(r), t))
  {
    hide Step, Reconcile, Decide, CompletionsInv, LastEntries, CountAfter, IdleInv, AccountInv;
    var v := Reconcile(w, r);
    var d := Decide(cfg, v.port.m, r, t);
    ReconcileKeeps(w, r, t);
    ReconcileKeepsRate(cfg, w, r);
    PollShape(cfg, w, r, t);
    StopRequestedExactly(cfg, v.port.m, r, t);
    DecideMakesOneMove(cfg, v.port.m, r, t);
    ReconcileKeepsRequests(w, r);
    var target :| d.m == Move(v.port.m, target, t);
    if d.stop.Some? {
      RequestIsJustified(cfg, v, t);
    } else {
      SettleKeepsRate(cfg, v, v.port.(m := d.m), target, t);
    }
  }

  lemma ReconcileKeepsRequests(w: World, r: Reading)
    ensures Reconcile(w, r).trace.requests == w.trace.requests
  {
  }

  lemma RequestIsJustified(cfg: Config, v: World, t: real)
    requires cfg.flapMaxCycles * 2 <= HISTORY_LENGTH && HistoryInv(v)
    requires !StopHeldBack(cfg, v.port.m, t)
    ensures !InStopCooldown(cfg, v.port.m, t) && !FlappingOn(cfg, v.trace.marks, t)
  {
    BoundedCount(v.trace.marks, t - Seconds(cfg.flapWindowMinutes));
  }

  // ----- Accounts

  /** Only a release starts the server: no poll does. */
  lemma PollNeverStarts(cfg: Config, m: Machine, r: Reading, now: real)
    ensures var m' := Decide(cfg, m, r, now).m;
            m'.startCount == m.startCount && (m'.state == Starting ==> m.state == Starting)
  {
  }

  lemma MoveCounts(m: Machine, target: State, now: real)
    ensures var m' := Move(m, target, now);
            && m'.startCount == m.startCount + (if m'.state != m.state && m'.state == Starting then 1 else 0)
            && m'.stopCount == m.stopCount + (if m'.state != m.state && m'.state == Stopped then 1 else 0)
  {
  }

  lemma StepKeepsAccount(cfg: Config, w: World, e: Event, t: real)
    requires AccountInv(w) && Enabled(w, e, t)
    ensures AccountInv(Step(cfg, w, e, t))
  {
    hide *;
    if e.Polled? {
      PollKeepsAccount(cfg, w, e.r, t);
    } else if e.StopCallFails? {
      RollbackKeepsAccount(cfg, w, t);
    } else {
      MoveStepKeepsAccount(cfg, w, e, t);
    }
  }

  lemma PollKeepsAccount(cfg: Config, w: World, r: Reading, t: real)
    requires AccountInv(w) && Enabled(w, Polled(r), t)
    ensures AccountInv(Step(cfg, w, Polled(r), t))
  {
    hide Decide, Move;
    var v := Reconcile(w, r);
    PollNeverStarts(cfg, v.port.m, r, t);
    DecideMakesOneMove(cfg, v.port.m, r, t);
    var target :| Decide(cfg, v.port.m, r, t).m == Move(v.port.m, target, t);
    MoveCounts(v.port.m, target, t);
  }

  lemma RollbackKeepsAccount(cfg: Config, w: World, t: real)
    requires AccountInv(w) && Enabled(w, StopCallFails, t)
    ensures AccountInv(Step(cfg, w, StopCallFails, t))
  {
    MoveCounts(w.port.m, Idle, t);
  }

  lemma MoveStepKeepsAccount(cfg: Config, w: World, e: Event, t: real)
    requires AccountInv(w) && Enabled(w, e, t) && !e.Polled? && !e.StopCallFails?
    ensures AccountInv(Step(cfg, w, e, t))
  {
    hide *;
    if e.LoginArrives? || e.StartEvent? {
      ReleaseKeepsAccount(cfg, w, e, t);
    } else {
      OthersKeepAccount(cfg, w, e, t);
    }
  }

  lemma ReleaseKeepsAccount(cfg: Config, w: World, e: Event, t: real)
    requires AccountInv(w) && Enabled(w, e, t) && (e.LoginArrives? || e.StartEvent?)
    ensures AccountInv(Step(cfg, w, e, t))
  {
    hide LastEntries;
  }

  lemma OthersKeepAccount(cfg: Config, w: World, e: Event, t: real)
    requires AccountInv(w) && Enabled(w, e, t)
    requires !e.Polled? && !e.StopCallFails? && !e.LoginArrives? && !e.StartEvent?
    ensures AccountInv(Step(cfg, w, e, t))
  {
    hide LastEntries;
  }

  // ----- The start grace

  ghost predicate PastGrace(cfg: Config, starts: seq<real>, s: StopRequest) {
    s.starts <= |starts| &&
    forall i :: 0 <= i < s.starts ==> s.time - starts[i] >= Seconds(cfg.startGraceMinutes)
  }

  ghost predicate AllPastGrace(cfg: Config, starts: seq<real>, requests: seq<StopRequest>) {
    forall k :: 0 <= k < |requests| ==> PastGrace(cfg, starts, requests[k])
  }

  function LastOf(times: seq<real>): Option<real> {
    if times == [] then None else Some(times[|times| - 1])
  }

  /** `last` is the last of the recorded times, and none of them is later. */
  ghost predicate LastKnown(times: seq<real>, last: Option<real>) {
    last == LastOf(times) && (last.Some? ==> AllUpTo(times, last.value))
  }

  /** The machine knows its last start and its last stop, and every stop request was past the grace of all
      starts before it. */
  ghost predicate GraceInv(cfg: Config, w: World) {
    && LastKnown(w.trace.starts, w.port.m.lastStart)
    && LastKnown(w.trace.stops, w.port.m.lastStop)
    && AllPastGrace(cfg, w.trace.starts, w.trace.requests)
  }

  lemma NewStartKeepsGrace(cfg: Config, starts: seq<real>, t: real, requests: seq<StopRequest>)
    requires AllPastGrace(cfg, starts, requests)
    ensures AllPastGrace(cfg, starts + [t], requests)
  {
    forall k | 0 <= k < |requests|
      ensures PastGrace(cfg, starts + [t], requests[k])
    {
      assert PastGrace(cfg, starts, requests[k]);
    }
  }

  lemma SettleKeepsGrace(cfg: Config, w: World, p: Port, target: State, t: real)
    requires GraceInv(cfg, w) && w.now <= t
    requires UpTo(w.port.m.lastStart, w.now) && UpTo(w.port.m.lastStop, w.now)
    requires p.m == Move(w.port.m, target, t)
    ensures GraceInv(cfg, Settle(w, p, t))
  {
    hide LastEntries, AllPastGrace;
    NewStartKeepsGrace(cfg, w.trace.starts, t, w.trace.requests);
  }

  lemma StepKeepsGrace(cfg: Config, w: World, e: Event, t: real)
    requires Inv(cfg, w) && GraceInv(cfg, w) && Enabled(w, e, t)
    ensures GraceInv(cfg, Step(cfg, w, e, t))
  {
    hide *;
    if e.Polled? {
      PollKeepsGrace(cfg, w, e.r, t);
    } else if e.StopCallFails? {
      RollbackKeepsGrace(cfg, w, t);
    } else {
      MoveStepKeepsGrace(cfg, w, e, t);
    }
  }

  lemma RollbackKeepsGrace(cfg: Config, w: World, t: real)
    requires Inv(cfg, w) && GraceInv(cfg, w) && Enabled(w, StopCallFails, t)
    ensures GraceInv(cfg, Step(cfg, w, StopCallFails, t))
  {
    hide LastEntries, AllPastGrace;
    SettleKeepsGrace(cfg, w, w.port.(m := Move(w.port.m, Idle, t)), Idle, t);
  }

  lemma MoveStepKeepsGrace(cfg: Config, w: World, e: Event, t: real)
    requires Inv(cfg, w) && GraceInv(cfg, w) && Enabled(w, e, t) && !e.Polled? && !e.StopCallFails?
    ensures GraceInv(cfg, Step(cfg, w, e, t))
  {
    hide Step, Move, AllPastGrace, LastKnown, HistoryInv, IdleInv, AccountInv;
    var w' := Step(cfg, w, e, t);
    OneMove(cfg, w, e, t);
    var target :| w'.port.m == Move(w.port.m, target, t);
    SettleKeepsGrace(cfg, w, w'.port, target, t);
  }

  lemma ReconcileKeepsGrace(cfg: Config, w: World, r: Reading)
    requires PendingInv(w) && GraceInv(cfg, w)
    ensures GraceInv(cfg, Reconcile(w, r))
  {
  }

  /** A requested stop is past the grace of the last start known, hence of all of them. */
  lemma NewRequestPastGrace(cfg: Config, m: Machine, starts: seq<real>, s: StopRequest)
    requires LastKnown(starts, m.lastStart) && !InStartGrace(cfg, m, s.time) && s.starts == |starts|
    ensures PastGrace(cfg, starts, s)
  {
  }

  lemma PollKeepsGrace(cfg: Config, w: World, r: Reading, t: real)
    requires Inv(cfg, w) && GraceInv(cfg, w) && Enabled(w, Polled(r), t)
    ensures GraceInv(cfg, Step(cfg, w, Polled(r), t))
  {
    hide Step, Reconcile, Decide, LastEntries, IdleInv, AccountInv, PastGrace;
    var v, w' := Reconcile(w, r), Step(cfg, w, Polled(r), t);
    var d := Decide(cfg, v.port.m, r, t);
    ReconcileKeeps(w, r, t);
    ReconcileKeepsGrace(cfg, w, r);
    ReconcileKeepsRequests(w, r);
    PollShape(cfg, w, r, t);
    StopRequestedExactly(cfg, v.port.m, r, t);
    DecideMakesOneMove(cfg, v.port.m, r, t);
    var target :| d.m == Move(v.port.m, target, t);
    SettleKeepsGrace(cfg, v, v.port.(m := d.m), target, t);
    if d.stop.Some? {
      NewRequestPastGrace(cfg, v.port.m, v.trace.starts, w'.trace.requests[|w.trace.requests|]);
    }
  }

  // ===== Over whole runs

  lemma {:induction false} RunsKeepInv(cfg: Config, w: World, run: seq<Stamped>)
    requires Inv(cfg, w) && Admissible(cfg, w, run)
    ensures Inv(cfg, Exec(cfg, w, run))
    ensures cfg.flapMaxCycles * 2 <= HISTORY_LENGTH && RateInv(cfg, w) ==> RateInv(cfg, Exec(cfg, w, run))
    ensures GraceInv(cfg, w) ==> GraceInv(cfg, Exec(cfg, w, run))
    decreases |run|
  {
    hide RateInv, GraceInv, MachineInv, PendingInv, HistoryInv, IdleInv, AccountInv, Step, Enabled;
    if run == [] {
    } else {
      var e, t := run[0].event, run[0].time;
      StepKeepsMachine(cfg, w, e, t);
      StepKeepsIdle(cfg, w, e, t);
      StepKeepsAccount(cfg, w, e, t);
      if cfg.flapMaxCycles * 2 <= HISTORY_LENGTH && RateInv(cfg, w) {
        StepKeepsRate(cfg, w, e, t);
      }
      if GraceInv(cfg, w) {
        StepKeepsGrace(cfg, w, e, t);
      }
      RunsKeepInv(cfg, Step(cfg, w, e, t), run[1..]);
    }
  }

  /** The machine invariant holds in every run, with or without a snapshot to reconcile. */
  lemma MachineInvariant(cfg: Config, pending: Option<Snapshot>, t0: real, run: seq<Stamped>)
    requires pending.Some? ==> SnapshotInv(pending.value, t0)
    requires Admissible(cfg, Start(pending, t0), run)
    ensures var w := Exec(cfg, Start(pending, t0), run);
            MachineInv(w.port.m, w.now)
  {
    StartInv(cfg, pending, t0);
    RunsKeepInv(cfg, Start(pending, t0), run);
  }

  /** Whenever a stop is requested, every poll this process made strictly after the idle clock it relied
      on was quiet, and that clock is at least the idle timeout old. */
  lemma IdleWindowSafety(cfg: Config, pending: Option<Snapshot>, t0: real, run: seq<Stamped>, k: nat)
    requires pending.Some? ==> SnapshotInv(pending.value, t0)
    requires Admissible(cfg, Start(pending, t0), run)
    requires k < |Exec(cfg, Start(pending, t0), run).trace.requests|
    ensures var tr := Exec(cfg, Start(pending, t0), run).trace;
            var s := tr.requests[k];
            && s.time - s.idleSince >= 60.0 * cfg.idleTimeoutMinutes as real
            && s.polls <= |tr.polls|
            && forall i :: 0 <= i < s.polls && tr.polls[i].time > s.idleSince ==> tr.polls[i].quiet
  {
    StartInv(cfg, pending, t0);
    RunsKeepInv(cfg, Start(pending, t0), run);
    var tr := Exec(cfg, Start(pending, t0), run).trace;
    var s := tr.requests[k];
    assert JustifiedStop(cfg, tr.polls, s);
    forall i | 0 <= i < s.polls && tr.polls[i].time > s.idleSince
      ensures tr.polls[i].quiet
    {
      assert tr.polls[..s.polls][i] == tr.polls[i];
    }
  }

  /** The deque answers the flap question as the unbounded log of the whole run would, at any instant; the
      log of a run that adopts a snapshot begins with the history saved in it. */
  lemma HistoryRefinesLog(cfg: Config, pending: Option<Snapshot>, t0: real, run: seq<Stamped>, now: real)
    requires cfg.flapMaxCycles * 2 <= HISTORY_LENGTH
    requires pending.Some? ==> SnapshotInv(pending.value, t0)
    requires Admissible(cfg, Start(pending, t0), run)
    ensures var w := Exec(cfg, Start(pending, t0), run);
            && IsFlapping(cfg, w.port.m, now) == FlappingOn(cfg, w.trace.marks, now)
            && (pending.None? ==> |w.trace.marks| == w.port.m.startCount + w.port.m.stopCount)
  {
    hide Step, LastEntries, CountAfter;
    StartInv(cfg, pending, t0);
    RunsKeepInv(cfg, Start(pending, t0), run);
    if pending.None? {
      HandoverSafety.FreshRunsAreClean(cfg, Start(None, t0), run);
    }
    BoundedCount(Exec(cfg, Start(pending, t0), run).trace.marks, now - Seconds(cfg.flapWindowMinutes));
  }

  function Positive(n: int): nat {
    if n > 0 then n else 0
  }

  /** Windows that end with a completion bound every window (x, x + length]. */
  lemma {:induction false} AnyWindow(cfg: Config, limit: int, done: seq<real>, x: real)
    requires Sorted(done) && WindowsBounded(cfg, limit, done)
    ensures CountAfter(done, x) - CountAfter(done, x + Seconds(cfg.flapWindowMinutes)) <= if limit > 0 then limit else 0
  {
    var window := Seconds(cfg.flapWindowMinutes);
    if window < 0.0 {
      CountAfterMonotone(done, x + window, x);
    } else if done == [] {
    } else {
      var n := |done| - 1;
      if done[n] > x + window {
        FrontWindows(cfg, limit, done);
        AnyWindow(cfg, limit, done[..n], x);
      } else {
        LastWindow(cfg, limit, done, x);
      }
    }
  }

  lemma FrontWindows(cfg: Config, limit: int, done: seq<real>)
    requires done != [] && Sorted(done) && WindowsBounded(cfg, limit, done)
    ensures Sorted(done[..|done| - 1]) && WindowsBounded(cfg, limit, done[..|done| - 1])
  {
    var front := done[..|done| - 1];
    forall i | 0 <= i < |front|
      ensures WindowBounded(cfg, limit, front, i)
    {
      assert WindowBounded(cfg, limit, done, i);
      assert front[..i + 1] == done[..i + 1];
    }
  }

  lemma LastWindow(cfg: Config, limit: int, done: seq<real>, x: real)
    requires done != [] && WindowsBounded(cfg, limit, done) && done[|done| - 1] <= x + Seconds(cfg.flapWindowMinutes)
    ensures CountAfter(done, x) <= limit
  {
    var n := |done| - 1;
    assert WindowBounded(cfg, limit, done, n);
    assert done[..n + 1] == done;
    CountAfterMonotone(done, done[n] - Seconds(cfg.flapWindowMinutes), x);
  }

  /** The snapshot was taken in the middle of a shutdown. */
  predicate SavedStopping(pending: Option<Snapshot>) {
    pending.Some? && StateNamed(pending.value.state) == Some(Stopping)
  }

  lemma {:induction false} InheritsOnlyStopping(cfg: Config, w: World, run: seq<Stamped>)
    requires Admissible(cfg, w, run)
    ensures Exec(cfg, w, run).trace.inherits ==> w.trace.inherits || SavedStopping(w.pending)
    decreases |run|
  {
    if run == [] {
    } else {
      StepInherits(cfg, w, run[0].event, run[0].time);
      InheritsOnlyStopping(cfg, Step(cfg, w, run[0].event, run[0].time), run[1..]);
    }
  }

  lemma StepInherits(cfg: Config, w: World, e: Event, t: real)
    requires Enabled(w, e, t)
    ensures var w' := Step(cfg, w, e, t);
            && (w'.trace.inherits ==> w.trace.inherits || SavedStopping(w.pending))
            && (w'.pending == w.pending || w'.pending.None?)
  {
    hide LastEntries, Decide;
  }

  /** Main result: with a flap limit the deque can hold, completed idle shutdowns are at least the stop
      cooldown apart, and every flap window contains at most twice the cycle limit of them.  A snapshot
      taken in the middle of a shutdown adds its completion, which matters only where the limit allows
      none at all. */
  lemma ShutdownRate(cfg: Config, pending: Option<Snapshot>, t0: real, run: seq<Stamped>, x: real)
    requires cfg.flapMaxCycles * 2 <= HISTORY_LENGTH
    requires pending.Some? ==> SnapshotInv(pending.value, t0)
    requires Admissible(cfg, Start(pending, t0), run)
    ensures var done := Exec(cfg, Start(pending, t0), run).trace.completed;
            && SpacedBy(done, 60.0 * cfg.stopCooldownMinutes as real)
            && CountAfter(done, x) - CountAfter(done, x + 60.0 * cfg.flapWindowMinutes as real)
               <= 2 * Positive(cfg.flapMaxCycles) + if cfg.flapMaxCycles < 1 && SavedStopping(pending) then 1 else 0
  {
    hide Step, CountAfter;
    var w := Start(pending, t0);
    StartInv(cfg, pending, t0);
    RunsKeepInv(cfg, w, run);
    InheritsOnlyStopping(cfg, w, run);
    var tr := Exec(cfg, w, run).trace;
    AnyWindow(cfg, Limit(cfg, tr.inherits), tr.completed, x);
  }

  /** No stop is requested within the start grace of a start recorded before it, the last start known to an
      adopted snapshot included. */
  lemma StartGraceIsKept(cfg: Config, pending: Option<Snapshot>, t0: real, run: seq<Stamped>, k: nat)
    requires pending.Some? ==> SnapshotInv(pending.value, t0)
    requires Admissible(cfg, Start(pending, t0), run)
    requires k < |Exec(cfg, Start(pending, t0), run).trace.requests|
    ensures var tr := Exec(cfg, Start(pending, t0), run).trace;
            var s := tr.requests[k];
            s.starts <= |tr.starts| &&
            forall i :: 0 <= i < s.starts ==> s.time - tr.starts[i] >= 60.0 * cfg.startGraceMinutes as real
  {
    hide Step;
    StartInv(cfg, pending, t0);
    RunsKeepInv(cfg, Start(pending, t0), run);
    var tr := Exec(cfg, Start(pending, t0), run).trace;
    assert PastGrace(cfg, tr.starts, tr.requests[k]);
  }

  /** Over any run, restored or not, the machine's last start and last stop are the last entries into STARTING
      and STOPPED, and nothing else renews or clears them. */
  lemma LastStartAndStopAreKnown(cfg: Config, pending: Option<Snapshot>, t0: real, run: seq<Stamped>)
    requires pending.Some? ==> SnapshotInv(pending.value, t0)
    requires Admissible(cfg, Start(pending, t0), run)
    ensures var w := Exec(cfg, Start(pending, t0), run);
            w.port.m.lastStart == LastOf(w.trace.starts) && w.port.m.lastStop == LastOf(w.trace.stops)
  {
    hide Step;
    StartInv(cfg, pending, t0);
    RunsKeepInv(cfg, Start(pending, t0), run);
  }

  /** Main result: after any run, when a poll requests a stop, read off the log alone: a quiet reading of an
      IDLE server, its last start a start grace ago and its last stop a stop cooldown ago, fewer than two marks
      per cycle in the flap window, and the idle clock a timeout old.  All times in seconds. */
  lemma PollStopsExactly(cfg: Config, pending: Option<Snapshot>, t0: real, run: seq<Stamped>, r: Reading, t: real)
    requires cfg.flapMaxCycles * 2 <= 20
    requires pending.Some? ==> SnapshotInv(pending.value, t0)
    requires Admissible(cfg, Start(pending, t0), run)
    ensures var w := Exec(cfg, Start(pending, t0), run);
            var starts, stops, marks := w.trace.starts, w.trace.stops, w.trace.marks;
            Decide(cfg, w.port.m, r, t).stop.Some? <==>
            && w.port.m.state == Idle && r.running && !r.crashed && r.online <= 0
            && (starts != [] ==> t >= starts[|starts| - 1] + 60.0 * cfg.startGraceMinutes as real)
            && (stops != [] ==> t >= stops[|stops| - 1] + 60.0 * cfg.stopCooldownMinutes as real)
            && |set i | 0 <= i < |marks| && t < marks[i] + 60.0 * cfg.flapWindowMinutes as real|
               < 2 * cfg.flapMaxCycles
            && w.port.m.idleSince.Some?
            && t - w.port.m.idleSince.value >= 60.0 * cfg.idleTimeoutMinutes as real
  {
    hide Step, Decide;
    LastStartAndStopAreKnown(cfg, pending, t0, run);
    MachineInvariant(cfg, pending, t0, run);
    HistoryRefinesLog(cfg, pending, t0, run, t);
    var w := Exec(cfg, Start(pending, t0), run);
    StopRequestedExactly(cfg, w.port.m, r, t);
    GuardsLetGoExactly(cfg, w.port.m, t);
    GuardsLetGoExactly(cfg, w.port.m.(history := w.trace.marks), t);
    hide IsFlapping, InStartGrace, InStopCooldown, IdleTimeoutReached;
    assert IsFlapping(cfg, w.port.m.(history := w.trace.marks), t) == FlappingOn(cfg, w.trace.marks, t) by {
      FlapReadsHistory(cfg, w.port.m, w.trace.marks, t);
    }
  }

  lemma FlapReadsHistory(cfg: Config, m: Machine, log: seq<real>, t: real)
    ensures IsFlapping(cfg, m.(history := log), t) == FlappingOn(cfg, log, t)
  {
  }

  /** Every start counted was released by a login or an event, there are no more of them than sleeps, and every
      login that released one has made its start call or is still in its pause. */
  lemma StartAccounting(cfg: Config, t0: real, run: seq<Stamped>)
    requires Admissible(cfg, Start(None, t0), run)
    ensures var w := Exec(cfg, Start(None, t0), run);
            && w.port.m.startCount == w.trace.loginReleases + w.trace.eventReleases
            && w.trace.startCalls + w.paused == w.trace.loginReleases
            && w.port.m.startCount + (if Asleep(w.port.m.state) then 1 else 0) <= w.trace.sleepPeriods
  {
    StartInv(cfg, None, t0);
    RunsKeepInv(cfg, Start(None, t0), run);
    HandoverSafety.FreshRunsAreClean(cfg, Start(None, t0), run);
  }

  function Releases(w: World): nat {
    w.trace.loginReleases + w.trace.eventReleases
  }

  function Sleeping(w: World): nat {
    if Asleep(w.port.m.state) then 1 else 0
  }

  /** A release ends a sleep, and every sleep in which the server now is was entered. */
  ghost predicate ReleasesCovered(w: World, v: World) {
    && Releases(w) <= Releases(v) && w.trace.sleepPeriods <= v.trace.sleepPeriods
    && Releases(v) - Releases(w) + Sleeping(v) <= v.trace.sleepPeriods - w.trace.sleepPeriods + Sleeping(w)
  }

  lemma PollReleases(cfg: Config, w: World, r: Reading, t: real)
    requires w.pending.None? && Enabled(w, Polled(r), t)
    ensures var v := Step(cfg, w, Polled(r), t);
            v.pending.None? && ReleasesCovered(w, v)
  {
    hide LastEntries, Decide;
  }

  lemma LoginOrEventReleases(cfg: Config, w: World, e: Event, t: real)
    requires w.pending.None? && Enabled(w, e, t) && (e.LoginArrives? || e.StartEvent?)
    ensures Step(cfg, w, e, t).pending.None? && ReleasesCovered(w, Step(cfg, w, e, t))
  {
    hide LastEntries;
  }

  lemma OthersReleaseNothing(cfg: Config, w: World, e: Event, t: real)
    requires w.pending.None? && Enabled(w, e, t) && !e.Polled? && !e.LoginArrives? && !e.StartEvent?
    ensures Step(cfg, w, e, t).pending.None? && ReleasesCovered(w, Step(cfg, w, e, t))
  {
    hide Move;
  }

  lemma StepReleases(cfg: Config, w: World, e: Event, t: real)
    requires w.pending.None? && Enabled(w, e, t)
    ensures Step(cfg, w, e, t).pending.None? && ReleasesCovered(w, Step(cfg, w, e, t))
  {
    hide *;
    if e.Polled? {
      PollReleases(cfg, w, e.r, t);
    } else if e.LoginArrives? || e.StartEvent? {
      LoginOrEventReleases(cfg, w, e, t);
    } else {
      OthersReleaseNothing(cfg, w, e, t);
    }
  }

  /** Over every segment of a run: the releases in it, and the sleep it ends in, are covered by the sleeps
      entered in it and the one it began in.  So a sleep yields at most one release, and a segment that
      enters none and begins awake has no release at all. */
  lemma {:induction false} OneReleasePerSleep(cfg: Config, w: World, run: seq<Stamped>)
    requires w.pending.None? && Admissible(cfg, w, run)
    ensures var v := Exec(cfg, w, run);
            && v.pending.None? && ReleasesCovered(w, v)
            && (v.trace.sleepPeriods == w.trace.sleepPeriods ==> Releases(v) <= Releases(w) + Sleeping(w))
    decreases |run|
  {
    hide Step;
    if run == [] {
    } else {
      StepReleases(cfg, w, run[0].event, run[0].time);
      OneReleasePerSleep(cfg, Step(cfg, w, run[0].event, run[0].time), run[1..]);
    }
  }

  // ----- Stop calls

  function Answers(run: seq<Stamped>): nat {
    if run == [] then 0
    else (if run[0].event.StopCallReturns? || run[0].event.StopCallFails? then 1 else 0) + Answers(run[1..])
  }

  function InFlight(w: World): nat {
    if w.stopCall.Some? then 1 else 0
  }

  lemma StepAnswers(cfg: Config, w: World, e: Event, t: real)
    requires Enabled(w, e, t)
    ensures var v := Step(cfg, w, e, t);
            |v.trace.requests| + InFlight(w) ==
            |w.trace.requests| + InFlight(v) + if e.StopCallReturns? || e.StopCallFails? then 1 else 0
  {
    hide Decide, Move;
  }

  /** Over every run the stop requests made in it, and the one in flight before, are the answers received,
      of either kind, and the one in flight after: the poll loop waits for each before it can ask again. */
  lemma {:induction false} StopCallsAreAnswered(cfg: Config, w: World, run: seq<Stamped>)
    requires Admissible(cfg, w, run)
    ensures var v := Exec(cfg, w, run);
            |v.trace.requests| + InFlight(w) == |w.trace.requests| + Answers(run) + InFlight(v)
    decreases |run|
  {
    hide Step;
    if run == [] {
    } else {
      StepAnswers(cfg, w, run[0].event, run[0].time);
      StopCallsAreAnswered(cfg, Step(cfg, w, run[0].event, run[0].time), run[1..]);
    }
  }

  // ----- Start calls and spawned rebinds

  function StartAnswers(run: seq<Stamped>): nat {
    if run == [] then 0
    else (if run[0].event.StartCallReturns? || run[0].event.StartCallFails? then 1 else 0) + StartAnswers(run[1..])
  }

  function SpawnedTurns(run: seq<Stamped>): nat {
    if run == [] then 0 else (if run[0].event.SpawnedRuns? then 1 else 0) + SpawnedTurns(run[1..])
  }

  /** The event reclaims the port of a server held to be up. */
  predicate Reclaims(w: World, e: Event) {
    e.StopEvent? && w.port.m.state !in {Stopped, Crashed}
  }

  function ReclaimsIn(cfg: Config, w: World, run: seq<Stamped>): nat
    requires Admissible(cfg, w, run)
    decreases |run|
  {
    if run == [] then 0
    else (if Reclaims(w, run[0].event) then 1 else 0)
         + ReclaimsIn(cfg, Step(cfg, w, run[0].event, run[0].time), run[1..])
  }

  lemma StepTasks(cfg: Config, w: World, e: Event, t: real)
    requires Enabled(w, e, t)
    ensures var v := Step(cfg, w, e, t);
            && v.trace.startCalls + w.calling ==
               w.trace.startCalls + v.calling + (if e.StartCallReturns? || e.StartCallFails? then 1 else 0)
            && v.spawned + (if e.SpawnedRuns? then 1 else 0) == w.spawned + (if Reclaims(w, e) then 1 else 0)
  {
    hide Decide, Move;
  }

  /** Over every run the start calls sent are the answers received and the calls in flight, and the rebinds
      spawned, one by each reclaim, are those that have had their turn and those still to come. */
  lemma {:induction false} TasksAreConserved(cfg: Config, w: World, run: seq<Stamped>)
    requires Admissible(cfg, w, run)
    ensures var v := Exec(cfg, w, run);
            && v.trace.startCalls + w.calling == w.trace.startCalls + v.calling + StartAnswers(run)
            && v.spawned + SpawnedTurns(run) == w.spawned + ReclaimsIn(cfg, w, run)
    decreases |run|
  {
    hide Step, Reclaims;
    if run == [] {
    } else {
      StepTasks(cfg, w, run[0].event, run[0].time);
      TasksAreConserved(cfg, Step(cfg, w, run[0].event, run[0].time), run[1..]);
    }
  }

  // ----- Refused transitions

  /** A crash reading of a server the machine, after reconciliation, holds to be STOPPED. */
  predicate VainCrashReading(w: World, e: Event) {
    e.Polled? && e.r.crashed && Reconciled(w.port.m, w.pending, e.r).state == Stopped
  }

  function VainCrashReadings(cfg: Config, w: World, run: seq<Stamped>): nat
    requires Admissible(cfg, w, run)
    decreases |run|
  {
    if run == [] then 0
    else (if VainCrashReading(w, run[0].event) then 1 else 0)
         + VainCrashReadings(cfg, Step(cfg, w, run[0].event, run[0].time), run[1..])
  }

  lemma StepRefusals(cfg: Config, w: World, e: Event, t: real)
    requires Enabled(w, e, t)
    ensures Step(cfg, w, e, t).port.m.refused ==
            w.port.m.refused + if VainCrashReading(w, e) then 1 else 0
  {
    if e.Polled? {
      PollRefusals(cfg, Reconciled(w.port.m, w.pending, e.r), e.r, t);
    } else if !e.StopCallFails? {
      OneMove(cfg, w, e, t);
    }
  }

  /** In every interleaving the transitions refused are exactly the crash readings taken while STOPPED. */
  lemma {:induction false} OnlyVainCrashReadingsAreRefused(cfg: Config, w: World, run: seq<Stamped>)
    requires Admissible(cfg, w, run)
    ensures Exec(cfg, w, run).port.m.refused == w.port.m.refused + VainCrashReadings(cfg, w, run)
    decreases |run|
  {
    if run == [] {
    } else {
      StepRefusals(cfg, w, run[0].event, run[0].time);
      OnlyVainCrashReadingsAreRefused(cfg, Step(cfg, w, run[0].event, run[0].time), run[1..]);
    }
  }
}
