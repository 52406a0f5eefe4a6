/** Bounded-time shutdown: an empty server that keeps being polled is asked to stop, and exactly when. */
module Shutdown {
  import opened Common
  import opened ServerState
  import opened IdleMonitor
  import opened PortControl
  import opened Handover
  import opened HandoverHistory

  /** A quiet poll: when, and whether Crafty's internal ping succeeded. */
  datatype QuietPoll = QuietPoll(time: real, ping: bool)

  function Asked(cfg: Config, m: Machine, p: QuietPoll): Decision {
    Decide(cfg, m, Reading(true, false, 0, p.ping), p.time)
  }

  /** The time of the first stop request that a sequence of quiet polls leads to. */
  function FirstStop(cfg: Config, m: Machine, polls: seq<QuietPoll>): Option<real>
    decreases |polls|
  {
    if polls == [] then None
    else if Asked(cfg, m, polls[0]).stop.Some? then Some(polls[0].time)
    else FirstStop(cfg, Asked(cfg, m, polls[0]).m, polls[1..])
  }

  /** The first poll comes within `gap` of `since`, each later one within `gap` of the one before, and
      they go on until `until` at least. */
  ghost predicate Steady(polls: seq<QuietPoll>, since: real, gap: real, until: real) {
    && polls != []
    && since <= polls[0].time <= since + gap
    && (forall i :: 0 <= i < |polls| - 1 ==> polls[i].time <= polls[i + 1].time <= polls[i].time + gap)
    && until <= polls[|polls| - 1].time
  }

  /** The polls keep that pace for as long as none of them has requested a stop: what comes after the first
      request does not matter. */
  ghost predicate OnPace(cfg: Config, m: Machine, polls: seq<QuietPoll>, since: real, gap: real, until: real)
    decreases |polls|
  {
    && polls != []
    && since <= polls[0].time <= since + gap
    && (|| Asked(cfg, m, polls[0]).stop.Some?
        || until <= polls[0].time
        || OnPace(cfg, Asked(cfg, m, polls[0]).m, polls[1..], polls[0].time, gap, until))
  }

  lemma {:induction false} SteadyIsOnPace(cfg: Config, m: Machine, polls: seq<QuietPoll>,
                                          since: real, gap: real, until: real)
    requires Steady(polls, since, gap, until)
    ensures OnPace(cfg, m, polls, since, gap, until)
    decreases |polls|
  {
    if until <= polls[0].time {
    } else {
      hide Asked;
      SteadyIsOnPace(cfg, Asked(cfg, m, polls[0]).m, polls[1..], polls[0].time, gap, until);
    }
  }

  /** The longest any guard can hold an idle server back. */
  function Holdback(cfg: Config): real {
    Max(0.0, Max(Max(Seconds(cfg.startGraceMinutes), Seconds(cfg.stopCooldownMinutes)),
                 Max(Seconds(cfg.flapWindowMinutes), Seconds(cfg.idleTimeoutMinutes))))
  }

  function Bound(cfg: Config, gap: real): real {
    Max(0.0, cfg.startTimeoutSeconds as real) + Holdback(cfg) + 3.0 * gap
  }

  /** Past every timestamp by the holdback, nothing holds an idle machine back. */
  lemma NothingHoldsBack(cfg: Config, m: Machine, base: real, now: real)
    requires cfg.flapMaxCycles >= 1 && m.idleSince.Some?
    requires UpTo(m.idleSince, base) && UpTo(m.lastStart, base) && UpTo(m.lastStop, base) && AllUpTo(m.history, base)
    requires base + Holdback(cfg) <= now
    ensures !StopHeldBack(cfg, m, now)
  {
    var cutoff := now - Seconds(cfg.flapWindowMinutes);
    assert AllUpTo(m.history, cutoff);
    CountAfterBounds(m.history, cutoff);
  }

  /** All of the machine's past lies before `base`. */
  ghost predicate PastBy(m: Machine, base: real) {
    UpTo(m.idleSince, base) && UpTo(m.lastStart, base) && UpTo(m.lastStop, base) && AllUpTo(m.history, base)
  }

  ghost predicate StopsBy(stop: Option<real>, deadline: real) {
    stop.Some? && stop.value <= deadline
  }

  lemma {:induction false} IdlePhase(cfg: Config, m: Machine, polls: seq<QuietPoll>,
                                     since: real, base: real, gap: real, until: real)
    requires cfg.flapMaxCycles >= 1 && gap > 0.0
    requires m.state == Idle && m.idleSince.Some? && PastBy(m, base)
    requires since <= base + Holdback(cfg) && base + Holdback(cfg) + gap <= until
    requires OnPace(cfg, m, polls, since, gap, until)
    ensures StopsBy(FirstStop(cfg, m, polls), base + Holdback(cfg) + gap)
    decreases |polls|
  {
    var p := polls[0];
    if p.time >= base + Holdback(cfg) {
      NothingHoldsBack(cfg, m, base, p.time);
    } else if Asked(cfg, m, p).stop.None? {
      IdlePhase(cfg, m, polls[1..], p.time, base, gap, until);
    }
  }

  /** A machine one quiet poll away from IDLE. */
  lemma AwakePhase(cfg: Config, m: Machine, polls: seq<QuietPoll>, since: real, gap: real, until: real)
    requires cfg.flapMaxCycles >= 1 && gap > 0.0
    requires m.state in {Unknown, Online, Stopped, Crashed} && PastBy(m, since)
    requires since + gap + Holdback(cfg) + gap <= until
    requires OnPace(cfg, m, polls, since, gap, until)
    ensures StopsBy(FirstStop(cfg, m, polls), since + gap + Holdback(cfg) + gap)
  {
    var p := polls[0];
    IdlePhase(cfg, Asked(cfg, m, p).m, polls[1..], p.time, p.time, gap, until);
  }

  /** A booting machine leaves STARTING by ping or at the first poll past its deadline `base`. */
  lemma {:induction false} StartingPhase(cfg: Config, m: Machine, polls: seq<QuietPoll>,
                                         since: real, base: real, gap: real, until: real)
    requires cfg.flapMaxCycles >= 1 && gap > 0.0
    requires m.state == Starting && PastBy(m, since)
    requires m.lastStart.Some? && m.lastStart.value != 0.0
    requires since <= base && m.lastStart.value + cfg.startTimeoutSeconds as real <= base
    requires base + Holdback(cfg) + 3.0 * gap <= until
    requires OnPace(cfg, m, polls, since, gap, until)
    ensures StopsBy(FirstStop(cfg, m, polls), base + Holdback(cfg) + 3.0 * gap)
    decreases |polls|
  {
    var p := polls[0];
    var next := Asked(cfg, m, p).m;
    if p.ping {
      AwakePhase(cfg, next, polls[1..], p.time, gap, until);
    } else if StartTimedOut(cfg, m, p.time) {
      IdlePhase(cfg, next, polls[1..], p.time, p.time, gap, until);
    } else {
      StartingPhase(cfg, m, polls[1..], p.time, base, gap, until);
    }
  }

  /** The machines an idle server can be shut down from. */
  predicate CanShutDown(cfg: Config, m: Machine) {
    && cfg.flapMaxCycles >= 1
    && m.state != Stopping
    && !(m.state == Starting && m.lastStart == Some(0.0))
  }

  lemma BoundedShutdown(cfg: Config, m: Machine, polls: seq<QuietPoll>, t0: real, gap: real)
    requires MachineInv(m, t0) && CanShutDown(cfg, m) && gap > 0.0
    requires OnPace(cfg, m, polls, t0, gap, t0 + Bound(cfg, gap))
    ensures StopsBy(FirstStop(cfg, m, polls), t0 + Bound(cfg, gap))
  {
    var until := t0 + Bound(cfg, gap);
    match m.state
    case Idle => IdlePhase(cfg, m, polls, t0, t0, gap, until);
    case Starting =>
      StartingPhase(cfg, m, polls, t0, t0 + Max(0.0, cfg.startTimeoutSeconds as real), gap, until);
    case _ => AwakePhase(cfg, m, polls, t0, gap, until);
  }

  /** Otherwise no number of quiet polls, with the ping failing, ever leads to a stop. */
  lemma {:induction false} NeverStops(cfg: Config, m: Machine, polls: seq<QuietPoll>)
    requires !CanShutDown(cfg, m)
    requires forall i :: 0 <= i < |polls| ==> !polls[i].ping
    ensures FirstStop(cfg, m, polls) == None
    decreases |polls|
  {
    if polls == [] {
    } else {
      var d := Asked(cfg, m, polls[0]);
      StopRequestedExactly(cfg, m, Reading(true, false, 0, false), polls[0].time);
      assert cfg.flapMaxCycles >= 1 ==> d.m == m;
      NeverStops(cfg, d.m, polls[1..]);
    }
  }

  /** `n` polls, `gap` apart, with the ping failing. */
  function Regular(t0: real, gap: real, n: nat): (polls: seq<QuietPoll>)
    ensures |polls| == n
  {
    seq(n, i requires 0 <= i < n => QuietPoll(t0 + gap * (i as real), false))
  }

  lemma NoPings(t0: real, gap: real, n: nat)
    ensures forall i :: 0 <= i < n ==> !Regular(t0, gap, n)[i].ping
  {
  }

  lemma OneGapFurther(gap: real, k: real)
    ensures gap * (k + 1.0) == gap * k + gap
  {
  }

  lemma RegularKeepsPace(t0: real, gap: real, n: nat, i: nat)
    requires gap > 0.0 && i + 1 < n
    ensures var polls := Regular(t0, gap, n);
            polls[i].time <= polls[i + 1].time <= polls[i].time + gap
  {
    OneGapFurther(gap, i as real);
    var polls := Regular(t0, gap, n);
    assert polls[i].time == t0 + gap * (i as real);
    assert polls[i + 1].time == t0 + gap * (i as real + 1.0);
  }

  /** The number of gaps that covers a span. */
  function Gaps(span: real, gap: real): (k: nat)
    requires gap > 0.0 && span >= 0.0
    ensures gap * (k as real) >= span
  {
    var q := span / gap;
    assert q >= 0.0 && gap * q == span;
    var k := q.Floor + 1;
    assert k as real >= q;
    assert gap * (k as real - q) >= 0.0;
    assert gap * (k as real) == gap * q + gap * (k as real - q);
    k
  }

  lemma RegularIsSteady(t0: real, gap: real, span: real)
    requires gap > 0.0 && span >= 0.0
    ensures Steady(Regular(t0, gap, Gaps(span, gap) + 1), t0, gap, t0 + span)
  {
    hide Gaps;
    var n := Gaps(span, gap) + 1;
    var polls := Regular(t0, gap, n);
    assert polls[0].time == t0 && polls[n - 1].time == t0 + gap * (Gaps(span, gap) as real);
    forall i | 0 <= i < |polls| - 1
      ensures polls[i].time <= polls[i + 1].time <= polls[i].time + gap
    {
      RegularKeepsPace(t0, gap, n, i);
    }
  }

  lemma BoundIsPositive(cfg: Config, gap: real)
    requires gap > 0.0
    ensures Bound(cfg, gap) >= 0.0
  {
  }

  lemma NoStopIsLate(stop: Option<real>, deadline: real)
    ensures stop.None? ==> !StopsBy(stop, deadline)
  {
  }

  /** A schedule that keeps its pace to the end of the bound and leads nowhere. */
  lemma UselessSchedule(cfg: Config, m: Machine, t0: real, gap: real) returns (polls: seq<QuietPoll>)
    requires !CanShutDown(cfg, m) && gap > 0.0
    ensures OnPace(cfg, m, polls, t0, gap, t0 + Bound(cfg, gap)) && FirstStop(cfg, m, polls).None?
  {
    hide *;
    BoundIsPositive(cfg, gap);
    var n := Gaps(Bound(cfg, gap), gap) + 1;
    polls := Regular(t0, gap, n);
    RegularIsSteady(t0, gap, Bound(cfg, gap));
    NoPings(t0, gap, n);
    SteadyIsOnPace(cfg, m, polls, t0, gap, t0 + Bound(cfg, gap));
    NeverStops(cfg, m, polls);
  }

  /** Main result: every schedule of quiet polls that keeps its pace until it gets there leads to a stop
      request within the bound, iff the flap limit allows one cycle, the machine is not already STOPPING, and
      it is not STARTING with a start time recorded as exactly 0. */
  lemma ShutdownExactly(cfg: Config, m: Machine, t0: real, gap: real)
    requires MachineInv(m, t0) && gap > 0.0
    ensures (forall polls :: OnPace(cfg, m, polls, t0, gap, t0 + Bound(cfg, gap)) ==>
                               StopsBy(FirstStop(cfg, m, polls), t0 + Bound(cfg, gap)))
            <==> CanShutDown(cfg, m)
  {
    hide *;
    if CanShutDown(cfg, m) {
      forall polls | OnPace(cfg, m, polls, t0, gap, t0 + Bound(cfg, gap))
        ensures StopsBy(FirstStop(cfg, m, polls), t0 + Bound(cfg, gap))
      {
        BoundedShutdown(cfg, m, polls, t0, gap);
      }
    } else {
      var polls := UselessSchedule(cfg, m, t0, gap);
      NoStopIsLate(FirstStop(cfg, m, polls), t0 + Bound(cfg, gap));
    }
  }

  // ----- The same, inside the hand-over

  /** A quiet poll, or a step that does not move the machine. */
  predicate LeavesInPeace(e: Event) {
    (e.Polled? ==> Quiet(e.r)) &&
    !e.StopCallFails? && !e.LoginArrives? && !e.StartCallFails? && !e.StartEvent? && !e.StopEvent?
  }

  /** Up to the run's first stop request; what comes after it does not matter. */
  predicate Undisturbed(cfg: Config, w: World, run: seq<Stamped>)
    requires Admissible(cfg, w, run)
    decreases |run|
  {
    run == [] ||
    (LeavesInPeace(run[0].event) &&
     var v := Step(cfg, w, run[0].event, run[0].time);
     |v.trace.requests| > |w.trace.requests| || Undisturbed(cfg, v, run[1..]))
  }

  function PollsOf(run: seq<Stamped>): seq<QuietPoll> {
    if run == [] then []
    else (if run[0].event.Polled? then [QuietPoll(run[0].time, run[0].event.r.ping)] else [])
         + PollsOf(run[1..])
  }

  /** Between the two worlds a stop was requested at `at`. */
  ghost predicate RequestedSince(before: World, after: World, at: real) {
    exists k :: |before.trace.requests| <= k < |after.trace.requests| && after.trace.requests[k].time == at
  }

  lemma {:induction false} RequestsAreKept(cfg: Config, w: World, run: seq<Stamped>)
    requires Admissible(cfg, w, run)
    ensures w.trace.requests <= Exec(cfg, w, run).trace.requests
    decreases |run|
  {
    if run == [] {
    } else {
      StepKeepsRequests(cfg, w, run[0].event, run[0].time);
      RequestsAreKept(cfg, Step(cfg, w, run[0].event, run[0].time), run[1..]);
    }
  }

  lemma StepKeepsRequests(cfg: Config, w: World, e: Event, t: real)
    requires Enabled(w, e, t)
    ensures w.trace.requests <= Step(cfg, w, e, t).trace.requests
  {
    hide Decide, LastEntries;
  }

  /** A quiet poll of a world without a snapshot asks as `Asked` says, and records the request. */
  lemma PollRecordsItsRequest(cfg: Config, w: World, r: Reading, t: real)
    requires w.pending.None? && Enabled(w, Polled(r), t) && Quiet(r)
    ensures var v := Step(cfg, w, Polled(r), t);
            var d := Asked(cfg, w.port.m, QuietPoll(t, r.ping));
            && v.pending.None? && v.port.m == d.m && v.now == t
            && |v.trace.requests| == |w.trace.requests| + (if d.stop.Some? then 1 else 0)
            && (d.stop.Some? ==> RequestedSince(w, v, t))
  {
    OnlyPlayersMatter(cfg, w.port.m, r, t);
    hide Decide;
    var v := Step(cfg, w, Polled(r), t);
    if Asked(cfg, w.port.m, QuietPoll(t, r.ping)).stop.Some? {
      assert v.trace.requests[|w.trace.requests|].time == t;
    }
  }

  lemma OnlyPlayersMatter(cfg: Config, m: Machine, r: Reading, t: real)
    requires Quiet(r)
    ensures Decide(cfg, m, r, t) == Asked(cfg, m, QuietPoll(t, r.ping))
  {
    hide Move;
  }

  /** The other steps of an undisturbed run leave the machine and the requests alone. */
  lemma OtherStepsKeepTheMachine(cfg: Config, w: World, e: Event, t: real)
    requires w.pending.None? && Enabled(w, e, t) && LeavesInPeace(e) && !e.Polled?
    ensures var v := Step(cfg, w, e, t);
            && v.pending.None? && v.port.m == w.port.m && v.now == t
            && v.trace.requests == w.trace.requests
  {
  }

  /** The first stop that the polls of an undisturbed run lead to is requested by the run itself. */
  lemma {:induction false} FirstStopIsRequested(cfg: Config, w: World, run: seq<Stamped>)
    requires w.pending.None? && Admissible(cfg, w, run) && Undisturbed(cfg, w, run)
    requires FirstStop(cfg, w.port.m, PollsOf(run)).Some?
    ensures var at := FirstStop(cfg, w.port.m, PollsOf(run)).value;
            w.now <= at && RequestedSince(w, Exec(cfg, w, run), at)
    decreases |run|
  {
    hide Step, Decide;
    var e, t := run[0].event, run[0].time;
    var v := Step(cfg, w, e, t);
    var rest := PollsOf(run[1..]);
    RequestsAreKept(cfg, v, run[1..]);
    if e.Polled? {
      PollRecordsItsRequest(cfg, w, e.r, t);
      assert PollsOf(run)[1..] == rest;
      if Asked(cfg, w.port.m, QuietPoll(t, e.r.ping)).stop.None? {
        FirstStopIsRequested(cfg, v, run[1..]);
      }
    } else {
      OtherStepsKeepTheMachine(cfg, w, e, t);
      assert PollsOf(run) == rest;
      FirstStopIsRequested(cfg, v, run[1..]);
    }
  }

  /** In any reachable world, whatever was requested before it, a run that is undisturbed and keeps the pace
      of its polls up to its first stop request makes that request within the bound. */
  lemma EmptyServerIsStopped(cfg: Config, w: World, run: seq<Stamped>, gap: real)
    requires Inv(cfg, w) && w.pending.None? && CanShutDown(cfg, w.port.m) && gap > 0.0
    requires Admissible(cfg, w, run) && Undisturbed(cfg, w, run)
    requires OnPace(cfg, w.port.m, PollsOf(run), w.now, gap, w.now + Bound(cfg, gap))
    ensures exists at :: w.now <= at <= w.now + Bound(cfg, gap) && RequestedSince(w, Exec(cfg, w, run), at)
  {
    hide Bound;
    BoundedShutdown(cfg, w.port.m, PollsOf(run), w.now, gap);
    FirstStopIsRequested(cfg, w, run);
  }
}
