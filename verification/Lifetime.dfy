/** What holds across restarts: the idle window behind every stop covers the polls of all processes, the
    completed shutdowns of all processes are spaced and bounded, and no frequency of restarts keeps an empty
    server from being stopped. */
module Lifetime {
  import opened Common
  import opened ServerState
  import opened IdleMonitor
  import opened Handover
  import opened HandoverHistory
  import opened StateStore
  import opened Restart
  import opened Shutdown

  // ----- The life of a watcher that never restarts

  /** Its machine, the stop call the poll loop waits for, and what an observer writes down: all polls, all
      starts and stops, the time of the last stop request, all completed idle shutdowns. */
  datatype Life = Life(
    m: Machine,
    call: Option<StopCall>,
    polls: seq<PollRecord>,
    marks: seq<real>,
    asked: Option<real>,
    done: seq<real>,
    now: real)

  function Beginning(t0: real): Life {
    Life(FRESH, None, [], [], None, [], t0)
  }

  predicate Completes(before: State, after: State) {
    before == Stopping && after == Stopped
  }

  /** A further poll means that the stop call has returned; a restart loses it. */
  function Lived(cfg: Config, offset: real, l: Life, x: Moment): Life {
    var t := x.wall + offset;
    var (m, stop) := ActForever(cfg, offset, l.m, x);
    var moved := m.state != l.m.state;
    Life(m,
         if stop.Some? then Some(StopCall(stop.value, t)) else if x.action.Moves? then l.call else None,
         if x.action.Polls? then l.polls + [PollRecord(t, Quiet(x.action.r))] else l.polls,
         if moved && m.state in {Stopped, Starting} then l.marks + [t] else l.marks,
         if stop.Some? then Some(t) else l.asked,
         if Completes(l.m.state, m.state) then l.done + [t] else l.done,
         t)
  }

  /** The action is one that the watcher's callers take: the clock does not go back, releases, reclaims and
      rollbacks ask for STARTING, STOPPED or CRASHED along an edge, and the call that fails is the one in
      flight. */
  predicate Genuine(l: Life, offset: real, x: Moment) {
    l.now <= x.wall + offset &&
    match x.action
    case Moves(target) =>
      target in {Starting, Stopped, Crashed} && (target == l.m.state || target in Targets(l.m.state))
    case StopCallFailed(idle) => l.call.Some? && l.call.value.idle == idle
    case _ => true
  }

  predicate GenuineLife(cfg: Config, offset: real, l: Life, xs: seq<Moment>)
    decreases |xs|
  {
    xs == [] || (Genuine(l, offset, xs[0]) && GenuineLife(cfg, offset, Lived(cfg, offset, l, xs[0]), xs[1..]))
  }

  function LivedAll(cfg: Config, offset: real, l: Life, xs: seq<Moment>): Life
    decreases |xs|
  {
    if xs == [] then l else LivedAll(cfg, offset, Lived(cfg, offset, l, xs[0]), xs[1..])
  }

  // ----- Its invariant

  ghost predicate LifeInv(l: Life) {
    && MachineInv(l.m, l.now)
    && PollsPast(l.polls, l.now)
    && ClockQuiet(l.m, l.polls)
    && CallQuiet(l.call, l.polls, l.now)
    && l.m.history == LastEntries(l.marks) && Sorted(l.marks) && AllUpTo(l.marks, l.now)
  }

  lemma BeginningInv(t0: real)
    ensures LifeInv(Beginning(t0))
  {
  }

  /** One accepted transition keeps machine and log in step. */
  lemma MoveKeepsLog(m: Machine, marks: seq<real>, target: State, before: real, t: real)
    requires MachineInv(m, before) && before <= t
    requires m.history == LastEntries(marks) && Sorted(marks) && AllUpTo(marks, before)
    ensures var m' := Move(m, target, t);
            var marks' := if m'.state != m.state && m'.state in {Stopped, Starting} then marks + [t] else marks;
            && MachineInv(m', t)
            && m'.history == LastEntries(marks') && Sorted(marks') && AllUpTo(marks', t)
  {
    MoveKeepsInv(m, target, before, t);
    LastOfLast(marks, t);
  }

  lemma PollKeepsLife(cfg: Config, offset: real, l: Life, x: Moment)
    requires LifeInv(l) && Genuine(l, offset, x) && x.action.Polls?
    ensures LifeInv(Lived(cfg, offset, l, x))
  {
    hide Decide, MachineInv, LastEntries, QuietSince;
    var t, r := x.wall + offset, x.action.r;
    var d := Decide(cfg, l.m, r, t);
    DecideMakesOneMove(cfg, l.m, r, t);
    var target :| d.m == Move(l.m, target, t);
    MoveKeepsLog(l.m, l.marks, target, l.now, t);
    PollKeepsClock(cfg, l.m, l.polls, r, t);
    if d.stop.Some? {
      LaterInv(l.m, l.now, t);
      PollKeepsCall(cfg, l.m, l.polls, r, t);
    }
  }

  lemma LaterInv(m: Machine, before: real, now: real)
    requires MachineInv(m, before) && before <= now
    ensures MachineInv(m, now)
  {
  }

  lemma MoveKeepsLife(cfg: Config, offset: real, l: Life, x: Moment)
    requires LifeInv(l) && Genuine(l, offset, x) && x.action.Moves?
    ensures LifeInv(Lived(cfg, offset, l, x))
  {
    hide LastEntries, QuietSince, Targets, Sorted, AllUpTo;
    MoveKeepsLog(l.m, l.marks, x.action.target, l.now, x.wall + offset);
  }

  lemma RollbackKeepsLife(cfg: Config, offset: real, l: Life, x: Moment)
    requires LifeInv(l) && Genuine(l, offset, x) && x.action.StopCallFailed?
    ensures LifeInv(Lived(cfg, offset, l, x))
  {
    hide LastEntries;
    MoveKeepsLog(l.m, l.marks, Idle, l.now, x.wall + offset);
    StopFailedLandsIdle(l.m, x.action.idle, l.now, x.wall + offset);
  }

  lemma LivedKeepsInv(cfg: Config, offset: real, l: Life, x: Moment)
    requires LifeInv(l) && Genuine(l, offset, x)
    ensures LifeInv(Lived(cfg, offset, l, x))
  {
    match x.action
    case Polls(_) => PollKeepsLife(cfg, offset, l, x);
    case Moves(_) => MoveKeepsLife(cfg, offset, l, x);
    case StopCallFailed(_) => RollbackKeepsLife(cfg, offset, l, x);
    case Restarts(_) => LaterInv(l.m, l.now, x.wall + offset);
  }

  // ----- The idle window

  /** Every poll among the first `n` actions made after the instant `since` was quiet. */
  ghost predicate QuietActions(xs: seq<Moment>, n: nat, since: real)
    requires n <= |xs|
  {
    forall j :: 0 <= j < n && xs[j].action.Polls? && xs[j].wall > since ==> Quiet(xs[j].action.r)
  }

  /** What is quiet after an action was quiet before it, the action included. */
  lemma PollsOfLife(cfg: Config, offset: real, l: Life, x: Moment, since: real)
    requires QuietSince(Lived(cfg, offset, l, x).polls, since + offset)
    ensures QuietSince(l.polls, since + offset)
    ensures x.action.Polls? && x.wall > since ==> Quiet(x.action.r)
  {
    hide ActForever, Quiet;
    var polls := Lived(cfg, offset, l, x).polls;
    forall i | 0 <= i < |l.polls| && l.polls[i].time > since + offset
      ensures l.polls[i].quiet
    {
      assert polls[i] == l.polls[i];
    }
    if x.action.Polls? {
      assert polls[|l.polls|] == PollRecord(x.wall + offset, Quiet(x.action.r));
    }
  }

  lemma StopIsJustified(cfg: Config, offset: real, l: Life, x: Moment, idle: real)
    requires LifeInv(l) && Genuine(l, offset, x)
    requires ActForever(cfg, offset, l.m, x).1 == Some(idle)
    ensures x.action.Polls? && idle >= Seconds(cfg.idleTimeoutMinutes)
    ensures QuietSince(l.polls, x.wall - idle + offset) && Quiet(x.action.r)
  {
    hide Decide, Quiet, QuietSince;
    var t := x.wall + offset;
    LaterInv(l.m, l.now, t);
    PollKeepsCall(cfg, l.m, l.polls, x.action.r, t);
    StopRequestedExactly(cfg, l.m, x.action.r, t);
    assert t - idle == x.wall - idle + offset;
    PollsOfLife(cfg, offset, l, x, x.wall - idle);
  }

  lemma {:induction false} OneStopEach(cfg: Config, offset: real, m: Machine, xs: seq<Moment>)
    ensures |StopsForever(cfg, offset, m, xs)| == |xs|
    decreases |xs|
  {
    if xs == [] {
    } else {
      OneStopEach(cfg, offset, ActForever(cfg, offset, m, xs[0]).0, xs[1..]);
    }
  }

  lemma QuietActionsExtend(xs: seq<Moment>, n: nat, since: real)
    requires n < |xs| && QuietActions(xs[1..], n, since)
    requires xs[0].action.Polls? && xs[0].wall > since ==> Quiet(xs[0].action.r)
    ensures QuietActions(xs, n + 1, since)
  {
    hide Quiet;
    forall j | 0 <= j < n + 1 && xs[j].action.Polls? && xs[j].wall > since
      ensures Quiet(xs[j].action.r)
    {
      assert j > 0 ==> xs[1..][j - 1] == xs[j];
    }
  }

  lemma StopFirst(cfg: Config, offset: real, l: Life, xs: seq<Moment>)
    requires GenuineLife(cfg, offset, l, xs) && xs != []
    ensures var v, rest := Lived(cfg, offset, l, xs[0]), xs[1..];
            && Genuine(l, offset, xs[0]) && GenuineLife(cfg, offset, v, rest)
            && StopsForever(cfg, offset, l.m, xs) ==
               [ActForever(cfg, offset, l.m, xs[0]).1] + StopsForever(cfg, offset, v.m, rest)
  {
    hide ActForever, Genuine;
  }

  /** Action number `k` requests a stop after `idle` seconds: they cover the idle timeout, and no poll made in
      them, before these actions or among them, was other than quiet. */
  lemma {:induction false} WindowForever(cfg: Config, offset: real, l: Life, xs: seq<Moment>, k: nat, idle: real)
    requires LifeInv(l) && GenuineLife(cfg, offset, l, xs)
    requires k < |xs| == |StopsForever(cfg, offset, l.m, xs)| && StopsForever(cfg, offset, l.m, xs)[k] == Some(idle)
    ensures xs[k].action.Polls? && idle >= Seconds(cfg.idleTimeoutMinutes)
    ensures QuietSince(l.polls, xs[k].wall - idle + offset)
    ensures QuietActions(xs, k + 1, xs[k].wall - idle)
    decreases |xs|
  {
    hide *;
    var x, since, rest := xs[0], xs[k].wall - idle, xs[1..];
    var v := Lived(cfg, offset, l, x);
    StopFirst(cfg, offset, l, xs);
    if k == 0 {
      StopIsJustified(cfg, offset, l, x, idle);
      NoActions(rest, since);
    } else {
      LivedKeepsInv(cfg, offset, l, x);
      OneStopEach(cfg, offset, v.m, rest);
      assert rest[k - 1] == xs[k];
      WindowForever(cfg, offset, v, rest, k - 1, idle);
      PollsOfLife(cfg, offset, l, x, since);
    }
    QuietActionsExtend(xs, k, since);
  }

  lemma NoActions(xs: seq<Moment>, since: real)
    ensures QuietActions(xs, 0, since)
  {
  }

  /** Main result: in the whole life of a watcher restarted any number of times, behind every stop there is a
      window, at least the idle timeout long and ending with it, in which every poll of every process found
      the server up and empty. */
  lemma IdleWindowAcrossRestarts(cfg: Config, offset: real, t0: real, xs: seq<Moment>, k: nat)
    requires FaithfulRun(cfg, Process(offset, FRESH, None, None), FRESH, offset, xs)
    requires GenuineLife(cfg, offset, Beginning(t0), xs)
    requires var stops := Stops(cfg, Process(offset, FRESH, None, None), xs);
             k < |stops| && stops[k].Some?
    ensures k < |xs| && xs[k].action.Polls?
    ensures var idle := Stops(cfg, Process(offset, FRESH, None, None), xs)[k].value;
            idle >= 60.0 * cfg.idleTimeoutMinutes as real && QuietActions(xs, k + 1, xs[k].wall - idle)
  {
    hide Act, ActForever, Lived, LifeInv;
    FirstStartMirrors(offset);
    RestartsAreTransparent(cfg, Process(offset, FRESH, None, None), FRESH, offset, xs);
    BeginningInv(t0);
    OneStopEach(cfg, offset, FRESH, xs);
    WindowForever(cfg, offset, Beginning(t0), xs, k, Stops(cfg, Process(offset, FRESH, None, None), xs)[k].value);
  }

  // ----- The shutdown rate

  /** The shutdowns so far respect the rate, and one under way was asked for past cooldown and flap guard. */
  ghost predicate LifeRate(cfg: Config, l: Life) {
    && CompletionsInv(cfg, cfg.flapMaxCycles * 2, l.done, l.marks, l.m.lastStop)
    && (l.m.state == Stopping ==>
          && l.asked.Some? && l.asked.value <= l.now
          && !InStopCooldown(cfg, l.m, l.asked.value) && !FlappingOn(cfg, l.marks, l.asked.value))
  }

  lemma BeginningRate(cfg: Config, t0: real)
    ensures LifeRate(cfg, Beginning(t0))
  {
  }

  /** A transition that does not enter STOPPING. */
  lemma MoveKeepsRate(cfg: Config, l: Life, target: State, t: real)
    requires LifeRate(cfg, l) && UpTo(l.m.lastStop, l.now) && l.now <= t
    requires Move(l.m, target, t).state == Stopping ==> l.m.state == Stopping
    ensures var m' := Move(l.m, target, t);
            var moved := m'.state != l.m.state;
            var marks' := if moved && m'.state in {Stopped, Starting} then l.marks + [t] else l.marks;
            var done' := if Completes(l.m.state, m'.state) then l.done + [t] else l.done;
            && CompletionsInv(cfg, cfg.flapMaxCycles * 2, done', marks', m'.lastStop)
            && (m'.state == Stopping ==> m'.lastStop == l.m.lastStop && marks' == l.marks)
  {
    hide CompletionsInv, LastEntries, FlappingOn;
    if Move(l.m, target, t).state != l.m.state {
      MarkKeepsCompletions(cfg, cfg.flapMaxCycles * 2, l.done, l.marks, l.m.lastStop, t);
      if Completes(l.m.state, Move(l.m, target, t).state) {
        CompletionKeepsRate(cfg, cfg.flapMaxCycles * 2, l.done, l.marks, l.m, l.asked.value, t);
      }
    }
  }

  lemma PollKeepsLifeRate(cfg: Config, offset: real, l: Life, x: Moment)
    requires cfg.flapMaxCycles * 2 <= HISTORY_LENGTH
    requires LifeInv(l) && LifeRate(cfg, l) && Genuine(l, offset, x) && x.action.Polls?
    ensures LifeRate(cfg, Lived(cfg, offset, l, x))
  {
    hide Decide, CompletionsInv, LastEntries, CountAfter, PollsPast, ClockQuiet, CallQuiet;
    var t, r := x.wall + offset, x.action.r;
    var d := Decide(cfg, l.m, r, t);
    StopRequestedExactly(cfg, l.m, r, t);
    DecideMakesOneMove(cfg, l.m, r, t);
    var target :| d.m == Move(l.m, target, t);
    if d.stop.Some? {
      BoundedCount(l.marks, t - Seconds(cfg.flapWindowMinutes));
    } else {
      MoveKeepsRate(cfg, l, target, t);
    }
  }

  lemma LivedKeepsRate(cfg: Config, offset: real, l: Life, x: Moment)
    requires cfg.flapMaxCycles * 2 <= HISTORY_LENGTH
    requires LifeInv(l) && LifeRate(cfg, l) && Genuine(l, offset, x)
    ensures LifeRate(cfg, Lived(cfg, offset, l, x))
  {
    hide CompletionsInv, LastEntries, PollsPast, ClockQuiet, CallQuiet, FlappingOn, Decide;
    match x.action
    case Polls(_) => PollKeepsLifeRate(cfg, offset, l, x);
    case Moves(target) => MoveKeepsRate(cfg, l, target, x.wall + offset);
    case StopCallFailed(_) => MoveKeepsRate(cfg, l, Idle, x.wall + offset);
    case Restarts(_) =>
  }

  lemma {:induction false} RateForever(cfg: Config, offset: real, l: Life, xs: seq<Moment>)
    requires cfg.flapMaxCycles * 2 <= HISTORY_LENGTH
    requires LifeInv(l) && LifeRate(cfg, l) && GenuineLife(cfg, offset, l, xs)
    ensures LifeRate(cfg, LivedAll(cfg, offset, l, xs))
    decreases |xs|
  {
    hide Lived, LifeInv, LifeRate, Genuine;
    if xs == [] {
    } else {
      LivedKeepsInv(cfg, offset, l, xs[0]);
      LivedKeepsRate(cfg, offset, l, xs[0]);
      RateForever(cfg, offset, Lived(cfg, offset, l, xs[0]), xs[1..]);
    }
  }

  /** The state an action of a process starts from: a poll reconciles a waiting snapshot first. */
  function StateBefore(p: Process, x: Moment): State {
    if x.action.Polls? then Reconciled(p.m, p.pending, x.action.r).state else p.m.state
  }

  /** An idle shutdown that the process sees complete, at its time on the reference clock. */
  function Seen(cfg: Config, offset: real, p: Process, x: Moment): seq<real> {
    if !x.action.Restarts? && Completes(StateBefore(p, x), Act(cfg, p, x).0.m.state) then [x.wall + offset] else []
  }

  /** All that the processes of a history see complete. */
  function Completions(cfg: Config, offset: real, p: Process, xs: seq<Moment>): seq<real>
    decreases |xs|
  {
    if xs == [] then []
    else Seen(cfg, offset, p, xs[0]) + Completions(cfg, offset, Act(cfg, p, xs[0]).0, xs[1..])
  }

  lemma MirrorsShowState(cfg: Config, p: Process, q: Machine, offset: real, x: Moment)
    requires Mirrors(p, q, offset) && Faithful(p, q, offset, x) && !x.action.Restarts?
    ensures StateBefore(p, x) == q.state
    ensures Act(cfg, p, x).0.m.state == ActForever(cfg, offset, q, x).0.state
  {
    hide Decide, Move, Dump, ShiftAll;
    ActMirrors(cfg, p, q, offset, x);
    if x.action.Polls? {
      ReconcileRecovers(p, q, offset, x);
    }
  }

  /** Lives, completions and faithful runs, one action at a time. */
  lemma LiveFirst(cfg: Config, offset: real, l: Life, xs: seq<Moment>)
    ensures xs == [] ==> LivedAll(cfg, offset, l, xs) == l
    ensures xs != [] ==>
              LivedAll(cfg, offset, l, xs) == LivedAll(cfg, offset, Lived(cfg, offset, l, xs[0]), xs[1..])
    ensures xs != [] ==> Lived(cfg, offset, l, xs[0]).m == ActForever(cfg, offset, l.m, xs[0]).0
  {
    hide ActForever;
  }

  lemma CompleteFirst(cfg: Config, offset: real, p: Process, xs: seq<Moment>)
    ensures xs == [] ==> Completions(cfg, offset, p, xs) == []
    ensures xs != [] ==>
              Completions(cfg, offset, p, xs) ==
              Seen(cfg, offset, p, xs[0]) + Completions(cfg, offset, Act(cfg, p, xs[0]).0, xs[1..])
  {
    hide Act, Seen;
  }

  lemma FaithfulFirst(cfg: Config, p: Process, q: Machine, offset: real, xs: seq<Moment>)
    requires FaithfulRun(cfg, p, q, offset, xs) && xs != []
    ensures Faithful(p, q, offset, xs[0])
    ensures FaithfulRun(cfg, Act(cfg, p, xs[0]).0, ActForever(cfg, offset, q, xs[0]).0, offset, xs[1..])
  {
    hide Act, ActForever, Faithful;
  }

  lemma Associate(a: seq<real>, b: seq<real>, c: seq<real>)
    ensures (a + b) + c == a + (b + c)
  {
  }

  /** Every completion of the uninterrupted life is seen by the process running at the time. */
  lemma {:induction false} CompletionsAreLived(cfg: Config, offset: real, p: Process, l: Life, xs: seq<Moment>)
    requires Mirrors(p, l.m, offset) && FaithfulRun(cfg, p, l.m, offset, xs)
    ensures LivedAll(cfg, offset, l, xs).done == l.done + Completions(cfg, offset, p, xs)
    decreases |xs|
  {
    hide *;
    LiveFirst(cfg, offset, l, xs);
    CompleteFirst(cfg, offset, p, xs);
    if xs == [] {
    } else {
      var x := xs[0];
      var next, v := Act(cfg, p, x).0, Lived(cfg, offset, l, x);
      FaithfulFirst(cfg, p, l.m, offset, xs);
      ActMirrors(cfg, p, l.m, offset, x);
      OneCompletion(cfg, offset, p, l, x);
      CompletionsAreLived(cfg, offset, next, v, xs[1..]);
      Associate(l.done, Seen(cfg, offset, p, x), Completions(cfg, offset, next, xs[1..]));
    }
  }

  lemma OneCompletion(cfg: Config, offset: real, p: Process, l: Life, x: Moment)
    requires Mirrors(p, l.m, offset) && Faithful(p, l.m, offset, x)
    ensures Lived(cfg, offset, l, x).done == l.done + Seen(cfg, offset, p, x)
  {
    hide Act, Mirrors, Faithful, StateBefore, Decide;
    if !x.action.Restarts? {
      MirrorsShowState(cfg, p, l.m, offset, x);
    }
  }

  lemma LifeRateBounds(cfg: Config, l: Life, start: real)
    requires LifeRate(cfg, l)
    ensures SpacedBy(l.done, 60.0 * cfg.stopCooldownMinutes as real)
    ensures CountAfter(l.done, start) - CountAfter(l.done, start + 60.0 * cfg.flapWindowMinutes as real)
            <= 2 * Positive(cfg.flapMaxCycles)
  {
    hide CountAfter;
    AnyWindow(cfg, cfg.flapMaxCycles * 2, l.done, start);
  }

  /** Main result: in the whole life of a watcher restarted any number of times, with a flap limit the deque
      can hold, completed idle shutdowns are at least the stop cooldown apart, and every flap window contains
      at most twice the cycle limit of them, whichever processes saw them. */
  lemma ShutdownRateAcrossRestarts(cfg: Config, offset: real, t0: real, xs: seq<Moment>, start: real)
    requires cfg.flapMaxCycles * 2 <= HISTORY_LENGTH
    requires FaithfulRun(cfg, Process(offset, FRESH, None, None), FRESH, offset, xs)
    requires GenuineLife(cfg, offset, Beginning(t0), xs)
    ensures var done := Completions(cfg, offset, Process(offset, FRESH, None, None), xs);
            && SpacedBy(done, 60.0 * cfg.stopCooldownMinutes as real)
            && CountAfter(done, start) - CountAfter(done, start + 60.0 * cfg.flapWindowMinutes as real)
               <= 2 * Positive(cfg.flapMaxCycles)
  {
    var p, l := Process(offset, FRESH, None, None), Beginning(t0);
    assert l.m == FRESH && l.done == [];
    hide *;
    FirstStartMirrors(offset);
    CompletionsAreLived(cfg, offset, p, l, xs);
    assert l.done + Completions(cfg, offset, p, xs) == Completions(cfg, offset, p, xs);
    BeginningInv(t0);
    BeginningRate(cfg, t0);
    RateForever(cfg, offset, l, xs);
    LifeRateBounds(cfg, LivedAll(cfg, offset, l, xs), start);
  }

  // ----- Restarts do not keep a server up

  /** A restart or a quiet poll. */
  predicate Peaceful(x: Moment) {
    x.action.Restarts? || (x.action.Polls? && Quiet(x.action.r))
  }

  /** Up to the first stop of the uninterrupted machine. */
  predicate PeacefulUntilStop(cfg: Config, offset: real, q: Machine, xs: seq<Moment>)
    decreases |xs|
  {
    xs == [] ||
    (Peaceful(xs[0]) &&
     var (next, stop) := ActForever(cfg, offset, q, xs[0]);
     stop.Some? || PeacefulUntilStop(cfg, offset, next, xs[1..]))
  }

  /** The polls of all processes, on the reference clock. */
  function PollsOfAll(offset: real, xs: seq<Moment>): seq<QuietPoll> {
    if xs == [] then []
    else (if xs[0].action.Polls? then [QuietPoll(xs[0].wall + offset, xs[0].action.r.ping)] else [])
         + PollsOfAll(offset, xs[1..])
  }

  lemma {:induction false} FirstStopForever(cfg: Config, offset: real, q: Machine, xs: seq<Moment>) returns (k: nat)
    requires PeacefulUntilStop(cfg, offset, q, xs) && FirstStop(cfg, q, PollsOfAll(offset, xs)).Some?
    ensures k < |xs| == |StopsForever(cfg, offset, q, xs)| && StopsForever(cfg, offset, q, xs)[k].Some?
    ensures FirstStop(cfg, q, PollsOfAll(offset, xs)) == Some(xs[k].wall + offset)
    decreases |xs|
  {
    hide Decide;
    var x, rest := xs[0], xs[1..];
    var (next, stop) := ActForever(cfg, offset, q, x);
    OneStopEach(cfg, offset, q, xs);
    if x.action.Polls? {
      OnlyPlayersMatter(cfg, q, x.action.r, x.wall + offset);
      assert PollsOfAll(offset, xs)[1..] == PollsOfAll(offset, rest);
    } else {
      assert PollsOfAll(offset, xs) == PollsOfAll(offset, rest);
    }
    if stop.Some? {
      k := 0;
    } else {
      k := FirstStopForever(cfg, offset, next, rest);
      k := k + 1;
    }
  }

  /** Main result: however often the watcher is restarted, an empty server whose polls, by whichever process,
      keep their pace is asked to stop within the bound that holds without restarts. */
  lemma EmptyServerIsStoppedDespiteRestarts(cfg: Config, p: Process, q: Machine, offset: real, t0: real, gap: real,
                                            xs: seq<Moment>)
    requires Mirrors(p, q, offset) && FaithfulRun(cfg, p, q, offset, xs)
    requires MachineInv(q, t0) && CanShutDown(cfg, q) && gap > 0.0
    requires PeacefulUntilStop(cfg, offset, q, xs)
    requires OnPace(cfg, q, PollsOfAll(offset, xs), t0, gap, t0 + Bound(cfg, gap))
    ensures exists k: nat :: k < |xs| == |Stops(cfg, p, xs)| && Stops(cfg, p, xs)[k].Some?
                             && xs[k].wall + offset <= t0 + Bound(cfg, gap)
  {
    hide Act, ActForever, Mirrors, Faithful, Bound;
    BoundedShutdown(cfg, q, PollsOfAll(offset, xs), t0, gap);
    var k := FirstStopForever(cfg, offset, q, xs);
    RestartsAreTransparent(cfg, p, q, offset, xs);
  }

  /** The shortest such life: one quiet poll, a restart, and the very first poll of the new process asks for the
      stop that the countdown of the old one had earned, on any clock the new process may have. */
  lemma RestartKeepsTheCountdown(cfg: Config, offset: real, next: real, restart: real, last: real)
    requires cfg.flapMaxCycles >= 1 && 0.0 <= restart <= MAX_AGE && restart <= last
    requires Seconds(cfg.idleTimeoutMinutes) <= last
    ensures var quiet := Polls(Reading(true, false, 0, false));
            var xs := [Moment(quiet, 0.0), Moment(Restarts(next), restart), Moment(quiet, last)];
            var p := Process(offset, FRESH, None, None);
            && FaithfulRun(cfg, p, FRESH, offset, xs) && GenuineLife(cfg, offset, Beginning(offset), xs)
            && Stops(cfg, p, xs) == [None, None, Some(last)]
  {
    var quiet := Polls(Reading(true, false, 0, false));
    var x0, x1, x2 := Moment(quiet, 0.0), Moment(Restarts(next), restart), Moment(quiet, last);
    var xs := [x0, x1, x2];
    var p := Process(offset, FRESH, None, None);
    var q := FRESH.(state := Idle, idleSince := Some(offset));
    CountdownForever(cfg, offset, next, restart, last);
    var p1 := Act(cfg, p, x0).0;
    var p2 := Act(cfg, p1, x1).0;
    FirstStartMirrors(offset);
    assert Faithful(p, FRESH, offset, x0);
    ActMirrors(cfg, p, FRESH, offset, x0);
    assert p1.disk.Some? && p1.disk.value.at == 0.0;
    assert Faithful(p1, q, offset, x1) && Faithful(p2, q, offset, x2);
    hide Act, ActForever, Faithful, Mirrors, Lived, Genuine;
    assert xs[1..] == [x1, x2] && [x1, x2][1..] == [x2] && [x2][1..] == [];
    assert FaithfulRun(cfg, p2, q, offset, [x2]);
    assert FaithfulRun(cfg, p1, q, offset, [x1, x2]);
    assert FaithfulRun(cfg, p, FRESH, offset, xs);
    FirstStartMirrors(offset);
    RestartsAreTransparent(cfg, p, FRESH, offset, xs);
  }

  lemma CountdownForever(cfg: Config, offset: real, next: real, restart: real, last: real)
    requires cfg.flapMaxCycles >= 1 && 0.0 <= restart <= last && Seconds(cfg.idleTimeoutMinutes) <= last
    ensures var quiet := Polls(Reading(true, false, 0, false));
            var xs := [Moment(quiet, 0.0), Moment(Restarts(next), restart), Moment(quiet, last)];
            var q := FRESH.(state := Idle, idleSince := Some(offset));
            && ActForever(cfg, offset, FRESH, xs[0]).0 == q && ActForever(cfg, offset, q, xs[1]).0 == q
            && GenuineLife(cfg, offset, Beginning(offset), xs)
            && StopsForever(cfg, offset, FRESH, xs) == [None, None, Some(last)]
  {
    var quiet := Polls(Reading(true, false, 0, false));
    var x0, x1, x2 := Moment(quiet, 0.0), Moment(Restarts(next), restart), Moment(quiet, last);
    var q := FRESH.(state := Idle, idleSince := Some(offset));
    var l0 := Beginning(offset);
    var l1 := Lived(cfg, offset, l0, x0);
    var l2 := Lived(cfg, offset, l1, x1);
    assert ActForever(cfg, offset, FRESH, x0) == (q, None);
    assert ActForever(cfg, offset, q, x1) == (q, None);
    assert ActForever(cfg, offset, q, x2).1 == Some(last);
    assert l1.now == offset && l2.now == restart + offset;
    hide ActForever, Lived;
    assert [x0, x1, x2][1..] == [x1, x2] && [x1, x2][1..] == [x2] && [x2][1..] == [];
    assert GenuineLife(cfg, offset, l2, [x2]);
    assert GenuineLife(cfg, offset, l1, [x1, x2]);
    assert StopsForever(cfg, offset, q, [x2]) == [Some(last)];
    assert StopsForever(cfg, offset, q, [x1, x2]) == [None, Some(last)];
  }
}
