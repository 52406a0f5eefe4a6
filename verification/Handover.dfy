/** The port hand-over protocol of one server as a step system: every step is the code one coroutine
    runs between two awaits, and the steps of all coroutines interleave freely. */
module Handover {
  import opened Common
  import opened ServerState
  import opened IdleMonitor
  import opened PortControl

  /** A bind loop asleep before attempt `attempt`; `byPoller` when the poll loop itself awaits it. */
  datatype Loop = Loop(attempt: nat, byPoller: bool)

  /** A stop call in flight: the idle seconds captured, and when it was sent. */
  datatype StopCall = StopCall(idle: real, at: real)

  datatype PollRecord = PollRecord(time: real, quiet: bool)

  /** A stop request: its time, the idle clock it relied on, how many polls had been made, its own included,
      and how many starts had been recorded. */
  datatype StopRequest = StopRequest(time: real, idleSince: real, polls: nat, starts: nat)

  /** What an observer of the run writes down; no step reads it. */
  datatype Trace = Trace(
    marks: seq<real>,           // every start and stop recorded, unbounded
    starts: seq<real>,          // every entry into STARTING, after the last start an adopted snapshot knows
    stops: seq<real>,           // every entry into STOPPED, after the last stop an adopted snapshot knows
    polls: seq<PollRecord>,     // every successful poll
    requests: seq<StopRequest>, // every stop request
    completed: seq<real>,       // every STOPPING -> STOPPED
    sleepPeriods: nat,          // every entry into STOPPED or CRASHED from an awake state
    loginReleases: nat,
    eventReleases: nat,
    startCalls: nat,
    adopted: bool,              // a snapshot of an earlier process has been adopted
    inherits: bool)             // the snapshot adopted was in the middle of a shutdown

  datatype World = World(
    port: Port,
    pending: Option<Snapshot>,
    loop: Option<Loop>,
    spawned: nat,               // detached rebind tasks not yet run
    stopCall: Option<StopCall>,
    paused: nat,                // logins in their five-second pause
    calling: nat,               // start calls in flight
    now: real,
    trace: Trace)

  datatype Event =
    | Polled(r: Reading)
    | StopCallReturns
    | StopCallFails
    | Ensured(bind: Option<nat>)
    | SpawnedRuns(bind: Option<nat>)
    | LoopWakes(bind: Option<nat>)
    | LoginArrives
    | PauseEnds
    | StartCallReturns
    | StartCallFails(bind: Option<nat>)
    | StartEvent
    | StopEvent(crashed: bool)
    | ShutsDown

  datatype Stamped = Stamped(event: Event, time: real)

  function Start(pending: Option<Snapshot>, now: real): World {
    World(Port(FRESH, None, false, false, {}), pending, None, 0, None, 0, 0, now,
          Trace([], [], [], [], [], [], 0, 0, 0, 0, false, false))
  }

  /** The poll loop is a single coroutine: it waits for its own stop call and for its own bind loop. */
  predicate PollerFree(w: World) {
    w.stopCall.None? && !(w.loop.Some? && w.loop.value.byPoller)
  }

  /** The OS never grants a socket number that is still open. */
  predicate Grantable(w: World, bind: Option<nat>) {
    bind.Some? ==> bind.value !in w.port.sockets
  }

  predicate Enabled(w: World, e: Event, t: real) {
    w.now <= t &&
    match e
    case Polled(_) => PollerFree(w)
    case StopCallReturns => w.stopCall.Some?
    case StopCallFails => w.stopCall.Some?
    case Ensured(bind) => PollerFree(w) && Grantable(w, bind)
    case SpawnedRuns(bind) => w.spawned > 0 && Grantable(w, bind)
    case LoopWakes(bind) => w.loop.Some? && Grantable(w, bind)
    case PauseEnds => w.paused > 0
    case StartCallReturns => w.calling > 0
    case StartCallFails(bind) => w.calling > 0 && Grantable(w, bind)
    case _ => true
  }

  function Note(tr: Trace, m: Machine, m': Machine, t: real): Trace {
    var moved := m.state != m'.state;
    tr.(marks := if moved && m'.state in {Stopped, Starting} then tr.marks + [t] else tr.marks,
        starts := if moved && m'.state == Starting then tr.starts + [t] else tr.starts,
        stops := if moved && m'.state == Stopped then tr.stops + [t] else tr.stops,
        completed := if m.state == Stopping && m'.state == Stopped then tr.completed + [t] else tr.completed,
        sleepPeriods := tr.sleepPeriods + if !Asleep(m.state) && Asleep(m'.state) then 1 else 0)
  }

  function Settle(w: World, p: Port, t: real): World {
    w.(port := p, now := t, trace := Note(w.trace, w.port.m, p.m, t))
  }

  /** A bind loop that goes on is registered; a finished or absent one leaves `loop` as `otherwise`. */
  function Parked(next: Option<nat>, byPoller: bool, otherwise: Option<Loop>): Option<Loop> {
    if next.Some? then Some(Loop(next.value, byPoller)) else otherwise
  }

  function Listed(t: Option<real>): seq<real> {
    if t.Some? then [t.value] else []
  }

  function Inherited(tr: Trace, base: Machine): Trace {
    tr.(marks := base.history, starts := Listed(base.lastStart), stops := Listed(base.lastStop),
        adopted := true, inherits := base.state == Stopping)
  }

  /** The snapshot is consumed by the first poll; adopting it replaces the log of starts and stops by what
      was saved, as the machine itself forgets what this process recorded before. */
  function Reconcile(w: World, r: Reading): World {
    var base := Reconciled(w.port.m, w.pending, r);
    var adopts := w.pending.Some? && Adopts(w.pending.value, r.running && !r.crashed);
    w.(port := w.port.(m := base), pending := None,
       trace := if adopts then Inherited(w.trace, base) else w.trace)
  }

  function PollStep(cfg: Config, w: World, r: Reading, t: real): World {
    var v := Reconcile(w, r);
    var d := Decide(cfg, v.port.m, r, t);
    var next := Settle(v, v.port.(m := d.m), t);
    var polls := next.trace.polls + [PollRecord(t, Quiet(r))];
    if d.stop.None? then next.(trace := next.trace.(polls := polls))
    else next.(stopCall := Some(StopCall(d.stop.value, t)),
               trace := next.trace.(polls := polls,
                                    requests := next.trace.requests
                                                + [StopRequest(t, t - d.stop.value, |polls|, |next.trace.starts|)]))
  }

  function Step(cfg: Config, w: World, e: Event, t: real): World
    requires Enabled(w, e, t)
  {
    match e
    case Polled(r) => PollStep(cfg, w, r, t)
    case StopCallReturns => w.(stopCall := None, now := t)
    case StopCallFails =>
      Settle(w, w.port.(m := StopFailed(w.port.m, w.stopCall.value.idle, t)), t).(stopCall := None)
    case Ensured(bind) =>
      var (p, next) := EnsureListener(w.port, bind);
      Settle(w, p, t).(loop := Parked(next, true, w.loop))
    case SpawnedRuns(bind) =>
      var (p, next) := StartListener(w.port, bind);
      Settle(w, p, t).(spawned := w.spawned - 1, loop := Parked(next, false, w.loop))
    case LoopWakes(bind) =>
      var (p, next) := BindAttempt(w.port, w.loop.value.attempt, bind);
      Settle(w, p, t).(loop := Parked(next, w.loop.value.byPoller, None))
    case LoginArrives =>
      var (p, wakes) := LoginWakes(w.port, t);
      var v := Settle(w, p, t);
      if wakes then
        v.(paused := w.paused + 1, trace := v.trace.(loginReleases := v.trace.loginReleases + 1))
      else v
    case PauseEnds =>
      w.(paused := w.paused - 1, calling := w.calling + 1, now := t,
         trace := w.trace.(startCalls := w.trace.startCalls + 1))
    case StartCallReturns => w.(calling := w.calling - 1, now := t)
    case StartCallFails(bind) =>
      var (p, next) := StartFailed(w.port, t, bind);
      Settle(w, p, t).(calling := w.calling - 1, loop := Parked(next, false, w.loop))
    case StartEvent =>
      var (p, status) := ReleaseForStart(w.port, t);
      var v := Settle(w, p, t);
      if status == Released then v.(trace := v.trace.(eventReleases := v.trace.eventReleases + 1)) else v
    case StopEvent(crashed) =>
      var (p, status) := ReclaimAfterStop(w.port, crashed, t);
      Settle(w, p, t).(spawned := w.spawned + if status == Reclaimed then 1 else 0)
    case ShutsDown => Settle(w, StopListener(w.port), t)
  }

  predicate Admissible(cfg: Config, w: World, run: seq<Stamped>)
    decreases |run|
  {
    run == [] ||
    (Enabled(w, run[0].event, run[0].time) &&
     Admissible(cfg, Step(cfg, w, run[0].event, run[0].time), run[1..]))
  }

  /** The world a run ends in; every prefix of an admissible run is one too. */
  function Exec(cfg: Config, w: World, run: seq<Stamped>): World
    requires Admissible(cfg, w, run)
    decreases |run|
  {
    if run == [] then w
    else Exec(cfg, Step(cfg, w, run[0].event, run[0].time), run[1..])
  }
}
