/** The lifecycle of one managed server (crafty_server_watcher/server_state.py). */
module ServerState {
  import opened Common

  datatype State = Unknown | Online | Idle | Stopping | Stopped | Starting | Crashed

  /** The states in which nothing runs and the proxy should hold the port. */
  predicate Asleep(s: State) {
    s == Stopped || s == Crashed
  }

  function Targets(s: State): set<State> {
    match s
    case Unknown => {Online, Idle, Stopped, Crashed}
    case Online => {Idle, Stopped, Crashed}
    case Idle => {Online, Stopping, Stopped, Crashed}
    case Stopping => {Stopped, Crashed, Online, Idle}
    case Stopped => {Starting, Online, Idle}
    case Starting => {Online, Idle, Stopped, Crashed}
    case Crashed => {Stopped, Online, Idle, Starting}
  }

  /** The graph read by target: IDLE, ONLINE and STOPPED can be entered from every other state, CRASHED from
      every other but STOPPED, STARTING only from sleep, STOPPING only from IDLE, UNKNOWN never. */
  lemma GraphByTarget(from: State, target: State)
    ensures target in Targets(from) <==>
            target != from &&
            match target
            case Unknown => false
            case Crashed => from != Stopped
            case Starting => Asleep(from)
            case Stopping => from == Idle
            case _ => true
  {
  }

  function StateName(s: State): string {
    match s
    case Unknown => "UNKNOWN"
    case Online => "ONLINE"
    case Idle => "IDLE"
    case Stopping => "STOPPING"
    case Stopped => "STOPPED"
    case Starting => "STARTING"
    case Crashed => "CRASHED"
  }

  /** The state a saved name denotes; None is the source's ValueError. */
  function StateNamed(name: Option<string>): Option<State> {
    if name == Some("UNKNOWN") then Some(Unknown)
    else if name == Some("ONLINE") then Some(Online)
    else if name == Some("IDLE") then Some(Idle)
    else if name == Some("STOPPING") then Some(Stopping)
    else if name == Some("STOPPED") then Some(Stopped)
    else if name == Some("STARTING") then Some(Starting)
    else if name == Some("CRASHED") then Some(Crashed)
    else None
  }

  /** The names written and recognised are those of the source's enumeration, and no others. */
  lemma StateNamesAreFixed(name: Option<string>)
    ensures StateName(Unknown) == "UNKNOWN" && StateName(Online) == "ONLINE" && StateName(Idle) == "IDLE"
    ensures StateName(Stopping) == "STOPPING" && StateName(Stopped) == "STOPPED"
    ensures StateName(Starting) == "STARTING" && StateName(Crashed) == "CRASHED"
    ensures StateNamed(name).Some? <==> exists s :: name == Some(StateName(s))
    ensures StateNamed(name).Some? ==> name == Some(StateName(StateNamed(name).value))
  {
    forall s: State {
      StateNameRoundTrip(s);
    }
  }

  lemma StateNameRoundTrip(s: State)
    ensures StateNamed(Some(StateName(s))) == Some(s)
  {
    match s
    case Unknown =>
    case Online => assert "ONLINE"[0] == 'O' && "UNKNOWN"[0] == 'U';
    case Idle => assert |"IDLE"| == 4;
    case Stopping => assert |"STOPPING"| == 8;
    case Stopped => assert "STOPPED"[1] == 'T' && "UNKNOWN"[0] == 'U' && |"STOPPED"| == 7;
    case Starting => assert "STARTING"[2] == 'A' && "STOPPING"[2] == 'O';
    case Crashed => assert "CRASHED"[0] == 'C' && "UNKNOWN"[0] == 'U' && "STOPPED"[0] == 'S';
  }

  /** Per-server and cooldown settings, in the units of the configuration file. */
  datatype Config = Config(
    idleTimeoutMinutes: int,
    startTimeoutSeconds: int,
    stopCooldownMinutes: int,
    startGraceMinutes: int,
    flapWindowMinutes: int,
    flapMaxCycles: int)

  function Seconds(minutes: int): real {
    minutes as real * 60.0
  }

  const HISTORY_LENGTH := 20

  /** The value of a state machine.  `refused` counts the "invalid transition" warnings. */
  datatype Machine = Machine(
    state: State,
    idleSince: Option<real>,
    lastStop: Option<real>,
    lastStart: Option<real>,
    history: seq<real>,
    startCount: int,
    stopCount: int,
    refused: nat)

  const FRESH := Machine(Unknown, None, None, None, [], 0, 0, 0)

  /** The last `HISTORY_LENGTH` entries: what a bounded deque keeps of a longer log. */
  function LastEntries(log: seq<real>): seq<real> {
    if |log| <= HISTORY_LENGTH then log else log[|log| - HISTORY_LENGTH..]
  }

  function Move(m: Machine, target: State, now: real): Machine {
    if target == m.state then m
    else if target !in Targets(m.state) then m.(refused := m.refused + 1)
    else
      var moved := m.(state := target);
      match target
      case Idle => moved.(idleSince := Some(now))
      case Stopping => moved.(idleSince := None)
      case Stopped =>
        moved.(idleSince := None, lastStop := Some(now), stopCount := m.stopCount + 1,
               history := LastEntries(m.history + [now]))
      case Starting =>
        moved.(lastStart := Some(now), startCount := m.startCount + 1,
               history := LastEntries(m.history + [now]))
      case Online => moved.(idleSince := None)
      case _ => moved
  }

  /** A persisted machine with its timestamps already on this process's clock. */
  datatype Snapshot = Snapshot(
    state: Option<string>,
    idleSince: Option<real>,
    lastStop: Option<real>,
    lastStart: Option<real>,
    history: seq<real>,
    startCount: int,
    stopCount: int)

  predicate SavedRunning(s: State) {
    s != Stopped && s != Crashed && s != Unknown
  }

  predicate Adopts(snap: Snapshot, running: bool) {
    var saved := StateNamed(snap.state);
    saved.Some? && SavedRunning(saved.value) == running
  }

  function Restored(m: Machine, snap: Snapshot, running: bool): Machine {
    if !Adopts(snap, running) then m
    else Machine(StateNamed(snap.state).value, snap.idleSince, snap.lastStop, snap.lastStart,
                 LastEntries(snap.history), snap.startCount, snap.stopCount, m.refused)
  }

  // Timing queries, at clock reading `now`.

  function IdleElapsed(m: Machine, now: real): real {
    if m.idleSince.None? then 0.0 else now - m.idleSince.value
  }

  predicate IdleTimeoutReached(cfg: Config, m: Machine, now: real) {
    IdleElapsed(m, now) >= Seconds(cfg.idleTimeoutMinutes)
  }

  predicate InStartGrace(cfg: Config, m: Machine, now: real) {
    m.lastStart.Some? && now - m.lastStart.value < Seconds(cfg.startGraceMinutes)
  }

  predicate InStopCooldown(cfg: Config, m: Machine, now: real) {
    m.lastStop.Some? && now - m.lastStop.value < Seconds(cfg.stopCooldownMinutes)
  }

  /** The flap rule on any log of starts and stops; the source applies it to the deque. */
  predicate FlappingOn(cfg: Config, log: seq<real>, now: real) {
    CountAfter(log, now - Seconds(cfg.flapWindowMinutes)) >= cfg.flapMaxCycles * 2
  }

  predicate IsFlapping(cfg: Config, m: Machine, now: real) {
    FlappingOn(cfg, m.history, now)
  }

  // ----- Reading a transition by field

  /** What each field says afterwards: which accepted transitions write it, and that no other does. */
  lemma TransitionTouches(m: Machine, target: State, now: real)
    ensures var m' := Move(m, target, now);
            var accepted := target != m.state && target in Targets(m.state);
            && (m'.state == target <==> accepted || target == m.state)
            && (m'.state != target ==> m'.state == m.state)
            && m'.refused == m.refused + (if target == m.state || accepted then 0 else 1)
            && (m'.lastStart != m.lastStart ==> accepted && target == Starting)
            && (m'.lastStop != m.lastStop ==> accepted && target == Stopped)
            && (accepted && target == Starting ==> m'.lastStart == Some(now))
            && (accepted && target == Stopped ==> m'.lastStop == Some(now))
            && m'.startCount == m.startCount + (if accepted && target == Starting then 1 else 0)
            && m'.stopCount == m.stopCount + (if accepted && target == Stopped then 1 else 0)
            && (m'.history != m.history ==> accepted && target in {Starting, Stopped})
            && (!accepted || target in {Starting, Crashed} ==> m'.idleSince == m.idleSince)
            && (accepted && target in {Online, Stopping, Stopped} ==> m'.idleSince == None)
            && (accepted && target == Idle ==> m'.idleSince == Some(now))
  {
  }

  /** Which snapshots are adopted, in the states' own names, and what adopting or discarding one leaves. */
  lemma AdoptedExactly(m: Machine, snap: Snapshot, running: bool)
    ensures var names := if running then {"ONLINE", "IDLE", "STOPPING", "STARTING"}
                         else {"UNKNOWN", "STOPPED", "CRASHED"};
            var back := Restored(m, snap, running);
            if snap.state.Some? && snap.state.value in names then
              && StateName(back.state) == snap.state.value
              && back.idleSince == snap.idleSince && back.lastStop == snap.lastStop
              && back.lastStart == snap.lastStart
              && back.startCount == snap.startCount && back.stopCount == snap.stopCount
              && back.refused == m.refused
              && back.history == (if |snap.history| <= 20 then snap.history else snap.history[|snap.history| - 20..])
            else
              back == m
  {
    StateNamesAreFixed(snap.state);
  }

  /** Each guard in seconds: grace and cooldown end exactly their minutes after the last start and stop, the
      flap guard counts the entries less than its minutes old, and the timeout is reached exactly its
      minutes after the idle clock's start; a machine without one has been idle for 0 seconds. */
  lemma GuardsLetGoExactly(cfg: Config, m: Machine, now: real)
    ensures InStartGrace(cfg, m, now) <==>
            m.lastStart.Some? && now < m.lastStart.value + 60.0 * cfg.startGraceMinutes as real
    ensures InStopCooldown(cfg, m, now) <==>
            m.lastStop.Some? && now < m.lastStop.value + 60.0 * cfg.stopCooldownMinutes as real
    ensures IsFlapping(cfg, m, now) <==>
            |set i | 0 <= i < |m.history| && now < m.history[i] + 60.0 * cfg.flapWindowMinutes as real|
            >= 2 * cfg.flapMaxCycles
    ensures IdleTimeoutReached(cfg, m, now) <==>
            (if m.idleSince.Some? then now - m.idleSince.value else 0.0) >= 60.0 * cfg.idleTimeoutMinutes as real
  {
    var cutoff := now - Seconds(cfg.flapWindowMinutes);
    CountAfterIsCardinality(m.history, cutoff);
    assert (set i | 0 <= i < |m.history| && m.history[i] > cutoff) ==
           (set i | 0 <= i < |m.history| && now < m.history[i] + 60.0 * cfg.flapWindowMinutes as real);
  }

  // ----- What every accepted or refused transition keeps

  ghost predicate UpTo(t: Option<real>, now: real) {
    t.Some? ==> t.value <= now
  }

  /** The invariant of a machine at clock reading `now`. */
  ghost predicate MachineInv(m: Machine, now: real) {
    && (m.state == Idle ==> m.idleSince.Some?)
    && (m.state in {Unknown, Online, Stopping, Stopped} ==> m.idleSince.None?)
    && (m.state == Starting ==> m.lastStart.Some?)
    && UpTo(m.idleSince, now) && UpTo(m.lastStop, now) && UpTo(m.lastStart, now)
    && Sorted(m.history) && AllUpTo(m.history, now) && |m.history| <= HISTORY_LENGTH
  }

  lemma MoveKeepsInv(m: Machine, target: State, before: real, now: real)
    requires MachineInv(m, before) && before <= now
    ensures MachineInv(Move(m, target, now), now)
  {
    AppendKeepsOrder(m.history, now);
  }

  lemma AppendKeepsOrder(log: seq<real>, now: real)
    requires Sorted(log) && AllUpTo(log, now)
    ensures var kept := LastEntries(log + [now]);
            Sorted(kept) && AllUpTo(kept, now) && |kept| <= HISTORY_LENGTH
  {
    var all := log + [now];
    assert Sorted(all) && AllUpTo(all, now);
    var cut := if |all| <= HISTORY_LENGTH then 0 else |all| - HISTORY_LENGTH;
    assert forall i :: 0 <= i < |LastEntries(all)| ==> LastEntries(all)[i] == all[cut + i];
  }

  /** A snapshot that a machine satisfying the invariant could have left. */
  ghost predicate SnapshotInv(snap: Snapshot, now: real) {
    var saved := StateNamed(snap.state);
    saved.Some? ==>
      MachineInv(Machine(saved.value, snap.idleSince, snap.lastStop, snap.lastStart,
                         LastEntries(snap.history), snap.startCount, snap.stopCount, 0), now)
  }

  lemma RestoreKeepsInv(m: Machine, snap: Snapshot, running: bool, now: real)
    requires MachineInv(m, now) && SnapshotInv(snap, now)
    ensures MachineInv(Restored(m, snap, running), now)
  {
  }

  // ----- The bounded history answers as the full log would

  /** On a time-ordered log the deque counts min(20, what the full log counts). */
  lemma BoundedCount(log: seq<real>, cutoff: real)
    requires Sorted(log)
    ensures CountAfter(LastEntries(log), cutoff) ==
            if CountAfter(log, cutoff) < 20 then CountAfter(log, cutoff) else 20
  {
    if |log| > HISTORY_LENGTH {
      var cut := |log| - HISTORY_LENGTH;
      var gone, kept := log[..cut], log[cut..];
      assert log == gone + kept;
      CountAfterConcat(gone, kept, cutoff);
      CountAfterBounds(gone, cutoff);
      CountAfterBounds(kept, cutoff);
      if CountAfter(kept, cutoff) < HISTORY_LENGTH {
        var i :| 0 <= i < |kept| && kept[i] <= cutoff;
        assert kept[i] == log[cut + i];
        assert AllUpTo(gone, log[cut + i]);
      }
    } else {
      CountAfterBounds(log, cutoff);
    }
  }

  /** `n` starts and stops at the instants 1, 2, ..., n. */
  function SteadyLog(n: nat): (log: seq<real>)
    ensures |log| == n
  {
    seq(n, i requires 0 <= i < n => (i + 1) as real)
  }

  /** The deque answers exactly as the unbounded log on every log, iff 2 * cycles fits in it. */
  lemma BoundedHistoryExact(cfg: Config)
    ensures (forall log: seq<real>, now: real :: Sorted(log) ==>
               FlappingOn(cfg, LastEntries(log), now) == FlappingOn(cfg, log, now))
            <==> cfg.flapMaxCycles * 2 <= 20
  {
    if cfg.flapMaxCycles * 2 <= HISTORY_LENGTH {
      forall log: seq<real>, now: real | Sorted(log)
        ensures FlappingOn(cfg, LastEntries(log), now) == FlappingOn(cfg, log, now)
      {
        BoundedCount(log, now - Seconds(cfg.flapWindowMinutes));
      }
    } else {
      var n := cfg.flapMaxCycles * 2;
      var log, now := SteadyLog(n), Seconds(cfg.flapWindowMinutes);
      var cutoff := now - Seconds(cfg.flapWindowMinutes);
      CountAfterBounds(log, cutoff);
      CountAfterBounds(LastEntries(log), cutoff);
      assert !FlappingOn(cfg, LastEntries(log), now);
      assert FlappingOn(cfg, log, now);
    }
  }

  /** The guard can hold a stop back at all iff twice the cycle limit is at most 0, or it fits in the deque
      and the window is not empty.  Above the deque's length it is off for every history a machine can have. */
  lemma FlapGuardCanHoldExactly(cfg: Config)
    ensures (exists m: Machine, now: real :: MachineInv(m, now) && IsFlapping(cfg, m, now)) <==>
            || cfg.flapMaxCycles * 2 <= 0
            || (cfg.flapMaxCycles * 2 <= 20 && cfg.flapWindowMinutes > 0)
  {
    forall m: Machine, now: real | MachineInv(m, now) && IsFlapping(cfg, m, now)
      ensures cfg.flapMaxCycles * 2 <= |m.history|
      ensures cfg.flapWindowMinutes <= 0 ==> cfg.flapMaxCycles * 2 <= 0
    {
      CountAfterBounds(m.history, now - Seconds(cfg.flapWindowMinutes));
    }
    if cfg.flapMaxCycles * 2 <= 0 {
      assert MachineInv(FRESH, 0.0) && IsFlapping(cfg, FRESH, 0.0);
    } else if cfg.flapMaxCycles * 2 <= HISTORY_LENGTH && cfg.flapWindowMinutes > 0 {
      var full := FRESH.(history := seq(HISTORY_LENGTH, _ => 0.0));
      CountAfterBounds(full.history, 0.0 - Seconds(cfg.flapWindowMinutes));
      assert MachineInv(full, 0.0) && IsFlapping(cfg, full, 0.0);
    }
  }

  // ----- The mutable machine

  class ServerStateMachine {
    const cfg: Config
    var state: State
    var idleSince: Option<real>
    var lastStopTime: Option<real>
    var lastStartTime: Option<real>
    var startStopHistory: seq<real>
    var startCount: int
    var stopCount: int
    var refusals: nat

    ghost function Value(): Machine
      reads this
    {
      Machine(state, idleSince, lastStopTime, lastStartTime, startStopHistory, startCount, stopCount, refusals)
    }

    constructor (cfg: Config)
      ensures Value() == FRESH && this.cfg == cfg
    {
      this.cfg := cfg;
      state, idleSince, lastStopTime, lastStartTime := Unknown, None, None, None;
      startStopHistory, startCount, stopCount, refusals := [], 0, 0, 0;
    }

    method Append(now: real)
      modifies this`startStopHistory
      ensures startStopHistory == LastEntries(old(startStopHistory) + [now])
    {
      startStopHistory := startStopHistory + [now];
      if |startStopHistory| > HISTORY_LENGTH {
        startStopHistory := startStopHistory[|startStopHistory| - HISTORY_LENGTH..];
      }
    }

    /** Returns whether the change callback fires. */
    method Transition(target: State, now: real) returns (changed: bool)
      modifies this
      ensures Value() == Move(old(Value()), target, now)
      ensures changed <==> old(state) != target && target in Targets(old(state))
    {
      hide LastEntries, Targets;
      ghost var was := Value();
      if target == state {
        return false;
      }
      if target !in Targets(state) {
        refusals := refusals + 1;
        return false;
      }
      state := target;
      if target == Idle {
        idleSince := Some(now);
      } else if target == Stopping {
        idleSince := None;
      } else if target == Stopped {
        idleSince := None;
        lastStopTime := Some(now);
        stopCount := stopCount + 1;
        Append(now);
      } else if target == Starting {
        lastStartTime := Some(now);
        startCount := startCount + 1;
        Append(now);
      } else if target == Online {
        idleSince := None;
      }
      assert Value() == Move(was, target, now);
      return true;
    }

    method Restore(snap: Snapshot, running: bool) returns (adopted: bool)
      modifies this
      ensures adopted == Adopts(snap, running)
      ensures Value() == Restored(old(Value()), snap, running)
    {
      var saved := StateNamed(snap.state);
      if saved.None? {
        return false;
      }
      if SavedRunning(saved.value) != running {
        return false;
      }
      state := saved.value;
      idleSince, lastStopTime, lastStartTime := snap.idleSince, snap.lastStop, snap.lastStart;
      startStopHistory := LastEntries(snap.history);
      startCount, stopCount := snap.startCount, snap.stopCount;
      return true;
    }
  }
}
