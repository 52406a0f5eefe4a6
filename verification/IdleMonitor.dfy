/** One poll of one server (crafty_server_watcher/idle_monitor.py). */
module IdleMonitor {
  import opened Common
  import opened ServerState

  /** The fields of a stats reply that decide anything; `ping` is int_ping_results == "True". */
  datatype Reading = Reading(running: bool, crashed: bool, online: int, ping: bool)

  /** A poll that finds the server up with nobody on it. */
  predicate Quiet(r: Reading) {
    r.running && !r.crashed && r.online <= 0
  }

  /** The machine after a poll, and the idle seconds of the stop it requests, if it does. */
  datatype Decision = Decision(m: Machine, stop: Option<real>)

  /** The start deadline; a recorded start time of exactly 0 reads as no start time at all. */
  predicate StartTimedOut(cfg: Config, m: Machine, now: real) {
    m.lastStart.Some? && m.lastStart.value != 0.0 &&
    now - m.lastStart.value > cfg.startTimeoutSeconds as real
  }

  predicate StopHeldBack(cfg: Config, m: Machine, now: real) {
    InStartGrace(cfg, m, now) || InStopCooldown(cfg, m, now) || IsFlapping(cfg, m, now) ||
    !IdleTimeoutReached(cfg, m, now)
  }

  function CheckIdleShutdown(cfg: Config, m: Machine, now: real): Decision {
    if StopHeldBack(cfg, m, now) then Decision(m, None)
    else Decision(Move(m, Stopping, now), Some(IdleElapsed(m, now)))
  }

  function Decide(cfg: Config, m: Machine, r: Reading, now: real): Decision {
    if r.crashed then Decision(if m.state != Crashed then Move(m, Crashed, now) else m, None)
    else if !r.running then
      if m.state == Starting then
        Decision(if StartTimedOut(cfg, m, now) then Move(m, Stopped, now) else m, None)
      else
        Decision(if !Asleep(m.state) then Move(m, Stopped, now) else m, None)
    else
      match m.state
      case Starting =>
        if r.ping then Decision(Move(m, Online, now), None)
        else if StartTimedOut(cfg, m, now) then
          Decision(Move(m, if r.online > 0 then Online else Idle, now), None)
        else Decision(m, None)
      case Stopped => Decision(Move(m, if r.online > 0 then Online else Idle, now), None)
      case Crashed => Decision(Move(m, if r.online > 0 then Online else Idle, now), None)
      case Unknown => Decision(Move(m, if r.online > 0 then Online else Idle, now), None)
      case Stopping => Decision(m, None)
      case Online => Decision(if r.online > 0 then m else Move(m, Idle, now), None)
      case Idle =>
        if r.online > 0 then Decision(Move(m, Online, now), None) else CheckIdleShutdown(cfg, m, now)
  }

  /** The machine a poll decides on: a waiting snapshot is reconciled first. */
  function Reconciled(m: Machine, pending: Option<Snapshot>, r: Reading): Machine {
    if pending.Some? then Restored(m, pending.value, r.running && !r.crashed) else m
  }

  /** The rollback of a failed stop call that had been idle for `idle` seconds. */
  function StopFailed(m: Machine, idle: real, now: real): Machine {
    Move(m, Idle, now).(idleSince := Some(now - idle))
  }

  // ----- What one poll guarantees, stated without following its branches

  /** A poll requests at most one transition. */
  lemma DecideMakesOneMove(cfg: Config, m: Machine, r: Reading, now: real)
    ensures exists target :: Decide(cfg, m, r, now).m == Move(m, target, now)
  {
    var d := Decide(cfg, m, r, now);
    if r.crashed {
      assert d.m == Move(m, Crashed, now);
    } else {
      assert d.m == Move(m, d.m.state, now);
    }
  }

  /** The only transition a poll ever requests in vain is a crash reading while STOPPED. */
  lemma PollRefusals(cfg: Config, m: Machine, r: Reading, now: real)
    ensures Decide(cfg, m, r, now).m.refused ==
            m.refused + if r.crashed && m.state == Stopped then 1 else 0
  {
  }

  /** A stop is requested exactly for a quiet reading of an IDLE machine that nothing holds back: neither
      grace, nor cooldown, nor the flap guard, nor a timeout still to come. */
  lemma StopRequestedExactly(cfg: Config, m: Machine, r: Reading, now: real)
    ensures var d := Decide(cfg, m, r, now);
            && (d.stop.Some? <==> m.state == Idle && Quiet(r) && !StopHeldBack(cfg, m, now))
            && (d.stop.Some? <==>
                  && m.state == Idle && r.running && !r.crashed && r.online <= 0
                  && !InStartGrace(cfg, m, now) && !InStopCooldown(cfg, m, now) && !IsFlapping(cfg, m, now)
                  && IdleTimeoutReached(cfg, m, now))
            && (d.stop.Some? ==> d.m.state == Stopping && d.stop.value == IdleElapsed(m, now))
            && (d.m.state == Stopping ==> d.stop.Some? || m.state == Stopping)
  {
  }

  /** IDLE after a poll means the poll was quiet, and the clock is either kept or starts now. */
  lemma IdleAfterPoll(cfg: Config, m: Machine, r: Reading, now: real)
    requires Decide(cfg, m, r, now).m.state == Idle
    ensures Quiet(r)
    ensures var m' := Decide(cfg, m, r, now).m;
            if m.state == Idle then m' == m else m'.idleSince == Some(now)
  {
  }

  /** Where a reading leads, whatever the machine believed before, a boot or a shutdown under way aside. */
  lemma ReadingSettles(cfg: Config, m: Machine, r: Reading, now: real)
    ensures var s := Decide(cfg, m, r, now).m.state;
            && (r.crashed ==> s == if m.state == Stopped then Stopped else Crashed)
            && (!r.crashed && !r.running && m.state != Starting ==>
                  s == if m.state == Crashed then Crashed else Stopped)
            && (!r.crashed && r.running && m.state !in {Starting, Stopping} ==>
                  s == if r.online > 0 then Online
                       else if m.state == Idle && !StopHeldBack(cfg, m, now) then Stopping else Idle)
  {
  }

  /** When a shutdown under way ends: when the server is down, and not before, whoever is on it.  Until then a
      poll changes nothing and asks for nothing. */
  lemma StoppingEndsExactly(cfg: Config, m: Machine, r: Reading, now: real)
    requires m.state == Stopping
    ensures var d := Decide(cfg, m, r, now);
            && (d.m.state != Stopping <==> r.crashed || !r.running)
            && (d.m.state != Stopping ==> d.m.state == if r.crashed then Crashed else Stopped)
            && (d.m.state == Stopping ==> d == Decision(m, None))
  {
  }

  /** The first poll of a process, whatever snapshot waits for it: a server that is not up is asleep after it,
      so that the next listener pass takes the port, and one that is up is held to be up. */
  lemma FirstPollBelievesTheServer(cfg: Config, snap: Option<Snapshot>, r: Reading, now: real)
    ensures var s := Decide(cfg, Reconciled(FRESH, snap, r), r, now).m.state;
            && (r.crashed || !r.running ==> s in {Stopped, Crashed})
            && (r.running && !r.crashed ==> s in {Starting, Online, Idle, Stopping})
  {
  }

  /** When a boot ends: at a crash, at a ping of a running server, or at the first poll past the deadline,
      and then a server that is not running goes back to sleep and a running one counts as up. */
  lemma BootEndsExactly(cfg: Config, m: Machine, r: Reading, now: real)
    requires m.state == Starting
    ensures var s := Decide(cfg, m, r, now).m.state;
            && (s != Starting <==>
                  || r.crashed || (r.running && r.ping)
                  || (m.lastStart.Some? && m.lastStart.value != 0.0
                      && now > m.lastStart.value + cfg.startTimeoutSeconds as real))
            && (s != Starting ==>
                  s == if r.crashed then Crashed
                       else if !r.running then Stopped
                       else if r.ping || r.online > 0 then Online else Idle)
  {
  }

  /** The rollback of a failed stop call, from any state: nothing but state and idle clock differ afterwards,
      and no transition is refused. */
  lemma StopFailedOutcome(m: Machine, idle: real, now: real)
    ensures StopFailed(m, idle, now) == m.(state := Idle, idleSince := Some(now - idle))
  {
  }

  /** A failed stop call, with no other event, lets the very next quiet poll request the stop again. */
  lemma FailedStopRetries(cfg: Config, m: Machine, r: Reading, again: Reading, now: real, failed: real, next: real)
    requires MachineInv(m, now) && now <= failed <= next
    requires Decide(cfg, m, r, now).stop.Some? && Quiet(again)
    ensures var d := Decide(cfg, m, r, now);
            var back := StopFailed(d.m, d.stop.value, failed);
            && back.state == Idle
            && IdleElapsed(back, failed) == IdleElapsed(m, now)
            && Decide(cfg, back, again, next).stop == Some(IdleElapsed(m, now) + (next - failed))
  {
    StopRequestedExactly(cfg, m, r, now);
    var window := Seconds(cfg.flapWindowMinutes);
    CountAfterMonotone(m.history, now - window, next - window);
  }

  // ----- The monitor object

  class IdleMonitor {
    const sms: map<string, ServerStateMachine>
    var pendingRestore: map<string, Snapshot>

    constructor (sms: map<string, ServerStateMachine>, loaded: map<string, Snapshot>)
      ensures this.sms == sms && pendingRestore == loaded
    {
      this.sms := sms;
      pendingRestore := loaded;
    }

    function Pending(name: string): Option<Snapshot>
      reads this
    {
      if name in pendingRestore then Some(pendingRestore[name]) else None
    }

    /** The part of a poll that follows the stats reply, up to the stop call it may await. */
    method PollOne(name: string, r: Reading, now: real) returns (stop: Option<real>)
      requires name in sms
      modifies this`pendingRestore, sms[name]
      ensures var base := Reconciled(old(sms[name].Value()), old(Pending(name)), r);
              Decision(sms[name].Value(), stop) == Decide(sms[name].cfg, base, r, now)
      ensures pendingRestore == old(pendingRestore) - {name}
    {
      var sm := sms[name];
      stop := None;
      if name in pendingRestore {
        var snap := pendingRestore[name];
        pendingRestore := pendingRestore - {name};
        var _ := sm.Restore(snap, r.running && !r.crashed);
      }
      assert pendingRestore == old(pendingRestore) - {name};
      var refused;
      if r.crashed {
        if sm.state != Crashed {
          refused := sm.Transition(Crashed, now);
        }
        return;
      }
      if !r.running {
        if sm.state == Starting {
          if sm.lastStartTime.Some? && sm.lastStartTime.value != 0.0 &&
             now - sm.lastStartTime.value > sm.cfg.startTimeoutSeconds as real {
            refused := sm.Transition(Stopped, now);
          }
          return;
        }
        if sm.state != Stopped && sm.state != Crashed {
          refused := sm.Transition(Stopped, now);
        }
        return;
      }
      if sm.state == Starting {
        if r.ping {
          refused := sm.Transition(Online, now);
          return;
        }
        if sm.lastStartTime.Some? && sm.lastStartTime.value != 0.0 &&
           now - sm.lastStartTime.value > sm.cfg.startTimeoutSeconds as real {
          refused := sm.Transition(if r.online > 0 then Online else Idle, now);
        }
        return;
      }
      if sm.state in {Stopped, Starting, Crashed, Unknown} {
        refused := sm.Transition(if r.online > 0 then Online else Idle, now);
        return;
      }
      if sm.state == Stopping {
        return;
      }
      if r.online > 0 {
        if sm.state != Online {
          refused := sm.Transition(Online, now);
        }
        return;
      }
      if sm.state == Online {
        refused := sm.Transition(Idle, now);
        return;
      }
      stop := CheckShutdown(sm, now);
    }

    method CheckShutdown(sm: ServerStateMachine, now: real) returns (stop: Option<real>)
      modifies sm
      ensures Decision(sm.Value(), stop) == CheckIdleShutdown(sm.cfg, old(sm.Value()), now)
    {
      var m := Machine(sm.state, sm.idleSince, sm.lastStopTime, sm.lastStartTime, sm.startStopHistory,
                       sm.startCount, sm.stopCount, sm.refusals);
      if InStartGrace(sm.cfg, m, now) {
        return None;
      }
      if InStopCooldown(sm.cfg, m, now) {
        return None;
      }
      if IsFlapping(sm.cfg, m, now) {
        return None;
      }
      if !IdleTimeoutReached(sm.cfg, m, now) {
        return None;
      }
      var idleSeconds := IdleElapsed(m, now);
      var _ := sm.Transition(Stopping, now);
      return Some(idleSeconds);
    }

    /** The rollback run when the awaited stop call fails. */
    method StopCallFailed(sm: ServerStateMachine, idleSeconds: real, now: real)
      modifies sm
      ensures sm.Value() == StopFailed(old(sm.Value()), idleSeconds, now)
    {
      var _ := sm.Transition(Idle, now);
      sm.idleSince := Some(now - idleSeconds);
    }
  }
}
