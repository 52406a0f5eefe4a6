/** Who holds a server's port (crafty_server_watcher/proxy_listener.py). */
module PortControl {
  import opened Common
  import opened ServerState

  /** What the coroutines of one server share.  A listener is an OS socket number;
      `sockets` is the set of sockets the OS has open for this server's listener. */
  datatype Port = Port(
    m: Machine,
    listener: Option<nat>,
    lockout: bool,
    rebinding: bool,
    sockets: set<nat>)

  datatype Status = NotManaged | AlreadyStarting | NotStopped | Released | AlreadyStopped | Reclaimed

  const BIND_ATTEMPTS := 15

  function StopListener(p: Port): Port {
    if p.listener.None? then p else p.(listener := None, sockets := p.sockets - {p.listener.value})
  }

  /** Attempt number `k` of the bind loop; `bind` is the socket the OS grants, or None for an OSError.
      The second component is the attempt to make after the two-second sleep, if the loop goes on. */
  function BindAttempt(p: Port, k: nat, bind: Option<nat>): (Port, Option<nat>) {
    if p.lockout then (p.(rebinding := false), None)
    else if bind.Some? then
      (p.(listener := bind, rebinding := false, sockets := p.sockets + {bind.value}), None)
    else if k < BIND_ATTEMPTS - 1 then (p, Some(k + 1))
    else (p.(rebinding := false), None)
  }

  function StartListener(p: Port, bind: Option<nat>): (Port, Option<nat>) {
    if p.listener.Some? || p.rebinding then (p, None)
    else BindAttempt(p.(rebinding := true), 0, bind)
  }

  function EnsureListener(p: Port, bind: Option<nat>): (Port, Option<nat>) {
    if p.lockout && !Asleep(p.m.state) then (p, None)
    else
      var q := p.(lockout := false);
      if Asleep(q.m.state) then StartListener(q, bind) else (StopListener(q), None)
  }

  function ReleasePort(p: Port, now: real): Port {
    StopListener(p).(lockout := true, m := Move(p.m, Starting, now))
  }

  function ReleaseForStart(p: Port, now: real): (Port, Status) {
    if p.lockout || p.m.state == Starting then (p, AlreadyStarting)
    else if !Asleep(p.m.state) then (p, NotStopped)
    else (ReleasePort(p, now), Released)
  }

  function ReclaimAfterStop(p: Port, crashed: bool, now: real): (Port, Status) {
    if Asleep(p.m.state) then (p, AlreadyStopped)
    else (p.(lockout := false, m := Move(p.m, if crashed then Crashed else Stopped, now)), Reclaimed)
  }

  /** The wake part of a login, up to its five-second pause; true when it goes on to start the server. */
  function LoginWakes(p: Port, now: real): (Port, bool) {
    if Asleep(p.m.state) then (ReleasePort(p, now), true) else (p, false)
  }

  /** The rollback of a failed start call. */
  function StartFailed(p: Port, now: real, bind: Option<nat>): (Port, Option<nat>) {
    StartListener(p.(m := Move(p.m, Stopped, now), lockout := false), bind)
  }

  /** One attempt: given up at a lockout, a listener if the OS grants one, else another attempt but after the
      fifteenth; the rebind flag is held exactly as long as there is another one. */
  lemma AttemptOutcome(p: Port, k: nat, bind: Option<nat>)
    requires p.rebinding
    ensures var (q, next) := BindAttempt(p, k, bind);
            && q.m == p.m && q.lockout == p.lockout
            && (next.Some? <==> !p.lockout && bind.None? && k < 14) && (next.Some? ==> next.value == k + 1)
            && q.rebinding == next.Some?
            && (if !p.lockout && bind.Some? then q.listener == bind && q.sockets == p.sockets + {bind.value}
                else q.listener == p.listener && q.sockets == p.sockets)
  {
  }

  /** A listener pass matches the port to the server: an awake, unlocked server's port is let go, a
      sleeping one is unlocked and held as soon as the OS grants it, and a locked, awake one is left alone.
      A listener or a live bind loop is never disturbed while the server sleeps. */
  lemma PassOutcome(p: Port, bind: Option<nat>)
    ensures var (q, next) := EnsureListener(p, bind);
            var asleep := p.m.state in {Stopped, Crashed};
            && q.m == p.m
            && (asleep ==> !q.lockout && (q.listener.Some? || q.rebinding))
            && (asleep && (p.listener.Some? || p.rebinding) ==> q == p.(lockout := false) && next.None?)
            && (asleep && p.listener.None? && !p.rebinding ==>
                  && q.listener == bind && q.rebinding == bind.None?
                  && next == (if bind.None? then Some(1) else None))
            && (!asleep && !p.lockout ==>
                  && q.listener.None? && !q.lockout && q.rebinding == p.rebinding && next.None?
                  && q.sockets == (if p.listener.Some? then p.sockets - {p.listener.value} else p.sockets))
            && (!asleep && p.lockout ==> q == p && next.None?)
  {
  }

  /** A release leaves the port closed, locked and the machine STARTING; a refused one changes nothing, and
      says whether a start is already under way. */
  lemma ReleaseOutcome(p: Port, now: real)
    ensures var (q, status) := ReleaseForStart(p, now);
            && (status == Released <==> p.m.state in {Stopped, Crashed} && !p.lockout)
            && (status == AlreadyStarting <==> p.lockout || p.m.state == Starting)
            && status in {Released, AlreadyStarting, NotStopped}
            && (status == Released ==> Freed(p, q, now))
            && (status != Released ==> q == p)
  {
  }

  /** What every release does. */
  predicate Freed(p: Port, q: Port, now: real) {
    && q.m.state == Starting && q.m.lastStart == Some(now) && q.m.refused == p.m.refused
    && q.lockout && q.listener == None && q.rebinding == p.rebinding
    && q.sockets == if p.listener.Some? then p.sockets - {p.listener.value} else p.sockets
  }

  /** A login wakes a server that was stopped or has crashed, whatever the lockout says, and no other. */
  lemma LoginOutcome(p: Port, now: real)
    ensures var (q, wakes) := LoginWakes(p, now);
            && (wakes <==> p.m.state in {Stopped, Crashed})
            && (wakes ==> Freed(p, q, now))
            && (!wakes ==> q == p)
  {
  }

  /** A reclaim always lands asleep, in the state the event names, with the port unlocked and otherwise as it
      was. */
  lemma ReclaimOutcome(p: Port, crashed: bool, now: real)
    ensures var (q, status) := ReclaimAfterStop(p, crashed, now);
            && status in {Reclaimed, AlreadyStopped}
            && (status == Reclaimed <==> p.m.state !in {Stopped, Crashed})
            && (status == Reclaimed ==>
                  && q.m.state == (if crashed then Crashed else Stopped) && q.m.refused == p.m.refused
                  && q == p.(m := q.m, lockout := false))
            && (status != Reclaimed ==> q == p)
  {
  }

  /** The rollback of a failed start call, whatever happened since the login: STOPPED along an edge of the
      graph, or STOPPED as before, unlocked, and with a listener, a live bind loop or an attempt of its own. */
  lemma StartFailedOutcome(p: Port, now: real, bind: Option<nat>)
    ensures var (q, next) := StartFailed(p, now, bind);
            && q.m.state == Stopped && q.m.refused == p.m.refused && !q.lockout
            && (p.m.state == Stopped ==> q.m == p.m)
            && (p.m.state != Stopped ==> q.m.lastStop == Some(now) && q.m.stopCount == p.m.stopCount + 1)
            && q.m.lastStart == p.m.lastStart && q.m.startCount == p.m.startCount
            && (p.listener.Some? || p.rebinding ==>
                  q == p.(m := q.m, lockout := false) && next.None?)
            && (p.listener.None? && !p.rebinding ==>
                  && q.listener == bind && q.rebinding == bind.None?
                  && next == (if bind.None? then Some(1) else None))
  {
  }

  /** A release undone by a failed start call or by a stop event leaves the machine asleep and unlocked. */
  lemma FailedStartUndoesRelease(p: Port, now: real, later: real, bind: Option<nat>)
    requires Asleep(p.m.state) && !p.rebinding
    ensures var q := StartFailed(LoginWakes(p, now).0, later, bind).0;
            q.m.state == Stopped && !q.lockout && q.listener == bind && q.m.refused == p.m.refused
  {
  }

  // ----- The retry loop run to its end

  /** The attempt that binds: the first one the OS grants, provided no lockout was seen up to it. */
  ghost predicate BindsAt(locked: seq<bool>, binds: seq<Option<nat>>, k: nat)
    requires |locked| == |binds|
  {
    && k < |binds| && binds[k].Some?
    && (forall j :: 0 <= j <= k ==> !locked[j])
    && (forall j :: 0 <= j < k ==> binds[j].None?)
  }

  /** The attempts from number `k` on: `locked[k]` is the lockout attempt k sees and `binds[k]` what the OS
      answers it, after whatever other coroutines did during the sleep before. */
  function AttemptsFrom(p: Port, k: nat, locked: seq<bool>, binds: seq<Option<nat>>): Port
    requires |locked| == |binds| == BIND_ATTEMPTS && k < BIND_ATTEMPTS
    decreases BIND_ATTEMPTS - k
  {
    var (q, next) := BindAttempt(p.(lockout := locked[k]), k, binds[k]);
    if next.None? then q else AttemptsFrom(q, next.value, locked, binds)
  }

  /** The whole loop of a port without a listener, run by itself. */
  method RebindLoop(ghost p: Port, locked: seq<bool>, binds: seq<Option<nat>>)
    returns (bound: Option<nat>, attempts: nat, sleeps: nat)
    requires |locked| == |binds| == BIND_ATTEMPTS && p.listener.None?
    ensures bound == AttemptsFrom(p, 0, locked, binds).listener && !AttemptsFrom(p, 0, locked, binds).rebinding
    ensures bound.Some? <==> exists k: nat :: BindsAt(locked, binds, k)
    ensures bound.Some? ==> attempts >= 1 && BindsAt(locked, binds, attempts - 1) && bound == binds[attempts - 1]
    ensures attempts <= 15 && sleeps <= 14 && sleeps <= attempts <= sleeps + 1
  {
    bound, attempts, sleeps := None, 0, 0;
    ghost var q := p;
    for k := 0 to BIND_ATTEMPTS
      invariant bound.None? && attempts == k && q.listener.None?
      invariant sleeps == if k < BIND_ATTEMPTS then k else k - 1
      invariant forall j :: 0 <= j < k ==> !locked[j] && binds[j].None?
      invariant AttemptsFrom(p, 0, locked, binds) ==
                if k < BIND_ATTEMPTS then AttemptsFrom(q, k, locked, binds) else q
      invariant k == BIND_ATTEMPTS ==> !q.rebinding
    {
      q := BindAttempt(q.(lockout := locked[k]), k, binds[k]).0;
      if locked[k] {
        return;
      }
      attempts := attempts + 1;
      if binds[k].Some? {
        bound := binds[k];
        assert BindsAt(locked, binds, k);
        return;
      }
      if k < BIND_ATTEMPTS - 1 {
        sleeps := sleeps + 1;
      }
    }
  }

  // ----- The manager object, for any number of servers

  class ProxyManager {
    const sms: map<string, ServerStateMachine>
    var listeners: map<string, Option<nat>>
    var startLockout: set<string>
    var rebindingNames: set<string>
    ghost var sockets: map<string, set<nat>>

    ghost predicate Valid()
      reads this
    {
      && listeners.Keys == sms.Keys && sockets.Keys == sms.Keys
      && (forall a, b :: a in sms && b in sms && a != b ==> sms[a] != sms[b])
    }

    ghost function PortOf(name: string): Port
      requires Valid() && name in sms
      reads this, sms[name]
    {
      Port(sms[name].Value(), listeners[name], name in startLockout, name in rebindingNames, sockets[name])
    }

    constructor (sms: map<string, ServerStateMachine>)
      requires forall a, b :: a in sms && b in sms && a != b ==> sms[a] != sms[b]
      ensures Valid() && this.sms == sms
      ensures forall n :: n in sms ==> PortOf(n) == Port(sms[n].Value(), None, false, false, {})
    {
      this.sms := sms;
      listeners := map n | n in sms :: None;
      startLockout, rebindingNames := {}, {};
      sockets := map n | n in sms :: {};
    }

    method CloseListener(name: string)
      requires Valid() && name in sms
      modifies this`listeners, this`sockets
      ensures Valid() && PortOf(name) == StopListener(old(PortOf(name)))
      ensures forall n :: n in sms && n != name ==> PortOf(n) == old(PortOf(n))
    {
      var server := listeners[name];
      if server.None? {
        return;
      }
      sockets := sockets[name := sockets[name] - {server.value}];
      listeners := listeners[name := None];
    }

    method Record(name: string, fd: nat)
      requires Valid() && name in sms
      modifies this`listeners, this`sockets
      ensures Valid()
      ensures PortOf(name) ==
              old(PortOf(name)).(listener := Some(fd), sockets := old(PortOf(name)).sockets + {fd})
      ensures forall n :: n in sms && n != name ==> PortOf(n) == old(PortOf(n))
    {
      listeners := listeners[name := Some(fd)];
      sockets := sockets[name := sockets[name] + {fd}];
    }

    /** The loop's `finally`. */
    method EndLoop(name: string)
      requires Valid() && name in sms
      modifies this`rebindingNames
      ensures Valid() && PortOf(name) == old(PortOf(name)).(rebinding := false)
      ensures forall n :: n in sms && n != name ==> PortOf(n) == old(PortOf(n))
    {
      rebindingNames := rebindingNames - {name};
    }

    /** One attempt of a loop already registered in `rebindingNames`. */
    method TryBind(name: string, k: nat, bind: Option<nat>) returns (next: Option<nat>)
      requires Valid() && name in sms
      modifies this`listeners, this`rebindingNames, this`sockets
      ensures Valid() && (PortOf(name), next) == BindAttempt(old(PortOf(name)), k, bind)
      ensures forall n :: n in sms && n != name ==> PortOf(n) == old(PortOf(n))
    {
      next := None;
      if name !in startLockout {
        if bind.Some? {
          Record(name, bind.value);
        } else if k < BIND_ATTEMPTS - 1 {
          return Some(k + 1);
        }
      }
      EndLoop(name);
    }

    method OpenListener(name: string, bind: Option<nat>) returns (next: Option<nat>)
      requires Valid() && name in sms
      modifies this`listeners, this`rebindingNames, this`sockets
      ensures Valid() && (PortOf(name), next) == StartListener(old(PortOf(name)), bind)
      ensures forall n :: n in sms && n != name ==> PortOf(n) == old(PortOf(n))
    {
      if listeners[name].Some? {
        return None;
      }
      if name in rebindingNames {
        return None;
      }
      rebindingNames := rebindingNames + {name};
      next := TryBind(name, 0, bind);
    }

    /** The body of the ensure_listeners loop for one server. */
    method EnsureOne(name: string, bind: Option<nat>) returns (next: Option<nat>)
      requires Valid() && name in sms
      modifies this
      ensures Valid() && (PortOf(name), next) == EnsureListener(old(PortOf(name)), bind)
      ensures forall n :: n in sms && n != name ==> PortOf(n) == old(PortOf(n))
    {
      var sm := sms[name];
      if name in startLockout {
        if sm.state in {Stopped, Crashed} {
          startLockout := startLockout - {name};
        } else {
          return None;
        }
      }
      if Asleep(sm.state) {
        next := OpenListener(name, bind);
      } else {
        CloseListener(name);
        next := None;
      }
    }

    method ReleaseAndMove(name: string, now: real)
      requires Valid() && name in sms
      modifies this, sms[name]
      ensures Valid() && PortOf(name) == ReleasePort(old(PortOf(name)), now)
      ensures forall n :: n in sms && n != name ==> PortOf(n) == old(PortOf(n))
    {
      hide Move;
      CloseListener(name);
      startLockout := startLockout + {name};
      var _ := sms[name].Transition(Starting, now);
    }

    method OnStartEvent(name: string, now: real) returns (status: Status)
      requires Valid()
      modifies this, if name in sms then {sms[name]} else {}
      ensures Valid()
      ensures if name in sms then (PortOf(name), status) == ReleaseForStart(old(PortOf(name)), now)
              else status == NotManaged
      ensures forall n :: n in sms && n != name ==> PortOf(n) == old(PortOf(n))
    {
      if name !in sms {
        return NotManaged;
      }
      if name in startLockout || sms[name].state == Starting {
        return AlreadyStarting;
      }
      if sms[name].state !in {Stopped, Crashed} {
        return NotStopped;
      }
      ReleaseAndMove(name, now);
      return Released;
    }

    /** On Reclaimed the caller spawns a detached OpenListener. */
    method OnStopEvent(name: string, crashed: bool, now: real) returns (status: Status)
      requires Valid()
      modifies this, if name in sms then {sms[name]} else {}
      ensures Valid()
      ensures if name in sms then (PortOf(name), status) == ReclaimAfterStop(old(PortOf(name)), crashed, now)
              else status == NotManaged
      ensures forall n :: n in sms && n != name ==> PortOf(n) == old(PortOf(n))
    {
      if name !in sms {
        return NotManaged;
      }
      if sms[name].state in {Stopped, Crashed} {
        return AlreadyStopped;
      }
      startLockout := startLockout - {name};
      var _ := sms[name].Transition(if crashed then Crashed else Stopped, now);
      return Reclaimed;
    }

    method OnLogin(name: string, now: real) returns (wakes: bool)
      requires Valid() && name in sms
      modifies this, sms[name]
      ensures Valid() && (PortOf(name), wakes) == LoginWakes(old(PortOf(name)), now)
      ensures forall n :: n in sms && n != name ==> PortOf(n) == old(PortOf(n))
    {
      wakes := sms[name].state in {Stopped, Crashed};
      if wakes {
        ReleaseAndMove(name, now);
      }
    }

    method OnStartCallFailed(name: string, now: real, bind: Option<nat>) returns (next: Option<nat>)
      requires Valid() && name in sms
      modifies this, sms[name]
      ensures Valid() && (PortOf(name), next) == StartFailed(old(PortOf(name)), now, bind)
      ensures forall n :: n in sms && n != name ==> PortOf(n) == old(PortOf(n))
    {
      var _ := sms[name].Transition(Stopped, now);
      startLockout := startLockout - {name};
      next := OpenListener(name, bind);
    }
  }
}
