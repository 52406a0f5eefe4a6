/** Restarts are transparent: a watcher restarted any number of times, on any monotonic origins, decides
    about a server exactly as one that never stopped, as long as its file is usable each time. */
module Restart {
  import opened Common
  import opened ServerState
  import opened IdleMonitor
  import opened StateStore

  datatype Action =
    | Polls(r: Reading)
    | Moves(target: State)          // a transition requested by a release, a reclaim or a rollback
    | StopCallFailed(idle: real)
    | Restarts(offset: real)        // the new process's monotonic clock is `offset` ahead of the wall clock

  /** An action at a wall-clock time. */
  datatype Moment = Moment(action: Action, wall: real)

  /** The saved entry of this server and when the file holding it was written. */
  datatype Saved = Saved(entry: Entry, at: real)

  /** A watcher process: its clock, its machine, the snapshot it has not reconciled yet, the disk. */
  datatype Process = Process(offset: real, m: Machine, pending: Option<Snapshot>, disk: Option<Saved>)

  function At(offset: real, wall: real): Clock {
    Clock(wall + offset, wall)
  }

  predicate Accepted(m: Machine, target: State) {
    target != m.state && target in Targets(m.state)
  }

  /** The change callback writes the file. */
  function Persist(p: Process, m: Machine, changed: bool, wall: real): Process {
    p.(m := m, disk := if changed then Some(Saved(Dump(m, At(p.offset, wall)), wall)) else p.disk)
  }

  /** The snapshot of this server, if a process starting at clock `c` finds one in a file of its own store,
      which never raises. */
  function Waiting(disk: Option<Saved>, c: Clock): Option<Snapshot> {
    if disk.None? then None
    else
      var entries := map["server" := disk.value.entry];
      var file := Content(Num(SCHEMA_VERSION as real), Num(disk.value.at), Servers(entries));
      var loading := LoadFile(file, c.wall, c);
      if loading.Snapshots? && "server" in loading.saved then Some(loading.saved["server"]) else None
  }

  /** The process after an action, and the idle seconds of a stop it requests. */
  function Act(cfg: Config, p: Process, x: Moment): (Process, Option<real>) {
    var now := x.wall + p.offset;
    match x.action
    case Polls(r) =>
      var base := Reconciled(p.m, p.pending, r);
      var d := Decide(cfg, base, r, now);
      (Persist(p.(pending := None), d.m, d.m.state != base.state, x.wall), d.stop)
    case Moves(target) => (Persist(p, Move(p.m, target, now), Accepted(p.m, target), x.wall), None)
    case StopCallFailed(idle) => (Persist(p, StopFailed(p.m, idle, now), true, x.wall), None)
    case Restarts(offset) =>
      (Process(offset, FRESH, Waiting(p.disk, At(offset, x.wall)), p.disk), None)
  }

  /** The same action on a watcher that never restarts. */
  function ActForever(cfg: Config, offset: real, m: Machine, x: Moment): (Machine, Option<real>) {
    var now := x.wall + offset;
    match x.action
    case Polls(r) => var d := Decide(cfg, m, r, now); (d.m, d.stop)
    case Moves(target) => (Move(m, target, now), None)
    case StopCallFailed(idle) => (StopFailed(m, idle, now), None)
    case Restarts(_) => (m, None)
  }

  /** The stops requested along a history of actions. */
  function Stops(cfg: Config, p: Process, xs: seq<Moment>): seq<Option<real>>
    decreases |xs|
  {
    if xs == [] then [] else [Act(cfg, p, xs[0]).1] + Stops(cfg, Act(cfg, p, xs[0]).0, xs[1..])
  }

  function Final(cfg: Config, p: Process, xs: seq<Moment>): Process
    decreases |xs|
  {
    if xs == [] then p else Final(cfg, Act(cfg, p, xs[0]).0, xs[1..])
  }

  function StopsForever(cfg: Config, offset: real, m: Machine, xs: seq<Moment>): seq<Option<real>>
    decreases |xs|
  {
    if xs == [] then []
    else [ActForever(cfg, offset, m, xs[0]).1] + StopsForever(cfg, offset, ActForever(cfg, offset, m, xs[0]).0, xs[1..])
  }

  function FinalForever(cfg: Config, offset: real, m: Machine, xs: seq<Moment>): Machine
    decreases |xs|
  {
    if xs == [] then m else FinalForever(cfg, offset, ActForever(cfg, offset, m, xs[0]).0, xs[1..])
  }

  // ----- Deciding commutes with the clock

  /** `a` is `b` as seen by a clock running `d` ahead, up to the count of refused transitions. */
  predicate Same(a: Machine, b: Machine, d: real) {
    a.(refused := 0) == Shift(b, d).(refused := 0)
  }

  lemma ShiftLast(h: seq<real>, d: real)
    ensures LastEntries(ShiftAll(h, d)) == ShiftAll(LastEntries(h), d)
  {
  }

  lemma MoveShifts(a: Machine, b: Machine, d: real, target: State, now: real)
    requires Same(a, b, d)
    ensures Same(Move(a, target, now + d), Move(b, target, now), d)
    ensures Accepted(a, target) == Accepted(b, target)
  {
    assert ShiftAll(b.history, d) + [now + d] == ShiftAll(b.history + [now], d);
    ShiftLast(b.history + [now], d);
  }

  lemma {:induction false} CountShifts(h: seq<real>, d: real, cutoff: real)
    ensures CountAfter(ShiftAll(h, d), cutoff + d) == CountAfter(h, cutoff)
  {
    if h == [] {
    } else {
      CountShifts(h[..|h| - 1], d, cutoff);
      assert ShiftAll(h, d)[..|h| - 1] == ShiftAll(h[..|h| - 1], d);
    }
  }

  /** Idle, grace, cooldown and flap answers do not depend on the clock's origin. */
  lemma QueriesShift(cfg: Config, a: Machine, b: Machine, d: real, now: real)
    requires Same(a, b, d)
    ensures IdleElapsed(a, now + d) == IdleElapsed(b, now)
    ensures IdleTimeoutReached(cfg, a, now + d) == IdleTimeoutReached(cfg, b, now)
    ensures InStartGrace(cfg, a, now + d) == InStartGrace(cfg, b, now)
    ensures InStopCooldown(cfg, a, now + d) == InStopCooldown(cfg, b, now)
    ensures IsFlapping(cfg, a, now + d) == IsFlapping(cfg, b, now)
  {
    var window := Seconds(cfg.flapWindowMinutes);
    CountShifts(b.history, d, now - window);
    assert now + d - window == now - window + d;
  }

  /** Neither clock reads the start time of a booting server as exactly 0. */
  predicate StartReadable(a: Machine, b: Machine) {
    b.state == Starting ==> a.lastStart != Some(0.0) && b.lastStart != Some(0.0)
  }

  lemma DecideShifts(cfg: Config, a: Machine, b: Machine, d: real, r: Reading, now: real)
    requires Same(a, b, d) && StartReadable(a, b)
    ensures Same(Decide(cfg, a, r, now + d).m, Decide(cfg, b, r, now).m, d)
    ensures Decide(cfg, a, r, now + d).stop == Decide(cfg, b, r, now).stop
    ensures Decide(cfg, a, r, now + d).m.state != a.state <==> Decide(cfg, b, r, now).m.state != b.state
  {
    QueriesShift(cfg, a, b, d, now);
    forall target: State {
      MoveShifts(a, b, d, target, now);
    }
  }

  // ----- The simulation

  /** What a machine on the clock `offset` leaves in the file, whenever it is written. */
  function Trail(m: Machine, offset: real): Entry {
    Dump(m, At(offset, 0.0))
  }

  lemma TrailShifts(a: Machine, b: Machine, d: real, offset: real, wall: real)
    requires Same(a, b, d)
    ensures Dump(a, At(offset + d, wall)) == Trail(b, offset)
  {
    var c, e := At(offset + d, wall), At(offset, 0.0);
    forall i | 0 <= i < |b.history|
      ensures DumpHistory(a.history, c)[i] == DumpHistory(b.history, e)[i]
    {
    }
    assert DumpHistory(a.history, c) == DumpHistory(b.history, e);
  }

  /** The process is the uninterrupted machine `q`, seen on its own clock or waiting to be reconciled. */
  ghost predicate Mirrors(p: Process, q: Machine, offset: real) {
    var d := p.offset - offset;
    && (p.pending.None? ==> Same(p.m, q, d))
    && (p.pending.Some? ==> p.pending.value == SnapshotOf(Shift(q, d)) && |q.history| <= HISTORY_LENGTH)
    && (p.disk.None? ==> p.pending.None? && q.(refused := 0) == FRESH)
    && (p.disk.Some? ==> p.disk.value.entry == Trail(q, offset))
    && |q.history| <= HISTORY_LENGTH
  }

  /** The file is used at a restart, its history has no entry on the new clock's 0, the first poll agrees
      with what was saved, and nothing else happens before that poll. */
  predicate Faithful(p: Process, q: Machine, offset: real, x: Moment) {
    var d := p.offset - offset;
    match x.action
    case Restarts(next) =>
      && (p.disk.Some? ==> 0.0 <= x.wall - p.disk.value.at <= MAX_AGE)
      && 0.0 !in ShiftAll(q.history, next - offset)
    case Polls(r) =>
      && (p.pending.Some? ==> SavedRunning(q.state) == (r.running && !r.crashed))
      && StartReadable(Shift(q, d), q)
    case _ => p.pending.None?
  }

  predicate FaithfulRun(cfg: Config, p: Process, q: Machine, offset: real, xs: seq<Moment>)
    decreases |xs|
  {
    xs == [] ||
    (Faithful(p, q, offset, xs[0]) &&
     FaithfulRun(cfg, Act(cfg, p, xs[0]).0, ActForever(cfg, offset, q, xs[0]).0, offset, xs[1..]))
  }

  /** Reconciling the waiting snapshot with an agreeing poll recovers the uninterrupted machine. */
  lemma ReconcileRecovers(p: Process, q: Machine, offset: real, x: Moment)
    requires Mirrors(p, q, offset) && x.action.Polls? && Faithful(p, q, offset, x)
    ensures Same(Reconciled(p.m, p.pending, x.action.r), q, p.offset - offset)
  {
    StateNameRoundTrip(q.state);
  }

  /** Without a change of state a poll leaves everything but the warning count, and so does a move. */
  lemma NoChangeNoTrace(cfg: Config, m: Machine, r: Reading, now: real)
    ensures Decide(cfg, m, r, now).m.state == m.state ==>
              Decide(cfg, m, r, now).m.(refused := 0) == m.(refused := 0)
  {
  }

  lemma MoveKeepsUnlessAccepted(m: Machine, target: State, now: real)
    ensures !Accepted(m, target) ==> Move(m, target, now).(refused := 0) == m.(refused := 0)
  {
  }

  lemma MoveBounds(m: Machine, target: State, now: real)
    requires |m.history| <= HISTORY_LENGTH
    ensures |Move(m, target, now).history| <= HISTORY_LENGTH
  {
  }

  /** Writing the file after every change keeps the mirror. */
  lemma PersistMirrors(p: Process, q: Machine, m': Machine, q': Machine, changed: bool, offset: real, wall: real)
    requires Mirrors(p, q, offset) && Same(m', q', p.offset - offset) && |q'.history| <= HISTORY_LENGTH
    requires !changed ==> q'.(refused := 0) == q.(refused := 0)
    ensures Mirrors(Persist(p.(pending := None), m', changed, wall), q', offset)
  {
    if changed {
      TrailShifts(m', q', p.offset - offset, offset, wall);
    }
  }

  /** Two machines that are the same decide the same, and stay the same. */
  lemma PolledMirrors(cfg: Config, p: Process, q: Machine, base: Machine, offset: real, r: Reading, wall: real)
    requires Mirrors(p, q, offset) && Same(base, q, p.offset - offset) && StartReadable(base, q)
    ensures var mine, theirs := Decide(cfg, base, r, wall + p.offset), Decide(cfg, q, r, wall + offset);
            && mine.stop == theirs.stop
            && Mirrors(Persist(p.(pending := None), mine.m, mine.m.state != base.state, wall), theirs.m, offset)
  {
    var d, now := p.offset - offset, wall + offset;
    assert now + d == wall + p.offset;
    DecideShifts(cfg, base, q, d, r, now);
    PollKeepsBound(cfg, q, r, now);
    hide Decide, Mirrors, Same, Persist;
    var mine, theirs := Decide(cfg, base, r, wall + p.offset), Decide(cfg, q, r, now);
    PersistMirrors(p, q, mine.m, theirs.m, mine.m.state != base.state, offset, wall);
  }

  lemma PollMirrors(cfg: Config, p: Process, q: Machine, offset: real, x: Moment)
    requires Mirrors(p, q, offset) && Faithful(p, q, offset, x) && x.action.Polls?
    ensures Mirrors(Act(cfg, p, x).0, ActForever(cfg, offset, q, x).0, offset)
    ensures Act(cfg, p, x).1 == ActForever(cfg, offset, q, x).1
  {
    hide Decide, Waiting, Move, Dump, Mirrors, Same;
    var r := x.action.r;
    ReconcileRecovers(p, q, offset, x);
    PolledMirrors(cfg, p, q, Reconciled(p.m, p.pending, r), offset, r, x.wall);
  }

  lemma PollKeepsBound(cfg: Config, q: Machine, r: Reading, now: real)
    requires |q.history| <= HISTORY_LENGTH
    ensures var d := Decide(cfg, q, r, now);
            && |d.m.history| <= HISTORY_LENGTH
            && (d.m.state == q.state ==> d.m.(refused := 0) == q.(refused := 0))
  {
    NoChangeNoTrace(cfg, q, r, now);
    DecideMakesOneMove(cfg, q, r, now);
    var target :| Decide(cfg, q, r, now).m == Move(q, target, now);
    MoveBounds(q, target, now);
  }

  lemma MoveMirrors(cfg: Config, p: Process, q: Machine, offset: real, x: Moment)
    requires Mirrors(p, q, offset) && p.pending.None? && x.action.Moves?
    ensures Mirrors(Act(cfg, p, x).0, ActForever(cfg, offset, q, x).0, offset)
  {
    var d, now, target := p.offset - offset, x.wall + offset, x.action.target;
    assert now + d == x.wall + p.offset && p.(pending := None) == p;
    hide Decide, Waiting, Move, Dump, Same, Accepted;
    assert Same(p.m, q, d);
    MoveShifts(p.m, q, d, target, now);
    MoveBounds(q, target, now);
    MoveKeepsUnlessAccepted(q, target, now);
    PersistMirrors(p, q, Move(p.m, target, now + d), Move(q, target, now), Accepted(p.m, target), offset, x.wall);
  }

  lemma RollbackShifts(a: Machine, b: Machine, d: real, idle: real, now: real)
    requires Same(a, b, d)
    ensures Same(StopFailed(a, idle, now + d), StopFailed(b, idle, now), d)
  {
    MoveShifts(a, b, d, Idle, now);
    hide Move;
  }

  lemma RollbackMirrors(cfg: Config, p: Process, q: Machine, offset: real, x: Moment)
    requires Mirrors(p, q, offset) && p.pending.None? && x.action.StopCallFailed?
    ensures Mirrors(Act(cfg, p, x).0, ActForever(cfg, offset, q, x).0, offset)
  {
    var d, now, idle := p.offset - offset, x.wall + offset, x.action.idle;
    assert now + d == x.wall + p.offset && p.(pending := None) == p;
    hide Decide, Waiting, Move, Dump, Same;
    assert Same(p.m, q, d);
    RollbackShifts(p.m, q, d, idle, now);
    MoveBounds(q, Idle, now);
    assert |StopFailed(q, idle, now).history| == |Move(q, Idle, now).history|;
    PersistMirrors(p, q, StopFailed(p.m, idle, now + d), StopFailed(q, idle, now), true, offset, x.wall);
  }

  lemma UsableFileIsLoaded(disk: Saved, c: Clock)
    requires 0.0 <= c.wall - disk.at <= MAX_AGE
    requires disk.entry.Entry? && !EntryRaises(disk.entry) && !EntryNotFinite(disk.entry)
    ensures Waiting(Some(disk), c) == Some(LoadEntry(disk.entry, c))
  {
  }

  lemma WaitingIsWhatWasSaved(q: Machine, offset: real, at: real, c: Clock)
    requires 0.0 <= c.wall - at <= MAX_AGE
    requires 0.0 !in ShiftAll(q.history, Offset(c) - offset)
    ensures Waiting(Some(Saved(Trail(q, offset), at)), c) == Some(SnapshotOf(Shift(q, Offset(c) - offset)))
  {
    DumpIsSound(q, At(offset, 0.0));
    assert Trail(q, offset) == Dump(q, At(offset, 0.0));
    hide Waiting, LoadEntry, ShiftAll, Nonzero, Dump, Trail, EntryRaises, EntryNotFinite;
    UsableFileIsLoaded(Saved(Trail(q, offset), at), c);
    TrailLoads(q, offset, c);
  }

  lemma TrailLoads(q: Machine, offset: real, c: Clock)
    requires 0.0 !in ShiftAll(q.history, Offset(c) - offset)
    ensures !EntryRaises(Trail(q, offset))
    ensures LoadEntry(Trail(q, offset), c) == SnapshotOf(Shift(q, Offset(c) - offset))
  {
    hide Dump, LoadEntry, EntryRaises, Shift, SnapshotOf, ShiftAll, Nonzero;
    var saved := At(offset, 0.0);
    assert Offset(saved) == offset;
    DumpThenLoad(q, saved, c);
    ShiftedKeepsHistory(q, Offset(c) - offset);
  }

  lemma ShiftedKeepsHistory(q: Machine, d: real)
    requires 0.0 !in ShiftAll(q.history, d)
    ensures var shifted := SnapshotOf(Shift(q, d));
            shifted.(history := Nonzero(shifted.history)) == shifted
  {
    NonzeroKeepsAllIff(ShiftAll(q.history, d));
    hide ShiftAll, Nonzero;
  }

  lemma FreshIsTheSame(q: Machine, d: real)
    requires q.(refused := 0) == FRESH
    ensures Same(FRESH, q, d)
  {
    assert ShiftAll([], d) == [];
  }

  lemma RestartMirrors(cfg: Config, p: Process, q: Machine, offset: real, x: Moment)
    requires Mirrors(p, q, offset) && Faithful(p, q, offset, x) && x.action.Restarts?
    ensures Mirrors(Act(cfg, p, x).0, q, offset)
  {
    hide Decide, Move, Trail, Waiting, Shift, ShiftAll, SnapshotOf, Same;
    var c := At(x.action.offset, x.wall);
    assert Offset(c) == x.action.offset;
    if p.disk.None? {
      assert Waiting(p.disk, c).None? by { NoFileNoSnapshot(c); }
      FreshIsTheSame(q, x.action.offset - offset);
    } else {
      assert p.disk == Some(Saved(Trail(q, offset), p.disk.value.at));
      WaitingIsWhatWasSaved(q, offset, p.disk.value.at, c);
    }
  }

  lemma NoFileNoSnapshot(c: Clock)
    ensures Waiting(None, c).None?
  {
  }

  lemma ActMirrors(cfg: Config, p: Process, q: Machine, offset: real, x: Moment)
    requires Mirrors(p, q, offset) && Faithful(p, q, offset, x)
    ensures Mirrors(Act(cfg, p, x).0, ActForever(cfg, offset, q, x).0, offset)
    ensures Act(cfg, p, x).1 == ActForever(cfg, offset, q, x).1
  {
    match x.action
    case Polls(_) => PollMirrors(cfg, p, q, offset, x);
    case Restarts(_) => RestartMirrors(cfg, p, q, offset, x);
    case Moves(_) => MoveMirrors(cfg, p, q, offset, x);
    case StopCallFailed(_) => RollbackMirrors(cfg, p, q, offset, x);
  }

  /** Main result: along any faithful history with any number of restarts, the watcher requests the same
      stops as one that never restarted, and ends up mirroring it. */
  lemma {:induction false} RestartsAreTransparent(cfg: Config, p: Process, q: Machine, offset: real, xs: seq<Moment>)
    requires Mirrors(p, q, offset) && FaithfulRun(cfg, p, q, offset, xs)
    ensures Stops(cfg, p, xs) == StopsForever(cfg, offset, q, xs)
    ensures Mirrors(Final(cfg, p, xs), FinalForever(cfg, offset, q, xs), offset)
    decreases |xs|
  {
    if xs == [] {
    } else {
      ActMirrors(cfg, p, q, offset, xs[0]);
      RestartsAreTransparent(cfg, Act(cfg, p, xs[0]).0, ActForever(cfg, offset, q, xs[0]).0, offset, xs[1..]);
    }
  }

  /** At clock readings of the same instant both give the same idle, grace, cooldown and flap answers. */
  ghost predicate SameAnswers(cfg: Config, a: Machine, atA: real, b: Machine, atB: real) {
    && a.state == b.state
    && IdleElapsed(a, atA) == IdleElapsed(b, atB)
    && IdleTimeoutReached(cfg, a, atA) == IdleTimeoutReached(cfg, b, atB)
    && InStartGrace(cfg, a, atA) == InStartGrace(cfg, b, atB)
    && InStopCooldown(cfg, a, atA) == InStopCooldown(cfg, b, atB)
    && IsFlapping(cfg, a, atA) == IsFlapping(cfg, b, atB)
  }

  lemma MirrorAnswers(cfg: Config, p: Process, q: Machine, offset: real, wall: real)
    requires Mirrors(p, q, offset) && p.pending.None?
    ensures SameAnswers(cfg, p.m, wall + p.offset, q, wall + offset)
  {
    var d := p.offset - offset;
    assert wall + offset + d == wall + p.offset;
    QueriesShift(cfg, p.m, q, d, wall + offset);
  }

  /** Consequently the answers agree at any later instant. */
  lemma AnswersSurviveRestarts(cfg: Config, p0: Process, q0: Machine, offset: real, xs: seq<Moment>, wall: real)
    requires Mirrors(p0, q0, offset) && FaithfulRun(cfg, p0, q0, offset, xs)
    requires Final(cfg, p0, xs).pending.None?
    ensures var p, q := Final(cfg, p0, xs), FinalForever(cfg, offset, q0, xs);
            SameAnswers(cfg, p.m, wall + p.offset, q, wall + offset)
  {
    hide Act, ActForever;
    RestartsAreTransparent(cfg, p0, q0, offset, xs);
    MirrorAnswers(cfg, Final(cfg, p0, xs), FinalForever(cfg, offset, q0, xs), offset, wall);
  }

  /** A first start is such a beginning. */
  lemma FirstStartMirrors(offset: real)
    ensures Mirrors(Process(offset, FRESH, None, None), FRESH, offset)
  {
  }
}
