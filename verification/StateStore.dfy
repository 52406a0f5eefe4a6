/** Persistence of state machines across restarts (crafty_server_watcher/state_store.py). */
module StateStore {
  import opened Common
  import opened ServerState

  /** One reading of both clocks. */
  datatype Clock = Clock(mono: real, wall: real)

  /** A JSON value as far as loading looks into it.  `Num` is any number a float can hold, `BigInt` an integer
      too large for one.  A string carries what int() makes of it. */
  datatype Value =
    | Null
    | Bool(b: bool)
    | Num(x: real)
    | BigInt(n: int)
    | Infinite(positive: bool)
    | NaN
    | Str(s: string, asInt: Option<int>)
    | Arr(items: seq<Value>)
    | Obj(empty: bool)

  predicate Truthy(v: Value) {
    match v
    case Null => false
    case Bool(b) => b
    case Num(x) => x != 0.0
    case Str(s, _) => s != ""
    case Arr(items) => items != []
    case Obj(empty) => !empty
    case _ => true
  }

  /** A saved server; an absent field reads as Null. */
  datatype Entry =
    | Entry(
        state: Value,
        idleSince: Value,
        lastStop: Value,
        lastStart: Value,
        history: Value,
        startCount: Value,
        stopCount: Value)
    | OtherEntry // no object

  datatype Table = Servers(entries: map<string, Entry>) | OtherTable(truthy: bool) // no object

  /** `Unreadable` is an OS error or text that is not JSON; `ReadRaises` is any error that the source does not
      catch there, such as bytes that are not UTF-8. */
  datatype File =
    | Missing
    | Unreadable
    | ReadRaises
    | Content(schema: Value, savedAt: Value, servers: Table)
    | OtherContent // no object

  const SCHEMA_VERSION := 1
  const MAX_AGE := 24.0 * 3600.0

  // ----- Conversion

  function ToWall(value: Option<real>, c: Clock): Value {
    if value.None? then Null else Num(c.wall - (c.mono - value.value))
  }

  /** The number a value is, if it is a finite one; True and False are 1 and 0. */
  function AsReal(v: Value): Option<real> {
    match v
    case Num(x) => Some(x)
    case Bool(b) => Some(if b then 1.0 else 0.0)
    case _ => None
  }

  function ToMono(v: Value, c: Clock): Option<real> {
    var x := AsReal(v);
    if x.None? then None else Some(c.mono - (c.wall - x.value))
  }

  function DumpHistory(h: seq<real>, c: Clock): seq<Value> {
    seq(|h|, i requires 0 <= i < |h| => ToWall(Some(h[i]), c))
  }

  function Dump(m: Machine, c: Clock): (e: Entry)
    ensures e.Entry?
  {
    Entry(Str(StateName(m.state), None), ToWall(m.idleSince, c), ToWall(m.lastStop, c), ToWall(m.lastStart, c),
          Arr(DumpHistory(m.history, c)), Num(m.startCount as real), Num(m.stopCount as real))
  }

  /** The history entries that survive loading: numbers whose converted value is not exactly 0. */
  function LoadedHistory(saved: seq<Value>, c: Clock): seq<real> {
    if saved == [] then []
    else
      var t := ToMono(saved[|saved| - 1], c);
      LoadedHistory(saved[..|saved| - 1], c) + if t.Some? && t.value != 0.0 then [t.value] else []
  }

  /** What the loop over a saved history runs through; a text or an object yields no numbers. */
  function Items(history: Value): seq<Value> {
    if history.Arr? then history.items else []
  }

  predicate CannotIterate(history: Value) {
    Truthy(history) && !history.Arr? && !history.Str? && !history.Obj?
  }

  /** int() truncates towards zero. */
  function Truncated(x: real): int {
    if x >= 0.0 then x.Floor else -(-x).Floor
  }

  /** A saved count; None is an error. */
  function CountOf(v: Value): Option<int> {
    if !Truthy(v) then Some(0)
    else
      match v
      case Bool(_) => Some(1)
      case Num(x) => Some(Truncated(x))
      case BigInt(n) => Some(n)
      case Str(_, asInt) => asInt
      case _ => None
  }

  /** The values that are converted to the monotonic clock. */
  function Stamps(e: Entry): seq<Value>
    requires e.Entry?
  {
    [e.idleSince, e.lastStop, e.lastStart] + Items(e.history)
  }

  /** Loading the entry raises: a timestamp is too large for a float, the history cannot be iterated, or a
      count is not one. */
  predicate EntryRaises(e: Entry) {
    e.Entry? &&
    (|| (exists i :: 0 <= i < |Stamps(e)| && Stamps(e)[i].BigInt?)
     || CannotIterate(e.history)
     || CountOf(e.startCount).None? || CountOf(e.stopCount).None?)
  }

  /** A timestamp loads as an infinity or NaN. */
  predicate EntryNotFinite(e: Entry) {
    e.Entry? && exists i :: 0 <= i < |Stamps(e)| && (Stamps(e)[i].Infinite? || Stamps(e)[i].NaN?)
  }

  function LoadEntry(e: Entry, c: Clock): Snapshot
    requires e.Entry? && !EntryRaises(e)
  {
    Snapshot(if e.state.Str? then Some(e.state.s) else None,
             ToMono(e.idleSince, c), ToMono(e.lastStop, c), ToMono(e.lastStart, c),
             LoadedHistory(Items(e.history), c), CountOf(e.startCount).value, CountOf(e.stopCount).value)
  }

  /** Python compares True with 1 as equal. */
  predicate SchemaFits(schema: Value) {
    AsReal(schema) == Some(SCHEMA_VERSION as real)
  }

  /** The age check; a NaN is neither too young nor too old. */
  predicate InAge(savedAt: Value, readAt: real) {
    savedAt.NaN? || (AsReal(savedAt).Some? && 0.0 <= readAt - AsReal(savedAt).value <= MAX_AGE)
  }

  /** Whether the servers of a file are looked at. */
  predicate Usable(file: File, readAt: real) {
    file.Content? && SchemaFits(file.schema) && InAge(file.savedAt, readAt)
  }

  predicate TableRaises(servers: Table) {
    match servers
    case Servers(entries) => exists n :: n in entries && EntryRaises(entries[n])
    case OtherTable(truthy) => truthy
  }

  predicate TableNotFinite(servers: Table) {
    servers.Servers? && exists n :: n in servers.entries && EntryNotFinite(servers.entries[n])
  }

  function LoadTable(servers: Table, c: Clock): map<string, Snapshot>
    requires !TableRaises(servers)
  {
    if servers.OtherTable? then map[]
    else map n | n in servers.entries && servers.entries[n].Entry? :: LoadEntry(servers.entries[n], c)
  }

  /** `NotFinite`: all entries load, some timestamp as an infinity or NaN, which real clocks cannot hold. */
  datatype Loading = Snapshots(saved: map<string, Snapshot>) | NotFinite | Raises

  function LoadFile(file: File, readAt: real, c: Clock): Loading {
    if file.ReadRaises? then Raises
    else if !file.Content? || !SchemaFits(file.schema) then Snapshots(map[])
    else if file.savedAt.BigInt? then Raises
    else if !InAge(file.savedAt, readAt) then Snapshots(map[])
    else if TableRaises(file.servers) then Raises
    else if TableNotFinite(file.servers) then NotFinite
    else Snapshots(LoadTable(file.servers, c))
  }

  function SaveFile(sms: map<string, Machine>, c: Clock): File {
    Content(Num(SCHEMA_VERSION as real), Num(c.wall), Servers(map n | n in sms :: Dump(sms[n], c)))
  }

  class StateStore {
    var enabled: bool
    var disk: File

    constructor (disk: File)
      ensures enabled && this.disk == disk
    {
      enabled := true;
      this.disk := disk;
    }

    /** The replace is atomic: a failed write leaves the old file and turns the store off for good. */
    method Save(sms: map<string, Machine>, c: Clock, writeFails: bool)
      modifies this
      ensures enabled == (old(enabled) && !writeFails)
      ensures disk == if enabled then SaveFile(sms, c) else old(disk)
    {
      if !enabled {
        return;
      }
      if writeFails {
        enabled := false;
      } else {
        disk := SaveFile(sms, c);
      }
    }

    method Load(readAt: real, c: Clock) returns (loading: Loading)
      ensures loading == LoadFile(disk, readAt, c)
    {
      if disk.ReadRaises? {
        return Raises;
      }
      var restored: map<string, Snapshot> := map[];
      if !disk.Content? || !SchemaFits(disk.schema) {
        return Snapshots(restored);
      }
      if disk.savedAt.BigInt? {
        return Raises;
      }
      if !InAge(disk.savedAt, readAt) {
        return Snapshots(restored);
      }
      if disk.servers.OtherTable? {
        return if disk.servers.truthy then Raises else Snapshots(restored);
      }
      loading := LoadEntries(disk.servers.entries, c);
    }
  }

  /** The loop over the saved servers: an error in one entry is the error of the whole load. */
  method LoadEntries(entries: map<string, Entry>, c: Clock) returns (loading: Loading)
    ensures loading.Raises? <==> TableRaises(Servers(entries))
    ensures loading.NotFinite? <==> !TableRaises(Servers(entries)) && TableNotFinite(Servers(entries))
    ensures loading.Snapshots? ==> loading.saved == LoadTable(Servers(entries), c)
  {
    var restored: map<string, Snapshot> := map[];
    var finite := true;
    var todo := entries.Keys;
    while todo != {}
      invariant todo <= entries.Keys
      invariant forall n :: n in entries && n !in todo ==> !EntryRaises(entries[n])
      invariant finite <==> forall n :: n in entries && n !in todo ==> !EntryNotFinite(entries[n])
      invariant restored == map n | n in entries && n !in todo && entries[n].Entry? :: LoadEntry(entries[n], c)
      decreases todo
    {
      var name :| name in todo;
      if EntryRaises(entries[name]) {
        return Raises;
      }
      todo := todo - {name};
      finite := finite && !EntryNotFinite(entries[name]);
      if entries[name].Entry? {
        restored := restored[name := LoadEntry(entries[name], c)];
      }
    }
    return if finite then Snapshots(restored) else NotFinite;
  }

  // ===== When a load falls back

  lemma DumpIsSound(m: Machine, c: Clock)
    ensures !EntryRaises(Dump(m, c)) && !EntryNotFinite(Dump(m, c))
    ensures CountOf(Dump(m, c).startCount) == Some(m.startCount)
    ensures CountOf(Dump(m, c).stopCount) == Some(m.stopCount)
  {
    var e := Dump(m, c);
    forall i | 0 <= i < |Stamps(e)|
      ensures Stamps(e)[i].Null? || Stamps(e)[i].Num?
    {
      assert i >= 3 ==> Stamps(e)[i] == DumpHistory(m.history, c)[i - 3];
    }
  }

  /** What the store has saved never raises, at any age, on any clock. */
  lemma SavedFilesLoad(sms: map<string, Machine>, saved: Clock, readAt: real, c: Clock)
    ensures LoadFile(SaveFile(sms, saved), readAt, c).Snapshots?
  {
    forall n | n in sms {
      DumpIsSound(sms[n], saved);
    }
  }

  /** The documented promise is an empty mapping whenever nothing usable can be restored.  The load raises
      instead, and the process that begins with it does not come up, exactly for these files. */
  lemma LoadRaisesExactly(file: File, readAt: real, c: Clock)
    ensures LoadFile(file, readAt, c).Raises? <==>
            || file.ReadRaises?
            || (&& file.Content? && SchemaFits(file.schema)
                && (|| file.savedAt.BigInt?
                    || (&& InAge(file.savedAt, readAt)
                        && match file.servers
                           case Servers(entries) => exists n :: n in entries && EntryRaises(entries[n])
                           case OtherTable(truthy) => truthy)))
    ensures LoadFile(file, readAt, c) != Raises && !Usable(file, readAt) ==>
              LoadFile(file, readAt, c) == Snapshots(map[])
  {
  }

  /** The values that int() refuses in `count or 0`, and what it makes of the numbers it accepts. */
  lemma CountExactly(v: Value)
    ensures CountOf(v).None? <==>
            || v in {Infinite(true), Infinite(false), NaN, Obj(false)}
            || (v.Arr? && |v.items| > 0) || (v.Str? && |v.s| > 0 && v.asInt.None?)
    ensures v in {Null, Bool(false), Obj(true), Arr([])} || (v.Str? && v.s == "") ==> CountOf(v) == Some(0)
    ensures v == Bool(true) ==> CountOf(v) == Some(1)
    ensures v.BigInt? ==> CountOf(v) == Some(v.n)
    ensures v.Str? && |v.s| > 0 ==> CountOf(v) == v.asInt
    ensures v.Num? ==>
              var n := CountOf(v).value as real;
              if v.x >= 0.0 then 0.0 <= n <= v.x < n + 1.0 else n - 1.0 < v.x <= n <= 0.0
  {
  }

  /** The entries that raise, by the types of their fields. */
  lemma EntryRaisesExactly(e: Entry)
    ensures EntryRaises(e) <==>
            && e != OtherEntry
            && (|| e.idleSince.BigInt? || e.lastStop.BigInt? || e.lastStart.BigInt?
                || e.history in {Bool(true), Infinite(true), Infinite(false), NaN} || e.history.BigInt?
                || (e.history.Num? && e.history.x != 0.0)
                || (e.history.Arr? && exists i :: 0 <= i < |e.history.items| && e.history.items[i].BigInt?)
                || CountOf(e.startCount).None? || CountOf(e.stopCount).None?)
  {
    if e.Entry? {
      var stamps, items := Stamps(e), Items(e.history);
      assert stamps[0] == e.idleSince && stamps[1] == e.lastStop && stamps[2] == e.lastStart;
      assert forall i :: 0 <= i < |items| ==> stamps[3 + i] == items[i];
      assert forall i :: 3 <= i < |stamps| ==> stamps[i] == items[i - 3];
    }
  }

  /** A number of the file, as a clock running with this process tells it; anything else is no time. */
  predicate Converts(v: Value, t: Option<real>, c: Clock) {
    match v
    case Num(x) => t == Some(x + c.mono - c.wall)
    case Bool(b) => t == Some((if b then 1.0 else 0.0) + c.mono - c.wall)
    case _ => t == None
  }

  /** What any entry that loads is read as, whoever wrote it: names and numbers only, and of the history the
      numbers that do not land on 0. */
  lemma ForeignEntryLoads(e: Entry, c: Clock)
    requires e.Entry? && !EntryRaises(e)
    ensures var snap := LoadEntry(e, c);
            && snap.state == (if e.state.Str? then Some(e.state.s) else None)
            && Converts(e.idleSince, snap.idleSince, c) && Converts(e.lastStop, snap.lastStop, c)
            && Converts(e.lastStart, snap.lastStart, c)
            && CountOf(e.startCount) == Some(snap.startCount) && CountOf(e.stopCount) == Some(snap.stopCount)
            && (forall t :: t in snap.history <==>
                  t != 0.0 && e.history.Arr? && exists i :: 0 <= i < |e.history.items|
                                                           && Converts(e.history.items[i], Some(t), c))
  {
    forall t
      ensures t in LoadedHistory(Items(e.history), c) <==>
              t != 0.0 && exists i :: 0 <= i < |Items(e.history)| && Converts(Items(e.history)[i], Some(t), c)
    {
      HistoryHolds(Items(e.history), c, t);
    }
  }

  lemma {:induction false} HistoryHolds(saved: seq<Value>, c: Clock, t: real)
    ensures t in LoadedHistory(saved, c) <==>
            t != 0.0 && exists i :: 0 <= i < |saved| && Converts(saved[i], Some(t), c)
  {
    if saved == [] {
    } else {
      var front, last := saved[..|saved| - 1], saved[|saved| - 1];
      HistoryHolds(front, c, t);
      assert forall i :: 0 <= i < |front| ==> front[i] == saved[i];
      if Converts(last, Some(t), c) {
        assert Converts(saved[|saved| - 1], Some(t), c);
      }
    }
  }

  /** A file is looked at iff its schema is the number 1, or True, and its save time is a number at most 24
      hours old and not in the future, or NaN; then exactly its object entries are restored. */
  lemma UsedExactly(file: File, readAt: real, c: Clock)
    requires file.Content? && file.servers.Servers?
    ensures Usable(file, readAt) <==>
            && (file.schema == Num(1.0) || file.schema == Bool(true))
            && (|| file.savedAt == NaN
                || (file.savedAt.Num? && 0.0 <= readAt - file.savedAt.x <= 86400.0)
                || (file.savedAt.Bool? && 0.0 <= readAt - (if file.savedAt.b then 1.0 else 0.0) <= 86400.0))
    ensures LoadFile(file, readAt, c).NotFinite? <==>
            && Usable(file, readAt) && !LoadFile(file, readAt, c).Raises?
            && exists n :: n in file.servers.entries && EntryNotFinite(file.servers.entries[n])
    ensures LoadFile(file, readAt, c).Snapshots? ==>
              forall n :: n in LoadFile(file, readAt, c).saved <==>
                          Usable(file, readAt) && n in file.servers.entries && file.servers.entries[n].Entry?
    ensures LoadFile(file, readAt, c).Snapshots? ==>
              forall n :: n in LoadFile(file, readAt, c).saved ==>
                            !EntryRaises(file.servers.entries[n]) &&
                            LoadFile(file, readAt, c).saved[n] == LoadEntry(file.servers.entries[n], c)
  {
  }

  /** One bad entry in a current file takes all servers with it, whatever the rest of the file is. */
  lemma OneBadEntryRaises(sms: map<string, Machine>, saved: Clock, name: string, bad: Entry, readAt: real, c: Clock)
    requires EntryRaises(bad) && 0.0 <= readAt - saved.wall <= 86400.0
    ensures var file := SaveFile(sms, saved);
            LoadFile(file.(servers := Servers(file.servers.entries[name := bad])), readAt, c) == Raises
  {
    var entries := SaveFile(sms, saved).servers.entries[name := bad];
    assert name in entries && EntryRaises(entries[name]);
  }

  // ===== The round trip

  function Offset(c: Clock): real {
    c.mono - c.wall
  }

  function ShiftTime(t: Option<real>, d: real): Option<real> {
    if t.None? then None else Some(t.value + d)
  }

  function ShiftAll(s: seq<real>, d: real): (r: seq<real>)
    ensures |r| == |s| && forall i :: 0 <= i < |s| ==> r[i] == s[i] + d
  {
    seq(|s|, i requires 0 <= i < |s| => s[i] + d)
  }

  /** The machine as a clock running `d` ahead sees it. */
  function Shift(m: Machine, d: real): Machine {
    m.(idleSince := ShiftTime(m.idleSince, d), lastStop := ShiftTime(m.lastStop, d),
       lastStart := ShiftTime(m.lastStart, d), history := ShiftAll(m.history, d))
  }

  function SnapshotOf(m: Machine): Snapshot {
    Snapshot(Some(StateName(m.state)), m.idleSince, m.lastStop, m.lastStart, m.history, m.startCount, m.stopCount)
  }

  function Nonzero(s: seq<real>): seq<real> {
    if s == [] then []
    else Nonzero(s[..|s| - 1]) + if s[|s| - 1] != 0.0 then [s[|s| - 1]] else []
  }

  lemma {:induction false} NonzeroKeepsAllIff(s: seq<real>)
    ensures |Nonzero(s)| <= |s|
    ensures Nonzero(s) == s <==> 0.0 !in s
  {
    if s == [] {
    } else {
      var front, last := s[..|s| - 1], s[|s| - 1];
      NonzeroKeepsAllIff(front);
      assert s == front + [last];
    }
  }

  lemma {:induction false} LoadedHistoryShifts(h: seq<real>, saved: Clock, loaded: Clock)
    ensures LoadedHistory(DumpHistory(h, saved), loaded) ==
            Nonzero(ShiftAll(h, Offset(loaded) - Offset(saved)))
  {
    var d := Offset(loaded) - Offset(saved);
    if h == [] {
    } else {
      var front := h[..|h| - 1];
      LoadedHistoryShifts(front, saved, loaded);
      assert DumpHistory(h, saved)[..|h| - 1] == DumpHistory(front, saved);
      assert ShiftAll(h, d)[..|h| - 1] == ShiftAll(front, d);
    }
  }

  /** What a machine saved on one clock pair loads as on another, whatever their origins. */
  lemma DumpThenLoad(m: Machine, saved: Clock, loaded: Clock)
    ensures !EntryRaises(Dump(m, saved))
    ensures LoadEntry(Dump(m, saved), loaded) ==
            var shifted := SnapshotOf(Shift(m, Offset(loaded) - Offset(saved)));
            shifted.(history := Nonzero(shifted.history))
  {
    DumpIsSound(m, saved);
    LoadedHistoryShifts(m.history, saved, loaded);
  }

  /** The history survives a restart whole iff no entry lands on exactly 0 on the new clock. */
  lemma HistorySurvivesExactly(m: Machine, saved: Clock, loaded: Clock)
    ensures !EntryRaises(Dump(m, saved))
    ensures LoadEntry(Dump(m, saved), loaded).history == ShiftAll(m.history, Offset(loaded) - Offset(saved))
            <==> 0.0 !in ShiftAll(m.history, Offset(loaded) - Offset(saved))
  {
    DumpThenLoad(m, saved, loaded);
    NonzeroKeepsAllIff(ShiftAll(m.history, Offset(loaded) - Offset(saved)));
  }

  /** Each adopted timestamp has aged by exactly the wall-clock gap between save and load. */
  lemma ElapsedSurvives(m: Machine, saved: Clock, loaded: Clock, blank: Machine, running: bool)
    requires running == SavedRunning(m.state)
    ensures !EntryRaises(Dump(m, saved))
    ensures var back := Restored(blank, LoadEntry(Dump(m, saved), loaded), running);
            var gap := loaded.wall - saved.wall;
            && back.state == m.state && back.startCount == m.startCount && back.stopCount == m.stopCount
            && Aged(m.idleSince, saved.mono, back.idleSince, loaded.mono, gap)
            && Aged(m.lastStop, saved.mono, back.lastStop, loaded.mono, gap)
            && Aged(m.lastStart, saved.mono, back.lastStart, loaded.mono, gap)
  {
    DumpIsSound(m, saved);
    StateNameRoundTrip(m.state);
  }

  /** `t'` is to `now'` what `t` was to `now`, plus `gap`. */
  ghost predicate Aged(t: Option<real>, now: real, t': Option<real>, now': real, gap: real) {
    t.Some? == t'.Some? && (t.Some? ==> now' - t'.value == (now - t.value) + gap)
  }

  /** A saved machine that satisfied its invariant loads as a snapshot that does. */
  lemma RoundTripKeepsInv(m: Machine, saved: Clock, loaded: Clock)
    requires MachineInv(m, saved.mono) && saved.wall <= loaded.wall
    ensures !EntryRaises(Dump(m, saved))
    ensures SnapshotInv(LoadEntry(Dump(m, saved), loaded), loaded.mono)
  {
    hide Dump, LoadEntry, Nonzero, LastEntries;
    var d := Offset(loaded) - Offset(saved);
    StateNameRoundTrip(m.state);
    DumpThenLoad(m, saved, loaded);
    var history := ShiftAll(m.history, d);
    assert Sorted(history) && AllUpTo(history, loaded.mono);
    NonzeroKeepsOrder(history, loaded.mono);
    ShortLogIsKept(Nonzero(history));
  }

  lemma ShortLogIsKept(log: seq<real>)
    requires |log| <= HISTORY_LENGTH
    ensures LastEntries(log) == log
  {
  }

  lemma {:induction false} NonzeroKeepsOrder(s: seq<real>, bound: real)
    requires Sorted(s) && AllUpTo(s, bound)
    ensures Sorted(Nonzero(s)) && AllUpTo(Nonzero(s), bound) && |Nonzero(s)| <= |s|
  {
    if s == [] {
    } else {
      var front, last := s[..|s| - 1], s[|s| - 1];
      assert AllUpTo(front, last);
      NonzeroKeepsOrder(front, bound);
      NonzeroKeepsOrder(front, last);
    }
  }

  lemma SavedEntryAdopts(m: Machine, saved: Clock, loaded: Clock)
    ensures !EntryRaises(Dump(m, saved))
    ensures Adopts(LoadEntry(Dump(m, saved), loaded), true) <==> SavedRunning(m.state)
  {
    DumpIsSound(m, saved);
    StateNameRoundTrip(m.state);
    hide EntryRaises, DumpHistory;
  }

  lemma SavedKeysLoad(sms: map<string, Machine>, saved: Clock, readAt: real, loaded: Clock)
    ensures var back := LoadFile(SaveFile(sms, saved), readAt, loaded);
            && back.Snapshots?
            && back.saved.Keys == (if 0.0 <= readAt - saved.wall <= MAX_AGE then sms.Keys else {})
  {
    hide LoadEntry, EntryRaises, EntryNotFinite;
    SavedFilesLoad(sms, saved, readAt, loaded);
    assert forall n :: n in sms ==> Dump(sms[n], saved).Entry?;
  }

  lemma SavedServerLoads(sms: map<string, Machine>, saved: Clock, readAt: real, loaded: Clock, n: string)
    requires n in sms && 0.0 <= readAt - saved.wall <= MAX_AGE
    ensures var back := LoadFile(SaveFile(sms, saved), readAt, loaded);
            && back.Snapshots? && n in back.saved && !EntryRaises(Dump(sms[n], saved))
            && back.saved[n] == LoadEntry(Dump(sms[n], saved), loaded)
            && (Adopts(back.saved[n], true) <==> SavedRunning(sms[n].state))
  {
    SavedFilesLoad(sms, saved, readAt, loaded);
    SavedEntryAdopts(sms[n], saved, loaded);
    hide Dump, LoadEntry, EntryRaises, EntryNotFinite, Adopts;
  }

  /** Every server saved is found again, within the age limit and only then; whether its snapshot is
      adopted depends on the machine that was saved.  A machine saved before its own snapshot was
      consumed is still UNKNOWN, so for a running server that snapshot is lost. */
  lemma SaveThenLoad(sms: map<string, Machine>, saved: Clock, readAt: real, loaded: Clock)
    ensures var back := LoadFile(SaveFile(sms, saved), readAt, loaded);
            && back.Snapshots?
            && back.saved.Keys == (if 0.0 <= readAt - saved.wall <= 86400.0 then sms.Keys else {})
            && (forall n :: n in back.saved ==>
                  && !EntryRaises(Dump(sms[n], saved))
                  && back.saved[n] == LoadEntry(Dump(sms[n], saved), loaded)
                  && (Adopts(back.saved[n], true) <==> SavedRunning(sms[n].state)))
  {
    hide LoadFile, SaveFile, Dump, LoadEntry, EntryRaises, Adopts;
    SavedKeysLoad(sms, saved, readAt, loaded);
    forall n | n in LoadFile(SaveFile(sms, saved), readAt, loaded).saved
      ensures var back := LoadFile(SaveFile(sms, saved), readAt, loaded);
              && !EntryRaises(Dump(sms[n], saved))
              && back.saved[n] == LoadEntry(Dump(sms[n], saved), loaded)
              && (Adopts(back.saved[n], true) <==> SavedRunning(sms[n].state))
    {
      SavedServerLoads(sms, saved, readAt, loaded, n);
    }
  }
}
