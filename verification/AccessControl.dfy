/** Who may wake a server (crafty_server_watcher/access_control.py): a whitelist cached by mtime. */
module AccessControl {
  import opened Common

  /** What reading a whitelist file yields.  `ReadError` is an OS error and `BadJson` a JSON decode error;
      `ReadRaises` is any other, which the source does not catch: bytes that are not UTF-8, an integer with
      more digits than the interpreter converts, lists nested too deep. */
  datatype Body =
    | ReadError
    | ReadRaises
    | BadJson
    | NotAList
    | Names(entries: seq<Option<string>>) // None: an entry that is no object with a name string

  datatype File = File(mtime: real, body: Body)

  type Disk = map<string, File>

  datatype AccessConfig = AccessConfig(whitelist: bool, path: Option<string>, allowed: seq<string>)

  datatype Answer = Allowed | Refused | Raises

  datatype Problem = NoPath | CannotStat(path: string) | CannotRead(path: string) | NotList(path: string)

  function Folded(fold: string -> string, names: seq<Option<string>>): set<string> {
    set i | 0 <= i < |names| && names[i].Some? :: fold(names[i].value)
  }

  function FoldedAll(fold: string -> string, names: seq<string>): set<string> {
    set i | 0 <= i < |names| :: fold(names[i])
  }

  // ----- The rule without any cache

  /** Some entry of the file is the player, up to case folding. */
  predicate Lists(fold: string -> string, entries: seq<Option<string>>, player: string) {
    exists i :: 0 <= i < |entries| && entries[i].Some? && fold(entries[i].value) == fold(player)
  }

  /** Some name of the configuration is the player, up to case folding. */
  predicate Configured(fold: string -> string, cfg: AccessConfig, player: string) {
    exists i :: 0 <= i < |cfg.allowed| && fold(cfg.allowed[i]) == fold(player)
  }

  /** The documented rule, read off the current disk: an unreadable whitelist lets everyone in. */
  function DirectAnswer(fold: string -> string, cfg: AccessConfig, disk: Disk, player: string): Answer {
    if !cfg.whitelist || Configured(fold, cfg, player) then Allowed
    else if cfg.path.None? || cfg.path.value !in disk then Allowed
    else
      match disk[cfg.path.value].body
      case ReadRaises => Raises
      case Names(entries) => if Lists(fold, entries, player) then Allowed else Refused
      case _ => Allowed
  }

  // ----- The cache

  datatype Cache = Cache(
    cfg: AccessConfig,
    names: set<string>,
    mtime: Option<real>,
    lastError: Option<Problem>,
    logged: nat)

  function NewCache(cfg: AccessConfig): Cache {
    Cache(cfg, {}, None, None, 0)
  }

  function Updated(c: Cache, cfg: AccessConfig): Cache {
    Cache(cfg, {}, None, None, c.logged)
  }

  function LogProblem(c: Cache, p: Problem): Cache {
    if c.lastError == Some(p) then c else c.(lastError := Some(p), logged := c.logged + 1)
  }

  datatype Loaded = Loaded(names: set<string>) | Unavailable | LoadRaises

  function LoadNames(fold: string -> string, c: Cache, disk: Disk): (Cache, Loaded) {
    if c.cfg.path.None? then (LogProblem(c, NoPath), Unavailable)
    else
      var path := c.cfg.path.value;
      if path !in disk then (LogProblem(c, CannotStat(path)), Unavailable)
      else if c.mtime == Some(disk[path].mtime) then (c, Loaded(c.names))
      else
        match disk[path].body
        case ReadRaises => (c, LoadRaises)
        case NotAList => (LogProblem(c, NotList(path)), Unavailable)
        case Names(entries) =>
          var names := Folded(fold, entries);
          (c.(names := names, mtime := Some(disk[path].mtime), lastError := None), Loaded(names))
        case _ => (LogProblem(c, CannotRead(path)), Unavailable)
  }

  function IsAllowed(fold: string -> string, c: Cache, disk: Disk, player: string): (Cache, Answer) {
    if !c.cfg.whitelist || fold(player) in FoldedAll(fold, c.cfg.allowed) then (c, Allowed)
    else
      var (c', loaded) := LoadNames(fold, c, disk);
      (c', match loaded
           case Unavailable => Allowed
           case LoadRaises => Raises
           case Loaded(names) => if fold(player) in names then Allowed else Refused)
  }

  /** The cached names are those of the file on disk whenever the cache would be used. */
  ghost predicate Fresh(fold: string -> string, c: Cache, disk: Disk) {
    c.cfg.path.Some? && c.cfg.path.value in disk && c.mtime == Some(disk[c.cfg.path.value].mtime) ==>
      var body := disk[c.cfg.path.value].body;
      body.Names? && Folded(fold, body.entries) == c.names
  }

  /** With a name list on disk and nothing cached, a whitelist lets in exactly the players it or the
      configuration names. */
  lemma ListedPlayersOnly(fold: string -> string, cfg: AccessConfig, disk: Disk, player: string)
    requires cfg.whitelist && cfg.path.Some? && cfg.path.value in disk && disk[cfg.path.value].body.Names?
    ensures var entries := disk[cfg.path.value].body.entries;
            IsAllowed(fold, NewCache(cfg), disk, player).1 ==
            if (exists i :: 0 <= i < |entries| && entries[i].Some? && fold(entries[i].value) == fold(player))
               || (exists j :: 0 <= j < |cfg.allowed| && fold(cfg.allowed[j]) == fold(player))
            then Allowed else Refused
  {
  }

  lemma FreshCacheAnswersDirectly(fold: string -> string, c: Cache, disk: Disk, player: string)
    requires Fresh(fold, c, disk)
    ensures IsAllowed(fold, c, disk, player).1 == DirectAnswer(fold, c.cfg, disk, player)
  {
  }

  // ----- Failing open

  /** At this moment no list of names can be had from the file. */
  predicate NoListNow(cfg: AccessConfig, disk: Disk) {
    cfg.path.None? || cfg.path.value !in disk || !disk[cfg.path.value].body.Names?
  }

  /** The documented promise, "when the whitelist cannot be read, every player is allowed", for a player not
      listed in the configuration.  It holds whenever the file cannot be found.  Otherwise a cached mtime that
      still matches answers from the cached names, and failing that, an error the source does not catch raises. */
  lemma FailsOpenExactly(fold: string -> string, c: Cache, disk: Disk, player: string)
    requires c.cfg.whitelist && !Configured(fold, c.cfg, player)
    requires NoListNow(c.cfg, disk)
    ensures IsAllowed(fold, c, disk, player).1 == Allowed <==>
            || c.cfg.path.None? || c.cfg.path.value !in disk
            || (var file := disk[c.cfg.path.value];
                if c.mtime == Some(file.mtime) then fold(player) in c.names else file.body != ReadRaises)
  {
  }

  // ----- Any sequence of edits, reloads and queries

  datatype Op =
    | Query(player: string)
    | Update(cfg: AccessConfig)
    | Edit(path: string, file: File)
    | Vanish(path: string)

  datatype System = System(cache: Cache, disk: Disk)

  function Apply(fold: string -> string, s: System, op: Op): System {
    match op
    case Query(player) => s.(cache := IsAllowed(fold, s.cache, s.disk, player).0)
    case Update(cfg) => s.(cache := Updated(s.cache, cfg))
    case Edit(path, file) => s.(disk := s.disk[path := file])
    case Vanish(path) => s.(disk := s.disk - {path})
  }

  function ApplyAll(fold: string -> string, s: System, ops: seq<Op>): System
    decreases |ops|
  {
    if ops == [] then s else ApplyAll(fold, Apply(fold, s, ops[0]), ops[1..])
  }

  lemma {:induction false} ApplyAllAppend(fold: string -> string, s: System, ops: seq<Op>, last: Op)
    ensures ApplyAll(fold, s, ops + [last]) == Apply(fold, ApplyAll(fold, s, ops), last)
    decreases |ops|
  {
    if ops == [] {
      assert ([] + [last])[1..] == [];
    } else {
      assert (ops + [last])[1..] == ops[1..] + [last];
      ApplyAllAppend(fold, Apply(fold, s, ops[0]), ops[1..], last);
    }
  }

  /** Query number `k` found these names in the file at this path and mtime, and no reload came after it. */
  ghost predicate ReadBy(fold: string -> string, s: System, ops: seq<Op>, k: nat,
                         path: string, mtime: real, names: set<string>) {
    && k < |ops| && ops[k].Query?
    && (var disk := ApplyAll(fold, s, ops[..k]).disk;
        && path in disk && disk[path].mtime == mtime && disk[path].body.Names?
        && Folded(fold, disk[path].body.entries) == names)
    && (forall j :: k < j < |ops| ==> !ops[j].Update?)
  }

  /** Whatever the cache holds was read off the disk by an earlier query. */
  lemma {:induction false} CachedNamesWereRead(fold: string -> string, s: System, ops: seq<Op>)
    requires s.cache.mtime.None?
    ensures var c := ApplyAll(fold, s, ops).cache;
            c.mtime.Some? ==>
              c.cfg.path.Some? &&
              exists k: nat :: ReadBy(fold, s, ops, k, c.cfg.path.value, c.mtime.value, c.names)
    decreases |ops|
  {
    if ops == [] {
    } else {
      var front, last := ops[..|ops| - 1], ops[|ops| - 1];
      assert ops == front + [last];
      CachedNamesWereRead(fold, s, front);
      ApplyAllAppend(fold, s, front, last);
      var b, c := ApplyAll(fold, s, front), ApplyAll(fold, s, ops).cache;
      if c.mtime.Some? {
        hide ApplyAll;
        if c.mtime == b.cache.mtime && c.names == b.cache.names {
          var k: nat :| ReadBy(fold, s, front, k, c.cfg.path.value, c.mtime.value, c.names);
          assert front[..k] == ops[..k];
          assert ReadBy(fold, s, ops, k, c.cfg.path.value, c.mtime.value, c.names);
        } else {
          assert ReadBy(fold, s, ops, |front|, c.cfg.path.value, c.mtime.value, c.names);
        }
      }
    }
  }

  /** After any history, a player not listed in the configuration is kept out by a file that yields no list
      only if reading it raises past the source's handlers, or if an earlier query, at the mtime the file still
      has, read a list without that player. */
  lemma ShutOutOnlyBy(fold: string -> string, cfg: AccessConfig, disk: Disk, ops: seq<Op>, player: string)
    requires var s := ApplyAll(fold, System(NewCache(cfg), disk), ops);
             && s.cache.cfg.whitelist && !Configured(fold, s.cache.cfg, player)
             && NoListNow(s.cache.cfg, s.disk)
             && IsAllowed(fold, s.cache, s.disk, player).1 != Allowed
    ensures var s0 := System(NewCache(cfg), disk);
            var s := ApplyAll(fold, s0, ops);
            var path := s.cache.cfg.path;
            && path.Some? && path.value in s.disk
            && (|| s.disk[path.value].body == ReadRaises
                || exists k: nat, names :: ReadBy(fold, s0, ops, k, path.value, s.disk[path.value].mtime, names)
                                      && fold(player) !in names)
  {
    var s0 := System(NewCache(cfg), disk);
    var s := ApplyAll(fold, s0, ops);
    FailsOpenExactly(fold, s.cache, s.disk, player);
    CachedNamesWereRead(fold, s0, ops);
  }

  /** Such a run: the list is read once, then the file turns unreadable without a new mtime. */
  lemma UnreadableFileShutsOut(fold: string -> string, mtime: real)
    requires fold("a") == "a" && fold("b") == "b"
    ensures var cfg := AccessConfig(true, Some("w"), []);
            var ops := [Edit("w", File(mtime, Names([Some("a")]))), Query("b"), Edit("w", File(mtime, ReadError))];
            var s := ApplyAll(fold, System(NewCache(cfg), map[]), ops);
            && NoListNow(s.cache.cfg, s.disk)
            && IsAllowed(fold, s.cache, s.disk, "b").1 == Refused
            && DirectAnswer(fold, s.cache.cfg, s.disk, "b") == Allowed
  {
    var s0 := System(NewCache(AccessConfig(true, Some("w"), [])), map[]);
    var e1, q, e2 := Edit("w", File(mtime, Names([Some("a")]))), Query("b"), Edit("w", File(mtime, ReadError));
    assert "a" != "b" by { assert "a"[0] != "b"[0]; }
    FoldedSingle(fold, "a");
    ThreeOps(fold, s0, e1, q, e2);
  }

  lemma ThreeOps(fold: string -> string, s: System, a: Op, b: Op, c: Op)
    ensures ApplyAll(fold, s, [a, b, c]) == Apply(fold, Apply(fold, Apply(fold, s, a), b), c)
  {
    assert [] + [a] == [a] && [a] + [b] == [a, b] && [a, b] + [c] == [a, b, c];
    ApplyAllAppend(fold, s, [], a);
    ApplyAllAppend(fold, s, [a], b);
    ApplyAllAppend(fold, s, [a, b], c);
  }

  /** An mtime identifies a path's content: `content` says which. */
  ghost predicate DiskIdentified(content: (string, real) -> Body, disk: Disk) {
    forall path :: path in disk ==> disk[path].body == content(path, disk[path].mtime)
  }

  ghost predicate EditsIdentified(content: (string, real) -> Body, ops: seq<Op>) {
    forall i :: 0 <= i < |ops| && ops[i].Edit? ==> ops[i].file.body == content(ops[i].path, ops[i].file.mtime)
  }

  /** The cache remembers the content of its path at its mtime, even while the file is gone or broken. */
  ghost predicate CacheIdentified(fold: string -> string, content: (string, real) -> Body, c: Cache) {
    c.mtime.Some? ==>
      && c.cfg.path.Some?
      && var body := content(c.cfg.path.value, c.mtime.value);
         body.Names? && Folded(fold, body.entries) == c.names
  }

  lemma {:induction false} CacheStaysIdentified(fold: string -> string, content: (string, real) -> Body,
                                                s: System, ops: seq<Op>)
    requires CacheIdentified(fold, content, s.cache) && DiskIdentified(content, s.disk)
    requires EditsIdentified(content, ops)
    ensures var t := ApplyAll(fold, s, ops);
            CacheIdentified(fold, content, t.cache) && DiskIdentified(content, t.disk)
    decreases |ops|
  {
    if ops == [] {
    } else {
      CacheStaysIdentified(fold, content, Apply(fold, s, ops[0]), ops[1..]);
    }
  }

  /** Main result: after any sequence of edits, disappearances, reloads and queries in which an mtime
      identifies a path's content, the cached answer is the direct rule on the current file. */
  lemma CacheAgreesWithDirectRead(fold: string -> string, content: (string, real) -> Body, cfg: AccessConfig,
                                  disk: Disk, ops: seq<Op>, player: string)
    requires DiskIdentified(content, disk) && EditsIdentified(content, ops)
    ensures var s := ApplyAll(fold, System(NewCache(cfg), disk), ops);
            IsAllowed(fold, s.cache, s.disk, player).1 == DirectAnswer(fold, s.cache.cfg, s.disk, player)
  {
    CacheStaysIdentified(fold, content, System(NewCache(cfg), disk), ops);
    var s := ApplyAll(fold, System(NewCache(cfg), disk), ops);
    FreshCacheAnswersDirectly(fold, s.cache, s.disk, player);
  }

  /** The hypothesis is needed: an edit that keeps the mtime is not noticed. */
  lemma EditKeepingMtimeIsMissed(fold: string -> string, mtime: real)
    requires fold("a") == "a" && fold("b") == "b"
    ensures var cfg := AccessConfig(true, Some("w"), []);
            var ops := [Edit("w", File(mtime, Names([Some("a")]))), Query("b"),
                        Edit("w", File(mtime, Names([Some("b")])))];
            var s := ApplyAll(fold, System(NewCache(cfg), map[]), ops);
            && IsAllowed(fold, s.cache, s.disk, "b").1 == Refused
            && DirectAnswer(fold, s.cache.cfg, s.disk, "b") == Allowed
  {
    var cfg := AccessConfig(true, Some("w"), []);
    var s0 := System(NewCache(cfg), map[]);
    var e1, q, e2 := Edit("w", File(mtime, Names([Some("a")]))), Query("b"), Edit("w", File(mtime, Names([Some("b")])));
    assert "a" != "b" by { assert "a"[0] != "b"[0]; }
    FoldedSingle(fold, "a");
    FoldedSingle(fold, "b");
    ThreeOps(fold, s0, e1, q, e2);
  }

  lemma FoldedSingle(fold: string -> string, name: string)
    ensures Folded(fold, [Some(name)]) == {fold(name)}
  {
    var names := [Some(name)];
    assert names[0].Some? && fold(names[0].value) in Folded(fold, names);
  }

  // ----- Logging once per problem

  /** What stands in the way of reading the list now, if it is something the source logs. */
  function ProblemNow(c: Cache, disk: Disk): Option<Problem> {
    if c.cfg.path.None? then Some(NoPath)
    else if c.cfg.path.value !in disk then Some(CannotStat(c.cfg.path.value))
    else if c.mtime == Some(disk[c.cfg.path.value].mtime) then None
    else
      match disk[c.cfg.path.value].body
      case ReadError => Some(CannotRead(c.cfg.path.value))
      case BadJson => Some(CannotRead(c.cfg.path.value))
      case NotAList => Some(NotList(c.cfg.path.value))
      case _ => None
  }

  /** A query that has to look at the file logs its problem iff it is not the one logged last; a list that is
      read clears that memory, and nothing else does. */
  lemma QueryLogsExactly(fold: string -> string, c: Cache, disk: Disk, player: string)
    ensures var c', looks := IsAllowed(fold, c, disk, player).0, c.cfg.whitelist && !Configured(fold, c.cfg, player);
            var problem := ProblemNow(c, disk);
            && c'.logged == c.logged + (if looks && problem.Some? && problem != c.lastError then 1 else 0)
            && (looks && problem.Some? ==> c'.lastError == problem && c'.names == c.names && c'.mtime == c.mtime)
            && (!looks ==> c' == c)
            && (looks && problem.None? ==>
                  var file := disk[c.cfg.path.value];
                  if c.mtime == Some(file.mtime) || file.body.ReadRaises? then c' == c
                  else
                    && c' == c.(names := c'.names, mtime := Some(file.mtime), lastError := None)
                    && forall x :: x in c'.names <==>
                                   exists i :: 0 <= i < |file.body.entries| && file.body.entries[i].Some?
                                               && fold(file.body.entries[i].value) == x)
  {
  }

  /** A reload forgets everything but the count of messages: the next query of an unlisted player logs whatever
      problem there is, even the one logged before, and answers as a new controller would. */
  lemma ReloadStartsAfresh(fold: string -> string, c: Cache, cfg: AccessConfig, disk: Disk, player: string)
    ensures var (c', answer) := IsAllowed(fold, Updated(c, cfg), disk, player);
            var (new', first) := IsAllowed(fold, NewCache(cfg), disk, player);
            && answer == first && c'.logged - c.logged == new'.logged
            && (cfg.whitelist && !Configured(fold, cfg, player) && ProblemNow(NewCache(cfg), disk).Some? ==>
                  c'.logged == c.logged + 1)
  {
  }

  function Repeated(op: Op, n: nat): seq<Op> {
    if n == 0 then [] else [op] + Repeated(op, n - 1)
  }

  /** However often the same failing query is repeated, its problem is logged at most once. */
  lemma {:induction false} ProblemIsLoggedOnce(fold: string -> string, s: System, player: string, n: nat)
    ensures var logged := ApplyAll(fold, s, Repeated(Query(player), n)).cache.logged;
            s.cache.logged <= logged <= s.cache.logged + 1
  {
    if n == 0 {
    } else {
      var t := Apply(fold, s, Query(player));
      assert Repeated(Query(player), n)[1..] == Repeated(Query(player), n - 1);
      if t != s {
        assert Apply(fold, t, Query(player)) == t;
        SettledStaysSettled(fold, t, player, n - 1);
      } else {
        SettledStaysSettled(fold, s, player, n);
      }
    }
  }

  lemma {:induction false} SettledStaysSettled(fold: string -> string, s: System, player: string, n: nat)
    requires Apply(fold, s, Query(player)) == s
    ensures ApplyAll(fold, s, Repeated(Query(player), n)) == s
  {
    if n == 0 {
    } else {
      assert Repeated(Query(player), n)[1..] == Repeated(Query(player), n - 1);
      SettledStaysSettled(fold, s, player, n - 1);
    }
  }

  // ----- The controller object

  class AccessController {
    const fold: string -> string
    var cfg: AccessConfig
    var names: set<string>
    var mtime: Option<real>
    var lastError: Option<Problem>
    var logged: nat

    ghost function Value(): Cache
      reads this
    {
      Cache(cfg, names, mtime, lastError, logged)
    }

    constructor (fold: string -> string, cfg: AccessConfig)
      ensures Value() == NewCache(cfg) && this.fold == fold
    {
      this.fold := fold;
      this.cfg := cfg;
      names, mtime, lastError, logged := {}, None, None, 0;
    }

    method Update(cfg: AccessConfig)
      modifies this
      ensures Value() == Updated(old(Value()), cfg)
    {
      this.cfg := cfg;
      names, mtime, lastError := {}, None, None;
    }

    method Log(p: Problem)
      modifies this
      ensures Value() == LogProblem(old(Value()), p)
    {
      if lastError == Some(p) {
        return;
      }
      lastError := Some(p);
      logged := logged + 1;
    }

    method Load(disk: Disk) returns (loaded: Loaded)
      modifies this
      ensures (Value(), loaded) == LoadNames(fold, old(Value()), disk)
    {
      if cfg.path.None? {
        Log(NoPath);
        return Unavailable;
      }
      var path := cfg.path.value;
      if path !in disk {
        Log(CannotStat(path));
        return Unavailable;
      }
      var seen := disk[path].mtime;
      if mtime == Some(seen) {
        return Loaded(names);
      }
      match disk[path].body
      case ReadRaises =>
        return LoadRaises;
      case NotAList =>
        Log(NotList(path));
        return Unavailable;
      case Names(entries) =>
        names := Folded(fold, entries);
        mtime := Some(seen);
        lastError := None;
        return Loaded(names);
      case _ =>
        Log(CannotRead(path));
        return Unavailable;
    }

    method Allows(player: string, disk: Disk) returns (answer: Answer)
      modifies this
      ensures (Value(), answer) == IsAllowed(fold, old(Value()), disk, player)
    {
      if !cfg.whitelist {
        return Allowed;
      }
      var wanted := fold(player);
      if wanted in FoldedAll(fold, cfg.allowed) {
        return Allowed;
      }
      var loaded := Load(disk);
      match loaded
      case Unavailable =>
        return Allowed;
      case LoadRaises =>
        return Raises;
      case Loaded(known) =>
        return if wanted in known then Allowed else Refused;
    }
  }
}
