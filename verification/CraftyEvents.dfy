/** Reading Crafty's webhook payloads (crafty_server_watcher/crafty_events.py).  JSON text itself is
    abstract: a parameter gives the object a string parses to, if it does. */
module CraftyEvents {
  import opened Common

  datatype Json =
    | Null
    | Bool(b: bool)
    | Num(n: real)
    | Str(s: string)
    | Arr(items: seq<Json>)
    | Obj(fields: seq<Field>)

  /** Fields keep the order of the text; keys are distinct, as in a parsed object. */
  datatype Field = Field(key: string, value: Json)

  type Object = seq<Field>

  const MAX_DEPTH := 6

  const KNOWN_EVENTS: seq<string> :=
    ["start_server", "stop_server", "crash_detected", "backup_server", "jar_update", "send_command", "kill"]

  datatype CraftyEvent = CraftyEvent(serverId: string, event: string)

  // ----- Walking a payload

  /** The children of a node, in order. */
  function Children(node: Json): seq<Json> {
    match node
    case Arr(items) => items
    case Obj(fields) => seq(|fields|, i requires 0 <= i < |fields| => fields[i].value)
    case _ => []
  }

  function IterStrings(node: Json, depth: nat): seq<string>
    decreases MAX_DEPTH + 1 - depth, 1, 0
  {
    if depth > MAX_DEPTH then []
    else if node.Str? then [node.s]
    else IterAll(Children(node), depth + 1)
  }

  function IterAll(nodes: seq<Json>, depth: nat): seq<string>
    requires depth <= MAX_DEPTH + 1
    decreases MAX_DEPTH + 1 - depth, 2, |nodes|
  {
    if nodes == [] then [] else IterStrings(nodes[0], depth) + IterAll(nodes[1..], depth)
  }

  /** An independent reading of "within depth": `path` lists the child taken at each level. */
  predicate LeadsTo(node: Json, path: seq<nat>, text: string)
    decreases |path|
  {
    if path == [] then node == Str(text)
    else
      match node
      case Arr(items) => path[0] < |items| && LeadsTo(items[path[0]], path[1..], text)
      case Obj(fields) => path[0] < |fields| && LeadsTo(fields[path[0]].value, path[1..], text)
      case _ => false
  }

  lemma LeadsThroughChild(node: Json, path: seq<nat>, text: string)
    requires path != []
    ensures LeadsTo(node, path, text) <==>
            path[0] < |Children(node)| && LeadsTo(Children(node)[path[0]], path[1..], text)
  {
  }

  ghost predicate Within(node: Json, text: string, depth: nat) {
    exists path: seq<nat> :: |path| <= depth && LeadsTo(node, path, text)
  }

  /** The walk below one node, once the walk below each child is understood. */
  lemma WalkBelow(node: Json, depth: nat, text: string)
    requires depth <= MAX_DEPTH && !node.Str?
    requires depth < MAX_DEPTH ==>
               forall i :: 0 <= i < |Children(node)| ==>
                 (text in IterStrings(Children(node)[i], depth + 1) <==>
                  Within(Children(node)[i], text, MAX_DEPTH - depth - 1))
    ensures text in IterStrings(node, depth) <==> Within(node, text, MAX_DEPTH - depth)
  {
    IterAllMembers(Children(node), depth + 1, text);
    WithinChildren(node, text, MAX_DEPTH - depth);
    assert IterStrings(node, depth) == IterAll(Children(node), depth + 1);
    hide IterStrings, IterAll, Within, Children;
    if depth == MAX_DEPTH {
      NothingBelow(Children(node), text);
    }
  }

  lemma {:induction false} NothingBelow(nodes: seq<Json>, text: string)
    ensures text !in IterAll(nodes, MAX_DEPTH + 1)
    decreases |nodes|
  {
    if nodes == [] {
    } else {
      NothingBelow(nodes[1..], text);
    }
  }

  lemma {:induction false} IterAllMembers(nodes: seq<Json>, depth: nat, text: string)
    requires depth <= MAX_DEPTH + 1
    ensures text in IterAll(nodes, depth) <==> exists i :: 0 <= i < |nodes| && text in IterStrings(nodes[i], depth)
    decreases |nodes|
  {
    if nodes == [] {
    } else {
      IterAllMembers(nodes[1..], depth, text);
      if i :| 0 <= i < |nodes| && text in IterStrings(nodes[i], depth) {
        assert i > 0 ==> nodes[1..][i - 1] == nodes[i];
      }
      if text in IterAll(nodes[1..], depth) {
        var i :| 0 <= i < |nodes[1..]| && text in IterStrings(nodes[1..][i], depth);
        assert nodes[i + 1] == nodes[1..][i];
      }
    }
  }

  /** One level of `Within`. */
  lemma WithinChildren(node: Json, text: string, depth: nat)
    requires !node.Str?
    ensures Within(node, text, depth) <==>
            depth > 0 && exists i :: 0 <= i < |Children(node)| && Within(Children(node)[i], text, depth - 1)
  {
    var children := Children(node);
    if path: seq<nat> :| |path| <= depth && LeadsTo(node, path, text) {
      LeadsThroughChild(node, path, text);
      assert Within(children[path[0]], text, depth - 1);
    }
    if depth > 0 {
      if i :| 0 <= i < |children| && Within(children[i], text, depth - 1) {
        var path: seq<nat> :| |path| <= depth - 1 && LeadsTo(children[i], path, text);
        assert ([i] + path)[0] == i && ([i] + path)[1..] == path;
        LeadsThroughChild(node, [i] + path, text);
      }
    }
  }

  lemma WithinString(s: string, text: string, depth: nat)
    ensures Within(Str(s), text, depth) <==> s == text
  {
    assert LeadsTo(Str(s), [], s);
  }

  /** The walk yields exactly the strings at most six levels down. */
  lemma {:induction false} WalkIsExact(node: Json, depth: nat, text: string)
    requires depth <= 6
    ensures text in IterStrings(node, depth) <==> Within(node, text, 6 - depth)
    decreases MAX_DEPTH - depth
  {
    var children := Children(node);
    if node.Str? {
      WithinString(node.s, text, MAX_DEPTH - depth);
    } else {
      if depth < MAX_DEPTH {
        forall i | 0 <= i < |children|
          ensures text in IterStrings(children[i], depth + 1) <==> Within(children[i], text, MAX_DEPTH - depth - 1)
        {
          WalkIsExact(children[i], depth + 1, text);
        }
      }
      WalkBelow(node, depth, text);
    }
  }

  // ----- The order of the walk

  /** Earlier in the text: at the first level where the paths part, the earlier child. */
  predicate Before(p: seq<nat>, q: seq<nat>)
    decreases |p|
  {
    p != [] && q != [] && (p[0] < q[0] || (p[0] == q[0] && Before(p[1..], q[1..])))
  }

  ghost predicate InOrder(paths: seq<seq<nat>>) {
    forall i, j :: 0 <= i < j < |paths| ==> Before(paths[i], paths[j])
  }

  /** The paths lead to the strings, one by one, through at most `depth` children. */
  ghost predicate Locates(node: Json, depth: nat, paths: seq<seq<nat>>, strings: seq<string>) {
    && |paths| == |strings|
    && (forall i :: 0 <= i < |paths| ==> |paths[i]| <= depth && LeadsTo(node, paths[i], strings[i]))
  }

  /** Every way to a string is among the paths. */
  ghost predicate Complete(node: Json, depth: nat, paths: seq<seq<nat>>) {
    forall path: seq<nat>, text: string :: |path| <= depth && LeadsTo(node, path, text) ==> path in paths
  }

  /** The walk yields every string at most six levels down once for each place it stands in, in the order of
      the text. */
  lemma {:induction false} WalkInOrder(node: Json, depth: nat) returns (paths: seq<seq<nat>>)
    requires depth <= 6
    ensures Locates(node, 6 - depth, paths, IterStrings(node, depth))
    ensures InOrder(paths) && Complete(node, 6 - depth, paths)
    decreases 6 - depth, 1, 0
  {
    if node.Str? {
      paths := [[]];
    } else if depth == 6 {
      paths := [];
      NothingBelowSix(node);
    } else {
      paths := ChildrenInOrder(node, 0, depth);
    }
  }

  lemma NothingBelowSix(node: Json)
    requires !node.Str?
    ensures IterStrings(node, 6) == []
  {
    NothingAmong(Children(node));
  }

  lemma {:induction false} NothingAmong(nodes: seq<Json>)
    ensures IterAll(nodes, 7) == []
    decreases |nodes|
  {
    if nodes == [] {
    } else {
      NothingAmong(nodes[1..]);
    }
  }

  /** The walk below the children from number `k` on. */
  lemma {:induction false} ChildrenInOrder(node: Json, k: nat, depth: nat) returns (paths: seq<seq<nat>>)
    requires depth < 6 && !node.Str? && k <= |Children(node)|
    ensures Locates(node, 6 - depth, paths, IterAll(Children(node)[k..], depth + 1))
    ensures InOrder(paths)
    ensures forall i :: 0 <= i < |paths| ==> paths[i] != [] && paths[i][0] >= k
    ensures forall path: seq<nat>, text: string ::
              |path| <= 6 - depth && LeadsTo(node, path, text) && path[0] >= k ==> path in paths
    decreases 6 - depth, 0, |Children(node)| - k
  {
    var children := Children(node);
    if k == |children| {
      paths := [];
    } else {
      var front := WalkInOrder(children[k], depth + 1);
      var later := ChildrenInOrder(node, k + 1, depth);
      assert children[k..][0] == children[k] && children[k..][1..] == children[k + 1..];
      paths := JoinBelow(node, k, depth, front, later);
    }
  }

  /** The same paths, begun one level higher at child `k`. */
  function Through(k: nat, paths: seq<seq<nat>>): (longer: seq<seq<nat>>)
    ensures |longer| == |paths|
    ensures forall i :: 0 <= i < |paths| ==> longer[i] != [] && longer[i][0] == k && longer[i][1..] == paths[i]
  {
    seq(|paths|, i requires 0 <= i < |paths| => [k] + paths[i])
  }

  lemma ThroughLocates(node: Json, k: nat, depth: nat, paths: seq<seq<nat>>, strings: seq<string>)
    requires k < |Children(node)| && Locates(Children(node)[k], depth, paths, strings)
    ensures Locates(node, depth + 1, Through(k, paths), strings)
  {
    hide Through, Children;
    forall i | 0 <= i < |paths|
      ensures |Through(k, paths)[i]| <= depth + 1 && LeadsTo(node, Through(k, paths)[i], strings[i])
    {
      LeadsThroughChild(node, Through(k, paths)[i], strings[i]);
    }
  }

  lemma ThroughKeepsOrder(k: nat, paths: seq<seq<nat>>)
    requires InOrder(paths)
    ensures InOrder(Through(k, paths))
  {
    hide Through;
    forall i, j | 0 <= i < j < |paths|
      ensures Before(Through(k, paths)[i], Through(k, paths)[j])
    {
      assert Before(paths[i], paths[j]);
    }
  }

  lemma ThroughIsComplete(node: Json, k: nat, depth: nat, paths: seq<seq<nat>>, path: seq<nat>, text: string)
    requires k < |Children(node)| && Complete(Children(node)[k], depth, paths)
    requires |path| <= depth + 1 && path != [] && path[0] == k && LeadsTo(node, path, text)
    ensures path in Through(k, paths)
  {
    hide Through, Children;
    LeadsThroughChild(node, path, text);
    var i :| 0 <= i < |paths| && paths[i] == path[1..];
    assert path == [k] + path[1..] && Through(k, paths)[i] == [k] + Through(k, paths)[i][1..];
    assert Through(k, paths)[i] == path;
  }

  lemma LocatesConcat(node: Json, depth: nat, p: seq<seq<nat>>, a: seq<string>, q: seq<seq<nat>>, b: seq<string>)
    requires Locates(node, depth, p, a) && Locates(node, depth, q, b)
    ensures Locates(node, depth, p + q, a + b)
  {
    hide LeadsTo;
  }

  lemma OrderConcat(p: seq<seq<nat>>, q: seq<seq<nat>>, k: nat)
    requires InOrder(p) && InOrder(q)
    requires forall i :: 0 <= i < |p| ==> p[i] != [] && p[i][0] == k
    requires forall i :: 0 <= i < |q| ==> q[i] != [] && q[i][0] >= k + 1
    ensures InOrder(p + q)
  {
    forall i, j | 0 <= i < j < |p + q|
      ensures Before((p + q)[i], (p + q)[j])
    {
    }
  }

  /** The paths through child `k`, then those through later children. */
  lemma JoinBelow(node: Json, k: nat, depth: nat, front: seq<seq<nat>>, later: seq<seq<nat>>)
    returns (paths: seq<seq<nat>>)
    requires depth < 6 && !node.Str? && k < |Children(node)|
    requires Locates(Children(node)[k], 5 - depth, front, IterStrings(Children(node)[k], depth + 1))
    requires InOrder(front) && Complete(Children(node)[k], 5 - depth, front)
    requires Locates(node, 6 - depth, later, IterAll(Children(node)[k + 1..], depth + 1)) && InOrder(later)
    requires forall i :: 0 <= i < |later| ==> later[i] != [] && later[i][0] >= k + 1
    requires forall path: seq<nat>, text: string ::
               |path| <= 6 - depth && LeadsTo(node, path, text) && path[0] >= k + 1 ==> path in later
    ensures Locates(node, 6 - depth, paths,
                    IterStrings(Children(node)[k], depth + 1) + IterAll(Children(node)[k + 1..], depth + 1))
    ensures InOrder(paths)
    ensures forall i :: 0 <= i < |paths| ==> paths[i] != [] && paths[i][0] >= k
    ensures forall path: seq<nat>, text: string ::
              |path| <= 6 - depth && LeadsTo(node, path, text) && path[0] >= k ==> path in paths
  {
    hide IterStrings, IterAll, Children, Through, Locates, InOrder, Complete;
    var strings, rest := IterStrings(Children(node)[k], depth + 1), IterAll(Children(node)[k + 1..], depth + 1);
    var here := Through(k, front);
    paths := here + later;
    ThroughLocates(node, k, 5 - depth, front, strings);
    LocatesConcat(node, 6 - depth, here, strings, later, rest);
    ThroughKeepsOrder(k, front);
    OrderConcat(here, later, k);
    forall path: seq<nat>, text: string | |path| <= 6 - depth && LeadsTo(node, path, text) && path[0] >= k
      ensures path in paths
    {
      if path[0] == k {
        ThroughIsComplete(node, k, 5 - depth, front, path, text);
      } else {
        assert path in later;
      }
    }
  }

  // ----- What an object says

  function Get(o: Object, key: string): Json {
    if o == [] then Null
    else if o[|o| - 1].key == key then o[|o| - 1].value
    else Get(o[..|o| - 1], key)
  }

  predicate Truthy(j: Json) {
    match j
    case Null => false
    case Bool(b) => b
    case Num(n) => n != 0.0
    case Str(s) => s != ""
    case Arr(items) => items != []
    case Obj(fields) => fields != []
  }

  function Text(j: Json): Option<string> {
    if j.Str? then Some(j.s) else None
  }

  function IdOf(o: Object): Option<string> {
    Text(Get(o, "server_id"))
  }

  function EventOf(o: Object): Option<string> {
    Text(if Truthy(Get(o, "event")) then Get(o, "event") else Get(o, "event_type"))
  }

  predicate DistinctKeys(o: Object) {
    forall i, j :: 0 <= i < j < |o| ==> o[i].key != o[j].key
  }

  lemma {:induction false} GetExactly(o: Object, key: string, value: Json)
    requires DistinctKeys(o)
    ensures Field(key, value) in o ==> Get(o, key) == value
    ensures (forall i :: 0 <= i < |o| ==> o[i].key != key) ==> Get(o, key) == Null
    ensures Get(o, key) == Null || Field(key, Get(o, key)) in o
  {
    if o == [] {
    } else {
      var front, last := o[..|o| - 1], o[|o| - 1];
      GetExactly(front, key, value);
      assert o == front + [last];
      if Field(key, value) in o && last.key == key {
        var i :| 0 <= i < |o| && o[i] == Field(key, value);
        assert i == |o| - 1;
      }
    }
  }

  /** Which fields of an object are read: `server_id` if it is a text, and `event`, or `event_type` where
      `event` is missing, null, false, zero or empty, if that is one. */
  lemma FieldsRead(o: Object, text: string)
    requires DistinctKeys(o)
    ensures IdOf(o) == Some(text) <==> Field("server_id", Str(text)) in o
    ensures text != "" && Field("event", Str(text)) in o ==> EventOf(o) == Some(text)
    ensures Field("event_type", Str(text)) in o
            && (|| (forall i :: 0 <= i < |o| ==> o[i].key != "event")
                || Field("event", Null) in o || Field("event", Bool(false)) in o || Field("event", Num(0.0)) in o
                || Field("event", Str("")) in o || Field("event", Arr([])) in o || Field("event", Obj([])) in o)
            ==> EventOf(o) == Some(text)
    ensures EventOf(o) == Some(text) ==> Field("event", Str(text)) in o || Field("event_type", Str(text)) in o
  {
    GetExactly(o, "server_id", Str(text));
    GetExactly(o, "event", Str(text));
    GetExactly(o, "event_type", Str(text));
    GetExactly(o, "event", Null);
    GetExactly(o, "event", Bool(false));
    GetExactly(o, "event", Num(0.0));
    GetExactly(o, "event", Str(""));
    GetExactly(o, "event", Arr([]));
    GetExactly(o, "event", Obj([]));
    hide Get;
  }

  /** Two answers in order of trust. */
  function Or<T>(first: Option<T>, second: Option<T>): Option<T> {
    if first.Some? then first else second
  }

  /** The first string of a list whose object names what is looked for. */
  function FirstOf(asObject: string -> Option<Object>, pick: Object -> Option<string>,
                   chunks: seq<string>): Option<string>
  {
    if chunks == [] then None
    else
      var front := FirstOf(asObject, pick, chunks[..|chunks| - 1]);
      var o := asObject(chunks[|chunks| - 1]);
      Or(front, if o.Some? then pick(o.value) else None)
  }

  /** The answer is that of the first string that has one. */
  lemma {:induction false} FirstOfIsFirst(asObject: string -> Option<Object>, pick: Object -> Option<string>,
                                          chunks: seq<string>, k: nat)
    requires k < |chunks| && asObject(chunks[k]).Some? && pick(asObject(chunks[k]).value).Some?
    requires forall i :: 0 <= i < k && asObject(chunks[i]).Some? ==> pick(asObject(chunks[i]).value).None?
    ensures FirstOf(asObject, pick, chunks) == pick(asObject(chunks[k]).value)
    decreases |chunks|
  {
    var front := chunks[..|chunks| - 1];
    if k < |front| {
      FirstOfIsFirst(asObject, pick, front, k);
    } else {
      NoneOfNone(asObject, pick, front);
    }
  }

  lemma {:induction false} NoneOfNone(asObject: string -> Option<Object>, pick: Object -> Option<string>,
                                      chunks: seq<string>)
    requires forall i :: 0 <= i < |chunks| && asObject(chunks[i]).Some? ==> pick(asObject(chunks[i]).value).None?
    ensures FirstOf(asObject, pick, chunks) == None
    decreases |chunks|
  {
    if chunks == [] {
    } else {
      NoneOfNone(asObject, pick, chunks[..|chunks| - 1]);
    }
  }

  /** One text stands in another iff it can be cut out of it. */
  lemma ContainsExactly(text: string, part: string)
    ensures Contains(text, part) <==> exists before: string, after: string :: text == before + part + after
  {
    if i: nat :| i <= |text| && OccursAt(text, part, i) {
      assert text == text[..i] + part + text[i + |part|..];
    }
    if before: string, after: string :| text == before + part + after {
      assert OccursAt(text, part, |before|);
    }
  }

  predicate OccursAt(text: string, part: string, i: nat) {
    i + |part| <= |text| && text[i..i + |part|] == part
  }

  predicate Contains(text: string, part: string) {
    exists i: nat | i <= |text| :: OccursAt(text, part, i)
  }

  // ----- Parsing an event

  /** What the payload itself says, before the plain scan of the raw text. */
  function FromPayload(asObject: string -> Option<Object>, pick: Object -> Option<string>,
                       payload: Option<Json>): Option<string>
  {
    if payload.None? then None
    else
      Or(FirstOf(asObject, pick, IterStrings(payload.value, 0)),
         if payload.value.Obj? then pick(payload.value.fields) else None)
  }

  /** The results the source may return: the scan over the set of known ids picks any that occurs. */
  ghost predicate MayReturn(asObject: string -> Option<Object>, raw: string, payload: Option<Json>,
                            known: set<string>, result: Option<CraftyEvent>) {
    var id := FromPayload(asObject, IdOf, payload);
    var event := FromPayload(asObject, EventOf, payload);
    var anyKnown := exists sid :: sid in known && sid != "" && Contains(raw, sid);
    var anyEvent := exists i :: 0 <= i < |KNOWN_EVENTS| && Contains(raw, KNOWN_EVENTS[i]);
    && (result.None? <==> (id.None? && !anyKnown) || (event.None? && !anyEvent))
    && (result.Some? ==>
          && (id.Some? ==> result.value.serverId == id.value)
          && (id.None? ==> result.value.serverId in known && Contains(raw, result.value.serverId))
          && (event.Some? ==> result.value.event == event.value)
          && (event.None? ==> exists i :: 0 <= i < |KNOWN_EVENTS| && result.value.event == KNOWN_EVENTS[i]
                                          && Contains(raw, KNOWN_EVENTS[i])
                                          && forall j :: 0 <= j < i ==> !Contains(raw, KNOWN_EVENTS[j])))
  }

  method ParseEvent(asObject: string -> Option<Object>, raw: string, payload: Option<Json>, known: set<string>)
    returns (result: Option<CraftyEvent>)
    ensures MayReturn(asObject, raw, payload, known, result)
  {
    var serverId, event: Option<string> := None, None;
    if payload.Some? {
      var chunks := IterStrings(payload.value, 0);
      for i := 0 to |chunks|
        invariant serverId == FirstOf(asObject, IdOf, chunks[..i])
        invariant event == FirstOf(asObject, EventOf, chunks[..i])
      {
        assert chunks[..i + 1][..i] == chunks[..i];
        var data := asObject(chunks[i]);
        if data.Some? {
          if serverId.None? {
            serverId := IdOf(data.value);
          }
          if event.None? {
            event := EventOf(data.value);
          }
        }
      }
      assert chunks[..|chunks|] == chunks;
      if payload.value.Obj? {
        serverId := Or(serverId, IdOf(payload.value.fields));
        event := Or(event, EventOf(payload.value.fields));
      }
    }
    if serverId.None? {
      serverId := ScanForId(raw, known);
    }
    if event.None? {
      event := ScanForEvent(raw);
    }
    if serverId.None? || event.None? {
      return None;
    }
    return Some(CraftyEvent(serverId.value, event.value));
  }

  /** Some known id that occurs in the text; which one is up to the set's iteration order. */
  method ScanForId(raw: string, known: set<string>) returns (id: Option<string>)
    ensures id.None? <==> forall sid :: sid in known && sid != "" ==> !Contains(raw, sid)
    ensures id.Some? ==> id.value in known && id.value != "" && Contains(raw, id.value)
  {
    var todo := known;
    while todo != {}
      invariant todo <= known
      invariant forall sid :: sid in known && sid !in todo && sid != "" ==> !Contains(raw, sid)
      decreases todo
    {
      var sid :| sid in todo;
      if sid != "" && Contains(raw, sid) {
        return Some(sid);
      }
      todo := todo - {sid};
    }
    return None;
  }

  /** The first known event name, in the order they are listed, that occurs in the text. */
  method ScanForEvent(raw: string) returns (event: Option<string>)
    ensures event.None? <==> forall i :: 0 <= i < |KNOWN_EVENTS| ==> !Contains(raw, KNOWN_EVENTS[i])
    ensures event.Some? ==> exists i :: 0 <= i < |KNOWN_EVENTS| && event.value == KNOWN_EVENTS[i]
                                        && Contains(raw, KNOWN_EVENTS[i])
                                        && forall j :: 0 <= j < i ==> !Contains(raw, KNOWN_EVENTS[j])
  {
    for i := 0 to |KNOWN_EVENTS|
      invariant forall j :: 0 <= j < i ==> !Contains(raw, KNOWN_EVENTS[j])
    {
      if Contains(raw, KNOWN_EVENTS[i]) {
        return Some(KNOWN_EVENTS[i]);
      }
    }
    return None;
  }

  // ===== The envelope does not matter

  /** The string parses to an object that carries an id or an event. */
  predicate Carries(asObject: string -> Option<Object>, text: string) {
    var o := asObject(text);
    o.Some? && (IdOf(o.value).Some? || EventOf(o.value).Some?)
  }

  /** The string parses to an object that names exactly this pair. */
  predicate Names(asObject: string -> Option<Object>, text: string, pair: CraftyEvent) {
    var o := asObject(text);
    o.Some? && IdOf(o.value) == Some(pair.serverId) && EventOf(o.value) == Some(pair.event)
  }

  lemma {:induction false} FirstIsTheOnly(asObject: string -> Option<Object>, chunks: seq<string>, pair: CraftyEvent)
    requires forall c :: c in chunks && Carries(asObject, c) ==> Names(asObject, c, pair)
    ensures (exists c :: c in chunks && Carries(asObject, c)) ==>
              FirstOf(asObject, IdOf, chunks) == Some(pair.serverId) &&
              FirstOf(asObject, EventOf, chunks) == Some(pair.event)
    ensures !(exists c :: c in chunks && Carries(asObject, c)) ==>
              FirstOf(asObject, IdOf, chunks) == None && FirstOf(asObject, EventOf, chunks) == None
  {
    if chunks == [] {
    } else {
      var front, last := chunks[..|chunks| - 1], chunks[|chunks| - 1];
      assert chunks == front + [last];
      FirstIsTheOnly(asObject, front, pair);
      if Carries(asObject, last) {
        assert last in chunks;
      } else if c :| c in front && Carries(asObject, c) {
        assert c in chunks;
      } else {
        assert FirstOf(asObject, IdOf, front) == None && FirstOf(asObject, EventOf, front) == None;
      }
    }
  }

  /** Main result: when every string within depth six that carries an id or an event is a rendering of the
      template naming `pair`, and there is one, the parser returns exactly that pair, wherever it is nested,
      whatever the top-level object, the raw text and the known ids are. */
  lemma EnvelopeIndependence(asObject: string -> Option<Object>, raw: string, payload: Json, known: set<string>,
                             pair: CraftyEvent, result: Option<CraftyEvent>)
    requires exists text :: Within(payload, text, 6) && Carries(asObject, text)
    requires forall text :: Within(payload, text, 6) && Carries(asObject, text) ==> Names(asObject, text, pair)
    requires MayReturn(asObject, raw, Some(payload), known, result)
    ensures result == Some(pair)
  {
    var chunks := IterStrings(payload, 0);
    forall c
      ensures c in chunks <==> Within(payload, c, MAX_DEPTH)
    {
      WalkIsExact(payload, 0, c);
    }
    FirstIsTheOnly(asObject, chunks, pair);
  }

  /** The documented body template, rendered, as it parses. */
  function Template(id: string, event: string): Object {
    [Field("server_id", Str(id)), Field("event", Str(event))]
  }

  lemma TemplateSays(id: string, event: string)
    requires event != ""
    ensures IdOf(Template(id, event)) == Some(id) && EventOf(Template(id, event)) == Some(event)
  {
    var o := Template(id, event);
    assert "server_id" != "event" by { assert "server_id"[0] != "event"[0]; }
    assert DistinctKeys(o);
    assert o[0] == Field("server_id", Str(id)) && o[1] == Field("event", Str(event));
    FieldsRead(o, id);
    FieldsRead(o, event);
  }

  /** No field that is read is there. */
  predicate Mute(o: Object) {
    forall i :: 0 <= i < |o| ==> o[i].key !in {"server_id", "event", "event_type"}
  }

  lemma {:induction false} MuteSaysNothing(o: Object)
    requires Mute(o)
    ensures IdOf(o).None? && EventOf(o).None?
  {
    if o == [] {
    } else {
      MuteSaysNothing(o[..|o| - 1]);
    }
  }

  /** Main result: a payload that carries the rendered template in a string within depth six, and no other
      object naming an id or an event, is read as exactly the id and the event that Crafty rendered, whatever
      the provider wrapped around it, the raw text says or the known ids are. */
  lemma TemplateIsRead(asObject: string -> Option<Object>, raw: string, payload: Json, known: set<string>,
                       text: string, id: string, event: string, result: Option<CraftyEvent>)
    requires Within(payload, text, 6) && asObject(text) == Some(Template(id, event)) && event != ""
    requires forall t :: Within(payload, t, 6) && asObject(t).Some? ==>
                           asObject(t).value == Template(id, event) || Mute(asObject(t).value)
    requires MayReturn(asObject, raw, Some(payload), known, result)
    ensures result == Some(CraftyEvent(id, event))
  {
    TemplateSays(id, event);
    hide MayReturn, Get, Template, IdOf, EventOf;
    assert Carries(asObject, text);
    forall t | Within(payload, t, 6) && Carries(asObject, t)
      ensures Names(asObject, t, CraftyEvent(id, event))
    {
      if Mute(asObject(t).value) {
        MuteSaysNothing(asObject(t).value);
      }
    }
    EnvelopeIndependence(asObject, raw, payload, known, CraftyEvent(id, event), result);
  }

  /** One half of an event, id or event name alike, as the payload gives it: from the first string of the walk
      whose object has it, whatever the other half is, and from the payload's own fields where none has. */
  lemma PayloadAnswers(asObject: string -> Option<Object>, pick: Object -> Option<string>, payload: Json)
    ensures (forall t :: Within(payload, t, 6) && asObject(t).Some? ==> pick(asObject(t).value).None?) ==>
              FromPayload(asObject, pick, Some(payload)) ==
              if payload.Obj? then pick(payload.fields) else None
    ensures forall k :: 0 <= k < |IterStrings(payload, 0)|
                        && (var chunks := IterStrings(payload, 0);
                            && asObject(chunks[k]).Some? && pick(asObject(chunks[k]).value).Some?
                            && forall i :: 0 <= i < k && asObject(chunks[i]).Some? ==>
                                             pick(asObject(chunks[i]).value).None?)
                        ==> FromPayload(asObject, pick, Some(payload)) ==
                            pick(asObject(IterStrings(payload, 0)[k]).value)
  {
    var chunks := IterStrings(payload, 0);
    forall k | 0 <= k < |chunks| && asObject(chunks[k]).Some? && pick(asObject(chunks[k]).value).Some?
               && forall i :: 0 <= i < k && asObject(chunks[i]).Some? ==> pick(asObject(chunks[i]).value).None?
      ensures FirstOf(asObject, pick, chunks) == pick(asObject(chunks[k]).value)
    {
      FirstOfIsFirst(asObject, pick, chunks, k);
    }
    if forall t :: Within(payload, t, 6) && asObject(t).Some? ==> pick(asObject(t).value).None? {
      forall i | 0 <= i < |chunks| && asObject(chunks[i]).Some?
        ensures pick(asObject(chunks[i]).value).None?
      {
        WalkIsExact(payload, 0, chunks[i]);
      }
      NoneOfNone(asObject, pick, chunks);
    }
  }

  /** The halves fall back on the raw text each on its own: the one the payload gives is kept. */
  lemma HalvesAreIndependent(asObject: string -> Option<Object>, raw: string, payload: Json, known: set<string>,
                             result: Option<CraftyEvent>)
    requires MayReturn(asObject, raw, Some(payload), known, result)
    ensures var id, event := FromPayload(asObject, IdOf, Some(payload)), FromPayload(asObject, EventOf, Some(payload));
            && (id.Some? && event.None? ==>
                  && (result.Some? <==> exists i :: 0 <= i < |KNOWN_EVENTS| && Contains(raw, KNOWN_EVENTS[i]))
                  && (result.Some? ==> result.value.serverId == id.value && result.value.event in KNOWN_EVENTS))
            && (id.None? && event.Some? ==>
                  && (result.Some? <==> exists sid :: sid in known && sid != "" && Contains(raw, sid))
                  && (result.Some? ==> result.value.event == event.value && result.value.serverId in known))
            && (id.Some? && event.Some? ==> result == Some(CraftyEvent(id.value, event.value)))
  {
    hide FromPayload, Contains;
  }

  /** Where no string carries anything, the payload's own fields are read: an unwrapped template. */
  lemma TopLevelIsRead(asObject: string -> Option<Object>, raw: string, fields: Object, known: set<string>,
                       result: Option<CraftyEvent>)
    requires forall t :: Within(Obj(fields), t, 6) ==> !Carries(asObject, t)
    requires IdOf(fields).Some? && EventOf(fields).Some?
    requires MayReturn(asObject, raw, Some(Obj(fields)), known, result)
    ensures result == Some(CraftyEvent(IdOf(fields).value, EventOf(fields).value))
  {
    var chunks := IterStrings(Obj(fields), 0);
    forall c
      ensures c in chunks <==> Within(Obj(fields), c, 6)
    {
      WalkIsExact(Obj(fields), 0, c);
    }
    FirstIsTheOnly(asObject, chunks, CraftyEvent("", ""));
    hide IterStrings;
  }

  /** Where the payload says nothing, the event is the first of these names that stands in the raw text, the
      id a known one that does, and without both there is no event. */
  lemma PlainScan(asObject: string -> Option<Object>, raw: string, known: set<string>, result: Option<CraftyEvent>)
    requires MayReturn(asObject, raw, None, known, result)
    ensures var names := ["start_server", "stop_server", "crash_detected", "backup_server", "jar_update",
                          "send_command", "kill"];
            && (result.Some? <==>
                  && (exists i :: 0 <= i < |names| && Contains(raw, names[i]))
                  && (exists sid :: sid in known && sid != "" && Contains(raw, sid)))
            && (result.Some? ==>
                  && result.value.serverId in known && Contains(raw, result.value.serverId)
                  && exists i :: 0 <= i < |names| && result.value.event == names[i] && Contains(raw, names[i])
                                 && forall j :: 0 <= j < i ==> !Contains(raw, names[j]))
  {
    assert KNOWN_EVENTS == ["start_server", "stop_server", "crash_detected", "backup_server", "jar_update",
                            "send_command", "kill"];
    hide Contains, FirstOf;
  }

  /** `node` wrapped in one more list at each level. */
  function Wrapped(node: Json, levels: nat): Json {
    if levels == 0 then node else Arr([Wrapped(node, levels - 1)])
  }

  /** The depth is exact: a string wrapped in lists is found through six of them and not through seven. */
  lemma {:induction false} DepthIsExact(text: string, levels: nat, depth: nat)
    ensures Within(Wrapped(Str(text), levels), text, depth) <==> levels <= depth
  {
    var node := Wrapped(Str(text), levels);
    if levels == 0 {
      WithinString(text, text, depth);
    } else {
      assert Children(node) == [Wrapped(Str(text), levels - 1)];
      WithinChildren(node, text, depth);
      if depth > 0 {
        DepthIsExact(text, levels - 1, depth - 1);
      }
    }
  }
}
