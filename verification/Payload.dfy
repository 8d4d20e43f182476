/** preparePayload: cloning, privacy, stripping, the hook and the event id. */
module Payload {
  import opened Core
  import opened Values
  import opened Normalize

  type Object = map<string, Value>

  // Cloning: maps, and maps directly inside lists

  function CloneValue(v: Value): Value
    decreases v, 0
  {
    match v
    case NilMap => NilMap
    case Map(m) => if |m| == 0 then NilMap else Map(map k | k in m :: CloneValue(m[k]))
    case List(items) => List(seq(|items|, i requires 0 <= i < |items| => CloneItem(items[i])))
    case _ => v
  }

  function CloneItem(v: Value): Value
    decreases v, 1
  {
    if v.Map? then CloneValue(v) else v
  }

  function Clone(m: Object): Object {
    map k | k in m :: CloneValue(m[k])
  }

  // Stripping: nil values, and maps and lists that are empty or become so

  function StripValue(v: Value): Option<Value>
    decreases v, 0
  {
    match v
    case Nil => None
    case NilMap => None
    case Map(m) =>
      var kept := map k | k in m && StripValue(m[k]).Some? :: StripValue(m[k]).value;
      if kept == map[] then None else Some(Map(kept))
    case List(items) =>
      var kept := StripItems(v, |items|);
      if kept == [] then None else Some(List(kept))
    case _ => Some(v)
  }

  /** Items are cleaned when they are maps; a list inside a list is left as it is. */
  function StripItem(v: Value): Option<Value>
    decreases v, 1
  {
    if v.Nil? || v.NilMap? || v.Map? then StripValue(v) else Some(v)
  }

  function StripItems(v: Value, n: nat): seq<Value>
    requires v.List? && n <= |v.items|
    decreases v, 0, n
  {
    if n == 0 then []
    else
      var item := StripItem(v.items[n - 1]);
      StripItems(v, n - 1) + if item.Some? then [item.value] else []
  }

  function Strip(m: Object): Object {
    map k | k in m && StripValue(m[k]).Some? :: StripValue(m[k]).value
  }

  lemma StripMapValue(m: Object)
    ensures StripValue(Map(m)) == if Strip(m) == map[] then None else Some(Map(Strip(m)))
  {
    assert Strip(m) == map k | k in m && StripValue(m[k]).Some? :: StripValue(m[k]).value;
  }

  // Independent reading: what is empty, what is clean

  /** Nothing but nils, empty maps and empty lists, along maps and maps directly inside lists. */
  predicate Hollow(v: Value)
    decreases v, 0
  {
    match v
    case Nil => true
    case NilMap => true
    case Map(m) => forall k :: k in m ==> Hollow(m[k])
    case List(items) => forall i :: 0 <= i < |items| ==> HollowItem(items[i])
    case _ => false
  }

  predicate HollowItem(v: Value)
    decreases v, 1
  {
    (v.Nil? || v.NilMap? || v.Map?) && Hollow(v)
  }

  /** No nil, no empty map and no empty list along those paths. */
  predicate Clean(v: Value)
    decreases v, 0
  {
    match v
    case Nil => false
    case NilMap => false
    case Map(m) => m != map[] && forall k :: k in m ==> Clean(m[k])
    case List(items) => items != [] && forall i :: 0 <= i < |items| ==> CleanItem(items[i])
    case _ => true
  }

  predicate CleanItem(v: Value)
    decreases v, 1
  {
    v.Nil? || v.NilMap? || v.Map? ==> Clean(v)
  }

  predicate CleanObject(m: Object) {
    forall k :: k in m ==> Clean(m[k])
  }

  lemma {:induction false} StripDropsHollow(v: Value)
    ensures StripValue(v).None? <==> Hollow(v)
    decreases v, 1
  {
    match v
    case Map(m) =>
      forall k | k in m ensures StripValue(m[k]).None? <==> Hollow(m[k]) {
        StripDropsHollow(m[k]);
      }
      var kept := map k | k in m && StripValue(m[k]).Some? :: StripValue(m[k]).value;
      assert forall k :: k in m && !Hollow(m[k]) ==> k in kept;
    case List(items) => StripItemsHollow(v, |items|);
    case _ =>
  }

  lemma {:induction false} StripItemsHollow(v: Value, n: nat)
    requires v.List? && n <= |v.items|
    ensures StripItems(v, n) == [] <==> forall i :: 0 <= i < n ==> HollowItem(v.items[i])
    decreases v, 0, n
  {
    if n > 0 {
      StripItemsHollow(v, n - 1);
      StripDropsHollow(v.items[n - 1]);
    }
  }

  lemma {:induction false} StripMakesClean(v: Value)
    ensures StripValue(v).Some? ==> Clean(StripValue(v).value)
    decreases v, 1
  {
    match v
    case Map(m) =>
      forall k | k in m && StripValue(m[k]).Some? ensures Clean(StripValue(m[k]).value) {
        StripMakesClean(m[k]);
      }
    case List(items) => StripItemsClean(v, |items|);
    case _ =>
  }

  lemma {:induction false} StripItemsClean(v: Value, n: nat)
    requires v.List? && n <= |v.items|
    ensures forall x :: x in StripItems(v, n) ==> CleanItem(x)
    decreases v, 0, n
  {
    if n > 0 {
      StripItemsClean(v, n - 1);
      StripMakesClean(v.items[n - 1]);
    }
  }

  /** The clean values are exactly those stripping leaves alone. */
  lemma {:induction false} CleanIsFixed(v: Value)
    ensures Clean(v) <==> StripValue(v) == Some(v)
    decreases v, 1
  {
    StripMakesClean(v);
    if Clean(v) {
      match v
      case Map(m) =>
        forall k | k in m ensures StripValue(m[k]) == Some(m[k]) {
          CleanIsFixed(m[k]);
        }
        assert m == map k | k in m && StripValue(m[k]).Some? :: StripValue(m[k]).value;
      case List(items) =>
        CleanItemsFixed(v, |items|);
        assert items[..|items|] == items;
      case _ =>
    }
  }

  lemma {:induction false} CleanItemsFixed(v: Value, n: nat)
    requires v.List? && n <= |v.items| && forall i :: 0 <= i < n ==> CleanItem(v.items[i])
    ensures StripItems(v, n) == v.items[..n]
    decreases v, 0, n
  {
    if n > 0 {
      CleanItemsFixed(v, n - 1);
      CleanIsFixed(v.items[n - 1]);
    }
  }

  lemma {:induction false} StripOfClone(v: Value)
    ensures StripValue(CloneValue(v)) == StripValue(v)
    decreases v, 1
  {
    match v
    case Map(m) =>
      EmptyMap(m);
      forall k | k in m ensures StripValue(CloneValue(m[k])) == StripValue(m[k]) {
        StripOfClone(m[k]);
      }
      if |m| != 0 {
        var c := CloneValue(v).entries;
        assert (map k | k in c && StripValue(c[k]).Some? :: StripValue(c[k]).value) ==
               (map k | k in m && StripValue(m[k]).Some? :: StripValue(m[k]).value);
      }
    case List(items) => StripOfCloneItems(v, |items|);
    case _ =>
  }

  lemma {:induction false} StripOfCloneItems(v: Value, n: nat)
    requires v.List? && n <= |v.items|
    ensures StripItems(CloneValue(v), n) == StripItems(v, n)
    decreases v, 0, n
  {
    if n > 0 {
      StripOfCloneItems(v, n - 1);
      StripOfClone(v.items[n - 1]);
    }
  }

  /** A clone strips to what its original does; stripping is idempotent; top-level deletion commutes with both. */
  lemma StripLaws(m: Object, keys: set<string>)
    ensures Strip(Clone(m)) == Strip(m)
    ensures Strip(Strip(m)) == Strip(m) && CleanObject(Strip(m))
    ensures Strip(Clone(m) - keys) == Strip(m) - keys
    ensures forall k :: k in Strip(m) <==> k in m && !Hollow(m[k])
  {
    forall k | k in m
      ensures StripValue(CloneValue(m[k])) == StripValue(m[k])
      ensures StripValue(m[k]).Some? ==>
                Clean(StripValue(m[k]).value) && StripValue(StripValue(m[k]).value) == StripValue(m[k])
      ensures StripValue(m[k]).None? <==> Hollow(m[k])
    {
      StripOfClone(m[k]);
      StripMakesClean(m[k]);
      StripDropsHollow(m[k]);
      if StripValue(m[k]).Some? {
        CleanIsFixed(StripValue(m[k]).value);
      }
    }
  }

  /** Scalars, strings and containers of other types are never dropped or changed. */
  lemma {:induction false} StripKeepsOthers(v: Value)
    requires !v.Nil? && !v.NilMap? && !v.Map? && !v.List?
    ensures StripValue(v) == Some(v)
  {
  }

  /** In a list, neither is anything but nils and maps: a list in a list stays as it is, even an empty one. */
  lemma {:induction false} StripKeepsItems(v: Value)
    requires !v.Nil? && !v.NilMap? && !v.Map?
    ensures StripItem(v) == Some(v) && !HollowItem(v)
  {
  }

  /** What stays of a list: its items that are not hollow, maps stripped and others as they are, in their order. */
  lemma {:induction false} StripItemsExactly(v: Value, n: nat) returns (kept: seq<nat>)
    requires v.List? && n <= |v.items|
    ensures |kept| == |StripItems(v, n)| && forall i, j :: 0 <= i < j < |kept| ==> kept[i] < kept[j]
    ensures forall j :: 0 <= j < |kept| ==>
              && kept[j] < n && !HollowItem(v.items[kept[j]])
              && if v.items[kept[j]].Map? then StripValue(v.items[kept[j]]) == Some(StripItems(v, n)[j])
                 else StripItems(v, n)[j] == v.items[kept[j]]
    ensures forall i :: 0 <= i < n && !HollowItem(v.items[i]) ==> i in kept
    decreases n
  {
    if n == 0 {
      kept := [];
    } else {
      kept := StripItemsExactly(v, n - 1);
      StripDropsHollow(v.items[n - 1]);
      if !HollowItem(v.items[n - 1]) {
        kept := kept + [n - 1];
      }
    }
  }

  // What cloning changes

  /** An empty map on the paths that are cloned: in maps, and in maps directly inside lists. */
  predicate EmptyAlong(v: Value) {
    match v
    case Map(m) => m == map[] || exists k :: k in m && EmptyAlong(m[k])
    case List(items) => exists i :: 0 <= i < |items| && items[i].Map? && EmptyAlong(items[i])
    case _ => false
  }

  /** A clone differs from its original exactly by such a map, which becomes nil. */
  lemma {:induction false} CloneChanges(v: Value)
    ensures CloneValue(v) == v <==> !EmptyAlong(v)
  {
    match v
    case Map(m) =>
      EmptyMap(m);
      forall k | k in m ensures CloneValue(m[k]) == m[k] <==> !EmptyAlong(m[k]) {
        CloneChanges(m[k]);
      }
      if |m| != 0 {
        assert CloneValue(v) == v <==> forall k :: k in m ==> CloneValue(v).entries[k] == m[k];
      }
    case List(items) =>
      forall i | 0 <= i < |items| && items[i].Map? ensures CloneValue(items[i]) == items[i] <==> !EmptyAlong(items[i]) {
        CloneChanges(items[i]);
      }
      assert CloneValue(v) == v <==> forall i :: 0 <= i < |items| ==> CloneValue(v).items[i] == items[i];
    case _ =>
  }

  /** And it normalises to what its original does. */
  lemma {:induction false} CloneKeeps(v: Value)
    ensures Normalized(CloneValue(v)) == Normalized(v)
  {
    match v
    case Map(m) =>
      forall k | k in m ensures Normalized(CloneValue(m[k])) == Normalized(m[k]) {
        CloneKeeps(m[k]);
      }
      MapRoundTrip(m, map k | k in m :: CloneValue(m[k]));
    case List(items) =>
      forall i | 0 <= i < |items| ensures Normalized(CloneItem(items[i])) == Normalized(items[i]) {
        CloneKeeps(items[i]);
      }
    case _ =>
  }

  // Privacy

  datatype Privacy = Privacy(
    requestContext: bool,
    headers: bool,
    body: bool,
    session: bool,
    cookies: bool,
    files: bool,
    env: bool)

  /** Whether the options allow a top-level section to leave the process. */
  predicate Allowed(o: Privacy, key: string) {
    match key
    case "env" => o.env
    case "headers" => o.requestContext && o.headers
    case "bodyParams" => o.requestContext && o.body
    case "session" => o.requestContext && o.session
    case "cookies" => o.requestContext && o.cookies
    case "files" => o.requestContext && o.files
    case _ => key in REQUEST_ONLY ==> o.requestContext
  }

  const REQUEST_ONLY := {"ip", "url", "method", "queryParams"}

  function Off(captured: bool, key: string): set<string> {
    if captured then {} else {key}
  }

  function Permitted(o: Privacy, m: Object): Object {
    map k | k in m && Allowed(o, k) :: m[k]
  }

  const SECTIONS :=
    {"ip", "url", "method", "queryParams", "headers", "bodyParams", "session", "cookies", "files", "env"}

  /** The options section by section; anything else stays, and nothing that stays is changed. */
  lemma {:induction false} PermittedTable(o: Privacy, m: Object)
    ensures var r := Permitted(o, m);
            && (forall k :: k in r ==> k in m && r[k] == m[k])
            && (forall k :: k in m && k !in SECTIONS ==> k in r)
            && ("ip" in r <==> "ip" in m && o.requestContext)
            && ("url" in r <==> "url" in m && o.requestContext)
            && ("method" in r <==> "method" in m && o.requestContext)
            && ("queryParams" in r <==> "queryParams" in m && o.requestContext)
            && ("headers" in r <==> "headers" in m && o.requestContext && o.headers)
            && ("bodyParams" in r <==> "bodyParams" in m && o.requestContext && o.body)
            && ("session" in r <==> "session" in m && o.requestContext && o.session)
            && ("cookies" in r <==> "cookies" in m && o.requestContext && o.cookies)
            && ("files" in r <==> "files" in m && o.requestContext && o.files)
            && ("env" in r <==> "env" in m && o.env)
  {
  }

  lemma PermittedWithoutRequest(o: Privacy, m: Object)
    requires !o.requestContext
    ensures Permitted(o, m) ==
            m - {"ip"} - {"url"} - {"method"} - {"headers"} - {"queryParams"}
              - {"bodyParams"} - {"cookies"} - {"session"} - {"files"} - Off(o.env, "env")
  {
  }

  lemma PermittedWithRequest(o: Privacy, m: Object)
    requires o.requestContext
    ensures Permitted(o, m) ==
            m - Off(o.headers, "headers") - Off(o.body, "bodyParams") - Off(o.cookies, "cookies")
              - Off(o.session, "session") - Off(o.files, "files") - Off(o.env, "env")
  {
  }

  // The event id

  predicate HasId(m: Object) {
    "eventId" in m && m["eventId"].Str? && Trim(m["eventId"].s) != ""
  }

  /** A string with something in it besides white space. */
  predicate UsableId(m: Object) {
    && "eventId" in m && m["eventId"].Str?
    && exists i :: 0 <= i < |m["eventId"].s| && !IsSpace(m["eventId"].s[i])
  }

  lemma {:induction false} UsableIdExactly(m: Object)
    ensures HasId(m) <==> UsableId(m)
  {
    if "eventId" in m && m["eventId"].Str? {
      TrimBlank(m["eventId"].s);
    }
  }

  function WithId(m: Object, freshId: string): Object {
    if HasId(m) then m else m["eventId" := Str(freshId)]
  }

  /** A map that is changed in place. */
  class Document {
    var entries: Object

    constructor (entries: Object)
      ensures this.entries == entries
    {
      this.entries := entries;
    }

    method Delete(key: string)
      modifies this
      ensures entries == old(entries) - {key}
    {
      entries := entries - {key};
    }

    method DeleteUnless(captured: bool, key: string)
      modifies this
      ensures entries == old(entries) - Off(captured, key)
    {
      if !captured {
        Delete(key);
      }
    }

    method DropRequestContext()
      modifies this
      ensures entries == old(entries) - {"ip"} - {"url"} - {"method"} - {"headers"} - {"queryParams"}
                           - {"bodyParams"} - {"cookies"} - {"session"} - {"files"}
    {
      Delete("ip");
      Delete("url");
      Delete("method");
      Delete("headers");
      Delete("queryParams");
      Delete("bodyParams");
      Delete("cookies");
      Delete("session");
      Delete("files");
    }

    method DropSections(o: Privacy)
      modifies this
      ensures entries == old(entries) - Off(o.headers, "headers") - Off(o.body, "bodyParams")
                           - Off(o.cookies, "cookies") - Off(o.session, "session") - Off(o.files, "files")
    {
      DeleteUnless(o.headers, "headers");
      DeleteUnless(o.body, "bodyParams");
      DeleteUnless(o.cookies, "cookies");
      DeleteUnless(o.session, "session");
      DeleteUnless(o.files, "files");
    }

    method ApplyPrivacy(o: Privacy)
      modifies this
      ensures entries == Permitted(o, old(entries))
    {
      if !o.requestContext {
        PermittedWithoutRequest(o, entries);
        DropRequestContext();
      } else {
        PermittedWithRequest(o, entries);
        DropSections(o);
      }
      DeleteUnless(o.env, "env");
    }

    method EnsureEventID(freshId: string)
      modifies this
      ensures entries == WithId(old(entries), freshId)
      ensures Trim(freshId) != "" ==> HasId(entries)
    {
      if "eventId" in entries && entries["eventId"].Str? && Trim(entries["eventId"].s) != "" {
        return;
      }
      entries := entries["eventId" := Str(freshId)];
    }
  }

  // The loops

  method CloneMap(m: Object) returns (r: Object)
    ensures r == Clone(m)
    decreases Map(m), 1
  {
    r := map[];
    var left := m.Keys;
    while left != {}
      invariant left <= m.Keys && r.Keys == m.Keys - left
      invariant forall k :: k in r ==> r[k] == CloneValue(m[k])
      decreases |left|
    {
      var k :| k in left;
      var item := CloneOne(m, k);
      r := r[k := item];
      left := left - {k};
    }
  }

  method CloneOne(m: Object, k: string) returns (r: Value)
    requires k in m
    ensures r == CloneValue(m[k])
    decreases Map(m), 0
  {
    match m[k]
    case NilMap => r := NilMap;
    case Map(nested) =>
      if |nested| == 0 {
        r := NilMap;
      } else {
        var cloned := CloneMap(nested);
        r := Map(cloned);
      }
    case List(items) =>
      r := CloneList(m[k]);
    case _ => r := m[k];
  }

  method CloneList(v: Value) returns (r: Value)
    requires v.List?
    ensures r == CloneValue(v)
    decreases v, 0
  {
    var out := [];
    for i := 0 to |v.items|
      invariant |out| == i
      invariant forall j :: 0 <= j < i ==> out[j] == CloneItem(v.items[j])
    {
      if v.items[i].Map? && |v.items[i].entries| > 0 {
        var cloned := CloneMap(v.items[i].entries);
        out := out + [Map(cloned)];
      } else if v.items[i].Map? {
        out := out + [NilMap];
      } else {
        out := out + [v.items[i]];
      }
    }
    r := List(out);
  }

  method StripNilValues(m: Object) returns (r: Object)
    ensures r == Strip(m)
    decreases Map(m), 1
  {
    r := map[];
    var left := m.Keys;
    while left != {}
      invariant left <= m.Keys
      invariant forall k :: k in r <==> k in m && k !in left && StripValue(m[k]).Some?
      invariant forall k :: k in r ==> StripValue(m[k]) == Some(r[k])
      decreases |left|
    {
      var k :| k in left;
      var item := StripOne(m, k);
      if item.Some? {
        r := r[k := item.value];
      }
      left := left - {k};
    }
  }

  method StripOne(m: Object, k: string) returns (r: Option<Value>)
    requires k in m
    ensures r == StripValue(m[k])
    decreases Map(m), 0
  {
    match m[k]
    case Nil => r := None;
    case NilMap => r := None;
    case Map(nested) =>
      var cleaned := StripNilValues(nested);
      StripMapValue(nested);
      r := if cleaned == map[] then None else Some(Map(cleaned));
    case List(items) =>
      var cleaned := [];
      for i := 0 to |items|
        invariant cleaned == StripItems(m[k], i)
      {
        match items[i] {
          case Nil =>
          case NilMap =>
          case Map(nested) =>
            var inner := StripNilValues(nested);
            StripMapValue(nested);
            if inner != map[] {
              cleaned := cleaned + [Map(inner)];
            }
          case _ => cleaned := cleaned + [items[i]];
        }
      }
      r := if cleaned == [] then None else Some(List(cleaned));
    case _ => r := Some(m[k]);
  }

  type Hook = (EventType, Object) -> Option<Object>

  lemma PermittedClone(o: Privacy, m: Object)
    ensures Strip(Permitted(o, Clone(m))) == Strip(Permitted(o, m))
    ensures Strip(Permitted(o, m)) == Permitted(o, Strip(m))
  {
    StripLaws(m, {});
    assert Permitted(o, Clone(m)) == Clone(Permitted(o, m));
    StripLaws(Permitted(o, m), {});
  }

  /** What the hook makes of it, cloned on the way in and on the way out. */
  method RunHook(kind: EventType, hook: Hook, stripped: Object) returns (r: Object)
    ensures var updated := hook(kind, Clone(stripped));
            r == if updated.Some? then Strip(updated.value) else map[]
  {
    var copy := CloneMap(stripped);
    var updated := hook(kind, copy);
    if updated.None? || updated.value == map[] {
      return map[];
    }
    var again := CloneMap(updated.value);
    StripLaws(updated.value, {});
    r := StripNilValues(again);
  }

  /**
    A hook returns None to drop the event. Without one, a kept payload is the input less the
    disabled sections and less the hollow values, with an id added only when none is usable;
    with one, whatever it returns, a kept payload is clean and carries a usable id.
   */
  method PreparePayload(kind: EventType, m: Object, o: Privacy, hook: Option<Hook>, freshId: string)
    returns (r: Option<Object>)
    requires Trim(freshId) != ""
    ensures r == Prepare(kind, m, o, hook, freshId)
  {
    if m == map[] {
      return None;
    }
    var cloned := CloneMap(m);
    var document := new Document(cloned);
    document.ApplyPrivacy(o);
    var stripped := StripNilValues(document.entries);
    PermittedClone(o, m);
    if hook.Some? {
      stripped := RunHook(kind, hook.value, stripped);
    }
    if stripped == map[] {
      return None;
    }
    document.entries := stripped;
    document.EnsureEventID(freshId);
    r := Some(document.entries);
  }

  function Prepare(kind: EventType, m: Object, o: Privacy, hook: Option<Hook>, freshId: string): Option<Object> {
    if m == map[] then None
    else if hook.None? then Finished(Strip(Permitted(o, m)), freshId)
    else Finished(Hooked(kind, hook.value, Clone(Strip(Permitted(o, m)))), freshId)
  }

  /** preparePayload can return this payload, for some input, options and hook. */
  ghost predicate Prepared(payload: Object) {
    exists kind, m, o, hook, freshId :: Trim(freshId) != "" && Prepare(kind, m, o, hook, freshId) == Some(payload)
  }

  /** Whatever the input, the options and the hook, a payload that leaves preparePayload has a usable id. */
  lemma {:induction false} PreparedHasId(payload: Object)
    requires Prepared(payload)
    ensures HasId(payload) && UsableId(payload)
  {
    UsableIdExactly(payload);
    var kind, m, o, hook, freshId :| Trim(freshId) != "" && Prepare(kind, m, o, hook, freshId) == Some(payload);
    var own := Strip(Permitted(o, m));
    var stripped := if hook.None? then own else Hooked(kind, hook.value, Clone(own));
    assert Finished(stripped, freshId) == Some(payload);
  }

  function Hooked(kind: EventType, hook: Hook, shown: Object): Object {
    var updated := hook(kind, shown);
    if updated.Some? then Strip(updated.value) else map[]
  }

  function Finished(stripped: Object, freshId: string): Option<Object> {
    if stripped == map[] then None else Some(WithId(stripped, freshId))
  }

  /** Without a hook: kept exactly when a permitted value is not hollow; each key is the input's, or the id. */
  lemma {:induction false} NormalFormWithoutHook(kind: EventType, m: Object, o: Privacy, freshId: string)
    ensures var r := Prepare(kind, m, o, None, freshId);
            && (r.Some? <==> exists k :: k in m && Allowed(o, k) && !Hollow(m[k]))
            && (r.Some? ==> forall k :: k != "eventId" ==>
                  (k in r.value <==> k in m && Allowed(o, k) && !Hollow(m[k])) &&
                  (k in r.value ==> Some(r.value[k]) == StripValue(m[k])))
            && (r.Some? && UsableId(m) ==> r.value["eventId"] == m["eventId"])
            && (r.Some? && !UsableId(m) ==> r.value["eventId"] == Str(freshId))
  {
    var permitted := Permitted(o, m);
    assert UsableId(permitted) <==> UsableId(m) by {
      assert Allowed(o, "eventId");
    }
    forall k ensures k in permitted && !Hollow(permitted[k]) <==> k in m && Allowed(o, k) && !Hollow(m[k]) {
    }
    StripKeeps(permitted);
    WithIdKeeps(permitted, freshId);
  }

  lemma IdSurvives(o: Privacy, m: Object)
    ensures HasId(Strip(Permitted(o, m))) <==> HasId(m)
  {
    var kept := Strip(Permitted(o, m));
    assert Allowed(o, "eventId");
    if "eventId" in m && m["eventId"].Str? {
      assert StripValue(m["eventId"]) == Some(m["eventId"]);
    }
    if "eventId" in kept && kept["eventId"].Str? {
      assert StripValue(m["eventId"]) == Some(kept["eventId"]);
    }
  }

  /** With any hook: a kept payload is clean with a usable id, and it is kept exactly when the hook kept something. */
  lemma {:induction false} NormalFormWithHook(kind: EventType, m: Object, o: Privacy, hook: Hook, freshId: string)
    requires Trim(freshId) != ""
    ensures var updated := hook(kind, Clone(Strip(Permitted(o, m))));
            var r := Prepare(kind, m, o, Some(hook), freshId);
            && (r.Some? <==>
                  m != map[] && updated.Some? && exists k :: k in updated.value && !Hollow(updated.value[k]))
            && (r.Some? ==> r.value != map[] && UsableId(r.value) && CleanObject(r.value))
            // what leaves is what the hook returned, stripped, with its own id or a new one
            && (r.Some? ==> forall k :: k != "eventId" ==>
                  (k in r.value <==> k in updated.value && !Hollow(updated.value[k])) &&
                  (k in r.value ==> Some(r.value[k]) == StripValue(updated.value[k])))
            && (r.Some? && UsableId(updated.value) ==> r.value["eventId"] == updated.value["eventId"])
            && (r.Some? && !UsableId(updated.value) ==> r.value["eventId"] == Str(freshId))
  {
    var updated := hook(kind, Clone(Strip(Permitted(o, m))));
    if updated.Some? {
      StripKeeps(updated.value);
      WithIdKeeps(updated.value, freshId);
    }
  }

  /** What WithId makes of a stripped map. */
  lemma {:induction false} WithIdKeeps(m: Object, freshId: string)
    ensures var r := WithId(Strip(m), freshId);
            && (Trim(freshId) != "" ==> UsableId(r)) && (CleanObject(Strip(m)) ==> CleanObject(r))
            && (forall k :: k != "eventId" ==>
                  (k in r <==> k in m && !Hollow(m[k])) && (k in r ==> Some(r[k]) == StripValue(m[k])))
            && r["eventId"] == if UsableId(m) then m["eventId"] else Str(freshId)
  {
    StripLaws(m, {});
    IdStripped(m);
    UsableIdExactly(m);
    UsableIdExactly(Strip(m));
    UsableIdExactly(WithId(Strip(m), freshId));
  }

  lemma {:induction false} IdStripped(m: Object)
    ensures HasId(Strip(m)) <==> HasId(m)
    ensures HasId(m) ==> Strip(m)["eventId"] == m["eventId"]
  {
    if "eventId" in m && m["eventId"].Str? {
      assert StripValue(m["eventId"]) == Some(m["eventId"]);
    }
    if "eventId" in Strip(m) && Strip(m)["eventId"].Str? {
      assert StripValue(m["eventId"]) == Some(Strip(m)["eventId"]);
    }
  }

  /** Stripping leaves something exactly when something in it is not hollow. */
  lemma {:induction false} StripKeeps(returned: Object)
    ensures Strip(returned) != map[] <==> exists k :: k in returned && !Hollow(returned[k])
    ensures CleanObject(Strip(returned))
  {
    StripLaws(returned, {});
    var kept := Strip(returned);
    assert kept == map[] <==> kept.Keys == {};
    if exists k :: k in returned && !Hollow(returned[k]) {
      var k :| k in returned && !Hollow(returned[k]);
      assert k in kept;
    }
  }
}
