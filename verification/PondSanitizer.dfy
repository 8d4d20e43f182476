/**
  The sanitiser of the pond package. Map iteration has no fixed order, and of two keys
  that trim alike the one visited last stays, so the order of every visit is a parameter.
 */
module PondSanitizer {
  import opened Values
  import opened Normalize

  const DEFAULT_MASK := "***"

  const DEFAULT_FIELDS := ["password", "token", "api_key", "authorization", "cookie", "session", "secret"]

  const DEFAULT_HEADERS := ["authorization", "cookie", "set-cookie", "x-api-key", "x-auth-token"]

  /** The names that are sensitive whatever the configuration. */
  predicate IsDefaultField(name: string) {
    name in {"password", "token", "api_key", "authorization", "cookie", "session", "secret"}
  }

  predicate IsDefaultHeader(name: string) {
    name in {"authorization", "cookie", "set-cookie", "x-api-key", "x-auth-token"}
  }

  /** `lower` stands for strings.ToLower, of which nothing is assumed; `trim` for strings.TrimSpace. */
  datatype Pond = Pond(
    fields: set<string>,
    headers: set<string>,
    mask: string,
    lower: string -> string,
    trim: string -> string)
  {
    predicate Masks(key: string, headerMode: bool) {
      var normalized := lower(trim(key));
      && normalized != ""
      && ((headerMode && normalized in headers) || normalized in fields)
    }

    /** All that the sanitiser needs of trimming; New establishes it. */
    ghost predicate TrimsOnce() {
      forall s :: trim(trim(s)) == trim(s)
    }
  }

  method New(fields: seq<string>, headers: seq<string>, mask: string, lower: string -> string)
    returns (p: Pond)
    ensures p.lower == lower && p.mask == if Trim(mask) == "" then "***" else Trim(mask)
    ensures (forall s :: p.trim(s) == Trim(s)) && p.TrimsOnce()
    ensures forall key, headerMode :: p.Masks(key, headerMode) <==>
              && lower(Trim(key)) != ""
              && exists name :: (IsDefaultField(name) || name in fields
                                 || (headerMode && (IsDefaultHeader(name) || name in headers)))
                                && lower(Trim(name)) == lower(Trim(key))
  {
    assert forall name :: name in DEFAULT_FIELDS <==> IsDefaultField(name);
    assert forall name :: name in DEFAULT_HEADERS <==> IsDefaultHeader(name);
    var fieldSet := Insert({}, DEFAULT_FIELDS, lower, false);
    fieldSet := Insert(fieldSet, fields, lower, true);
    var headerSet := Insert({}, DEFAULT_HEADERS, lower, false);
    headerSet := Insert(headerSet, headers, lower, true);
    var usedMask := Trim(mask);
    if usedMask == "" {
      usedMask := DEFAULT_MASK;
    }
    p := Pond(fieldSet, headerSet, usedMask, lower, s => Trim(s));
    forall s ensures p.trim(p.trim(s)) == p.trim(s) {
      TrimTwice(s);
    }
  }

  method Insert(base: set<string>, names: seq<string>, lower: string -> string, skipBlank: bool)
    returns (out: set<string>)
    ensures forall n :: n != "" ==>
              (n in out <==> n in base || exists name :: name in names && lower(Trim(name)) == n)
  {
    out := base;
    for i := 0 to |names|
      invariant forall n :: n != "" ==>
                  (n in out <==> n in base || exists j :: 0 <= j < i && lower(Trim(names[j])) == n)
    {
      var normalized := lower(Trim(names[i]));
      if !skipBlank || normalized != "" {
        out := out + {normalized};
      }
    }
    assert forall j :: 0 <= j < |names| ==> names[j] in names;
  }

  // What the loops produce

  function KeysOf(v: Value): set<string> {
    match v
    case Map(m) => m.Keys
    case StringMap(m) => m.Keys
    case _ => {}
  }

  /** The entry under this key is sanitised and written; a blank key is skipped and a sensitive one masked. */
  predicate Live(p: Pond, key: string, headerMode: bool) {
    p.trim(key) != "" && !p.Masks(p.trim(key), headerMode)
  }

  function OfMap(out: map<string, Value>): Value {
    if out == map[] then NilMap else Map(out)
  }

  /** In which order the keys of each map of a value are visited. */
  datatype Plan = Plan(order: seq<string>, under: map<string, Plan>, items: seq<Plan>)

  /** All the keys, each once. */
  ghost predicate IsOrder(order: seq<string>, keys: set<string>) {
    && (forall key :: key in order <==> key in keys)
    && (forall i, j :: 0 <= i < j < |order| ==> order[i] != order[j])
  }

  ghost predicate Fits(plan: Plan, v: Value) {
    match v
    case Map(m) =>
      && IsOrder(plan.order, m.Keys)
      && forall key :: key in m ==> key in plan.under && Fits(plan.under[key], m[key])
    case StringMap(m) => IsOrder(plan.order, m.Keys)
    case List(items) =>
      |plan.items| == |items| && forall i :: 0 <= i < |items| ==> Fits(plan.items[i], items[i])
    case _ => true
  }

  /** What sanitising v gives when its maps are visited as planned; only the outermost map is in header mode. */
  function Visit(p: Pond, v: Value, plan: Plan, headerMode: bool): Value
    requires Fits(plan, v)
    decreases v, 1
  {
    match v
    case Map(_) => OfMap(Written(p, plan.order, Results(p, v, plan), headerMode))
    case StringMap(_) => OfMap(Written(p, plan.order, Results(p, v, plan), headerMode))
    case List(items) =>
      List(seq(|items|, i requires 0 <= i < |items| => Visit(p, items[i], plan.items[i], false)))
    case Strings(texts) => List(seq(|texts|, i requires 0 <= i < |texts| => Str(texts[i])))
    case _ => v
  }

  /** The output map after visiting the keys in this order, when the entries come to `results`. */
  function Written(p: Pond, order: seq<string>, results: map<string, Value>, headerMode: bool): map<string, Value>
    requires forall key :: key in order ==> key in results
  {
    if order == [] then map[]
    else
      var key := order[|order| - 1];
      var before := Written(p, order[..|order| - 1], results, headerMode);
      var trimmed := p.trim(key);
      if trimmed == "" then before
      else before[trimmed := if p.Masks(trimmed, headerMode) then Str(p.mask) else results[key]]
  }

  /** What the entries of v come to, each on its own. */
  function Results(p: Pond, v: Value, plan: Plan): (results: map<string, Value>)
    requires (v.Map? || v.StringMap?) && Fits(plan, v)
    ensures results.Keys == KeysOf(v)
    decreases v, 0
  {
    match v
    case Map(m) => map key | key in m :: Visit(p, m[key], plan.under[key], false)
    case StringMap(m) => map key | key in m :: Str(m[key])
  }

  // The loops

  method SanitizeValue(p: Pond, v: Value, plan: Plan, headerMode: bool) returns (r: Value)
    requires Fits(plan, v)
    ensures r == Visit(p, v, plan, headerMode)
    decreases v, 2
  {
    match v
    case NilMap => r := SanitizeMap(p, v, plan, headerMode);
    case Map(_) => r := SanitizeMap(p, v, plan, headerMode);
    case StringMap(_) => r := SanitizeMap(p, v, plan, headerMode);
    case List(items) =>
      var out := [];
      for i := 0 to |items|
        invariant |out| == i
        invariant forall j :: 0 <= j < i ==> out[j] == Visit(p, items[j], plan.items[j], false)
      {
        var item := SanitizeValue(p, items[i], plan.items[i], false);
        out := out + [item];
      }
      r := List(out);
    case Strings(texts) => r := List(seq(|texts|, i requires 0 <= i < |texts| => Str(texts[i])));
    case _ => r := v;
  }

  method SanitizeMap(p: Pond, v: Value, plan: Plan, headerMode: bool) returns (r: Value)
    requires (v.Map? || v.StringMap? || v.NilMap?) && Fits(plan, v)
    ensures r == Visit(p, v, plan, headerMode)
    decreases v, 1
  {
    if v.NilMap? {
      return NilMap;
    }
    var out: map<string, Value> := map[];
    for i := 0 to |plan.order|
      invariant out == Written(p, plan.order[..i], Results(p, v, plan), headerMode)
    {
      var key := plan.order[i];
      assert plan.order[..i + 1][..i] == plan.order[..i];
      var trimmed := p.trim(key);
      if trimmed != "" {
        if p.Masks(trimmed, headerMode) {
          out := out[trimmed := Str(p.mask)];
        } else {
          var item := SanitizeEntry(p, v, plan, key);
          out := out[trimmed := item];
        }
      }
    }
    assert plan.order[..|plan.order|] == plan.order;
    EmptyMap(out);
    r := if |out| == 0 then NilMap else Map(out);
  }

  method SanitizeEntry(p: Pond, v: Value, plan: Plan, key: string) returns (w: Value)
    requires (v.Map? || v.StringMap?) && Fits(plan, v) && key in KeysOf(v)
    ensures w == Results(p, v, plan)[key]
    decreases v, 0
  {
    if v.Map? {
      w := SanitizeValue(p, v.entries[key], plan.under[key], false);
    } else {
      w := Str(v.stringEntries[key]);
    }
  }
}
