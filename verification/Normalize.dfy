/** Normalisation and cloning of dynamic values. */
module Normalize {
  import opened Core
  import opened Values

  function Normalized(v: Value): Value
    decreases v, 0
  {
    match v
    case Nil => Nil
    case Scalar(_) => v
    case Str(_) => v
    case List(items) => List(seq(|items|, i requires 0 <= i < |items| => Normalized(items[i])))
    case NilMap => Map(map[])
    case Map(m) => Map(map k | k in m :: Normalized(m[k]))
    case Number(reading, text) => if reading.Some? then Scalar(reading.value) else Str(text)
    case Rendered(text) => Str(text)
    case Strings(texts) => List(seq(|texts|, i requires 0 <= i < |texts| => Str(texts[i])))
    case Ints(numbers) => List(seq(|numbers|, i requires 0 <= i < |numbers| => Scalar(numbers[i])))
    case StringMap(m) => Map(map k | k in m :: Str(m[k]))
    case IntMap(m) => Map(map k | k in m :: Scalar(m[k]))
    case NilPointer => Nil
    case Pointer(target) => Normalized(target)
    case AnyMap(pairs) => Map(NormalizedPairs(v, |pairs|))
    case AnyList(items) => List(seq(|items|, i requires 0 <= i < |items| => Normalized(items[i])))
    case Opaque(decoded, text) => if decoded.Some? then Normalized(decoded.value) else Str(text)
  }

  /** The first n pairs of a map with other keys; of two keys that print alike the later one stays. */
  function NormalizedPairs(v: Value, n: nat): map<string, Value>
    requires v.AnyMap? && n <= |v.pairs|
    decreases v, 0, n
  {
    if n == 0 then map[]
    else NormalizedPairs(v, n - 1)[v.pairs[n - 1].key := Normalized(v.pairs[n - 1].value)]
  }

  // Normal form

  lemma {:induction false} NormalizedIsNormal(v: Value)
    ensures Normal(Normalized(v))
    decreases v, 0
  {
    match v
    case List(items) =>
      forall i | 0 <= i < |items| ensures Normal(Normalized(items[i])) {
        NormalizedIsNormal(items[i]);
      }
    case AnyList(items) =>
      forall i | 0 <= i < |items| ensures Normal(Normalized(items[i])) {
        NormalizedIsNormal(items[i]);
      }
    case Map(m) =>
      forall k | k in m ensures Normal(Normalized(m[k])) {
        NormalizedIsNormal(m[k]);
      }
    case Pointer(target) => NormalizedIsNormal(target);
    case AnyMap(pairs) => PairsAreNormal(v, |pairs|);
    case Opaque(decoded, _) =>
      if decoded.Some? {
        NormalizedIsNormal(decoded.value);
      }
    case _ =>
  }

  lemma {:induction false} PairsAreNormal(v: Value, n: nat)
    requires v.AnyMap? && n <= |v.pairs|
    ensures forall k :: k in NormalizedPairs(v, n) ==> Normal(NormalizedPairs(v, n)[k])
    decreases v, 0, n
  {
    if n > 0 {
      PairsAreNormal(v, n - 1);
      NormalizedIsNormal(v.pairs[n - 1].value);
    }
  }

  /** The normal forms are exactly the fixed points; with NormalizedIsNormal, normalising twice changes nothing. */
  lemma {:induction false} FixedPoints(v: Value)
    ensures Normal(v) <==> Normalized(v) == v
  {
    NormalizedIsNormal(v);
    if Normal(v) {
      match v
      case List(items) =>
        forall i | 0 <= i < |items| ensures Normalized(items[i]) == items[i] {
          FixedPoints(items[i]);
        }
      case Map(m) =>
        forall k | k in m ensures Normalized(m[k]) == m[k] {
          FixedPoints(m[k]);
        }
      case _ =>
    }
  }

  // Meaning: the leaf that a path of keys and indexes leads to, in any value

  function LeafAt(leaf: Value, path: seq<Step>): Option<Value> {
    if path == [] then Some(leaf) else None
  }

  function Look(v: Value, path: seq<Step>): Option<Value>
    decreases v, 0
  {
    var byKey, byIndex := path != [] && path[0].Key?, path != [] && path[0].Index?;
    match v
    case Nil => LeafAt(Nil, path)
    case NilPointer => LeafAt(Nil, path)
    case Scalar(_) => LeafAt(v, path)
    case Str(_) => LeafAt(v, path)
    case Rendered(text) => LeafAt(Str(text), path)
    case Number(reading, text) => LeafAt(if reading.Some? then Scalar(reading.value) else Str(text), path)
    case Pointer(target) => Look(target, path)
    case Opaque(decoded, text) => if decoded.Some? then Look(decoded.value, path) else LeafAt(Str(text), path)
    case List(items) => if byIndex && path[0].i < |items| then Look(items[path[0].i], path[1..]) else None
    case AnyList(items) => if byIndex && path[0].i < |items| then Look(items[path[0].i], path[1..]) else None
    case Strings(texts) => if byIndex && path[0].i < |texts| then LeafAt(Str(texts[path[0].i]), path[1..]) else None
    case Ints(numbers) =>
      if byIndex && path[0].i < |numbers| then LeafAt(Scalar(numbers[path[0].i]), path[1..]) else None
    case NilMap => None
    case Map(m) => if byKey && path[0].key in m then Look(m[path[0].key], path[1..]) else None
    case StringMap(m) => if byKey && path[0].key in m then LeafAt(Str(m[path[0].key]), path[1..]) else None
    case IntMap(m) => if byKey && path[0].key in m then LeafAt(Scalar(m[path[0].key]), path[1..]) else None
    case AnyMap(pairs) => if byKey then LookBack(v, |pairs|, path) else None
  }

  /** The last of the first n pairs with the wanted key. */
  function LookBack(v: Value, n: nat, path: seq<Step>): Option<Value>
    requires v.AnyMap? && n <= |v.pairs| && path != [] && path[0].Key?
    decreases v, 0, n
  {
    if n == 0 then None
    else if v.pairs[n - 1].key == path[0].key then Look(v.pairs[n - 1].value, path[1..])
    else LookBack(v, n - 1, path)
  }

  /** Normalising neither loses, adds, changes nor moves a leaf. */
  lemma {:induction false} SameLeaves(v: Value, path: seq<Step>)
    ensures Look(Normalized(v), path) == Look(v, path)
    decreases v, 0
  {
    match v
    case List(items) =>
      if path != [] && path[0].Index? && path[0].i < |items| {
        SameLeaves(items[path[0].i], path[1..]);
      }
    case AnyList(items) =>
      if path != [] && path[0].Index? && path[0].i < |items| {
        SameLeaves(items[path[0].i], path[1..]);
      }
    case Map(m) =>
      if path != [] && path[0].Key? && path[0].key in m {
        SameLeaves(m[path[0].key], path[1..]);
      }
    case Pointer(target) => SameLeaves(target, path);
    case Opaque(decoded, _) =>
      if decoded.Some? {
        SameLeaves(decoded.value, path);
      }
    case AnyMap(pairs) =>
      if path != [] && path[0].Key? {
        SameLeavesBack(v, |pairs|, path);
      }
    case _ =>
  }

  lemma {:induction false} SameLeavesBack(v: Value, n: nat, path: seq<Step>)
    requires v.AnyMap? && n <= |v.pairs| && path != [] && path[0].Key?
    ensures Look(Map(NormalizedPairs(v, n)), path) == LookBack(v, n, path)
    decreases v, 0, n
  {
    if n > 0 {
      SameLeavesBack(v, n - 1, path);
      SameLeaves(v.pairs[n - 1].value, path[1..]);
    }
  }

  /** Its container kind: a list and its length, a map and its keys, or neither. */
  datatype Kind = ListOf(length: nat) | MapOf(keys: set<string>) | LeafKind

  function KindOf(v: Value): Kind {
    match v
    case List(items) => ListOf(|items|)
    case AnyList(items) => ListOf(|items|)
    case Strings(texts) => ListOf(|texts|)
    case Ints(numbers) => ListOf(|numbers|)
    case NilMap => MapOf({})
    case Map(m) => MapOf(m.Keys)
    case StringMap(m) => MapOf(m.Keys)
    case IntMap(m) => MapOf(m.Keys)
    case AnyMap(pairs) => MapOf(set i | 0 <= i < |pairs| :: pairs[i].key)
    case Pointer(target) => KindOf(target)
    case Opaque(decoded, _) => if decoded.Some? then KindOf(decoded.value) else LeafKind
    case _ => LeafKind
  }

  /** Lists stay lists of their length and maps stay maps with their keys, empty ones too. */
  lemma {:induction false} SameKind(v: Value)
    ensures KindOf(Normalized(v)) == KindOf(v)
  {
    match v
    case Pointer(target) => SameKind(target);
    case Opaque(decoded, _) =>
      if decoded.Some? {
        SameKind(decoded.value);
      }
    case AnyMap(pairs) =>
      PairKeys(v, |pairs|);
      assert NormalizedPairs(v, |pairs|).Keys == KindOf(v).keys;
    case _ =>
  }

  lemma {:induction false} PairKeys(v: Value, n: nat)
    requires v.AnyMap? && n <= |v.pairs|
    ensures NormalizedPairs(v, n).Keys == set i | 0 <= i < n :: v.pairs[i].key
  {
    if n > 0 {
      PairKeys(v, n - 1);
    }
  }

  // Cloning

  function Cloned(v: Value): Value {
    match v
    case NilMap => NilMap
    case Map(m) => if |m| == 0 then NilMap else Map(map k | k in m :: Cloned(m[k]))
    case List(items) => List(seq(|items|, i requires 0 <= i < |items| => Cloned(items[i])))
    case _ => v
  }

  predicate HasEmptyMap(v: Value) {
    match v
    case Map(m) => |m| == 0 || exists k :: k in m && HasEmptyMap(m[k])
    case List(items) => exists i :: 0 <= i < |items| && HasEmptyMap(items[i])
    case _ => false
  }

  lemma EmptyMap<K, V>(m: map<K, V>)
    ensures |m| == 0 <==> m == map[]
  {
    assert |m| == 0 ==> m.Keys == {};
  }

  /** Cloning loses nothing that normalising keeps: a clone normalises to what its original does. */
  lemma {:induction false} CloneRoundTrip(v: Value)
    ensures Normalized(Cloned(v)) == Normalized(v)
  {
    match v
    case List(items) =>
      forall i | 0 <= i < |items| ensures Normalized(Cloned(items[i])) == Normalized(items[i]) {
        CloneRoundTrip(items[i]);
      }
    case Map(m) =>
      forall k | k in m ensures Normalized(Cloned(m[k])) == Normalized(m[k]) {
        CloneRoundTrip(m[k]);
      }
      MapRoundTrip(m, map k | k in m :: Cloned(m[k]));
    case _ =>
  }

  lemma {:induction false} MapRoundTrip(m: map<string, Value>, cloned: map<string, Value>)
    requires cloned.Keys == m.Keys && forall k :: k in m ==> Normalized(cloned[k]) == Normalized(m[k])
    ensures Normalized(if |m| == 0 then NilMap else Map(cloned)) == Normalized(Map(m))
  {
    EmptyMap(m);
    assert (map k | k in cloned :: Normalized(cloned[k])) == (map k | k in m :: Normalized(m[k]));
  }

  /** So on normal forms normalising the clone gives the value back. */
  lemma {:induction false} CloneOfNormal(v: Value)
    requires Normal(v)
    ensures Normalized(Cloned(v)) == v
  {
    CloneRoundTrip(v);
    FixedPoints(v);
  }

  /** A clone differs from its original exactly when an empty map occurs in it. */
  lemma {:induction false} CloneIdentity(v: Value)
    ensures Cloned(v) == v <==> !HasEmptyMap(v)
  {
    match v
    case List(items) =>
      forall i | 0 <= i < |items| ensures Cloned(items[i]) == items[i] <==> !HasEmptyMap(items[i]) {
        CloneIdentity(items[i]);
      }
      assert Cloned(v) == v <==> forall i :: 0 <= i < |items| ==> Cloned(v).items[i] == items[i];
    case Map(m) =>
      EmptyMap(m);
      forall k | k in m ensures Cloned(m[k]) == m[k] <==> !HasEmptyMap(m[k]) {
        CloneIdentity(m[k]);
      }
      if |m| != 0 {
        assert Cloned(v) == v <==> forall k :: k in m ==> Cloned(v).entries[k] == m[k];
      }
    case _ =>
  }

  // The loops

  method NormalizeValue(v: Value) returns (r: Value)
    ensures r == Normalized(v)
    decreases v, 0
  {
    match v
    case Nil => r := Nil;
    case Scalar(_) => r := v;
    case Str(_) => r := v;
    case Number(reading, text) => r := if reading.Some? then Scalar(reading.value) else Str(text);
    case Rendered(text) => r := Str(text);
    case Strings(texts) => r := List(seq(|texts|, i requires 0 <= i < |texts| => Str(texts[i])));
    case Ints(numbers) => r := List(seq(|numbers|, i requires 0 <= i < |numbers| => Scalar(numbers[i])));
    case List(_) => r := NormalizeItems(v);
    case AnyList(_) => r := NormalizeItems(v);
    case NilMap => r := Map(map[]);
    case Map(_) => r := NormalizeEntries(v);
    case StringMap(m) => r := Map(map k | k in m :: Str(m[k]));
    case IntMap(m) => r := Map(map k | k in m :: Scalar(m[k]));
    case NilPointer => r := Nil;
    case Pointer(target) => r := NormalizeValue(target);
    case AnyMap(_) => r := NormalizePairs(v);
    case Opaque(decoded, text) =>
      if decoded.Some? {
        r := NormalizeValue(decoded.value);
      } else {
        r := Str(text);
      }
  }

  method NormalizeItems(v: Value) returns (r: Value)
    requires v.List? || v.AnyList?
    ensures r == Normalized(v)
    decreases v, 0, 0
  {
    var out := [];
    for i := 0 to |v.items|
      invariant |out| == i
      invariant forall j :: 0 <= j < i ==> out[j] == Normalized(v.items[j])
    {
      var item := NormalizeValue(v.items[i]);
      out := out + [item];
    }
    r := List(out);
  }

  /** Map iteration visits the keys in an order of its own. */
  method NormalizeEntries(v: Value) returns (r: Value)
    requires v.Map?
    ensures r == Normalized(v)
    decreases v, 0, 0
  {
    var out: map<string, Value> := map[];
    var left := v.entries.Keys;
    while left != {}
      invariant left <= v.entries.Keys && out.Keys == v.entries.Keys - left
      invariant forall k :: k in out ==> out[k] == Normalized(v.entries[k])
      decreases |left|
    {
      var k :| k in left;
      var item := NormalizeValue(v.entries[k]);
      out := out[k := item];
      left := left - {k};
    }
    r := Map(out);
  }

  method NormalizePairs(v: Value) returns (r: Value)
    requires v.AnyMap?
    ensures r == Normalized(v)
    decreases v, 0, 0
  {
    var out: map<string, Value> := map[];
    for i := 0 to |v.pairs|
      invariant out == NormalizedPairs(v, i)
    {
      var item := NormalizeValue(v.pairs[i].value);
      out := out[v.pairs[i].key := item];
    }
    r := Map(out);
  }

  method CloneNormalizedValue(v: Value) returns (r: Value)
    ensures r == Cloned(v)
    decreases v, 0
  {
    match v
    case NilMap => r := CloneMapStringAny(v);
    case Map(_) => r := CloneMapStringAny(v);
    case List(items) =>
      var out := [];
      for i := 0 to |items|
        invariant |out| == i
        invariant forall j :: 0 <= j < i ==> out[j] == Cloned(items[j])
      {
        var item := CloneNormalizedValue(items[i]);
        out := out + [item];
      }
      r := List(out);
    case _ => r := v;
  }

  method CloneMapStringAny(v: Value) returns (r: Value)
    requires v.Map? || v.NilMap?
    ensures r == Cloned(v)
    decreases v, 0, 0
  {
    if v.NilMap? || |v.entries| == 0 {
      return NilMap;
    }
    var out: map<string, Value> := map[];
    var left := v.entries.Keys;
    while left != {}
      invariant left <= v.entries.Keys && out.Keys == v.entries.Keys - left
      invariant forall k :: k in out ==> out[k] == Cloned(v.entries[k])
      decreases |left|
    {
      var k :| k in left;
      var item := CloneNormalizedValue(v.entries[k]);
      out := out[k := item];
      left := left - {k};
    }
    r := Map(out);
  }
}
