/**
  The outcomes of sanitising, read without any order of iteration, and the proof that they
  are exactly what the loops can produce.
 */
module PondOutcomes {
  import opened Values
  import opened PondSanitizer

  /** out is a key of the result. */
  predicate Kept(p: Pond, keys: set<string>, out: string) {
    out != "" && exists key :: key in keys && p.trim(key) == out
  }

  /** An order-free reading of what sanitising v can give; only the keys of the outermost map are in header mode. */
  ghost predicate Sanitized(p: Pond, v: Value, r: Value, headerMode: bool)
    decreases v, 3
  {
    match v
    case Map(_) => MapOutcome(p, v, r, headerMode)
    case StringMap(_) => MapOutcome(p, v, r, headerMode)
    case List(items) =>
      && r.List? && |r.items| == |items|
      && forall i :: 0 <= i < |items| ==> Sanitized(p, items[i], r.items[i], false)
    case Strings(texts) => r == List(seq(|texts|, i requires 0 <= i < |texts| => Str(texts[i])))
    case _ => r == v
  }

  ghost predicate MapOutcome(p: Pond, v: Value, r: Value, headerMode: bool)
    requires v.Map? || v.StringMap?
    decreases v, 2
  {
    if forall key :: key in KeysOf(v) ==> p.trim(key) == "" then r == NilMap
    else
      && r.Map?
      && (forall out :: out in r.entries <==> Kept(p, KeysOf(v), out))
      && forall out :: out in r.entries ==> EntryOutcome(p, v, out, r.entries[out], headerMode)
  }

  /** What may stand under one trimmed key: the mask, or an outcome of one of the entries that trim to it. */
  ghost predicate EntryOutcome(p: Pond, v: Value, out: string, w: Value, headerMode: bool)
    requires v.Map? || v.StringMap?
    decreases v, 1
  {
    if p.Masks(out, headerMode) then w == Str(p.mask)
    else exists key :: key in KeysOf(v) && p.trim(key) == out && Source(p, v, key, w)
  }

  ghost predicate Source(p: Pond, v: Value, key: string, w: Value)
    requires (v.Map? || v.StringMap?) && key in KeysOf(v)
    decreases v, 0
  {
    match v
    case Map(m) => Sanitized(p, m[key], w, false)
    case StringMap(m) => w == Str(m[key])
  }

  // What a visit writes

  lemma {:induction false} WrittenEntries(p: Pond, order: seq<string>, results: map<string, Value>, headerMode: bool)
    requires forall key :: key in order ==> key in results
    ensures var out := Written(p, order, results, headerMode);
            && (forall o :: o in out <==> o != "" && exists key :: key in order && p.trim(key) == o)
            && (forall o :: o in out ==>
                  if p.Masks(o, headerMode) then out[o] == Str(p.mask)
                  else exists key :: key in order && p.trim(key) == o && out[o] == results[key])
  {
    if order != [] {
      WrittenEntries(p, order[..|order| - 1], results, headerMode);
      assert order == order[..|order| - 1] + [order[|order| - 1]];
    }
  }

  lemma {:induction false} WrittenKeys(p: Pond, order: seq<string>, results: map<string, Value>, keys: set<string>,
                                       headerMode: bool)
    requires IsOrder(order, keys) && results.Keys == keys
    ensures var out := Written(p, order, results, headerMode);
            && (forall o :: o in out <==> Kept(p, keys, o))
            && (forall o :: o in out && p.Masks(o, headerMode) ==> out[o] == Str(p.mask))
  {
    WrittenEntries(p, order, results, headerMode);
  }

  /** The key visited last among those that trim alike decides. */
  lemma {:induction false} WrittenLast(p: Pond, order: seq<string>, results: map<string, Value>, headerMode: bool,
                                       i: nat)
    requires forall key :: key in order ==> key in results
    requires i < |order| && Live(p, order[i], headerMode)
    requires forall j :: i < j < |order| ==> p.trim(order[j]) != p.trim(order[i])
    ensures var out := Written(p, order, results, headerMode);
            p.trim(order[i]) in out && out[p.trim(order[i])] == results[order[i]]
  {
    if i < |order| - 1 {
      assert p.trim(order[|order| - 1]) != p.trim(order[i]);
      WrittenLast(p, order[..|order| - 1], results, headerMode, i);
    }
  }

  lemma {:induction false} VisitIsSanitized(p: Pond, v: Value, plan: Plan, headerMode: bool)
    requires Fits(plan, v)
    ensures Sanitized(p, v, Visit(p, v, plan, headerMode), headerMode)
  {
    match v
    case List(items) =>
      forall i | 0 <= i < |items| ensures Sanitized(p, items[i], Visit(p, items[i], plan.items[i], false), false) {
        VisitIsSanitized(p, items[i], plan.items[i], false);
      }
    case Map(m) =>
      forall key | key in m ensures Source(p, v, key, Results(p, v, plan)[key]) {
        VisitIsSanitized(p, m[key], plan.under[key], false);
      }
      VisitIsOutcome(p, v, plan.order, Results(p, v, plan), headerMode);
    case StringMap(_) => VisitIsOutcome(p, v, plan.order, Results(p, v, plan), headerMode);
    case _ =>
  }

  lemma {:induction false} VisitIsOutcome(p: Pond, v: Value, order: seq<string>, results: map<string, Value>,
                                          headerMode: bool)
    requires v.Map? || v.StringMap?
    requires IsOrder(order, KeysOf(v)) && results.Keys == KeysOf(v)
    requires forall key :: key in KeysOf(v) && Live(p, key, headerMode) ==> Source(p, v, key, results[key])
    ensures MapOutcome(p, v, OfMap(Written(p, order, results, headerMode)), headerMode)
  {
    var out := Written(p, order, results, headerMode);
    WrittenEntries(p, order, results, headerMode);
    forall o ensures o in out <==> Kept(p, KeysOf(v), o) {
    }
    forall o | o in out ensures EntryOutcome(p, v, o, out[o], headerMode) {
      if !p.Masks(o, headerMode) {
        var key :| key in order && p.trim(key) == o && out[o] == results[key];
        assert Live(p, key, headerMode) && Source(p, v, key, results[key]);
      }
    }
    if key :| key in KeysOf(v) && p.trim(key) != "" {
      assert Kept(p, KeysOf(v), p.trim(key));
    }
  }

  // An outcome always exists

  ghost function OutKeys(p: Pond, keys: set<string>): set<string> {
    set key | key in keys && p.trim(key) != "" :: p.trim(key)
  }

  /** One of the keys that trim to out. */
  ghost function Pick(p: Pond, keys: set<string>, out: string): (key: string)
    requires out in OutKeys(p, keys)
    ensures key in keys && p.trim(key) == out
  {
    var key :| key in keys && p.trim(key) == out;
    key
  }

  /** One outcome of sanitising v. */
  ghost function Outcome(p: Pond, v: Value, headerMode: bool): Value
    decreases v, 1
  {
    match v
    case Map(_) => OfMap(OutcomeEntries(p, v, headerMode))
    case StringMap(_) => OfMap(OutcomeEntries(p, v, headerMode))
    case List(items) => List(seq(|items|, i requires 0 <= i < |items| => Outcome(p, items[i], false)))
    case Strings(texts) => List(seq(|texts|, i requires 0 <= i < |texts| => Str(texts[i])))
    case _ => v
  }

  ghost function OutcomeEntries(p: Pond, v: Value, headerMode: bool): map<string, Value>
    requires v.Map? || v.StringMap?
    decreases v, 0, 1
  {
    map out | out in OutKeys(p, KeysOf(v)) ::
      if p.Masks(out, headerMode) then Str(p.mask) else EntryResult(p, v, Pick(p, KeysOf(v), out))
  }

  /** One outcome of the entry under this key alone. */
  ghost function EntryResult(p: Pond, v: Value, key: string): Value
    requires (v.Map? || v.StringMap?) && key in KeysOf(v)
    decreases v, 0, 0
  {
    match v
    case Map(m) => Outcome(p, m[key], false)
    case StringMap(m) => Str(m[key])
  }

  lemma {:induction false} OutcomeExists(p: Pond, v: Value, headerMode: bool)
    ensures Sanitized(p, v, Outcome(p, v, headerMode), headerMode)
  {
    match v
    case List(items) =>
      forall i | 0 <= i < |items| ensures Sanitized(p, items[i], Outcome(p, items[i], false), false) {
        OutcomeExists(p, items[i], false);
      }
    case Map(m) =>
      forall key | key in m ensures Source(p, v, key, EntryResult(p, v, key)) {
        OutcomeExists(p, m[key], false);
      }
      EntriesAreOutcome(p, v, OutcomeEntries(p, v, headerMode), headerMode);
    case StringMap(m) =>
      assert forall key :: key in m ==> Source(p, v, key, EntryResult(p, v, key));
      EntriesAreOutcome(p, v, OutcomeEntries(p, v, headerMode), headerMode);
    case _ =>
  }

  lemma {:induction false} EntriesAreOutcome(p: Pond, v: Value, out: map<string, Value>, headerMode: bool)
    requires (v.Map? || v.StringMap?) && out.Keys == OutKeys(p, KeysOf(v))
    requires forall o :: o in out ==> EntryOutcome(p, v, o, out[o], headerMode)
    ensures MapOutcome(p, v, OfMap(out), headerMode)
  {
    forall o ensures o in out <==> Kept(p, KeysOf(v), o) {
    }
    if key :| key in KeysOf(v) && p.trim(key) != "" {
      assert p.trim(key) in out;
    }
  }

  /** Any outcome of any live entry occurs in some outcome of the whole map. */
  lemma {:induction false} EntryOccurs(p: Pond, v: Value, key: string, w: Value, headerMode: bool)
    requires (v.Map? || v.StringMap?) && key in KeysOf(v) && Live(p, key, headerMode) && Source(p, v, key, w)
    ensures p.trim(key) in OutcomeEntries(p, v, headerMode)
    ensures MapOutcome(p, v, Map(OutcomeEntries(p, v, headerMode)[p.trim(key) := w]), headerMode)
  {
    var out := OutcomeEntries(p, v, headerMode);
    assert out.Keys == OutKeys(p, KeysOf(v)) && p.trim(key) in out;
    var changed := out[p.trim(key) := w];
    assert changed.Keys == out.Keys;
    forall o | o in changed ensures EntryOutcome(p, v, o, changed[o], headerMode) {
      if o != p.trim(key) && !p.Masks(o, headerMode) {
        var picked := Pick(p, KeysOf(v), o);
        assert Source(p, v, picked, EntryResult(p, v, picked)) by {
          if v.Map? {
            OutcomeExists(p, v.entries[picked], false);
          }
        }
      }
    }
    EntriesAreOutcome(p, v, changed, headerMode);
  }

  // Every outcome is produced by some order

  ghost function Listing(keys: set<string>): (order: seq<string>)
    ensures IsOrder(order, keys)
  {
    if keys == {} then []
    else
      var key :| key in keys;
      Listing(keys - {key}) + [key]
  }

  /** A key whose entry came to what stands under o in the outcome r. */
  ghost function Winner(p: Pond, v: Value, r: Value, o: string, headerMode: bool): (winner: string)
    requires (v.Map? || v.StringMap?) && MapOutcome(p, v, r, headerMode)
    requires Kept(p, KeysOf(v), o) && !p.Masks(o, headerMode)
    ensures r.Map? && o in r.entries
    ensures winner in KeysOf(v) && p.trim(winner) == o && Source(p, v, winner, r.entries[o])
  {
    assert EntryOutcome(p, v, o, r.entries[o], headerMode);
    var winner :| winner in KeysOf(v) && p.trim(winner) == o && Source(p, v, winner, r.entries[o]);
    winner
  }

  ghost predicate Wins(p: Pond, v: Value, r: Value, key: string, headerMode: bool)
    requires (v.Map? || v.StringMap?) && MapOutcome(p, v, r, headerMode) && key in KeysOf(v)
  {
    Live(p, key, headerMode) && Winner(p, v, r, p.trim(key), headerMode) == key
  }

  ghost function Winners(p: Pond, v: Value, r: Value, headerMode: bool): (winners: set<string>)
    requires (v.Map? || v.StringMap?) && MapOutcome(p, v, r, headerMode)
    ensures winners <= KeysOf(v)
  {
    set key | key in KeysOf(v) && Wins(p, v, r, key, headerMode)
  }

  /** Every entry that wins comes to what stands in r, and every other live entry to some outcome of its own. */
  ghost function WinningResults(p: Pond, v: Value, r: Value, headerMode: bool): (results: map<string, Value>)
    requires (v.Map? || v.StringMap?) && MapOutcome(p, v, r, headerMode)
    ensures results.Keys == KeysOf(v)
  {
    map key | key in KeysOf(v) ::
      if Wins(p, v, r, key, headerMode) then r.entries[p.trim(key)] else EntryResult(p, v, key)
  }

  /** The winners are visited last. */
  ghost function WinningOrder(p: Pond, v: Value, r: Value, headerMode: bool): (order: seq<string>)
    requires (v.Map? || v.StringMap?) && MapOutcome(p, v, r, headerMode)
    ensures IsOrder(order, KeysOf(v))
  {
    var winners := Winners(p, v, r, headerMode);
    OrderSplit(KeysOf(v), winners);
    Listing(KeysOf(v) - winners) + Listing(winners)
  }

  lemma {:induction false} OrderSplit(keys: set<string>, last: set<string>)
    requires last <= keys
    ensures IsOrder(Listing(keys - last) + Listing(last), keys)
  {
    var a, b := Listing(keys - last), Listing(last);
    var order := a + b;
    forall i, j | 0 <= i < j < |order| ensures order[i] != order[j] {
      if i < |a| <= j {
        assert a[i] in a && b[j - |a|] in b;
      }
    }
  }

  lemma {:induction false} WinningVisit(p: Pond, v: Value, r: Value, headerMode: bool)
    requires (v.Map? || v.StringMap?) && MapOutcome(p, v, r, headerMode)
    ensures OfMap(Written(p, WinningOrder(p, v, r, headerMode), WinningResults(p, v, r, headerMode), headerMode)) == r
  {
    var out := Written(p, WinningOrder(p, v, r, headerMode), WinningResults(p, v, r, headerMode), headerMode);
    WrittenKeys(p, WinningOrder(p, v, r, headerMode), WinningResults(p, v, r, headerMode), KeysOf(v), headerMode);
    forall o | o in out && !p.Masks(o, headerMode) ensures r.Map? && o in r.entries && out[o] == r.entries[o] {
      WinnerStays(p, v, r, o, headerMode);
    }
    SameMap(p, v, r, out, headerMode);
  }

  lemma {:induction false} SameMap(p: Pond, v: Value, r: Value, out: map<string, Value>, headerMode: bool)
    requires (v.Map? || v.StringMap?) && MapOutcome(p, v, r, headerMode)
    requires forall o :: o in out <==> Kept(p, KeysOf(v), o)
    requires forall o :: o in out && p.Masks(o, headerMode) ==> out[o] == Str(p.mask)
    requires forall o :: o in out && !p.Masks(o, headerMode) ==> r.Map? && o in r.entries && out[o] == r.entries[o]
    ensures OfMap(out) == r
  {
    if r.Map? {
      forall o | o in out ensures out[o] == r.entries[o] {
        assert EntryOutcome(p, v, o, r.entries[o], headerMode);
      }
      assert out.Keys == r.entries.Keys;
      assert out == r.entries;
      if key :| key in KeysOf(v) && p.trim(key) != "" {
        assert Kept(p, KeysOf(v), p.trim(key));
      }
    } else {
      assert out == map[];
    }
  }

  lemma {:induction false} WinnerStays(p: Pond, v: Value, r: Value, o: string, headerMode: bool)
    requires (v.Map? || v.StringMap?) && MapOutcome(p, v, r, headerMode)
    requires Kept(p, KeysOf(v), o) && !p.Masks(o, headerMode)
    ensures var out := Written(p, WinningOrder(p, v, r, headerMode), WinningResults(p, v, r, headerMode), headerMode);
            r.Map? && o in r.entries && o in out && out[o] == r.entries[o]
  {
    var winners, results := Winners(p, v, r, headerMode), WinningResults(p, v, r, headerMode);
    var winner := Winner(p, v, r, o, headerMode);
    assert winner in winners && results[winner] == r.entries[o];
    var i := LastIndex(p, KeysOf(v) - winners, winners, winner);
    WrittenLast(p, WinningOrder(p, v, r, headerMode), results, headerMode, i);
  }

  lemma {:induction false} LastIndex(p: Pond, others: set<string>, winners: set<string>, winner: string)
    returns (i: nat)
    requires winner in winners && forall key :: key in winners && p.trim(key) == p.trim(winner) ==> key == winner
    ensures var order := Listing(others) + Listing(winners);
            && i < |order| && order[i] == winner
            && forall j :: i < j < |order| ==> p.trim(order[j]) != p.trim(winner)
  {
    var first, last := Listing(others), Listing(winners);
    var k :| 0 <= k < |last| && last[k] == winner;
    i := |first| + k;
    var order := first + last;
    forall j | i < j < |order| ensures p.trim(order[j]) != p.trim(winner) {
      assert order[j] == last[j - |first|] && last[j - |first|] in winners;
    }
  }

  ghost predicate Makes(p: Pond, v: Value, r: Value, headerMode: bool, plan: Plan) {
    Fits(plan, v) && Visit(p, v, plan, headerMode) == r
  }

  /** Some order of visiting every map in v gives r. */
  ghost predicate Produced(p: Pond, v: Value, r: Value, headerMode: bool) {
    exists plan :: Makes(p, v, r, headerMode, plan)
  }

  ghost function PlanFor(p: Pond, v: Value, r: Value, headerMode: bool): (plan: Plan)
    requires Produced(p, v, r, headerMode)
    ensures Makes(p, v, r, headerMode, plan)
  {
    var plan :| Makes(p, v, r, headerMode, plan);
    plan
  }

  lemma {:induction false} SanitizedIsProduced(p: Pond, v: Value, r: Value, headerMode: bool)
    requires Sanitized(p, v, r, headerMode)
    ensures Produced(p, v, r, headerMode)
  {
    match v
    case List(items) =>
      forall i | 0 <= i < |items| ensures Produced(p, items[i], r.items[i], false) {
        SanitizedIsProduced(p, items[i], r.items[i], false);
      }
      ListIsProduced(p, v, r, headerMode);
    case Map(m) =>
      var results := WinningResults(p, v, r, headerMode);
      forall key | key in m ensures Produced(p, m[key], results[key], false) {
        OutcomeExists(p, m[key], false);
        SanitizedIsProduced(p, m[key], results[key], false);
      }
      WinningVisit(p, v, r, headerMode);
      MapIsProduced(p, v, WinningOrder(p, v, r, headerMode), results, headerMode);
    case StringMap(_) =>
      forall key | key in KeysOf(v) ensures WinningResults(p, v, r, headerMode)[key] == Str(v.stringEntries[key]) {
        WinningString(p, v, r, key, headerMode);
      }
      WinningVisit(p, v, r, headerMode);
      StringMapIsProduced(p, v, WinningOrder(p, v, r, headerMode), WinningResults(p, v, r, headerMode), headerMode);
    case _ => assert Makes(p, v, r, headerMode, Plan([], map[], []));
  }

  lemma {:induction false} ListIsProduced(p: Pond, v: Value, r: Value, headerMode: bool)
    requires v.List? && r.List? && |r.items| == |v.items|
    requires forall i :: 0 <= i < |v.items| ==> Produced(p, v.items[i], r.items[i], false)
    ensures Produced(p, v, r, headerMode)
  {
    var n := |v.items|;
    var plans := seq(n, i requires 0 <= i < n => PlanFor(p, v.items[i], r.items[i], false));
    assert forall i :: 0 <= i < n ==> Makes(p, v.items[i], r.items[i], false, plans[i]);
    var plan := Plan([], map[], plans);
    assert Visit(p, v, plan, headerMode).items == r.items;
    assert Makes(p, v, r, headerMode, plan);
  }

  lemma {:induction false} MapIsProduced(p: Pond, v: Value, order: seq<string>, results: map<string, Value>,
                                         headerMode: bool)
    requires v.Map? && IsOrder(order, v.entries.Keys) && results.Keys == v.entries.Keys
    requires forall key :: key in v.entries ==> Produced(p, v.entries[key], results[key], false)
    ensures Produced(p, v, OfMap(Written(p, order, results, headerMode)), headerMode)
  {
    var m := v.entries;
    var under := map key | key in m :: PlanFor(p, m[key], results[key], false);
    var plan := Plan(order, under, []);
    forall key | key in m ensures Fits(under[key], m[key]) && Visit(p, m[key], under[key], false) == results[key] {
      assert Makes(p, m[key], results[key], false, under[key]);
    }
    SameResults(p, v, plan, results);
    assert Makes(p, v, OfMap(Written(p, order, results, headerMode)), headerMode, plan);
  }

  lemma {:induction false} SameResults(p: Pond, v: Value, plan: Plan, results: map<string, Value>)
    requires v.Map? && Fits(plan, v) && results.Keys == v.entries.Keys
    requires forall key :: key in v.entries ==> Visit(p, v.entries[key], plan.under[key], false) == results[key]
    ensures Results(p, v, plan) == results
  {
  }

  lemma {:induction false} StringMapIsProduced(p: Pond, v: Value, order: seq<string>, results: map<string, Value>,
                                               headerMode: bool)
    requires v.StringMap? && IsOrder(order, KeysOf(v)) && results.Keys == KeysOf(v)
    requires forall key :: key in results ==> results[key] == Str(v.stringEntries[key])
    ensures Produced(p, v, OfMap(Written(p, order, results, headerMode)), headerMode)
  {
    var plan := Plan(order, map[], []);
    assert Results(p, v, plan) == results;
    assert Makes(p, v, OfMap(Written(p, order, results, headerMode)), headerMode, plan);
  }

  lemma {:induction false} WinningString(p: Pond, v: Value, r: Value, key: string, headerMode: bool)
    requires v.StringMap? && MapOutcome(p, v, r, headerMode) && key in KeysOf(v)
    ensures WinningResults(p, v, r, headerMode)[key] == Str(v.stringEntries[key])
  {
    if Wins(p, v, r, key, headerMode) {
      assert Source(p, v, key, r.entries[p.trim(key)]);
    }
  }

  /** The order-free reading is exact: its outcomes are those that some order of visiting the maps gives. */
  lemma {:induction false} OutcomesExactly(p: Pond, v: Value, r: Value, headerMode: bool)
    ensures Produced(p, v, r, headerMode) <==> Sanitized(p, v, r, headerMode)
  {
    if Produced(p, v, r, headerMode) {
      VisitIsSanitized(p, v, PlanFor(p, v, r, headerMode), headerMode);
    }
    if Sanitized(p, v, r, headerMode) {
      SanitizedIsProduced(p, v, r, headerMode);
    }
  }

  // When there is only one

  /** Two unmasked keys of one map that are written to the same place. */
  predicate Collide(p: Pond, j: string, k: string, headerMode: bool) {
    j != k && p.trim(j) == p.trim(k) && Live(p, j, headerMode)
  }

  /** In every map that is read, entries whose keys collide come to the same when each is sanitised on its own. */
  ghost predicate Agreeing(p: Pond, v: Value, headerMode: bool) {
    match v
    case Map(m) =>
      && CollisionsAgree(p, v, headerMode)
      && forall k :: k in m && Live(p, k, headerMode) ==> Agreeing(p, m[k], false)
    case StringMap(_) => CollisionsAgree(p, v, headerMode)
    case List(items) => forall i :: 0 <= i < |items| ==> Agreeing(p, items[i], false)
    case _ => true
  }

  ghost predicate CollisionsAgree(p: Pond, v: Value, headerMode: bool)
    requires v.Map? || v.StringMap?
  {
    forall j, k :: j in KeysOf(v) && k in KeysOf(v) && Collide(p, j, k, headerMode) ==>
      EntryResult(p, v, j) == EntryResult(p, v, k)
  }

  ghost predicate Unique(p: Pond, v: Value, headerMode: bool) {
    forall r :: Sanitized(p, v, r, headerMode) ==> r == Outcome(p, v, headerMode)
  }

  lemma {:induction false} AgreeingIsUnique(p: Pond, v: Value, headerMode: bool)
    requires Agreeing(p, v, headerMode)
    ensures Unique(p, v, headerMode)
  {
    forall r | Sanitized(p, v, r, headerMode) ensures r == Outcome(p, v, headerMode) {
      match v
      case List(items) =>
        assert r.List? && |r.items| == |items|;
        forall i | 0 <= i < |items| ensures r.items[i] == Outcome(p, items[i], false) {
          AgreeingIsUnique(p, items[i], false);
          assert Sanitized(p, items[i], r.items[i], false);
        }
        assert r.items == Outcome(p, v, headerMode).items;
      case Map(m) =>
        forall k | k in m && Live(p, k, headerMode) ensures Unique(p, m[k], false) {
          AgreeingIsUnique(p, m[k], false);
        }
        UniqueEntries(p, v, r, headerMode);
      case StringMap(_) => UniqueEntries(p, v, r, headerMode);
      case _ =>
    }
  }

  lemma {:induction false} UniqueEntries(p: Pond, v: Value, r: Value, headerMode: bool)
    requires (v.Map? || v.StringMap?) && MapOutcome(p, v, r, headerMode) && CollisionsAgree(p, v, headerMode)
    requires v.Map? ==> forall k :: k in v.entries && Live(p, k, headerMode) ==> Unique(p, v.entries[k], false)
    ensures r == OfMap(OutcomeEntries(p, v, headerMode))
  {
    var out := OutcomeEntries(p, v, headerMode);
    assert out.Keys == OutKeys(p, KeysOf(v));
    assert forall o :: o in OutKeys(p, KeysOf(v)) <==> Kept(p, KeysOf(v), o);
    forall o | o in out && !p.Masks(o, headerMode) ensures r.Map? && o in r.entries && out[o] == r.entries[o] {
      UniqueEntry(p, v, r, o, headerMode);
    }
    SameMap(p, v, r, out, headerMode);
  }

  lemma {:induction false} UniqueEntry(p: Pond, v: Value, r: Value, o: string, headerMode: bool)
    requires (v.Map? || v.StringMap?) && MapOutcome(p, v, r, headerMode) && CollisionsAgree(p, v, headerMode)
    requires v.Map? ==> forall k :: k in v.entries && Live(p, k, headerMode) ==> Unique(p, v.entries[k], false)
    requires Kept(p, KeysOf(v), o) && !p.Masks(o, headerMode)
    ensures r.Map? && o in r.entries && o in OutKeys(p, KeysOf(v))
    ensures r.entries[o] == EntryResult(p, v, Pick(p, KeysOf(v), o))
  {
    var key, picked := Winner(p, v, r, o, headerMode), Pick(p, KeysOf(v), o);
    assert Live(p, key, headerMode);
    if v.Map? {
      assert Unique(p, v.entries[key], false) && Sanitized(p, v.entries[key], r.entries[o], false);
    }
    assert r.entries[o] == EntryResult(p, v, key);
    assert key != picked ==> Collide(p, key, picked, headerMode);
  }

  lemma {:induction false} UniqueIsAgreeing(p: Pond, v: Value, headerMode: bool)
    requires Unique(p, v, headerMode)
    ensures Agreeing(p, v, headerMode)
  {
    match v
    case List(items) =>
      forall i | 0 <= i < |items| ensures Agreeing(p, items[i], false) {
        ItemUnique(p, v, i, headerMode);
        UniqueIsAgreeing(p, items[i], false);
      }
    case Map(m) =>
      forall k | k in m && Live(p, k, headerMode) ensures Agreeing(p, m[k], false) {
        EntryUnique(p, v, k, headerMode);
        UniqueIsAgreeing(p, m[k], false);
      }
      UniqueCollisions(p, v, headerMode);
    case StringMap(_) => UniqueCollisions(p, v, headerMode);
    case _ =>
  }

  lemma {:induction false} ItemUnique(p: Pond, v: Value, i: nat, headerMode: bool)
    requires v.List? && i < |v.items| && Unique(p, v, headerMode)
    ensures Unique(p, v.items[i], false)
  {
    forall w | Sanitized(p, v.items[i], w, false) ensures w == Outcome(p, v.items[i], false) {
      var items := Outcome(p, v, headerMode).items;
      OutcomeExists(p, v, headerMode);
      assert Sanitized(p, v, List(items[i := w]), headerMode);
      assert items[i := w][i] == items[i];
    }
  }

  /** Every outcome of a live entry is the one that stands in the one outcome of the map. */
  lemma {:induction false} EntryFixed(p: Pond, v: Value, key: string, w: Value, headerMode: bool)
    requires (v.Map? || v.StringMap?) && Unique(p, v, headerMode)
    requires key in KeysOf(v) && Live(p, key, headerMode) && Source(p, v, key, w)
    ensures p.trim(key) in OutcomeEntries(p, v, headerMode) && w == OutcomeEntries(p, v, headerMode)[p.trim(key)]
  {
    var out := OutcomeEntries(p, v, headerMode);
    EntryOccurs(p, v, key, w, headerMode);
    assert Sanitized(p, v, Map(out[p.trim(key) := w]), headerMode);
    assert OfMap(out) == Map(out[p.trim(key) := w]);
    assert out[p.trim(key) := w][p.trim(key)] == w;
  }

  lemma {:induction false} EntryUnique(p: Pond, v: Value, key: string, headerMode: bool)
    requires v.Map? && Unique(p, v, headerMode) && key in v.entries && Live(p, key, headerMode)
    ensures Unique(p, v.entries[key], false)
  {
    var sub := v.entries[key];
    OutcomeExists(p, sub, false);
    EntryFixed(p, v, key, Outcome(p, sub, false), headerMode);
    forall w | Sanitized(p, sub, w, false) ensures w == Outcome(p, sub, false) {
      EntryFixed(p, v, key, w, headerMode);
    }
  }

  lemma {:induction false} UniqueCollisions(p: Pond, v: Value, headerMode: bool)
    requires (v.Map? || v.StringMap?) && Unique(p, v, headerMode)
    ensures CollisionsAgree(p, v, headerMode)
  {
    forall k | k in KeysOf(v) && Live(p, k, headerMode)
      ensures p.trim(k) in OutcomeEntries(p, v, headerMode)
      ensures EntryResult(p, v, k) == OutcomeEntries(p, v, headerMode)[p.trim(k)]
    {
      if v.Map? {
        OutcomeExists(p, v.entries[k], false);
      }
      EntryFixed(p, v, k, EntryResult(p, v, k), headerMode);
    }
  }

  /** All orders of iteration give the same result. */
  ghost predicate OrderIrrelevant(p: Pond, v: Value, headerMode: bool) {
    forall plan, other :: Fits(plan, v) && Fits(other, v) ==>
      Visit(p, v, plan, headerMode) == Visit(p, v, other, headerMode)
  }

  /** The order of iteration does not show exactly when colliding entries agree. */
  lemma {:induction false} OrderIrrelevantExactly(p: Pond, v: Value, headerMode: bool)
    ensures OrderIrrelevant(p, v, headerMode) <==> Agreeing(p, v, headerMode)
  {
    if Agreeing(p, v, headerMode) {
      AgreeingIsUnique(p, v, headerMode);
      forall plan | Fits(plan, v) ensures Visit(p, v, plan, headerMode) == Outcome(p, v, headerMode) {
        VisitIsSanitized(p, v, plan, headerMode);
      }
    }
    if OrderIrrelevant(p, v, headerMode) {
      OutcomeExists(p, v, headerMode);
      SanitizedIsProduced(p, v, Outcome(p, v, headerMode), headerMode);
      forall r | Sanitized(p, v, r, headerMode) ensures r == Outcome(p, v, headerMode) {
        SanitizedIsProduced(p, v, r, headerMode);
      }
      UniqueIsAgreeing(p, v, headerMode);
    }
  }
}
