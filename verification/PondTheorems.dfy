/** What every outcome of sanitising satisfies, whatever order the maps are visited in. */
module PondTheorems {
  import opened Core
  import opened Values
  import opened Normalize
  import opened PondSanitizer
  import opened PondOutcomes

  /** Normal forms, and nil maps, which the sanitiser itself makes. */
  predicate Plain(v: Value) {
    match v
    case Nil => true
    case Scalar(_) => true
    case Str(_) => true
    case NilMap => true
    case List(items) => forall i :: 0 <= i < |items| ==> Plain(items[i])
    case Map(m) => forall k :: k in m ==> Plain(m[k])
    case _ => false
  }

  lemma {:induction false} NormalIsPlain(v: Value)
    requires Normal(v)
    ensures Plain(v)
  {
    match v
    case List(items) =>
      forall i | 0 <= i < |items| ensures Plain(items[i]) {
        NormalIsPlain(items[i]);
      }
    case Map(m) =>
      forall k | k in m ensures Plain(m[k]) {
        NormalIsPlain(m[k]);
      }
    case _ =>
  }

  // Sanitising twice

  /** Nothing to convert, maps non-empty, keys trimmed and non-blank, and the mask under the sensitive ones. */
  predicate Fixed(p: Pond, v: Value, headerMode: bool) {
    match v
    case Map(m) =>
      && m.Keys != {}
      && forall k :: k in m ==>
           && p.trim(k) == k && k != ""
           && if p.Masks(k, headerMode) then m[k] == Str(p.mask) else Fixed(p, m[k], false)
    case List(items) => forall i :: 0 <= i < |items| ==> Fixed(p, items[i], false)
    case StringMap(_) => false
    case Strings(_) => false
    case _ => true
  }

  lemma {:induction false} OutcomeIsFixed(p: Pond, v: Value, r: Value, headerMode: bool)
    requires p.TrimsOnce() && Sanitized(p, v, r, headerMode)
    ensures Fixed(p, r, headerMode)
    decreases v, 1
  {
    match v
    case Map(_) => MapOutcomeIsFixed(p, v, r, headerMode);
    case StringMap(_) => MapOutcomeIsFixed(p, v, r, headerMode);
    case List(items) =>
      forall i | 0 <= i < |items| ensures Fixed(p, r.items[i], false) {
        OutcomeIsFixed(p, items[i], r.items[i], false);
      }
    case _ =>
  }

  lemma {:induction false} MapOutcomeIsFixed(p: Pond, v: Value, r: Value, headerMode: bool)
    requires p.TrimsOnce() && (v.Map? || v.StringMap?) && MapOutcome(p, v, r, headerMode)
    ensures Fixed(p, r, headerMode)
    decreases v, 0
  {
    if r.Map? {
      var some :| some in KeysOf(v) && p.trim(some) != "";
      assert Kept(p, KeysOf(v), p.trim(some));
      forall out | out in r.entries
        ensures p.trim(out) == out && out != ""
        ensures if p.Masks(out, headerMode) then r.entries[out] == Str(p.mask) else Fixed(p, r.entries[out], false)
      {
        assert Kept(p, KeysOf(v), out) && EntryOutcome(p, v, out, r.entries[out], headerMode);
        if !p.Masks(out, headerMode) {
          var key := Winner(p, v, r, out, headerMode);
          if v.Map? {
            OutcomeIsFixed(p, v.entries[key], r.entries[out], false);
          }
        }
      }
    }
  }

  /** A fixed value has one outcome, itself. */
  lemma {:induction false} FixedHasOneOutcome(p: Pond, v: Value, r: Value, headerMode: bool)
    requires Fixed(p, v, headerMode)
    ensures Sanitized(p, v, r, headerMode) <==> r == v
    decreases v, 2
  {
    match v
    case Map(m) => FixedMap(p, v, r, headerMode);
    case List(items) =>
      if r.List? && |r.items| == |items| {
        forall i | 0 <= i < |items| ensures Sanitized(p, items[i], r.items[i], false) <==> r.items[i] == items[i] {
          FixedHasOneOutcome(p, items[i], r.items[i], false);
        }
        assert r == v <==> forall i :: 0 <= i < |items| ==> r.items[i] == items[i];
      }
    case _ =>
  }

  lemma {:induction false} FixedMap(p: Pond, v: Value, r: Value, headerMode: bool)
    requires v.Map? && Fixed(p, v, headerMode)
    ensures Sanitized(p, v, r, headerMode) <==> r == v
    decreases v, 1
  {
    var m := v.entries;
    forall k ensures Kept(p, m.Keys, k) <==> k in m.Keys {
      if k in m.Keys {
        assert p.trim(k) == k && k != "";
      }
    }
    assert r.Map? && (forall out :: out in r.entries <==> Kept(p, KeysOf(v), out)) ==> r.entries.Keys == m.Keys;
    if r.Map? && r.entries.Keys == m.Keys {
      forall k | k in m ensures EntryOutcome(p, v, k, r.entries[k], headerMode) <==> r.entries[k] == m[k] {
        FixedEntry(p, v, k, r.entries[k], headerMode);
      }
      assert r.entries == m <==> forall k :: k in m ==> r.entries[k] == m[k];
    }
  }

  lemma {:induction false} FixedEntry(p: Pond, v: Value, k: string, w: Value, headerMode: bool)
    requires v.Map? && Fixed(p, v, headerMode) && k in v.entries
    ensures EntryOutcome(p, v, k, w, headerMode) <==> w == v.entries[k]
    decreases v, 0
  {
    var m := v.entries;
    if !p.Masks(k, headerMode) {
      FixedHasOneOutcome(p, m[k], w, false);
      assert Source(p, v, k, w) <==> w == m[k];
      forall key | key in KeysOf(v) && p.trim(key) == k ensures key == k {
        assert p.trim(key) == key;
      }
      assert p.trim(k) == k;
    }
  }

  /** The values that some order of iteration leaves alone, and then every order does. */
  lemma {:induction false} FixedExactly(p: Pond, v: Value, headerMode: bool)
    requires p.TrimsOnce()
    ensures Fixed(p, v, headerMode) <==> Sanitized(p, v, v, headerMode)
  {
    if Fixed(p, v, headerMode) {
      FixedHasOneOutcome(p, v, v, headerMode);
    }
    if Sanitized(p, v, v, headerMode) {
      OutcomeIsFixed(p, v, v, headerMode);
    }
  }

  lemma {:induction false} SanitizeTwice(p: Pond, v: Value, r: Value, again: Value, headerMode: bool)
    requires p.TrimsOnce() && Sanitized(p, v, r, headerMode)
    ensures Sanitized(p, r, again, headerMode) <==> again == r
  {
    OutcomeIsFixed(p, v, r, headerMode);
    FixedHasOneOutcome(p, r, again, headerMode);
  }

  /** Sanitising a result again, whatever the two orders of iteration, gives the same value. */
  lemma {:induction false} VisitTwice(p: Pond, v: Value, plan: Plan, again: Plan, headerMode: bool)
    requires p.TrimsOnce() && Fits(plan, v) && Fits(again, Visit(p, v, plan, headerMode))
    ensures var r := Visit(p, v, plan, headerMode); Visit(p, r, again, headerMode) == r
  {
    var r := Visit(p, v, plan, headerMode);
    VisitIsSanitized(p, v, plan, headerMode);
    VisitIsSanitized(p, r, again, headerMode);
    SanitizeTwice(p, v, r, Visit(p, r, again, headerMode), headerMode);
  }

  // Masking

  /** Every sensitive key at any depth, inside containers of every type, holds the mask. */
  predicate Masked(p: Pond, r: Value, headerMode: bool) {
    match r
    case Map(m) =>
      forall k :: k in m ==> if p.Masks(k, headerMode) then m[k] == Str(p.mask) else Masked(p, m[k], false)
    case StringMap(m) => forall k :: k in m && p.Masks(k, headerMode) ==> m[k] == p.mask
    case IntMap(m) => forall k :: k in m ==> !p.Masks(k, headerMode)
    case AnyMap(pairs) =>
      forall i :: 0 <= i < |pairs| ==>
        if p.Masks(pairs[i].key, headerMode) then pairs[i].value == Str(p.mask) else Masked(p, pairs[i].value, false)
    case List(items) => forall i :: 0 <= i < |items| ==> Masked(p, items[i], false)
    case AnyList(items) => forall i :: 0 <= i < |items| ==> Masked(p, items[i], false)
    case Pointer(target) => Masked(p, target, headerMode)
    case Opaque(decoded, _) => decoded.Some? ==> Masked(p, decoded.value, headerMode)
    case _ => true
  }

  /** What the sanitiser passes on unread, under keys it does not mask, has nothing left to mask. */
  predicate Covered(p: Pond, v: Value, headerMode: bool) {
    match v
    case Map(m) => forall k :: k in m && Live(p, k, headerMode) ==> Covered(p, m[k], false)
    case StringMap(_) => true
    case List(items) => forall i :: 0 <= i < |items| ==> Covered(p, items[i], false)
    case _ => Masked(p, v, headerMode)
  }

  ghost predicate AlwaysMasked(p: Pond, v: Value, headerMode: bool) {
    forall r :: Sanitized(p, v, r, headerMode) ==> Masked(p, r, headerMode)
  }

  lemma {:induction false} CoveredIsMasked(p: Pond, v: Value, r: Value, headerMode: bool)
    requires p.TrimsOnce() && Covered(p, v, headerMode) && Sanitized(p, v, r, headerMode)
    ensures Masked(p, r, headerMode)
  {
    match v
    case Map(m) =>
      if r.Map? {
        forall o | o in r.entries && !p.Masks(o, headerMode) ensures Masked(p, r.entries[o], false) {
          var key := Winner(p, v, r, o, headerMode);
          assert Live(p, key, headerMode);
          CoveredIsMasked(p, m[key], r.entries[o], false);
        }
        assert forall o :: o in r.entries ==> EntryOutcome(p, v, o, r.entries[o], headerMode);
      }
    case StringMap(_) =>
      assert r.Map? ==> forall o :: o in r.entries ==> EntryOutcome(p, v, o, r.entries[o], headerMode);
    case List(items) =>
      forall i | 0 <= i < |items| ensures Masked(p, r.items[i], false) {
        CoveredIsMasked(p, items[i], r.items[i], false);
      }
    case _ =>
  }

  lemma {:induction false} MaskedIsCovered(p: Pond, v: Value, headerMode: bool)
    requires p.TrimsOnce() && AlwaysMasked(p, v, headerMode)
    ensures Covered(p, v, headerMode)
  {
    match v
    case Map(m) =>
      forall k | k in m && Live(p, k, headerMode) ensures Covered(p, m[k], false) {
        EntryAlwaysMasked(p, v, k, headerMode);
        MaskedIsCovered(p, m[k], false);
      }
    case List(items) =>
      forall i | 0 <= i < |items| ensures Covered(p, items[i], false) {
        ItemAlwaysMasked(p, v, i, headerMode);
        MaskedIsCovered(p, items[i], false);
      }
    case StringMap(_) =>
    case Strings(_) =>
    case _ => assert Sanitized(p, v, v, headerMode);
  }

  lemma {:induction false} EntryAlwaysMasked(p: Pond, v: Value, key: string, headerMode: bool)
    requires p.TrimsOnce() && v.Map? && AlwaysMasked(p, v, headerMode)
    requires key in v.entries && Live(p, key, headerMode)
    ensures AlwaysMasked(p, v.entries[key], false)
  {
    forall w | Sanitized(p, v.entries[key], w, false) ensures Masked(p, w, false) {
      EntryOccurs(p, v, key, w, headerMode);
      var out := OutcomeEntries(p, v, headerMode)[p.trim(key) := w];
      assert Sanitized(p, v, Map(out), headerMode);
      assert p.trim(key) in out && out[p.trim(key)] == w;
    }
  }

  lemma {:induction false} ItemAlwaysMasked(p: Pond, v: Value, i: nat, headerMode: bool)
    requires v.List? && i < |v.items| && AlwaysMasked(p, v, headerMode)
    ensures AlwaysMasked(p, v.items[i], false)
  {
    forall w | Sanitized(p, v.items[i], w, false) ensures Masked(p, w, false) {
      var items := Outcome(p, v, headerMode).items;
      OutcomeExists(p, v, headerMode);
      assert Sanitized(p, v, List(items[i := w]), headerMode);
      assert List(items[i := w]).items[i] == w;
    }
  }

  /** Whatever the order of iteration, the result is masked throughout. */
  ghost predicate ComesOutMasked(p: Pond, v: Value, headerMode: bool) {
    forall plan :: Fits(plan, v) ==> Masked(p, Visit(p, v, plan, headerMode), headerMode)
  }

  /** On any value at all, that holds exactly when what is passed on unread has nothing left to mask. */
  lemma {:induction false} MaskedExactly(p: Pond, v: Value, headerMode: bool)
    requires p.TrimsOnce()
    ensures ComesOutMasked(p, v, headerMode) <==> Covered(p, v, headerMode)
  {
    if Covered(p, v, headerMode) {
      forall plan | Fits(plan, v) ensures Masked(p, Visit(p, v, plan, headerMode), headerMode) {
        VisitIsSanitized(p, v, plan, headerMode);
        CoveredIsMasked(p, v, Visit(p, v, plan, headerMode), headerMode);
      }
    }
    if ComesOutMasked(p, v, headerMode) {
      forall r | Sanitized(p, v, r, headerMode) ensures Masked(p, r, headerMode) {
        SanitizedIsProduced(p, v, r, headerMode);
        assert Makes(p, v, r, headerMode, PlanFor(p, v, r, headerMode));
      }
      MaskedIsCovered(p, v, headerMode);
    }
  }

  // Normal forms

  lemma {:induction false} PlainIsCovered(p: Pond, v: Value, headerMode: bool)
    requires Plain(v)
    ensures Covered(p, v, headerMode)
  {
    match v
    case Map(m) =>
      forall k | k in m ensures Covered(p, m[k], false) {
        PlainIsCovered(p, m[k], false);
      }
    case List(items) =>
      forall i | 0 <= i < |items| ensures Covered(p, items[i], false) {
        PlainIsCovered(p, items[i], false);
      }
    case _ =>
  }

  lemma {:induction false} PlainKept(p: Pond, v: Value, r: Value, headerMode: bool)
    requires Plain(v) && Sanitized(p, v, r, headerMode)
    ensures Plain(r)
  {
    match v
    case Map(m) =>
      if r.Map? {
        forall out | out in r.entries ensures Plain(r.entries[out]) {
          assert EntryOutcome(p, v, out, r.entries[out], headerMode);
          if !p.Masks(out, headerMode) {
            var key :| key in KeysOf(v) && p.trim(key) == out && Source(p, v, key, r.entries[out]);
            PlainKept(p, m[key], r.entries[out], false);
          }
        }
      }
    case List(items) =>
      forall i | 0 <= i < |items| ensures Plain(r.items[i]) {
        PlainKept(p, items[i], r.items[i], false);
      }
    case _ =>
  }

  /** On normal forms every sensitive key at any depth of any outcome holds the mask. */
  lemma {:induction false} MaskingComplete(p: Pond, v: Value, r: Value, headerMode: bool)
    requires p.TrimsOnce() && Plain(v) && Sanitized(p, v, r, headerMode)
    ensures Plain(r) && Masked(p, r, headerMode)
  {
    PlainKept(p, v, r, headerMode);
    PlainIsCovered(p, v, headerMode);
    CoveredIsMasked(p, v, r, headerMode);
  }

  /** The composition the event builders use: details are normalised, then sanitised. */
  lemma {:induction false} DetailsAreMasked(p: Pond, details: Value, r: Value)
    requires p.TrimsOnce() && Sanitized(p, Normalized(details), r, false)
    ensures Plain(r) && Masked(p, r, false)
  {
    NormalizedIsNormal(details);
    NormalIsPlain(Normalized(details));
    MaskingComplete(p, Normalized(details), r, false);
  }

  // Order of iteration

  /** No two keys of one map trim alike, unless they are blank or masked. */
  predicate TrimInjective(p: Pond, v: Value, headerMode: bool) {
    match v
    case Map(m) =>
      && (forall j, k :: j in m && k in m ==> !Collide(p, j, k, headerMode))
      && (forall k :: k in m && Live(p, k, headerMode) ==> TrimInjective(p, m[k], false))
    case StringMap(m) => forall j, k :: j in m && k in m ==> !Collide(p, j, k, headerMode)
    case List(items) => forall i :: 0 <= i < |items| ==> TrimInjective(p, items[i], false)
    case _ => true
  }

  /** Then no entries have to agree, and the order does not show. */
  lemma {:induction false} InjectiveIsEnough(p: Pond, v: Value, headerMode: bool)
    requires TrimInjective(p, v, headerMode)
    ensures OrderIrrelevant(p, v, headerMode)
  {
    InjectiveAgrees(p, v, headerMode);
    OrderIrrelevantExactly(p, v, headerMode);
  }

  lemma {:induction false} InjectiveAgrees(p: Pond, v: Value, headerMode: bool)
    requires TrimInjective(p, v, headerMode)
    ensures Agreeing(p, v, headerMode)
  {
    match v
    case Map(m) =>
      forall k | k in m && Live(p, k, headerMode) ensures Agreeing(p, m[k], false) {
        InjectiveAgrees(p, m[k], false);
      }
    case List(items) =>
      forall i | 0 <= i < |items| ensures Agreeing(p, items[i], false) {
        InjectiveAgrees(p, items[i], false);
      }
    case _ =>
  }

  /** For two unmasked keys that trim alike, the order shows exactly when they hold different scalars. */
  lemma {:induction false} CollisionIsAmbiguous(p: Pond, j: string, k: string, a: int, b: int)
    requires Collide(p, j, k, false)
    ensures OrderIrrelevant(p, Map(map[j := Scalar(a), k := Scalar(b)]), false) <==> a == b
  {
    var v := Map(map[j := Scalar(a), k := Scalar(b)]);
    OrderIrrelevantExactly(p, v, false);
    TwoAgree(p, v, j, k, a, b);
  }

  lemma {:induction false} TwoAgree(p: Pond, v: Value, j: string, k: string, a: int, b: int)
    requires Collide(p, j, k, false) && v == Map(map[j := Scalar(a), k := Scalar(b)])
    ensures Agreeing(p, v, false) <==> a == b
  {
    assert v.entries[j] == Scalar(a) && v.entries[k] == Scalar(b);
    assert EntryResult(p, v, j) == Scalar(a);
    assert EntryResult(p, v, k) == Scalar(b);
    assert KeysOf(v) == {j, k};
    assert CollisionsAgree(p, v, false) ==> a == b;
  }

  // What is left alone

  /** The member a step leads to, in the containers the sanitiser reads. */
  function Child(v: Value, step: Step): Option<Value> {
    match step
    case Key(k) =>
      if v.Map? && k in v.entries then Some(v.entries[k])
      else if v.StringMap? && k in v.stringEntries then Some(Str(v.stringEntries[k]))
      else None
    case Index(i) =>
      if v.List? && i < |v.items| then Some(v.items[i])
      else if v.Strings? && i < |v.texts| then Some(Str(v.texts[i]))
      else None
  }

  function At(v: Value, path: seq<Step>): Option<Value>
    decreases path
  {
    if path == [] then Some(v)
    else
      match Child(v, path[0])
      case Some(w) => At(w, path[1..])
      case None => None
  }

  function TrimStep(p: Pond, step: Step): Step {
    match step
    case Key(k) => Key(p.trim(k))
    case Index(_) => step
  }

  function TrimPath(p: Pond, path: seq<Step>): seq<Step> {
    if path == [] then [] else [TrimStep(p, path[0])] + TrimPath(p, path[1..])
  }

  /** Every key on the path is non-blank, not sensitive, and alone in trimming to what it trims to. */
  predicate Clear(p: Pond, v: Value, path: seq<Step>, headerMode: bool)
    requires At(v, path).Some?
    decreases path
  {
    path == [] ||
    (&& (path[0].Key? ==>
           && Live(p, path[0].key, headerMode)
           && forall j :: j in KeysOf(v) && p.trim(j) == p.trim(path[0].key) ==> j == path[0].key)
     && Clear(p, Child(v, path[0]).value, path[1..], false))
  }

  predicate Leaf(v: Value) {
    v.Nil? || v.Scalar? || v.Str?
  }

  /** One step down: what stands there in an outcome is an outcome of what stands there in the value. */
  lemma {:induction false} ChildOutcome(p: Pond, v: Value, r: Value, step: Step, headerMode: bool)
    requires Sanitized(p, v, r, headerMode) && Child(v, step).Some?
    requires step.Key? ==>
               && Live(p, step.key, headerMode)
               && forall j :: j in KeysOf(v) && p.trim(j) == p.trim(step.key) ==> j == step.key
    ensures Child(r, TrimStep(p, step)).Some?
    ensures Sanitized(p, Child(v, step).value, Child(r, TrimStep(p, step)).value, false)
  {
    if step.Key? {
      assert Kept(p, KeysOf(v), p.trim(step.key));
      var key := Winner(p, v, r, p.trim(step.key), headerMode);
    }
  }

  /** A leaf reached through clear keys only is unchanged at its trimmed path. */
  lemma {:induction false} LeafKept(p: Pond, v: Value, r: Value, path: seq<Step>, headerMode: bool)
    requires Sanitized(p, v, r, headerMode)
    requires At(v, path).Some? && Leaf(At(v, path).value) && Clear(p, v, path, headerMode)
    ensures At(r, TrimPath(p, path)) == At(v, path)
    decreases path
  {
    if path != [] {
      assert TrimPath(p, path)[1..] == TrimPath(p, path[1..]);
      ChildOutcome(p, v, r, path[0], headerMode);
      LeafKept(p, Child(v, path[0]).value, Child(r, TrimStep(p, path[0])).value, path[1..], false);
    }
  }

  /** One step up: what stands in an outcome is the mask, or an outcome of what stands in the value at such a step. */
  lemma {:induction false} ChildOrigin(p: Pond, v: Value, r: Value, step: Step, headerMode: bool)
    returns (masked: bool, origin: Step)
    requires Sanitized(p, v, r, headerMode) && Child(r, step).Some?
    ensures masked ==> step.Key? && p.Masks(step.key, headerMode) && Child(r, step) == Some(Str(p.mask))
    ensures !masked ==>
              && TrimStep(p, origin) == step && Child(v, origin).Some?
              && Sanitized(p, Child(v, origin).value, Child(r, step).value, false)
  {
    masked, origin := false, step;
    if step.Key? && (v.Map? || v.StringMap?) {
      assert EntryOutcome(p, v, step.key, r.entries[step.key], headerMode);
      if p.Masks(step.key, headerMode) {
        masked := true;
      } else {
        origin := Key(Winner(p, v, r, step.key, headerMode));
      }
    }
  }

  /**
    Nothing is invented: a leaf of the result is the mask under a sensitive key, or a leaf of
    the input at a path that trims to its own.
   */
  lemma {:induction false} LeafOrigin(p: Pond, v: Value, r: Value, path: seq<Step>, headerMode: bool)
    returns (masked: bool, origin: seq<Step>)
    requires Sanitized(p, v, r, headerMode)
    requires At(r, path).Some? && Leaf(At(r, path).value)
    ensures masked ==>
              && path != [] && path[|path| - 1].Key?
              && p.Masks(path[|path| - 1].key, headerMode && |path| == 1) && At(r, path) == Some(Str(p.mask))
    ensures !masked ==> TrimPath(p, origin) == path && At(v, origin) == At(r, path)
    decreases path
  {
    masked, origin := false, [];
    if path != [] {
      var first;
      masked, first := ChildOrigin(p, v, r, path[0], headerMode);
      if masked {
        assert path[1..] == [];
      } else {
        masked, origin := LeafOrigin(p, Child(v, first).value, Child(r, path[0]).value, path[1..], false);
        origin := [first] + origin;
        assert !masked ==> TrimPath(p, origin) == [path[0]] + path[1..];
      }
    }
  }
}
