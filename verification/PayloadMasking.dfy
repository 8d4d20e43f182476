/** Masking survives the way out: what was masked when an event was built is masked in what the provider sends. */
module PayloadMasking {
  import opened Core
  import opened Values
  import opened Normalize
  import opened Payload
  import opened PondSanitizer
  import opened PondOutcomes
  import opened PondTheorems

  lemma {:induction false} ClonedStaysMasked(p: Pond, v: Value, headerMode: bool)
    requires Masked(p, v, headerMode)
    ensures Masked(p, Cloned(v), headerMode)
  {
    match v
    case Map(m) =>
      EmptyMap(m);
      forall k | k in m && !p.Masks(k, headerMode) ensures Masked(p, Cloned(m[k]), false) {
        ClonedStaysMasked(p, m[k], false);
      }
    case List(items) =>
      forall i | 0 <= i < |items| ensures Masked(p, Cloned(items[i]), false) {
        ClonedStaysMasked(p, items[i], false);
      }
    case _ =>
  }

  lemma {:induction false} StrippedStaysMasked(p: Pond, v: Value, headerMode: bool)
    requires Masked(p, v, headerMode)
    ensures StripValue(v).Some? ==> Masked(p, StripValue(v).value, headerMode)
    decreases v, 1
  {
    match v
    case Map(m) =>
      forall k | k in m && !p.Masks(k, headerMode) && StripValue(m[k]).Some?
        ensures Masked(p, StripValue(m[k]).value, false)
      {
        StrippedStaysMasked(p, m[k], false);
      }
    case List(items) => StrippedItemsStayMasked(p, v, |items|);
    case _ =>
  }

  lemma {:induction false} StrippedItemsStayMasked(p: Pond, v: Value, n: nat)
    requires v.List? && n <= |v.items| && Masked(p, v, false)
    ensures forall x :: x in StripItems(v, n) ==> Masked(p, x, false)
    decreases v, 0, n
  {
    if n > 0 {
      StrippedItemsStayMasked(p, v, n - 1);
      StrippedStaysMasked(p, v.items[n - 1], false);
    }
  }

  /** preparePayload without a hook: a section that comes in masked goes out masked. */
  lemma {:induction false} PreparedStaysMasked(p: Pond, kind: EventType, m: Object, o: Privacy, freshId: string,
                                               section: string, headerMode: bool)
    requires section in m && section != "eventId" && Masked(p, m[section], headerMode)
    ensures var r := Prepare(kind, m, o, None, freshId);
            r.Some? && section in r.value ==> Masked(p, r.value[section], headerMode)
  {
    NormalFormWithoutHook(kind, m, o, freshId);
    StrippedStaysMasked(p, m[section], headerMode);
  }

  /** The copy of a payload that an event carries. */
  function NewEvent(payload: Object): Object {
    if Cloned(Map(payload)).Map? then Cloned(Map(payload)).entries else map[]
  }

  /**
    From the caller's details to the transport: they are normalised, sanitised in some order
    of iteration, cloned with the event that carries them as its context, and prepared. No
    sensitive key at any depth, in a container of any type, leaves with anything but the mask.
   */
  lemma {:induction false} ContextLeavesMasked(p: Pond, details: Value, plan: Plan, payload: Object, kind: EventType,
                                               o: Privacy, freshId: string)
    requires p.TrimsOnce() && Fits(plan, Normalized(details))
    requires "context" in payload && payload["context"] == Visit(p, Normalized(details), plan, false)
    ensures var r := Prepare(kind, NewEvent(payload), o, None, freshId);
            r.Some? && "context" in r.value ==> Masked(p, r.value["context"], false)
  {
    VisitIsSanitized(p, Normalized(details), plan, false);
    DetailsAreMasked(p, details, payload["context"]);
    ClonedStaysMasked(p, payload["context"], false);
    PreparedStaysMasked(p, kind, NewEvent(payload), o, freshId, "context", false);
  }
}
