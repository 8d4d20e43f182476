/** Sums over the elements of a sequence. */
module Sums {

  function Sum<T>(f: T -> nat, ts: seq<T>): nat {
    if ts == [] then 0 else f(ts[0]) + Sum(f, ts[1..])
  }

  lemma {:induction false} SumUpdate<T>(f: T -> nat, ts: seq<T>, i: nat, t: T)
    requires i < |ts|
    ensures Sum(f, ts[i := t]) + f(ts[i]) == Sum(f, ts) + f(t)
  {
    if i == 0 {
      assert ts[0 := t][1..] == ts[1..];
    } else {
      assert ts[i := t][1..] == ts[1..][i - 1 := t];
      SumUpdate(f, ts[1..], i - 1, t);
    }
  }

  lemma {:induction false} SumZero<T>(f: T -> nat, ts: seq<T>)
    requires forall j :: 0 <= j < |ts| ==> f(ts[j]) == 0
    ensures Sum(f, ts) == 0
  {
    if ts != [] {
      assert forall j :: 0 <= j < |ts| - 1 ==> ts[1..][j] == ts[j + 1];
      SumZero(f, ts[1..]);
    }
  }

  lemma {:induction false} SumAtMost<T>(f: T -> nat, ts: seq<T>)
    requires forall t :: f(t) <= 1
    ensures Sum(f, ts) <= |ts|
  {
    if ts != [] {
      SumAtMost(f, ts[1..]);
    }
  }

  lemma {:induction false} SumMember<T>(f: T -> nat, ts: seq<T>, i: nat)
    requires i < |ts|
    ensures f(ts[i]) <= Sum(f, ts)
  {
    if i > 0 {
      SumMember(f, ts[1..], i - 1);
    }
  }

  lemma {:induction false} SumTwo<T>(f: T -> nat, ts: seq<T>, i: nat, j: nat)
    requires i < j < |ts|
    ensures f(ts[i]) + f(ts[j]) <= Sum(f, ts)
  {
    if i == 0 {
      SumMember(f, ts[1..], j - 1);
    } else {
      SumTwo(f, ts[1..], i - 1, j - 1);
    }
  }

  lemma {:induction false} SumFind<T>(f: T -> nat, ts: seq<T>) returns (i: nat)
    requires Sum(f, ts) > 0
    ensures i < |ts| && f(ts[i]) > 0
  {
    if f(ts[0]) > 0 {
      i := 0;
    } else {
      var j := SumFind(f, ts[1..]);
      i := j + 1;
    }
  }
}
