/** What every history of the whole system satisfies: nothing is stored twice, and nothing acknowledged is lost. */
module DeliveryTheorems {
  import opened Core
  import opened Pipeline
  import opened PipelineInvariants
  import opened PipelineTheorems
  import opened PipelineProperties
  import opened PipelineRuns
  import opened PipelineExactness
  import opened HttpTransport
  import opened Delivery
  import Payload

  /** Some history of the system, with this many goroutines, ends in w. */
  ghost predicate Arises(y: System, threads: nat, w: World) {
    exists steps :: History(y, Start(threads), steps) && Last(y, Start(threads), steps) == w
  }

  lemma {:induction false} ArisesInv(y: System, threads: nat, w: World)
    requires Arises(y, threads, w)
    ensures WorldInv(y, w)
  {
    var steps :| History(y, Start(threads), steps) && Last(y, Start(threads), steps) == w;
    StartInv(y, threads);
    HistoryKept(y, Start(threads), steps);
  }

  /**
    After every history, whatever the payloads carry: what is stored was captured and given to
    the transport, each time at most once for each attempt; an event with an id is stored at
    most once; an acknowledged event is held; an event captured once and dropped is not stored.
   */
  lemma {:induction false} EndToEnd(y: System, threads: nat, w: World, x: Item)
    requires Arises(y, threads, w)
    ensures Stored(w.rows, x) <= (y.maxRetries + 1) * w.pipe.given[x] && w.pipe.given[x] <= w.pipe.captured[x]
    ensures Stored(w.rows, x) > 0 ==> x in w.pipe.given && x in w.pipe.captured
    ensures IdOf(y.load(x)).Some? ==> Stored(w.rows, x) <= 1
    ensures x in w.pipe.acked ==> Held(y.load, w.rows, x) && x in w.pipe.captured
    ensures w.pipe.captured[x] == 1 && x in w.pipe.refused ==> Stored(w.rows, x) == 0
  {
    ArisesInv(y, threads, w);
    WasGiven(y, w, x);
    if IdOf(y.load(x)).Some? {
      StoredOnce(y.load, w.rows, x);
    }
  }

  lemma {:induction false} WasGiven(y: System, w: World, x: Item)
    requires WorldInv(y, w)
    ensures Stored(w.rows, x) <= (y.maxRetries + 1) * w.pipe.given[x]
    ensures Stored(w.rows, x) > 0 ==> x in w.pipe.given
    ensures w.pipe.acked[x] <= w.pipe.given[x] && w.pipe.given[x] + w.pipe.refused[x] <= w.pipe.captured[x]
  {
    assert Budget(y, w, x);
    ConservationFromInv(y.config, w.pipe, x);
    StoredFind(w.rows, x);
  }

  /** The events captured so far have left preparePayload, and no two of them share an id. */
  ghost predicate Identified(load: Load, captured: multiset<Item>) {
    && (forall x :: x in captured ==> Payload.Prepared(load(x)))
    && (forall a, b :: a in captured && b in captured && IdOf(load(a)) == IdOf(load(b)) ==> a == b)
  }

  /** What the provider promises: with its ids, at most once, and exactly once if acknowledged. */
  lemma {:induction false} StoredExactlyOnce(y: System, threads: nat, w: World, x: Item)
    requires Arises(y, threads, w) && Identified(y.load, w.pipe.captured)
    ensures Stored(w.rows, x) <= 1
    ensures x in w.pipe.acked ==> Stored(w.rows, x) == 1
  {
    EndToEnd(y, threads, w, x);
    if x in w.pipe.captured {
      Payload.PreparedHasId(y.load(x));
    }
    if x in w.pipe.acked {
      OwnRow(y, threads, w, x);
    }
  }

  /** The row that answers for an event is its own when ids are not shared. */
  lemma {:induction false} OwnRow(y: System, threads: nat, w: World, x: Item)
    requires Arises(y, threads, w) && Identified(y.load, w.pipe.captured)
    requires x in w.pipe.captured && IdOf(y.load(x)).Some? && Held(y.load, w.rows, x)
    ensures Stored(w.rows, x) > 0
  {
    ArisesInv(y, threads, w);
    var id := IdOf(y.load(x)).value;
    var j :| 0 <= j < |w.rows| && w.rows[j].key == Supplied(id);
    var a := w.rows[j].item;
    assert w.rows[j].key == KeyOf(y.load, a, j) && IdOf(y.load(a)) == Some(id);
    StoredFind(w.rows, a);
    WasGiven(y, w, a);
    assert a == x;
  }

  // Without an id

  /** After every history, x is stored at most as often as it was captured. */
  ghost predicate OncePerCapture(y: System, threads: nat, x: Item) {
    forall w :: Arises(y, threads, w) ==> Stored(w.rows, x) <= w.pipe.captured[x]
  }

  /** The id is needed exactly when there is a caller and the transport really retries. */
  lemma {:induction false} OncePerCaptureExactly(y: System, threads: nat, x: Item)
    ensures OncePerCapture(y, threads, x) <==>
            IdOf(y.load(x)).Some? || y.maxRetries == 0 || y.maxRetries >= MAX_INT64 || !HasCaller(y.config, threads)
  {
    if IdOf(y.load(x)).Some? || y.maxRetries == 0 || y.maxRetries >= MAX_INT64 || !HasCaller(y.config, threads) {
      forall w | Arises(y, threads, w) ensures Stored(w.rows, x) <= w.pipe.captured[x] {
        OncePerCaptureHolds(y, threads, w, x);
      }
    } else {
      var w := StoreTimes(y, threads, 2, x);
    }
  }

  lemma {:induction false} OncePerCaptureHolds(y: System, threads: nat, w: World, x: Item)
    requires IdOf(y.load(x)).Some? || y.maxRetries == 0 || y.maxRetries >= MAX_INT64 || !HasCaller(y.config, threads)
    requires Arises(y, threads, w)
    ensures Stored(w.rows, x) <= w.pipe.captured[x]
  {
    EndToEnd(y, threads, w, x);
    if y.maxRetries >= MAX_INT64 {
      var steps :| History(y, Start(threads), steps) && Last(y, Start(threads), steps) == w;
      NothingStored(y, Start(threads), steps);
    } else if !HasCaller(y.config, threads) {
      ArisesReachable(y, threads, w);
      WorkerAlone(y.config, w.pipe);
    }
  }

  lemma {:induction false} NothingStored(y: System, w: World, steps: seq<Step>)
    requires y.maxRetries >= MAX_INT64 && w.rows == [] && History(y, w, steps)
    ensures Last(y, w, steps).rows == []
    decreases steps
  {
    if steps != [] {
      NothingStored(y, Do(y, w, steps[0]), steps[1..]);
    }
  }

  /** What the whole system does to the pipeline is a run of the pipeline. */
  lemma {:induction false} ArisesReachable(y: System, threads: nat, w: World)
    requires Arises(y, threads, w)
    ensures Reachable(y.config, w.pipe) && |w.pipe.threads| == threads
  {
    var steps :| History(y, Start(threads), steps) && Last(y, Start(threads), steps) == w;
    StartInv(y, threads);
    LeadsSelf(y.config, Init(threads));
    LeadsReaches(y.config, threads, Init(threads));
    StepsReach(y, Start(threads), steps);
  }

  lemma {:induction false} StepsReach(y: System, w: World, steps: seq<Step>)
    requires Reachable(y.config, w.pipe) && WorldInv(y, w) && History(y, w, steps)
    ensures Reachable(y.config, Last(y, w, steps).pipe)
    ensures |Last(y, w, steps).pipe.threads| == |w.pipe.threads|
    decreases steps
  {
    if steps != [] {
      var v := Do(y, w, steps[0]);
      match steps[0] {
        case Local(m) => ReachMore(y.config, w.pipe, m);
        case Try(_, _) =>
        case _ => ReachMore(y.config, w.pipe, Move(steps[0].thread, Answer(Delivery.Returned(w, steps[0]))));
      }
      StepKept(y, w, steps[0]);
      assert |v.runs| == |w.runs|;
      StepsReach(y, v, steps[1..]);
    }
  }

  // A history in which it is stored twice

  lemma {:induction false} HistorySnoc(y: System, w: World, steps: seq<Step>, step: Step)
    requires History(y, w, steps) && Can(y, Last(y, w, steps), step)
    ensures History(y, w, steps + [step]) && Last(y, w, steps + [step]) == Do(y, Last(y, w, steps), step)
    decreases steps
  {
    var more := steps + [step];
    if steps == [] {
      assert more == [step] && more[1..] == [];
      assert History(y, Do(y, w, step), []);
    } else {
      assert more[0] == steps[0] && more[1..] == steps[1..] + [step];
      HistorySnoc(y, Do(y, w, steps[0]), steps[1..], step);
    }
  }

  lemma {:induction false} ArisesNext(y: System, threads: nat, w: World, step: Step)
    requires Arises(y, threads, w) && Can(y, w, step)
    ensures Arises(y, threads, Do(y, w, step))
  {
    var steps :| History(y, Start(threads), steps) && Last(y, Start(threads), steps) == w;
    HistorySnoc(y, Start(threads), steps, step);
  }

  function Locals(moves: seq<Move>): seq<Step> {
    seq(|moves|, k requires 0 <= k < |moves| => Local(moves[k]))
  }

  /** Quiet moves of the pipeline leave network and server alone. */
  lemma {:induction false} QuietHistory(y: System, w: World, moves: seq<Move>)
    requires Inv(y.config, w.pipe) && |w.runs| == |w.pipe.threads| && Quietly(y.config, w.pipe, moves)
    requires forall i :: 0 <= i < |w.runs| ==> w.runs[i] == []
    ensures History(y, w, Locals(moves))
    ensures Last(y, w, Locals(moves)) == w.(pipe := Final(y.config, w.pipe, moves))
    decreases moves
  {
    if moves != [] {
      var m, rest := moves[0], moves[1..];
      assert Locals(moves)[0] == Local(m) && Locals(moves)[1..] == Locals(rest);
      assert IsQuiet(m);
      QuietStep(y, w, m);
      forall j | 0 <= j < |rest| ensures IsQuiet(rest[j]) {
        assert rest[j] == moves[j + 1];
      }
      QuietHistory(y, Do(y, w, Local(m)), rest);
    }
  }

  lemma {:induction false} QuietStep(y: System, w: World, m: Move)
    requires Inv(y.config, w.pipe) && |w.runs| == |w.pipe.threads| && Enabled(y.config, w.pipe, m) && IsQuiet(m)
    requires forall i :: 0 <= i < |w.runs| ==> w.runs[i] == []
    ensures Can(y, w, Local(m)) && Do(y, w, Local(m)) == w.(pipe := After(y.config, w.pipe, m))
    ensures Inv(y.config, After(y.config, w.pipe, m)) && |After(y.config, w.pipe, m).threads| == |w.runs|
  {
    MoveDelta(y.config, w.pipe, m, Item(0, Error));
    InvKept(y.config, w.pipe, m);
    assert w.runs[m.thread := []] == w.runs;
  }

  lemma {:induction false} LeadsArises(y: System, threads: nat, s: State)
    requires Leads(y.config, Init(threads), s)
    ensures Arises(y, threads, Start(threads).(pipe := s))
  {
    var moves :| Quietly(y.config, Init(threads), moves) && Final(y.config, Init(threads), moves) == s;
    InvInit(y.config, threads);
    QuietHistory(y, Start(threads), moves);
  }

  const LOST := Attempt(true, NoResponse("connection reset"))

  /** When every answer is lost, x is stored once for each attempt, up to MaxRetries + 1 times. */
  lemma {:induction false} StoreTimes(y: System, threads: nat, n: nat, x: Item) returns (w: World)
    requires IdOf(y.load(x)).None? && y.maxRetries < MAX_INT64 && HasCaller(y.config, threads) && n <= y.maxRetries + 1
    ensures Arises(y, threads, w)
    ensures w.pipe.captured[x] > 0 && Stored(w.rows, x) == n * w.pipe.captured[x]
    ensures InTransport(w, 0) && w.pipe.captured[x] == Copies(w.pipe.threads[0].items, x)
    ensures |w.runs[0]| == n && forall k :: 0 <= k < n ==> w.runs[0][k] == LOST
  {
    if n == 0 {
      var s := SendCopies(y.config, threads, x);
      LeadsArises(y, threads, s);
      w := Start(threads).(pipe := s);
    } else {
      var r := StoreTimes(y, threads, n - 1, x);
      w := Lose(y, threads, r, LOST, x);
      OneMore(n, r.pipe.captured[x]);
    }
  }

  lemma {:induction false} OneMore(n: nat, copies: nat)
    requires n > 0
    ensures (n - 1) * copies + copies == n * copies
  {
  }

  /** The server handles an attempt of thread 0, and the answer is lost. */
  lemma {:induction false} Lose(y: System, threads: nat, w: World, lost: Attempt, x: Item) returns (v: World)
    requires Arises(y, threads, w) && InTransport(w, 0) && IdOf(y.load(x)).None? && y.maxRetries < MAX_INT64
    requires lost.reached && lost.outcome.NoResponse?
    requires |w.runs[0]| <= y.maxRetries && forall k :: 0 <= k < |w.runs[0]| ==> w.runs[0][k] == lost
    ensures Arises(y, threads, v) && v.pipe == w.pipe && v.runs == w.runs[0 := w.runs[0] + [lost]]
    ensures Stored(v.rows, x) == Stored(w.rows, x) + Copies(w.pipe.threads[0].items, x)
  {
    ArisesNext(y, threads, w, Try(0, lost));
    v := Do(y, w, Try(0, lost));
    assert Keyed(y.load, w.rows) by {
      ArisesInv(y, threads, w);
    }
    StoreAllAdds(y.load, w.rows, w.pipe.threads[0].items, x);
  }
}
