/** Promises the pipeline keeps only under a condition on its configuration, and exactly that condition. */
module PipelineExactness {
  import opened Core
  import opened Sums
  import opened Pipeline
  import opened PipelineInvariants
  import opened PipelineOrder
  import opened PipelineTheorems
  import opened PipelineProperties
  import opened PipelineRuns

  // batchSize

  /** No batch that any of this many threads gives to the transport exceeds batchSize. */
  ghost predicate KeepsBatchSize(c: Config, threads: nat) {
    forall s, i :: Reachable(c, s) && |s.threads| == threads && 0 <= i < threads && s.threads[i].Calling? ==>
      |s.threads[i].items| <= c.batchSize
  }

  lemma {:induction false} BatchSizeExactly(c: Config, threads: nat)
    ensures KeepsBatchSize(c, threads) <==> c.async || c.batchSize <= 1 || threads <= 1
  {
    if c.async || c.batchSize <= 1 || threads <= 1 {
      forall s, i | Reachable(c, s) && |s.threads| == threads && 0 <= i < threads && s.threads[i].Calling?
        ensures |s.threads[i].items| <= c.batchSize
      {
        BatchWithinLimit(c, s, i);
        ReachableInv(c, s);
        assert PlaceFits(c, i, s.threads[i]);
      }
    } else {
      var s := OversizedBatch(c, threads, Log);
      assert s.threads[0].Calling?;
    }
  }

  /** The sync bound is reached by errors and by logs, whenever they are batched, with any number of callers. */
  lemma {:induction false} OversizedBatch(c: Config, threads: nat, k: EventType) returns (s: State)
    requires !c.async && c.batchSize >= 2 && threads >= 1 && k != Transaction
    ensures Reachable(c, s) && |s.threads| == threads
    ensures s.threads[0].Calling? && s.threads[0].kind == k && |s.threads[0].items| == c.batchSize - 1 + threads
  {
    s := Crowd(c, threads, threads, k);
    s := TakeAndCall(c, Init(threads), s, 0, k, Capture);
    LeadsReaches(c, threads, s);
  }

  /** n callers have found the buffer full, and none of them has taken it yet. */
  lemma {:induction false} Crowd(c: Config, threads: nat, n: nat, k: EventType) returns (s: State)
    requires !c.async && c.batchSize >= 2 && n <= threads && threads >= 1 && k != Transaction
    ensures Leads(c, Init(threads), s)
    ensures s.threads == seq(threads, i => if i < n then Locking(k, Capture) else Ready)
    ensures |Buf(s, k)| == c.batchSize - 1 + n
  {
    if n == 0 {
      var items := seq(c.batchSize - 1, i requires 0 <= i => Item(i, k));
      s := FillBuffer(c, threads, k, items);
    } else {
      var r := Crowd(c, threads, n - 1, k);
      s := CaptureInSync(c, Init(threads), r, n - 1, Item(c.batchSize - 1 + n, k));
    }
  }

  // queueSize

  /** No event is dropped as long as at most m were captured. */
  ghost predicate DropsNone(c: Config, threads: nat, m: nat) {
    forall s :: Reachable(c, s) && |s.threads| == threads && |s.captured| <= m ==> s.refused == multiset{}
  }

  lemma {:induction false} DropsExactly(c: Config, threads: nat, m: nat)
    ensures DropsNone(c, threads, m) <==> !c.async || m <= c.queueSize || threads <= 1
  {
    if !c.async || m <= c.queueSize || threads <= 1 {
      forall s | Reachable(c, s) && |s.threads| == threads && |s.captured| <= m ensures s.refused == multiset{} {
        if threads > 1 {
          NoDropWithinCapacity(c, s, 0);
        } else {
          NoDropAlone(c, s);
        }
      }
    } else {
      var s := FirstDrop(c, threads);
      assert Item(c.queueSize, Log) in s.refused;
    }
  }

  lemma {:induction false} NoDropAlone(c: Config, s: State)
    requires Reachable(c, s) && |s.threads| <= 1
    ensures s.refused == multiset{}
  {
    var threads: nat, moves :| Runs(c, Init(threads), moves) && Final(c, Init(threads), moves) == s;
    InvInit(c, threads);
    ThreadsStay(c, Init(threads), moves);
    if c.async {
      WorkerAlone(c, s);
      forall x ensures s.refused[x] == 0 {
        ConservationLaw(c, s, x);
      }
    } else {
      SyncNeverRefuses(c, Init(threads), moves);
    }
  }

  /** Without a caller nothing is ever captured. */
  lemma {:induction false} WorkerAlone(c: Config, s: State)
    requires Reachable(c, s) && !HasCaller(c, |s.threads|)
    ensures s.captured == multiset{}
  {
    var threads: nat, moves :| Runs(c, Init(threads), moves) && Final(c, Init(threads), moves) == s;
    InvInit(c, threads);
    ThreadsStay(c, Init(threads), moves);
    NothingCaptured(c, Init(threads), moves);
  }

  lemma {:induction false} NothingCaptured(c: Config, s: State, moves: seq<Move>)
    requires Inv(c, s) && !HasCaller(c, |s.threads|) && Runs(c, s, moves) && s.captured == multiset{}
    ensures Final(c, s, moves).captured == multiset{}
    decreases moves
  {
    if moves != [] {
      var m := moves[0];
      InvKept(c, s, m);
      MoveDelta(c, s, m, Item(0, Error));
      if m.action.Advance? {
        CaptureElsewhere(c, s, m.thread);
      }
      NothingCaptured(c, After(c, s, m), moves[1..]);
    }
  }

  /** One caller alone fills the queue and has one event too many, while the worker does nothing. */
  lemma {:induction false} FirstDrop(c: Config, threads: nat) returns (s: State)
    requires c.async && threads >= 2
    ensures Reachable(c, s) && |s.threads| == threads && |s.captured| == c.queueSize + 1
    ensures s.refused == multiset{Item(c.queueSize, Log)} && s.dropped == 1
  {
    s := FillQueue(c, threads, c.queueSize);
    s := DropAlone(c, Init(threads), s, 1, Item(c.queueSize, Log));
    LeadsReaches(c, threads, s);
  }

  lemma {:induction false} FillQueue(c: Config, threads: nat, n: nat) returns (s: State)
    requires c.async && threads >= 2 && n <= c.queueSize
    ensures Leads(c, Init(threads), s) && s.threads == Init(threads).threads
    ensures |s.queue| == n && |s.captured| == n && s.refused == multiset{} && s.dropped == 0
  {
    if n == 0 {
      s := Init(threads);
      LeadsSelf(c, s);
    } else {
      var r := FillQueue(c, threads, n - 1);
      s := EnqueueAlone(c, Init(threads), r, 1, Item(n, Log));
    }
  }

  // Flush

  /** Every Flush that returns has settled all copies of every event accepted before it. */
  ghost predicate FlushSettles(c: Config, threads: nat) {
    forall s, t, i, x :: Reachable(c, s) && |s.threads| == threads && Completes(c, s, i, t) ==>
      Copies(s.order, x) <= Settled(t, x)
  }

  lemma {:induction false} FlushSettlesExactly(c: Config, threads: nat)
    ensures FlushSettles(c, threads) <==> threads <= 1 || (c.async && c.batchSize <= 1)
  {
    if threads <= 1 || (c.async && c.batchSize <= 1) {
      forall s, t, i, x | Reachable(c, s) && |s.threads| == threads && Completes(c, s, i, t)
        ensures Copies(s.order, x) <= Settled(t, x)
      {
        FlushCall(c, s, t, i, x);
        if threads <= 1 {
          FlushReturns(c, s, t, i);
          SumZero(InFlightShares(x), t.threads);
        }
      }
    } else {
      var x := Item(0, if c.async then Log else Transaction);
      var s, t := Unsettled(c, threads, x);
      assert Completes(c, s, 1, t) && Copies(s.order, x) == 1;
    }
  }

  /** Otherwise some Flush returns while another thread still holds an event accepted before it. */
  lemma {:induction false} Unsettled(c: Config, threads: nat, x: Item) returns (s: State, t: State)
    requires threads >= 2 && (c.async ==> c.batchSize >= 2) && x.kind == (if c.async then Log else Transaction)
    ensures Reachable(c, s) && |s.threads| == threads && s.order == [x]
    ensures Completes(c, s, 1, t) && Settled(t, x) == 0 && InFlight(x, t.threads[0]) == 1
  {
    if c.async {
      s := TickerHolds(c, threads, x);
    } else {
      s := CallerHolds(c, threads, x);
    }
    LeadsReaches(c, threads, s);
    t := FlushAlone(c, s, x);
  }

  /** The ticker has taken the one event, and not yet given it to the transport. */
  lemma {:induction false} TickerHolds(c: Config, threads: nat, x: Item) returns (s: State)
    requires c.async && threads >= 2 && c.batchSize >= 2 && x.kind == Log
    ensures Leads(c, Init(threads), s) && OneHeld(s, x) && |s.threads| == threads && s.pending == 0
  {
    var o := Init(threads);
    LeadsSelf(c, o);
    s := EnqueueAlone(c, o, o, 1, x);
    s := BufferAlone(c, o, s, x);
    s := TickTakes(c, o, s, x);
  }

  lemma {:induction false} TickTakes(c: Config, o: State, s: State, x: Item) returns (t: State)
    requires Leads(c, o, s) && c.async && s.threads != [] && s.threads[0].Ready?
    requires Buf(s, Error) == [] && Buf(s, Log) == [x]
    ensures Leads(c, o, t) && Buf(t, Error) == [] && Buf(t, Log) == []
    ensures t.threads == s.threads[0 := Holding(Log, [x], Ticker)]
    ensures t.order == s.order && t.acked == s.acked && t.failed == s.failed && t.pending == s.pending
  {
    t := Ticks(c, o, s);
    t := Takes(c, o, t, 0, Error, Ticker);
    t := Takes(c, o, t, 0, Log, Ticker);
  }

  /** A caller is about to send the one event directly. */
  lemma {:induction false} CallerHolds(c: Config, threads: nat, x: Item) returns (s: State)
    requires !c.async && threads >= 2 && x.kind == Transaction
    ensures Leads(c, Init(threads), s) && OneHeld(s, x) && |s.threads| == threads && s.pending == 0
  {
    var o := Init(threads);
    LeadsSelf(c, o);
    s := Captures(c, o, o, 0, x);
    s := Dispatches(c, o, s, 0, x);
  }

  /** x is the one event accepted so far, and thread 0 holds it; thread 1 is idle. */
  predicate OneHeld(s: State, x: Item) {
    && s.order == [x] && s.acked == multiset{} && s.failed == multiset{}
    && |s.threads| >= 2 && s.threads[0].Holding? && s.threads[0].items == [x] && s.threads[1].Ready?
    && Buf(s, Error) == [] && Buf(s, Log) == []
  }

  /** Thread 1 flushes, and nobody else moves. */
  lemma {:induction false} FlushAlone(c: Config, s: State, x: Item) returns (t: State)
    requires OneHeld(s, x) && s.pending == 0
    ensures Completes(c, s, 1, t) && Settled(t, x) == 0 && InFlight(x, t.threads[0]) == 1
  {
    var s1 := After(c, s, Move(1, StartFlush));
    t := FlushLocks(c, s, x);
    t := FindsNothing(c, s1, t, 1, 1);
    LeadsCompletes(c, s, 1, t);
  }

  lemma {:induction false} FlushLocks(c: Config, s: State, x: Item) returns (t: State)
    requires OneHeld(s, x) && s.pending == 0
    ensures Enabled(c, s, Move(1, StartFlush)) && Leads(c, After(c, s, Move(1, StartFlush)), t)
    ensures t == s.(threads := s.threads[1 := Locking(Error, Flush(1))])
  {
    t := After(c, s, Move(1, StartFlush));
    LeadsSelf(c, t);
    if c.async {
      var s1 := t;
      t := Awakes(c, s1, t, 1, 1);
      t := Locks(c, s1, t, 1, 1);
    }
  }

  lemma {:induction false} FindsNothing(c: Config, o: State, s: State, i: nat, n: nat) returns (t: State)
    requires Leads(c, o, s) && i < |s.threads| && s.threads[i] == Locking(Error, Flush(n))
    requires Buf(s, Error) == [] && Buf(s, Log) == []
    ensures Leads(c, o, t)
    ensures t.threads == s.threads[i := Returned(n)] && t.acked == s.acked && t.failed == s.failed
  {
    t := Takes(c, o, s, i, Error, Flush(n));
    t := Takes(c, o, t, i, Log, Flush(n));
  }
}
