/** How many events the transport is given at a time, type by type. */
module PipelineBatches {
  import opened Core
  import opened Sums
  import opened Pipeline
  import opened PipelineInvariants
  import opened PipelineOrder
  import opened PipelineTheorems
  import opened PipelineProperties

  /** A capture that found the buffer full: it is still full, or another thread has taken it; what it took was full. */
  predicate FullWhenDue(c: Config, s: State, k: EventType, pc: Pc) {
    match pc
    case Locking(j, Capture) => j == k ==> Buf(s, k) == [] || |Buf(s, k)| == c.batchSize
    case Holding(j, items, Capture) => j == k ==> |items| == c.batchSize
    case Calling(j, items, Capture) => j == k ==> |items| == c.batchSize
    case Answered(j, items, Capture, _) => j == k ==> |items| == c.batchSize
    case _ => true
  }

  predicate AllFull(c: Config, s: State, k: EventType) {
    forall i :: 0 <= i < |s.threads| ==> FullWhenDue(c, s, k, s.threads[i])
  }

  /** Only one thread appends to the buffers: the worker, or the only caller. */
  predicate OneAppender(c: Config, threads: nat) {
    c.async || threads <= 1
  }

  lemma {:induction false} NobodyDue(c: Config, s: State, i: nat, k: EventType)
    requires Shape(c, s) && OneAppender(c, |s.threads|) && i < |s.threads| && s.threads[i].Prepared?
    ensures Sum(DueShares(k), s.threads) == 0
    ensures forall j :: 0 <= j < |s.threads| ==> s.threads[j] != Locking(k, Capture)
  {
    assert PlaceFits(c, i, s.threads[i]);
    forall j | 0 <= j < |s.threads| ensures DueShares(k)(s.threads[j]) == 0 {
      assert PlaceFits(c, j, s.threads[j]);
    }
    SumZero(DueShares(k), s.threads);
  }

  lemma {:induction false} AppendFull(c: Config, s: State, i: nat, k: EventType)
    requires Inv(c, s) && OneAppender(c, |s.threads|) && c.batchSize >= 2 && k != Transaction
    requires Enabled(c, s, Move(i, Advance)) && s.threads[i].Prepared? && AllFull(c, s, k)
    ensures |Advanced(c, s, i).threads| == |s.threads| && AllFull(c, Advanced(c, s, i), k)
  {
    var t, x := Advanced(c, s, i), s.threads[i].item;
    NobodyDue(c, s, i, k);
    assert Bounded(c, s, k);
    forall j | 0 <= j < |s.threads| ensures FullWhenDue(c, t, k, t.threads[j]) {
      assert FullWhenDue(c, s, k, s.threads[j]) && s.threads[j] != Locking(k, Capture);
    }
  }

  lemma {:induction false} TakeFull(c: Config, s: State, i: nat, k: EventType)
    requires Enabled(c, s, Move(i, Advance)) && s.threads[i].Locking? && AllFull(c, s, k)
    ensures |Advanced(c, s, i).threads| == |s.threads| && AllFull(c, Advanced(c, s, i), k)
  {
    var t := Advanced(c, s, i);
    assert FullWhenDue(c, s, k, s.threads[i]);
    forall j | 0 <= j < |s.threads| ensures FullWhenDue(c, t, k, t.threads[j]) {
      assert FullWhenDue(c, s, k, s.threads[j]);
    }
  }

  lemma {:induction false} OtherFull(c: Config, s: State, m: Move, k: EventType)
    requires Enabled(c, s, m) && AllFull(c, s, k)
    requires m.action.Advance? ==> !s.threads[m.thread].Locking? && !s.threads[m.thread].Prepared?
    ensures |After(c, s, m).threads| == |s.threads| && AllFull(c, After(c, s, m), k)
  {
    var t := After(c, s, m);
    if m.action.Advance? {
      SamePlace(c, s, m.thread, k);
    }
    forall j | 0 <= j < |s.threads| ensures FullWhenDue(c, t, k, t.threads[j]) {
      assert FullWhenDue(c, s, k, s.threads[j]);
    }
  }

  lemma {:induction false} SamePlace(c: Config, s: State, i: nat, k: EventType)
    requires Enabled(c, s, Move(i, Advance)) && !s.threads[i].Locking? && !s.threads[i].Prepared?
    requires FullWhenDue(c, s, k, s.threads[i])
    ensures var t := Advanced(c, s, i);
            && |t.threads| == |s.threads| && t.buffers == s.buffers && FullWhenDue(c, t, k, t.threads[i])
            && forall j :: 0 <= j < |s.threads| && j != i ==> t.threads[j] == s.threads[j]
  {
    match s.threads[i]
    case Answered(_, _, _, _) =>
    case _ =>
  }

  lemma {:induction false} AllFullKept(c: Config, s: State, m: Move, k: EventType)
    requires Inv(c, s) && OneAppender(c, |s.threads|) && c.batchSize >= 2 && k != Transaction
    requires Enabled(c, s, m) && AllFull(c, s, k)
    ensures |After(c, s, m).threads| == |s.threads| && AllFull(c, After(c, s, m), k)
  {
    if m.action.Advance? && s.threads[m.thread].Prepared? {
      AppendFull(c, s, m.thread, k);
    } else if m.action.Advance? && s.threads[m.thread].Locking? {
      TakeFull(c, s, m.thread, k);
    } else {
      OtherFull(c, s, m, k);
    }
  }

  lemma {:induction false} AllFullAlways(c: Config, s: State, moves: seq<Move>, k: EventType)
    requires Inv(c, s) && OneAppender(c, |s.threads|) && c.batchSize >= 2 && k != Transaction
    requires Runs(c, s, moves) && AllFull(c, s, k)
    ensures AllFull(c, Final(c, s, moves), k)
    decreases moves
  {
    if moves != [] {
      AllFullKept(c, s, moves[0], k);
      InvKept(c, s, moves[0]);
      AllFullAlways(c, After(c, s, moves[0]), moves[1..], k);
    }
  }

  /** The thread has taken these events and not finished sending them. */
  predicate Carries(pc: Pc, k: EventType, items: seq<Item>, origin: Origin) {
    (pc.Holding? || pc.Calling? || pc.Answered?) && pc.kind == k && pc.items == items && pc.origin == origin
  }

  /**
    What a capture sends. A transaction, and every event when batchSize is 1, is sent alone and
    never enters a buffer. Errors and logs are otherwise sent in batches of exactly batchSize,
    in async mode or with a single caller.
   */
  lemma {:induction false} CaptureSends(c: Config, s: State, i: nat, k: EventType, items: seq<Item>, origin: Origin)
    requires Reachable(c, s) && i < |s.threads| && Carries(s.threads[i], k, items, origin)
    ensures items != [] && forall x :: x in items ==> x.kind == k
    ensures k == Transaction || c.batchSize <= 1 ==> |items| == 1 && origin == Capture && Buf(s, k) == []
    ensures origin == Capture && k != Transaction && c.batchSize >= 2 && (c.async || |s.threads| <= 1) ==>
              |items| == c.batchSize
  {
    ReachableInv(c, s);
    assert PlaceFits(c, i, s.threads[i]) && BufferFits(c, k, Buf(s, k));
    if k != Transaction && c.batchSize >= 2 && (c.async || |s.threads| <= 1) {
      ReachableFull(c, s, k);
      assert FullWhenDue(c, s, k, s.threads[i]);
    }
  }

  lemma {:induction false} ReachableFull(c: Config, s: State, k: EventType)
    requires Reachable(c, s) && OneAppender(c, |s.threads|) && c.batchSize >= 2 && k != Transaction
    ensures AllFull(c, s, k)
  {
    var threads: nat, moves :| Runs(c, Init(threads), moves) && Final(c, Init(threads), moves) == s;
    InvInit(c, threads);
    ThreadsStay(c, Init(threads), moves);
    AllFullAlways(c, Init(threads), moves, k);
  }

  /** No transaction is ever buffered, nor anything when batchSize is 1; every buffer holds one type. */
  lemma {:induction false} Unbuffered(c: Config, s: State, k: EventType)
    requires Reachable(c, s)
    ensures k == Transaction || c.batchSize <= 1 ==> Buf(s, k) == []
    ensures forall x :: x in Buf(s, k) ==> x.kind == k
  {
    ReachableInv(c, s);
    assert BufferFits(c, k, Buf(s, k));
  }

  /** A Flush takes the logs only after all errors accepted before it. */
  lemma {:induction false} ErrorsFirst(c: Config, s: State, i: nat, items: seq<Item>, n: nat)
    requires Reachable(c, s) && i < |s.threads| && Carries(s.threads[i], Log, items, Flush(n))
    ensures n <= |s.order| && |Filter(s.order[..n], Error)| <= |Filter(s.taken, Error)|
  {
    ReachableInv(c, s);
    assert PerThread(c, s, s.threads[i]);
  }
}
