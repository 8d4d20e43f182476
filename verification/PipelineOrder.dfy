/** Order invariants of the delivery pipeline: per-type FIFO, the batch bound and the flush barrier. */
module PipelineOrder {
  import opened Core
  import opened Sums
  import opened Pipeline
  import opened PipelineInvariants

  function Filter(items: seq<Item>, k: EventType): seq<Item> {
    if items == [] then []
    else (if items[0].kind == k then [items[0]] else []) + Filter(items[1..], k)
  }

  lemma {:induction false} FilterConcat(a: seq<Item>, b: seq<Item>, k: EventType)
    ensures Filter(a + b, k) == Filter(a, k) + Filter(b, k)
  {
    if a == [] {
      assert a + b == b;
    } else {
      var first := if a[0].kind == k then [a[0]] else [];
      calc {
        Filter(a + b, k);
        { assert (a + b)[1..] == a[1..] + b && (a + b)[0] == a[0]; }
        first + Filter(a[1..] + b, k);
        { FilterConcat(a[1..], b, k); }
        first + (Filter(a[1..], k) + Filter(b, k));
        (first + Filter(a[1..], k)) + Filter(b, k);
        Filter(a, k) + Filter(b, k);
      }
    }
  }

  lemma {:induction false} FilterOne(x: Item, k: EventType)
    ensures Filter([x], k) == if x.kind == k then [x] else []
  {
    assert [x][1..] == [];
  }

  lemma {:induction false} FilterSame(items: seq<Item>, j: EventType, k: EventType)
    requires forall x :: x in items ==> x.kind == j
    ensures Filter(items, k) == if j == k then items else []
  {
    if items != [] {
      FilterSame(items[1..], j, k);
      assert items == [items[0]] + items[1..];
    }
  }

  lemma {:induction false} FilterCopies(items: seq<Item>, x: Item)
    ensures Copies(Filter(items, x.kind), x) == Copies(items, x)
  {
    if items != [] {
      FilterCopies(items[1..], x);
      assert items == [items[0]] + items[1..];
    }
  }

  // Per-type FIFO

  function Hand(c: Config, s: State): seq<Item> {
    if c.async && s.threads != [] && s.threads[0].Prepared? then [s.threads[0].item] else []
  }

  /** The accepted events of one type, in the order of acceptance, are spread over these places in this order. */
  predicate Fifo(c: Config, s: State, k: EventType) {
    Filter(s.order, k) == Filter(s.taken, k) + Buf(s, k) + Filter(Hand(c, s), k) + Filter(s.queue, k)
  }

  /** One move either leaves the places alone or passes items from one to the next. */
  datatype Passing =
    | Nothing
    | Accept(x: Item)
    | Fetch(x: Item)
    | SendNow(x: Item)
    | Append(x: Item)
    | Take(k: EventType)

  function PassingOf(c: Config, s: State, m: Move): Passing
    requires Enabled(c, s, m)
  {
    var pc := s.threads[m.thread];
    if m.action.Receive? then Fetch(s.queue[0])
    else if !m.action.Advance? then Nothing
    else match pc
      case Selecting(x) => if |s.queue| < c.queueSize then Accept(x) else Nothing
      case Prepared(x) => if Direct(c, x.kind) then SendNow(x) else Append(x)
      case Locking(k, _) => Take(k)
      case _ => Nothing
  }

  predicate Passed(c: Config, s: State, t: State, p: Passing) {
    match p
    case Nothing =>
      && t.order == s.order && t.taken == s.taken && t.buffers == s.buffers
      && Hand(c, t) == Hand(c, s) && t.queue == s.queue
    case Accept(x) =>
      && t.order == s.order + [x] && t.taken == s.taken && t.buffers == s.buffers
      && Hand(c, t) == Hand(c, s) && t.queue == s.queue + [x]
    case Fetch(x) =>
      && t.order == s.order && t.taken == s.taken && t.buffers == s.buffers
      && Hand(c, s) == [] && Hand(c, t) == [x] && s.queue == [x] + t.queue
    case SendNow(x) =>
      && Direct(c, x.kind) && t.taken == s.taken + [x] && t.buffers == s.buffers && t.queue == s.queue
      && Handed(c, s, t, x)
    case Append(x) =>
      && !Direct(c, x.kind) && t.taken == s.taken && t.queue == s.queue
      && t.buffers == s.buffers[x.kind := Buf(s, x.kind) + [x]]
      && Handed(c, s, t, x)
    case Take(k) =>
      && t.order == s.order && t.taken == s.taken + Buf(s, k) && t.buffers == s.buffers[k := []]
      && Hand(c, t) == Hand(c, s) && t.queue == s.queue
  }

  predicate Handed(c: Config, s: State, t: State, x: Item) {
    if c.async then t.order == s.order && Hand(c, s) == [x] && Hand(c, t) == []
    else t.order == s.order + [x] && Hand(c, s) == [] && Hand(c, t) == [] && s.queue == []
  }

  lemma PassedAction(c: Config, s: State, m: Move)
    requires Shape(c, s) && Enabled(c, s, m) && !m.action.Advance?
    ensures Passed(c, s, After(c, s, m), PassingOf(c, s, m))
  {
    assert PlaceFits(c, m.thread, s.threads[m.thread]);
  }

  lemma PassedAdvance(c: Config, s: State, m: Move)
    requires Shape(c, s) && Enabled(c, s, m) && m.action.Advance?
    ensures Passed(c, s, After(c, s, m), PassingOf(c, s, m))
  {
    var pc := s.threads[m.thread];
    assert PlaceFits(c, m.thread, pc);
    match pc
    case Prepared(_) => PassedDispatch(c, s, m.thread);
    case Locking(_, _) => PassedTake(c, s, m.thread);
    case _ =>
  }

  lemma PassedTake(c: Config, s: State, i: nat)
    requires Enabled(c, s, Move(i, Advance)) && s.threads[i].Locking?
    ensures Passed(c, s, Advanced(c, s, i), PassingOf(c, s, Move(i, Advance)))
  {
  }

  lemma PassedDispatch(c: Config, s: State, i: nat)
    requires Shape(c, s) && Enabled(c, s, Move(i, Advance)) && s.threads[i].Prepared?
    ensures Passed(c, s, Advanced(c, s, i), PassingOf(c, s, Move(i, Advance)))
  {
    assert PlaceFits(c, i, s.threads[i]);
  }

  lemma FifoKept(c: Config, s: State, t: State, p: Passing, k: EventType)
    requires Shape(c, s) && Fifo(c, s, k) && Passed(c, s, t, p)
    ensures Fifo(c, t, k)
  {
    assert BufferFits(c, k, Buf(s, k));
    match p
    case Nothing =>
    case Accept(x) => FifoAccept(c, s, t, x, k);
    case Fetch(x) => FifoFetch(c, s, t, x, k);
    case SendNow(x) => FifoSendNow(c, s, t, x, k);
    case Append(x) => FifoAppend(c, s, t, x, k);
    case Take(j) => FifoTake(c, s, t, j, k);
  }

  lemma FifoAccept(c: Config, s: State, t: State, x: Item, k: EventType)
    requires Fifo(c, s, k) && Passed(c, s, t, Accept(x))
    ensures Fifo(c, t, k)
  {
    FilterConcat(s.order, [x], k);
    FilterConcat(s.queue, [x], k);
    var line := Filter(s.taken, k) + Buf(s, k) + Filter(Hand(c, s), k);
    assert (line + Filter(s.queue, k)) + Filter([x], k) == line + (Filter(s.queue, k) + Filter([x], k));
  }

  lemma FifoFetch(c: Config, s: State, t: State, x: Item, k: EventType)
    requires Fifo(c, s, k) && Passed(c, s, t, Fetch(x))
    ensures Fifo(c, t, k)
  {
    FilterConcat([x], t.queue, k);
    Reassociate(Filter(s.taken, k) + Buf(s, k), Filter([x], k), Filter(t.queue, k));
  }

  lemma Reassociate(a: seq<Item>, b: seq<Item>, c: seq<Item>)
    ensures a + [] + (b + c) == a + b + c
  {
  }

  lemma {:induction false} FifoSendNow(c: Config, s: State, t: State, x: Item, k: EventType)
    requires Fifo(c, s, k) && Passed(c, s, t, SendNow(x)) && BufferFits(c, k, Buf(s, k))
    ensures Fifo(c, t, k)
  {
    FilterConcat(s.order, [x], k);
    FilterConcat(s.taken, [x], k);
    FilterOne(x, k);
    assert x.kind == k ==> Buf(s, k) == [];
    if c.async {
      Handover(Filter(s.taken, k), Buf(s, k), Filter([x], k), Filter(s.queue, k), x.kind == k);
    } else {
      Arrival(Filter(s.taken, k), Buf(s, k), Filter([x], k), x.kind == k);
    }
  }

  lemma {:induction false} FifoAppend(c: Config, s: State, t: State, x: Item, k: EventType)
    requires Fifo(c, s, k) && Passed(c, s, t, Append(x))
    ensures Fifo(c, t, k)
  {
    FilterConcat(s.order, [x], k);
    FilterOne(x, k);
    assert Buf(t, k) == Buf(s, k) + Filter([x], k);
    var taken, buffer, hand, queue := Filter(s.taken, k), Buf(s, k), Filter([x], k), Filter(s.queue, k);
    assert taken + (buffer + hand) + [] + queue == taken + buffer + hand + queue;
    assert !c.async ==> taken + buffer + [] + [] + hand == taken + (buffer + hand) + [] + [];
  }

  /** An item leaves the hand for the taken ones, past a buffer that is empty if it matters. */
  lemma Handover(taken: seq<Item>, buffer: seq<Item>, hand: seq<Item>, queue: seq<Item>, matters: bool)
    requires if matters then buffer == [] else hand == []
    ensures (taken + hand) + buffer + [] + queue == taken + buffer + hand + queue
  {
  }

  lemma Arrival(taken: seq<Item>, buffer: seq<Item>, item: seq<Item>, matters: bool)
    requires if matters then buffer == [] else item == []
    ensures (taken + item) + buffer + [] + [] == taken + buffer + [] + [] + item
  {
  }

  lemma {:induction false} FifoTake(c: Config, s: State, t: State, j: EventType, k: EventType)
    requires Fifo(c, s, k) && Passed(c, s, t, Take(j)) && BufferFits(c, j, Buf(s, j))
    ensures Fifo(c, t, k)
  {
    FilterConcat(s.taken, Buf(s, j), k);
    FilterSame(Buf(s, j), j, k);
    var taken, buffer := Filter(s.taken, k), Buf(s, k);
    if j == k {
      calc {
        Filter(t.taken, k) + Buf(t, k);
        (taken + buffer) + [];
        taken + buffer;
      }
    } else {
      calc {
        Filter(t.taken, k) + Buf(t, k);
        (taken + []) + buffer;
        taken + buffer;
      }
    }
  }

  lemma BufferKept(c: Config, s: State, t: State, p: Passing, k: EventType)
    requires Passed(c, s, t, p) && BufferFits(c, k, Buf(s, k))
    ensures BufferFits(c, k, Buf(t, k))
  {
  }

  // The batch bound

  /** Only threads that found the buffer full and have not taken it push it past batchSize - 1. */
  predicate Bounded(c: Config, s: State, k: EventType) {
    |Buf(s, k)| <= c.batchSize - 1 + Sum(DueShares(k), s.threads)
  }

  lemma BoundDelta(c: Config, s: State, m: Move, k: EventType)
    requires Enabled(c, s, m) && Passed(c, s, After(c, s, m), PassingOf(c, s, m))
    ensures var t := After(c, s, m);
            || |Buf(t, k)| <= c.batchSize - 1
            || |Buf(t, k)| - DueShare(k, t.threads[m.thread]) <= |Buf(s, k)| - DueShare(k, s.threads[m.thread])
  {
    var pc := s.threads[m.thread];
    match PassingOf(c, s, m)
    case Append(x) =>
    case Take(_) =>
    case _ => assert pc.Locking? ==> m.action.Advance?;
  }

  lemma BoundedKept(c: Config, s: State, m: Move, k: EventType)
    requires Enabled(c, s, m) && Passed(c, s, After(c, s, m), PassingOf(c, s, m))
    requires After(c, s, m).threads == s.threads[m.thread := After(c, s, m).threads[m.thread]]
    requires Bounded(c, s, k)
    ensures Bounded(c, After(c, s, m), k)
  {
    BoundDelta(c, s, m, k);
    SumUpdate(DueShares(k), s.threads, m.thread, After(c, s, m).threads[m.thread]);
  }

  /** The longest batch the transport can be given. */
  function BatchLimit(c: Config, threads: nat): int {
    c.batchSize - 1 + if c.async then 1 else threads
  }

  predicate FlightBounded(c: Config, threads: nat, pc: Pc) {
    (pc.Holding? || pc.Calling? || pc.Answered?) ==> |pc.items| <= BatchLimit(c, threads)
  }

  lemma {:induction false} DueAtMost(c: Config, s: State, k: EventType)
    requires Shape(c, s)
    ensures Sum(DueShares(k), s.threads) <= if c.async then 1 else |s.threads|
  {
    if c.async && s.threads != [] {
      var rest := s.threads[1..];
      forall j | 0 <= j < |rest| ensures DueShares(k)(rest[j]) == 0 {
        assert PlaceFits(c, j + 1, s.threads[j + 1]);
      }
      SumZero(DueShares(k), rest);
    } else {
      SumAtMost(DueShares(k), s.threads);
    }
  }

  lemma FlightBoundedKept(c: Config, s: State, m: Move)
    requires Shape(c, s) && Enabled(c, s, m)
    requires FlightBounded(c, |s.threads|, s.threads[m.thread])
    requires forall k :: Bounded(c, s, k)
    ensures FlightBounded(c, |s.threads|, After(c, s, m).threads[m.thread])
  {
    var pc := s.threads[m.thread];
    if m.action.Advance? && pc.Locking? {
      DueAtMost(c, s, pc.kind);
      assert Bounded(c, s, pc.kind);
      assert |Buf(s, pc.kind)| <= BatchLimit(c, |s.threads|);
      TakenBounded(c, s, m.thread);
    } else {
      FlightMoves(c, s, m);
    }
  }

  lemma TakenBounded(c: Config, s: State, i: nat)
    requires Enabled(c, s, Move(i, Advance)) && s.threads[i].Locking?
    requires |Buf(s, s.threads[i].kind)| <= BatchLimit(c, |s.threads|)
    ensures FlightBounded(c, |s.threads|, Advanced(c, s, i).threads[i])
  {
  }

  lemma {:induction false} FlightMoves(c: Config, s: State, m: Move)
    requires Enabled(c, s, m) && !(m.action.Advance? && s.threads[m.thread].Locking?)
    requires FlightBounded(c, |s.threads|, s.threads[m.thread])
    ensures FlightBounded(c, |s.threads|, After(c, s, m).threads[m.thread])
  {
    var pc := s.threads[m.thread];
    if m.action.Advance? && pc.Prepared? {
      FlightDispatched(c, s, m.thread);
    } else if m.action.Advance? && pc.Answered? {
      assert After(c, s, m).threads[m.thread] == Resume(c, pc.kind, pc.origin);
    }
  }

  lemma FlightDispatched(c: Config, s: State, i: nat)
    requires Enabled(c, s, Move(i, Advance)) && s.threads[i].Prepared?
    ensures FlightBounded(c, |s.threads|, Advanced(c, s, i).threads[i])
  {
  }

  // The flush barrier

  /** All of the first n accepted events of type k have been taken for sending. */
  predicate Reached(s: State, k: EventType, n: nat) {
    n <= |s.order| && |Filter(s.order[..n], k)| <= |Filter(s.taken, k)|
  }

  /** They have been taken, or wait in the buffer. */
  predicate Drained(s: State, k: EventType, n: nat) {
    n <= |s.order| && |Filter(s.order[..n], k)| <= |Filter(s.taken, k)| + |Buf(s, k)|
  }

  /** Copies of x that are acknowledged or reported as failed. */
  function Settled(s: State, x: Item): nat {
    s.acked[x] + s.failed[x]
  }

  /** Those of the first n accepted events that are sent without batching are acknowledged or reported. */
  ghost predicate DirectSettled(c: Config, s: State, n: nat) {
    && n <= |s.order|
    && (c.async ==> forall x: Item :: Direct(c, x.kind) ==> Copies(s.order[..n], x) <= Settled(s, x))
  }

  ghost predicate Barrier(c: Config, s: State, n: nat) {
    DirectSettled(c, s, n) && forall k :: Drained(s, k, n)
  }

  ghost predicate BarrierFits(c: Config, s: State, pc: Pc) {
    match pc
    case Waiting(n) => n <= |s.order|
    case Released(n) => Barrier(c, s, n)
    case Locking(k, Flush(n)) => Barrier(c, s, n) && (k == Log ==> Reached(s, Error, n))
    case Holding(k, _, Flush(n)) => Swept(c, s, k, n)
    case Calling(k, _, Flush(n)) => Swept(c, s, k, n)
    case Answered(k, _, Flush(n), _) => Swept(c, s, k, n)
    case Returned(n) => Swept(c, s, Log, n)
    case _ => true
  }

  /** The flush has taken the error buffer and, when k is Log, the log buffer too. */
  ghost predicate Swept(c: Config, s: State, k: EventType, n: nat) {
    Barrier(c, s, n) && Reached(s, Error, n) && (k == Log ==> Reached(s, Log, n))
  }

  /** What no move undoes. */
  ghost predicate Grown(s: State, t: State) {
    && s.order <= t.order
    && (forall k :: |Filter(s.taken, k)| <= |Filter(t.taken, k)|)
    && (forall k :: |Filter(s.taken, k)| + |Buf(s, k)| <= |Filter(t.taken, k)| + |Buf(t, k)|)
    && (forall x :: Settled(s, x) <= Settled(t, x))
  }

  lemma GrownByMove(c: Config, s: State, m: Move)
    requires Enabled(c, s, m) && Shape(c, s) && Passed(c, s, After(c, s, m), PassingOf(c, s, m))
    ensures Grown(s, After(c, s, m))
  {
    var t := After(c, s, m);
    assert forall x :: s.acked[x] <= t.acked[x] && s.failed[x] <= t.failed[x];
    forall k
      ensures |Filter(s.taken, k)| <= |Filter(t.taken, k)|
      ensures |Filter(s.taken, k)| + |Buf(s, k)| <= |Filter(t.taken, k)| + |Buf(t, k)|
    {
      GrownByPassing(c, s, t, PassingOf(c, s, m), k);
    }
  }

  lemma GrownByPassing(c: Config, s: State, t: State, p: Passing, k: EventType)
    requires Shape(c, s) && Passed(c, s, t, p)
    ensures |Filter(s.taken, k)| <= |Filter(t.taken, k)|
    ensures |Filter(s.taken, k)| + |Buf(s, k)| <= |Filter(t.taken, k)| + |Buf(t, k)|
    ensures p == Take(k) ==> |Filter(t.taken, k)| == |Filter(s.taken, k)| + |Buf(s, k)|
  {
    match p
    case SendNow(x) => FilterConcat(s.taken, [x], k);
    case Take(j) =>
      assert BufferFits(c, j, Buf(s, j));
      FilterConcat(s.taken, Buf(s, j), k);
      FilterSame(Buf(s, j), j, k);
    case _ =>
  }

  lemma BarrierStable(c: Config, s: State, t: State, pc: Pc)
    requires BarrierFits(c, s, pc) && Grown(s, t)
    ensures BarrierFits(c, t, pc)
  {
    forall n: nat | n <= |s.order| ensures s.order[..n] == t.order[..n] {
    }
    forall n: nat, k | Drained(s, k, n) ensures Drained(t, k, n) {
    }
    forall n: nat | DirectSettled(c, s, n) ensures DirectSettled(c, t, n) {
      assert s.order[..n] == t.order[..n];
    }
  }
}
