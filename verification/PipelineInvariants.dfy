/** Inductive invariants of the delivery pipeline: what every move of every thread keeps. */
module PipelineInvariants {
  import opened Core
  import opened Sums
  import opened Pipeline

  // Which thread can be where

  predicate ItemsOf(k: EventType, items: seq<Item>) {
    items != [] && forall x :: x in items ==> x.kind == k
  }

  predicate OriginFits(c: Config, i: nat, origin: Origin) {
    match origin
    case Capture => c.async ==> i == 0
    case Ticker => IsWorker(c, i)
    case Flush(_) => !IsWorker(c, i)
  }

  /** Only the worker captures in async mode, only callers enqueue and wait, and a flush never carries a direct type. */
  predicate PlaceFits(c: Config, i: nat, pc: Pc) {
    match pc
    case Ready => true
    case Prepared(_) => c.async ==> i == 0
    case Finishing => IsWorker(c, i)
    case Locking(k, origin) => k != Transaction && (origin.Capture? ==> !Direct(c, k)) && OriginFits(c, i, origin)
    case Holding(k, items, origin) => FlightFits(c, i, k, items, origin)
    case Calling(k, items, origin) => FlightFits(c, i, k, items, origin)
    case Answered(k, items, origin, _) => FlightFits(c, i, k, items, origin)
    case Returned(_) => !IsWorker(c, i)
    case _ => c.async && i != 0
  }

  predicate FlightFits(c: Config, i: nat, k: EventType, items: seq<Item>, origin: Origin) {
    && ItemsOf(k, items)
    && OriginFits(c, i, origin)
    && (!origin.Capture? ==> !Direct(c, k))
    && (Direct(c, k) ==> |items| == 1)
  }

  predicate BufferFits(c: Config, k: EventType, buffer: seq<Item>) {
    && (forall x :: x in buffer ==> x.kind == k)
    && (Direct(c, k) ==> buffer == [])
  }

  predicate Shape(c: Config, s: State) {
    && (forall i :: 0 <= i < |s.threads| ==> PlaceFits(c, i, s.threads[i]))
    && (forall k :: BufferFits(c, k, Buf(s, k)))
    && (!c.async ==> s.queue == [])
  }

  // What a thread contributes to each count

  /** The thread is between receiving an item and pending.Done(). */
  predicate Working(pc: Pc) {
    match pc
    case Prepared(_) => true
    case Finishing => true
    case Locking(_, origin) => origin.Capture?
    case Holding(_, _, origin) => origin.Capture?
    case Calling(_, _, origin) => origin.Capture?
    case Answered(_, _, origin, _) => origin.Capture?
    case _ => false
  }

  function PendingShare(async: bool, pc: Pc): nat {
    if pc.Selecting? || pc.Refused? || (async && Working(pc)) then 1 else 0
  }

  function DropShare(pc: Pc): nat {
    if pc.Dropping? then 1 else 0
  }

  /** The thread found the buffer full and has not taken it yet. */
  function DueShare(k: EventType, pc: Pc): nat {
    if pc == Locking(k, Capture) then 1 else 0
  }

  function Copies(items: seq<Item>, x: Item): nat {
    multiset(items)[x]
  }

  /** Copies of x a thread holds that have not reached the queue, a buffer or a direct send. */
  function Incoming(x: Item, pc: Pc): nat {
    match pc
    case Entering(y) => if x == y then 1 else 0
    case Selecting(y) => if x == y then 1 else 0
    case Refused(y) => if x == y then 1 else 0
    case Counting(y) => if x == y then 1 else 0
    case Dropping(y) => if x == y then 1 else 0
    case Prepared(y) => if x == y then 1 else 0
    case _ => 0
  }

  /** Copies of x a thread took for sending and has not settled. */
  function InFlight(x: Item, pc: Pc): nat {
    match pc
    case Holding(_, items, _) => Copies(items, x)
    case Calling(_, items, _) => Copies(items, x)
    case Answered(_, items, _, _) => Copies(items, x)
    case _ => 0
  }

  /** Those of them the transport has not been given. */
  function Unsent(x: Item, pc: Pc): nat {
    match pc
    case Holding(_, items, _) => Copies(items, x)
    case _ => 0
  }

  // The same shares as functions of the thread, for summing over all threads

  function PendingShares(async: bool): Pc -> nat {
    pc => PendingShare(async, pc)
  }

  function DropShares(): Pc -> nat {
    pc => DropShare(pc)
  }

  function DueShares(k: EventType): Pc -> nat {
    pc => DueShare(k, pc)
  }

  function IncomingShares(x: Item): Pc -> nat {
    pc => Incoming(x, pc)
  }

  function InFlightShares(x: Item): Pc -> nat {
    pc => InFlight(x, pc)
  }

  function UnsentShares(x: Item): Pc -> nat {
    pc => Unsent(x, pc)
  }

  // One move changes every count by exactly what it changes in the moving thread

  predicate ThreadDelta(c: Config, s: State, t: State, i: nat, q: Pc) {
    i < |s.threads| && t.threads == s.threads[i := q] && PlaceFits(c, i, q)
  }

  predicate CounterDelta(c: Config, s: State, t: State, p: Pc, q: Pc) {
    && t.pending - |t.queue| - PendingShare(c.async, q) == s.pending - |s.queue| - PendingShare(c.async, p)
    && t.dropped - |t.refused| - DropShare(q) == s.dropped - |s.refused| - DropShare(p)
    && (|t.queue| <= |s.queue| || |t.queue| <= c.queueSize)
  }

  /** Copies of x accounted for before they are taken for a send, less those captured. */
  function Upstream(s: State, x: Item): int {
    Copies(s.taken, x) + Copies(Buf(s, x.kind), x) + Copies(s.queue, x) + s.refused[x] - s.captured[x]
  }

  predicate ItemDelta(s: State, t: State, p: Pc, q: Pc, x: Item) {
    && Upstream(t, x) + Incoming(x, q) == Upstream(s, x) + Incoming(x, p)
    && t.acked[x] + t.failed[x] + InFlight(x, q) - Copies(t.taken, x) ==
       s.acked[x] + s.failed[x] + InFlight(x, p) - Copies(s.taken, x)
    && t.given[x] + Unsent(x, q) - Copies(t.taken, x) == s.given[x] + Unsent(x, p) - Copies(s.taken, x)
  }

  predicate Delta(c: Config, s: State, t: State, i: nat, x: Item)
    requires i < |s.threads| && i < |t.threads|
  {
    var p, q := s.threads[i], t.threads[i];
    ThreadDelta(c, s, t, i, q) && CounterDelta(c, s, t, p, q) && ItemDelta(s, t, p, q, x)
  }

  lemma ReceiveDelta(c: Config, s: State, m: Move, x: Item)
    requires Enabled(c, s, m) && m.action.Receive?
    ensures Delta(c, s, After(c, s, m), m.thread, x)
  {
    assert s.queue == [s.queue[0]] + s.queue[1..];
  }

  lemma ActionDelta(c: Config, s: State, m: Move, x: Item)
    requires Enabled(c, s, m) && !m.action.Advance? && !m.action.Receive?
    requires PlaceFits(c, m.thread, s.threads[m.thread])
    ensures Delta(c, s, After(c, s, m), m.thread, x)
  {
    match m.action
    case CaptureEvent(_) =>
    case Tick =>
    case StartFlush =>
    case Cancel =>
    case Answer(_) =>
  }

  lemma EnqueueDelta(c: Config, s: State, i: nat, x: Item)
    requires Enabled(c, s, Move(i, Advance)) && PlaceFits(c, i, s.threads[i])
    requires var p := s.threads[i]; p.Entering? || p.Selecting? || p.Refused? || p.Counting? || p.Dropping?
    ensures Delta(c, s, Advanced(c, s, i), i, x)
  {
  }

  lemma DirectDelta(c: Config, s: State, i: nat, x: Item)
    requires Enabled(c, s, Move(i, Advance)) && PlaceFits(c, i, s.threads[i])
    requires s.threads[i].Prepared? && Direct(c, s.threads[i].item.kind)
    ensures Delta(c, s, Advanced(c, s, i), i, x)
  {
  }

  lemma AppendDelta(c: Config, s: State, i: nat, x: Item)
    requires Enabled(c, s, Move(i, Advance)) && PlaceFits(c, i, s.threads[i])
    requires s.threads[i].Prepared? && !Direct(c, s.threads[i].item.kind)
    ensures Delta(c, s, Advanced(c, s, i), i, x)
  {
    var item, t := s.threads[i].item, Advanced(c, s, i);
    AppendShares(c, s, i, item, x);
    assert t.threads == s.threads[i := t.threads[i]];
    assert Copies(Buf(t, x.kind), x) == Copies(Buf(s, x.kind), x) + if x == item then 1 else 0;
  }

  lemma {:induction false} AppendShares(c: Config, s: State, i: nat, item: Item, x: Item)
    requires i < |s.threads| && (c.async ==> i == 0) && !Direct(c, item.kind)
    ensures var q := Dispatched(c, s, i, item).threads[i];
            && PlaceFits(c, i, q) && PendingShare(c.async, q) == (if c.async then 1 else 0)
            && DropShare(q) == Incoming(x, q) == InFlight(x, q) == Unsent(x, q) == 0
  {
    ResumeShares(c, i, item.kind, Capture, x);
  }

  /** A thread that resumes holds nothing, and the worker still owes its pending.Done() after a capture. */
  lemma {:induction false} ResumeShares(c: Config, i: nat, k: EventType, origin: Origin, x: Item)
    requires OriginFits(c, i, origin) && (!origin.Capture? ==> !Direct(c, k))
    ensures var q := Resume(c, k, origin);
            && PlaceFits(c, i, q) && PendingShare(c.async, q) == (if c.async && origin.Capture? then 1 else 0)
            && DropShare(q) == Incoming(x, q) == InFlight(x, q) == Unsent(x, q) == 0
  {
  }

  lemma TakeDelta(c: Config, s: State, i: nat, x: Item)
    requires Enabled(c, s, Move(i, Advance)) && PlaceFits(c, i, s.threads[i])
    requires s.threads[i].Locking? && BufferFits(c, s.threads[i].kind, Buf(s, s.threads[i].kind))
    ensures Delta(c, s, Advanced(c, s, i), i, x)
  {
  }

  lemma CallDelta(c: Config, s: State, i: nat, x: Item)
    requires Enabled(c, s, Move(i, Advance)) && PlaceFits(c, i, s.threads[i])
    requires s.threads[i].Holding?
    ensures Delta(c, s, Advanced(c, s, i), i, x)
  {
  }

  lemma HandleDelta(c: Config, s: State, i: nat, x: Item)
    requires Enabled(c, s, Move(i, Advance)) && PlaceFits(c, i, s.threads[i])
    requires s.threads[i].Answered?
    ensures Delta(c, s, Advanced(c, s, i), i, x)
  {
    var pc, t := s.threads[i], Advanced(c, s, i);
    ResumeShares(c, i, pc.kind, pc.origin, x);
    assert t.threads == s.threads[i := Resume(c, pc.kind, pc.origin)];
    assert t.acked[x] + t.failed[x] == s.acked[x] + s.failed[x] + Copies(pc.items, x);
  }

  lemma IdleDelta(c: Config, s: State, i: nat, x: Item)
    requires Enabled(c, s, Move(i, Advance)) && PlaceFits(c, i, s.threads[i])
    requires var p := s.threads[i]; p.Finishing? || p.Waiting? || p.Released? || p.Returned?
    ensures Delta(c, s, Advanced(c, s, i), i, x)
  {
  }

  lemma {:induction false} MoveDelta(c: Config, s: State, m: Move, x: Item)
    requires Shape(c, s) && Enabled(c, s, m)
    ensures |After(c, s, m).threads| == |s.threads|
    ensures Delta(c, s, After(c, s, m), m.thread, x)
  {
    var i := m.thread;
    var p := s.threads[i];
    assert PlaceFits(c, i, p);
    if m.action.Receive? {
      ReceiveDelta(c, s, m, x);
    } else if !m.action.Advance? {
      ActionDelta(c, s, m, x);
    } else if p.Prepared? {
      if Direct(c, p.item.kind) {
        DirectDelta(c, s, i, x);
      } else {
        AppendDelta(c, s, i, x);
      }
    } else if p.Locking? {
      assert BufferFits(c, p.kind, Buf(s, p.kind));
      TakeDelta(c, s, i, x);
    } else if p.Holding? {
      CallDelta(c, s, i, x);
    } else if p.Answered? {
      HandleDelta(c, s, i, x);
    } else if p.Finishing? || p.Waiting? || p.Released? || p.Returned? {
      IdleDelta(c, s, i, x);
    } else {
      EnqueueDelta(c, s, i, x);
    }
  }

  // The wait group and the drop counter

  predicate Counters(c: Config, s: State) {
    && s.pending == |s.queue| + Sum(PendingShares(c.async), s.threads)
    && s.dropped == |s.refused| + Sum(DropShares(), s.threads)
    && |s.queue| <= c.queueSize
  }

  lemma CountersKept(c: Config, s: State, t: State, i: nat, q: Pc)
    requires i < |s.threads| && t.threads == s.threads[i := q]
    requires Counters(c, s) && CounterDelta(c, s, t, s.threads[i], q)
    ensures Counters(c, t)
  {
    SumUpdate(PendingShares(c.async), s.threads, i, q);
    SumUpdate(DropShares(), s.threads, i, q);
  }

  // Conservation

  predicate Conserved(s: State, x: Item) {
    && Upstream(s, x) + Sum(IncomingShares(x), s.threads) == 0
    && Copies(s.taken, x) == Sum(InFlightShares(x), s.threads) + s.acked[x] + s.failed[x]
    && Copies(s.taken, x) == Sum(UnsentShares(x), s.threads) + s.given[x]
  }

  lemma ConservedKept(s: State, t: State, i: nat, q: Pc, x: Item)
    requires i < |s.threads| && t.threads == s.threads[i := q]
    requires Conserved(s, x) && ItemDelta(s, t, s.threads[i], q, x)
    ensures Conserved(t, x)
  {
    SumUpdate(IncomingShares(x), s.threads, i, q);
    SumUpdate(InFlightShares(x), s.threads, i, q);
    SumUpdate(UnsentShares(x), s.threads, i, q);
  }
}
