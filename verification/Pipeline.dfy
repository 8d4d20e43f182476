/**
  The delivery pipeline of the first-party provider as a labelled transition system.

  Any number of goroutines run at once. In async mode thread 0 is the background
  worker and every other thread is a caller of CaptureEvent or Flush; in sync mode
  every thread is a caller. One move is one action the code makes atomic: a
  wait-group update, a channel operation, one section under the mutex, the start
  and the end of a transport call, one report.
 */
module Pipeline {
  import opened Core

  /** A payload that passed preparePayload. Its contents do not matter here. */
  datatype Item = Item(id: nat, kind: EventType)

  datatype RawConfig = RawConfig(async: bool, batchSize: int, queueSize: int)

  /** NewWithConfig raises a batch size below 1 to 1 and replaces a queue size below 1 by 1024. */
  type Config = c: RawConfig | c.batchSize >= 1 && c.queueSize >= 1 witness RawConfig(true, 1, 1024)

  /** Who called flushType: capturePrepared, the ticker, or a Flush that began after `since` accepted events. */
  datatype Origin = Capture | Ticker | Flush(since: nat)

  datatype Pc =
    | Ready
    // enqueue
    | Entering(item: Item)                                       // before pending.Add(1)
    | Selecting(item: Item)                                      // before the select
    | Refused(item: Item)                                        // default branch, before pending.Done()
    | Counting(item: Item)                                       // before dropped.Add(1)
    | Dropping(item: Item)                                       // before the drop report
    // capturePrepared
    | Prepared(item: Item)
    | Finishing                                                  // worker, before pending.Done()
    // Flush
    | Waiting(since: nat)                                        // pending.Wait() has not returned
    | Released(since: nat)                                       // it has, and wait has not noticed yet
    | Returned(since: nat)
    // flushType
    | Locking(kind: EventType, origin: Origin)
    | Holding(kind: EventType, items: seq<Item>, origin: Origin) // taken, not yet given to the transport
    | Calling(kind: EventType, items: seq<Item>, origin: Origin) // inside the transport
    | Answered(kind: EventType, items: seq<Item>, origin: Origin, result: TransportResult)

  datatype State = State(
    threads: seq<Pc>,
    queue: seq<Item>,
    pending: int,
    buffers: map<EventType, seq<Item>>,
    dropped: nat,
    // histories
    order: seq<Item>,             // async: accepted by the queue; sync: appended or sent directly
    taken: seq<Item>,             // removed from a buffer, or taken for a direct send
    captured: multiset<Item>,     // everything that passed preparePayload
    given: multiset<Item>,        // arguments of the transport calls
    sent: seq<Item>,              // the same, in the order of the calls
    acked: multiset<Item>,        // sent with a successful result
    failed: multiset<Item>,       // listed in the FailureInfo of a failed send
    refused: multiset<Item>)      // listed in the FailureInfo of a drop

  datatype Action =
    | CaptureEvent(item: Item)
    | Receive
    | Tick
    | StartFlush
    | Cancel
    | Answer(result: TransportResult)
    | Advance                     // the one thing the thread can do next

  datatype Move = Move(thread: nat, action: Action)

  function Init(threads: nat): State {
    State(seq(threads, _ => Ready), [], 0, map[Error := [], Log := [], Transaction := []],
          0, [], [], multiset{}, multiset{}, [], multiset{}, multiset{}, multiset{})
  }

  function Buf(s: State, k: EventType): seq<Item> {
    if k in s.buffers then s.buffers[k] else []
  }

  /** Events of these types bypass the buffers. */
  predicate Direct(c: Config, k: EventType) {
    c.batchSize <= 1 || k == Transaction
  }

  predicate IsWorker(c: Config, i: nat) {
    c.async && i == 0
  }

  predicate Enabled(c: Config, s: State, m: Move) {
    && m.thread < |s.threads|
    && var pc := s.threads[m.thread];
       match m.action
       case CaptureEvent(_) => pc.Ready? && !IsWorker(c, m.thread)
       case Receive => pc.Ready? && IsWorker(c, m.thread) && s.queue != []
       case Tick => pc.Ready? && IsWorker(c, m.thread)
       case StartFlush => pc.Ready? && !IsWorker(c, m.thread)
       case Cancel => pc.Waiting? || pc.Released?
       case Answer(_) => pc.Calling?
       case Advance => !pc.Ready? && !pc.Calling? && (pc.Waiting? ==> s.pending == 0)
  }

  /** Where a thread goes when flushType, or the direct send of capturePrepared, returns. */
  function Resume(c: Config, k: EventType, origin: Origin): Pc {
    match origin
    case Capture => if c.async then Finishing else Ready
    case Ticker => if k == Error then Locking(Log, Ticker) else Ready
    case Flush(n) => if k == Error then Locking(Log, origin) else Returned(n)
  }

  function After(c: Config, s: State, m: Move): State
    requires Enabled(c, s, m)
  {
    var i := m.thread;
    match m.action
    case CaptureEvent(item) =>
      s.(threads := s.threads[i := if c.async then Entering(item) else Prepared(item)],
         captured := s.captured + multiset{item})
    case Receive => s.(threads := s.threads[i := Prepared(s.queue[0])], queue := s.queue[1..])
    case Tick => s.(threads := s.threads[i := Locking(Error, Ticker)])
    case StartFlush =>
      s.(threads := s.threads[i := if c.async then Waiting(|s.order|) else Locking(Error, Flush(|s.order|))])
    case Cancel => s.(threads := s.threads[i := Ready])
    case Answer(result) =>
      var pc := s.threads[i];
      s.(threads := s.threads[i := Answered(pc.kind, pc.items, pc.origin, result)])
    case Advance => Advanced(c, s, i)
  }

  function Advanced(c: Config, s: State, i: nat): State
    requires Enabled(c, s, Move(i, Advance))
  {
    match s.threads[i]
    case Entering(x) => s.(threads := s.threads[i := Selecting(x)], pending := s.pending + 1)
    case Selecting(x) =>
      if |s.queue| < c.queueSize
      then s.(threads := s.threads[i := Ready], queue := s.queue + [x], order := s.order + [x])
      else s.(threads := s.threads[i := Refused(x)])
    case Refused(x) => s.(threads := s.threads[i := Counting(x)], pending := s.pending - 1)
    case Counting(x) => s.(threads := s.threads[i := Dropping(x)], dropped := s.dropped + 1)
    case Dropping(x) =>
      s.(threads := s.threads[i := Ready], refused := s.refused + multiset{x})
    case Prepared(x) => Dispatched(c, s, i, x)
    case Finishing => s.(threads := s.threads[i := Ready], pending := s.pending - 1)
    case Waiting(n) => s.(threads := s.threads[i := Released(n)])
    case Released(n) => s.(threads := s.threads[i := Locking(Error, Flush(n))])
    case Returned(_) => s.(threads := s.threads[i := Ready])
    case Locking(k, origin) =>
      var items := Buf(s, k);
      var next := if items == [] then Resume(c, k, origin) else Holding(k, items, origin);
      s.(threads := s.threads[i := next], buffers := s.buffers[k := []], taken := s.taken + items)
    case Holding(k, items, origin) =>
      s.(threads := s.threads[i := Calling(k, items, origin)],
         given := s.given + multiset(items), sent := s.sent + items)
    case Answered(k, items, origin, result) =>
      if result.IsSuccess()
      then s.(threads := s.threads[i := Resume(c, k, origin)], acked := s.acked + multiset(items))
      else s.(threads := s.threads[i := Resume(c, k, origin)], failed := s.failed + multiset(items))
  }

  /** capturePrepared: a direct send, or one append under the mutex. */
  function Dispatched(c: Config, s: State, i: nat, x: Item): State
    requires i < |s.threads|
  {
    var order := if c.async then s.order else s.order + [x];
    if Direct(c, x.kind) then
      s.(threads := s.threads[i := Holding(x.kind, [x], Capture)], taken := s.taken + [x], order := order)
    else
      var buffer := Buf(s, x.kind) + [x];
      var next := if |buffer| >= c.batchSize then Locking(x.kind, Capture) else Resume(c, x.kind, Capture);
      s.(threads := s.threads[i := next], buffers := s.buffers[x.kind := buffer], order := order)
  }

  // Runs

  predicate Runs(c: Config, s: State, moves: seq<Move>)
    decreases moves
  {
    moves == [] || (Enabled(c, s, moves[0]) && Runs(c, After(c, s, moves[0]), moves[1..]))
  }

  function Final(c: Config, s: State, moves: seq<Move>): State
    requires Runs(c, s, moves)
    decreases moves
  {
    if moves == [] then s else Final(c, After(c, s, moves[0]), moves[1..])
  }
}
