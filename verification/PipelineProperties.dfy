/** What holds in every state that any interleaving of any number of threads can reach. */
module PipelineProperties {
  import opened Core
  import opened Sums
  import opened Pipeline
  import opened PipelineInvariants
  import opened PipelineOrder
  import opened PipelineTheorems

  ghost predicate Reachable(c: Config, s: State) {
    exists threads: nat, moves :: Runs(c, Init(threads), moves) && Final(c, Init(threads), moves) == s
  }

  lemma ReachableInv(c: Config, s: State)
    requires Reachable(c, s)
    ensures Inv(c, s)
  {
    var threads: nat, moves :| Runs(c, Init(threads), moves) && Final(c, Init(threads), moves) == s;
    InvInit(c, threads);
    InvAlways(c, Init(threads), moves);
  }

  // Wait group

  function EnqueueShares(): Pc -> nat {
    (pc: Pc) => if pc.Selecting? || pc.Refused? then 1 else 0
  }

  lemma {:induction false} SplitPending(c: Config, ts: seq<Pc>)
    requires forall j :: 0 <= j < |ts| ==> !(c.async && Working(ts[j]))
    ensures Sum(PendingShares(c.async), ts) == Sum(EnqueueShares(), ts)
  {
    if ts != [] {
      assert forall j :: 0 <= j < |ts| - 1 ==> ts[1..][j] == ts[j + 1];
      SplitPending(c, ts[1..]);
    }
  }

  /** pending counts the queue, the worker's item, and the enqueuers between Add and their outcome; nothing else. */
  lemma WaitGroupExact(c: Config, s: State)
    requires Reachable(c, s) && s.threads != []
    ensures s.pending ==
            |s.queue| + (if c.async && Working(s.threads[0]) then 1 else 0) + Sum(EnqueueShares(), s.threads)
    ensures s.pending >= 0 && |s.queue| <= c.queueSize
    ensures s.dropped == |s.refused| + Sum(DropShares(), s.threads)
  {
    ReachableInv(c, s);
    var rest := s.threads[1..];
    forall j | 0 <= j < |rest| ensures !(c.async && Working(rest[j])) {
      assert PlaceFits(c, j + 1, s.threads[j + 1]);
    }
    SplitPending(c, rest);
    assert PlaceFits(c, 0, s.threads[0]);
  }

  /** Moves left until enqueue returns. */
  function EnqueueRank(pc: Pc): nat {
    match pc
    case Entering(_) => 5
    case Selecting(_) => 4
    case Refused(_) => 3
    case Counting(_) => 2
    case Dropping(_) => 1
    case _ => 0
  }

  function MovesOf(i: nat, moves: seq<Move>): nat {
    if moves == [] then 0 else (if moves[0].thread == i then 1 else 0) + MovesOf(i, moves[1..])
  }

  lemma EnqueueMoves(c: Config, s: State, i: nat)
    requires i < |s.threads| && EnqueueRank(s.threads[i]) > 0
    ensures Enabled(c, s, Move(i, Advance))
    ensures forall m :: Enabled(c, s, m) && m.thread == i ==> m.action == Advance
    ensures |Advanced(c, s, i).threads| == |s.threads|
    ensures var q := Advanced(c, s, i).threads[i];
            EnqueueRank(q) < EnqueueRank(s.threads[i]) && (q.Ready? || EnqueueRank(q) > 0)
  {
  }

  lemma {:induction false} OthersStay(c: Config, s: State, m: Move, i: nat)
    requires Enabled(c, s, m) && m.thread != i && i < |s.threads|
    ensures |After(c, s, m).threads| == |s.threads| && After(c, s, m).threads[i] == s.threads[i]
  {
    if m.action.Advance? {
      OthersStayPut(c, s, m.thread, i);
    }
  }

  lemma {:induction false} OthersStayPut(c: Config, s: State, j: nat, i: nat)
    requires Enabled(c, s, Move(j, Advance)) && j != i && i < |s.threads|
    ensures |Advanced(c, s, j).threads| == |s.threads| && Advanced(c, s, j).threads[i] == s.threads[i]
  {
  }

  /** enqueue never blocks: it is over after at most five moves of its own, whatever the other threads do in between. */
  lemma {:induction false} EnqueueFinishes(c: Config, s: State, moves: seq<Move>, i: nat)
    requires Runs(c, s, moves) && i < |s.threads| && EnqueueRank(s.threads[i]) > 0
    requires MovesOf(i, moves) >= EnqueueRank(s.threads[i])
    ensures exists j :: 0 < j <= |moves| && ReadyAfter(c, s, moves, j, i)
    decreases moves
  {
    var m, rest := moves[0], moves[1..];
    var t := After(c, s, m);
    if m.thread == i {
      EnqueueMoves(c, s, i);
    } else {
      OthersStay(c, s, m, i);
    }
    if t.threads[i].Ready? {
      assert moves[..1] == [m];
      assert Runs(c, t, []) && Final(c, s, [m]) == t;
      assert ReadyAfter(c, s, moves, 1, i);
    } else {
      EnqueueFinishes(c, t, rest, i);
      var j :| 0 < j <= |rest| && ReadyAfter(c, t, rest, j, i);
      assert moves[..j + 1][1..] == rest[..j];
      assert ReadyAfter(c, s, moves, j + 1, i);
    }
  }

  predicate ReadyAfter(c: Config, s: State, moves: seq<Move>, j: nat, i: nat) {
    && j <= |moves| && Runs(c, s, moves[..j])
    && var t := Final(c, s, moves[..j]);
       i < |t.threads| && t.threads[i].Ready?
  }

  // Conservation

  datatype Place =
    | Queued
    | Buffered
    | Arriving(thread: nat)
    | Flying(thread: nat)
    | Acknowledged
    | FailureReport
    | DropReport

  function CopiesAt(s: State, p: Place, x: Item): nat {
    match p
    case Queued => Copies(s.queue, x)
    case Buffered => Copies(Buf(s, x.kind), x)
    case Arriving(i) => if i < |s.threads| then Incoming(x, s.threads[i]) else 0
    case Flying(i) => if i < |s.threads| then InFlight(x, s.threads[i]) else 0
    case Acknowledged => s.acked[x]
    case FailureReport => s.failed[x]
    case DropReport => s.refused[x]
  }

  lemma ConservationLaw(c: Config, s: State, x: Item)
    requires Reachable(c, s)
    ensures s.captured[x] ==
            Copies(s.queue, x) + Copies(Buf(s, x.kind), x) + Sum(IncomingShares(x), s.threads)
            + Sum(InFlightShares(x), s.threads) + s.acked[x] + s.failed[x] + s.refused[x]
    ensures s.acked[x] + s.failed[x] <= s.given[x]
    ensures s.given[x] + s.refused[x] <= s.captured[x]
  {
    ReachableInv(c, s);
    ConservationFromInv(c, s, x);
  }

  lemma ConservationFromInv(c: Config, s: State, x: Item)
    requires Inv(c, s)
    ensures s.captured[x] ==
            Copies(s.queue, x) + Copies(Buf(s, x.kind), x) + Sum(IncomingShares(x), s.threads)
            + Sum(InFlightShares(x), s.threads) + s.acked[x] + s.failed[x] + s.refused[x]
    ensures s.acked[x] + s.failed[x] <= s.given[x]
    ensures s.given[x] + s.refused[x] <= s.captured[x]
  {
    assert Conserved(s, x);
    UnsentInFlight(s.threads, x);
  }

  lemma {:induction false} UnsentInFlight(ts: seq<Pc>, x: Item)
    ensures Sum(UnsentShares(x), ts) <= Sum(InFlightShares(x), ts)
  {
    if ts != [] {
      UnsentInFlight(ts[1..], x);
    }
  }

  /** An event captured once is at exactly one place, once: none is lost, none is duplicated. */
  lemma ExactlyOnePlace(c: Config, s: State, x: Item) returns (p: Place)
    requires Reachable(c, s) && s.captured[x] == 1
    ensures CopiesAt(s, p, x) == 1
    ensures forall q :: q != p ==> CopiesAt(s, q, x) == 0
  {
    ConservationLaw(c, s, x);
    p := SomePlace(s, x);
    forall q | q != p ensures CopiesAt(s, q, x) == 0 {
      OtherPlaceEmpty(s, p, q, x);
    }
  }

  /** The seven kinds of place hold x once between them. */
  predicate OnceInAll(s: State, x: Item) {
    1 == Copies(s.queue, x) + Copies(Buf(s, x.kind), x) + Sum(IncomingShares(x), s.threads)
         + Sum(InFlightShares(x), s.threads) + s.acked[x] + s.failed[x] + s.refused[x]
  }

  lemma SomePlace(s: State, x: Item) returns (p: Place)
    requires OnceInAll(s, x)
    ensures CopiesAt(s, p, x) == 1
  {
    if Sum(IncomingShares(x), s.threads) > 0 {
      var i := SumFind(IncomingShares(x), s.threads);
      p := Arriving(i);
      SumMember(IncomingShares(x), s.threads, i);
    } else if Sum(InFlightShares(x), s.threads) > 0 {
      var i := SumFind(InFlightShares(x), s.threads);
      p := Flying(i);
      SumMember(InFlightShares(x), s.threads, i);
    } else {
      p := if x in s.queue then Queued
           else if x in Buf(s, x.kind) then Buffered
           else if x in s.acked then Acknowledged
           else if x in s.failed then FailureReport
           else DropReport;
    }
  }

  lemma OtherPlaceEmpty(s: State, p: Place, q: Place, x: Item)
    requires OnceInAll(s, x)
    requires CopiesAt(s, p, x) > 0 && q != p
    ensures CopiesAt(s, q, x) == 0
  {
    forall i | 0 <= i < |s.threads|
      ensures Incoming(x, s.threads[i]) <= Sum(IncomingShares(x), s.threads)
      ensures InFlight(x, s.threads[i]) <= Sum(InFlightShares(x), s.threads)
    {
      SumMember(IncomingShares(x), s.threads, i);
      SumMember(InFlightShares(x), s.threads, i);
    }
    forall i, j | 0 <= i < j < |s.threads|
      ensures Incoming(x, s.threads[i]) + Incoming(x, s.threads[j]) <= Sum(IncomingShares(x), s.threads)
      ensures InFlight(x, s.threads[i]) + InFlight(x, s.threads[j]) <= Sum(InFlightShares(x), s.threads)
    {
      SumTwo(IncomingShares(x), s.threads, i, j);
      SumTwo(InFlightShares(x), s.threads, i, j);
    }
  }

  /** When nobody is at work, every event is acknowledged, reported, or still in a buffer. */
  lemma QuiescentOutcome(c: Config, s: State, x: Item)
    requires Reachable(c, s) && s.queue == [] && (forall i :: 0 <= i < |s.threads| ==> s.threads[i].Ready?)
    ensures s.captured[x] == s.acked[x] + s.failed[x] + s.refused[x] + Copies(Buf(s, x.kind), x)
    ensures s.given[x] == s.acked[x] + s.failed[x] && s.pending == 0
  {
    ConservationLaw(c, s, x);
    ReachableInv(c, s);
    assert Conserved(s, x);
    SumZero(IncomingShares(x), s.threads);
    SumZero(InFlightShares(x), s.threads);
    SumZero(UnsentShares(x), s.threads);
    SumZero(PendingShares(c.async), s.threads);
  }

  // Drops

  /** The thread is in enqueue, and its event has not been accepted or reported as dropped. */
  function ArrivalShare(pc: Pc): nat {
    if EnqueueRank(pc) > 0 then 1 else 0
  }

  function ArrivalShares(): Pc -> nat {
    pc => ArrivalShare(pc)
  }

  predicate TurnedAway(pc: Pc) {
    pc.Refused? || pc.Counting? || pc.Dropping?
  }

  predicate Crowded(c: Config, s: State) {
    && |s.captured| >= |s.order| + Sum(ArrivalShares(), s.threads)
    && |s.order| >= |s.queue|
    && (AnyTurnedAway(s) ==> |s.captured| > c.queueSize)
  }

  predicate AnyTurnedAway(s: State) {
    s.refused != multiset{} || exists i :: 0 <= i < |s.threads| && TurnedAway(s.threads[i])
  }

  predicate Arrives(s: State, t: State, i: nat)
    requires i < |s.threads| && i < |t.threads|
  {
    && |t.captured| - |t.order| - ArrivalShare(t.threads[i]) >= |s.captured| - |s.order| - ArrivalShare(s.threads[i])
    && |t.order| - |t.queue| >= |s.order| - |s.queue|
    && |t.captured| >= |s.captured|
  }

  lemma {:induction false} ArrivalDelta(c: Config, s: State, m: Move)
    requires c.async && Enabled(c, s, m) && PlaceFits(c, m.thread, s.threads[m.thread])
    ensures |After(c, s, m).threads| == |s.threads| && Arrives(s, After(c, s, m), m.thread)
  {
    if m.action.Advance? {
      if EnqueueRank(s.threads[m.thread]) > 0 {
        ArrivalInEnqueue(c, s, m.thread);
      } else {
        ArrivalElsewhere(c, s, m.thread);
      }
    }
  }

  lemma {:induction false} ArrivalInEnqueue(c: Config, s: State, i: nat)
    requires Enabled(c, s, Move(i, Advance)) && EnqueueRank(s.threads[i]) > 0
    ensures |Advanced(c, s, i).threads| == |s.threads| && Arrives(s, Advanced(c, s, i), i)
  {
  }

  lemma {:induction false} ArrivalElsewhere(c: Config, s: State, i: nat)
    requires c.async && Enabled(c, s, Move(i, Advance)) && EnqueueRank(s.threads[i]) == 0
    ensures |Advanced(c, s, i).threads| == |s.threads| && Arrives(s, Advanced(c, s, i), i)
  {
    match s.threads[i]
    case Prepared(_) =>
    case Locking(_, _) =>
    case Answered(_, _, _, _) =>
    case _ =>
  }

  /** A thread comes to be turned away exactly by meeting a full queue. */
  lemma {:induction false} TurnedAwayMove(c: Config, s: State, m: Move)
    requires Enabled(c, s, m)
    ensures var t := After(c, s, m);
            TurnedAway(t.threads[m.thread]) && !TurnedAway(s.threads[m.thread]) <==>
              m.action.Advance? && s.threads[m.thread].Selecting? && |s.queue| >= c.queueSize
    ensures m.action.Advance? ==> After(c, s, m).captured == s.captured
  {
    if m.action.Advance? {
      if EnqueueRank(s.threads[m.thread]) == 0 {
        NotTurnedAway(c, s, m.thread);
      }
      CaptureElsewhere(c, s, m.thread);
    }
  }

  lemma {:induction false} NotTurnedAway(c: Config, s: State, i: nat)
    requires Enabled(c, s, Move(i, Advance)) && EnqueueRank(s.threads[i]) == 0
    ensures !TurnedAway(Advanced(c, s, i).threads[i])
  {
    match s.threads[i]
    case Locking(_, _) =>
    case Prepared(_) =>
    case Answered(_, _, _, _) =>
    case _ =>
  }

  lemma {:induction false} CaptureElsewhere(c: Config, s: State, i: nat)
    requires Enabled(c, s, Move(i, Advance))
    ensures Advanced(c, s, i).captured == s.captured
  {
  }

  lemma RefusedMove(c: Config, s: State, m: Move)
    requires Enabled(c, s, m)
    ensures After(c, s, m).refused != s.refused ==> TurnedAway(s.threads[m.thread])
  {
  }

  lemma {:induction false} CrowdedKept(c: Config, s: State, m: Move)
    requires c.async && Shape(c, s) && Crowded(c, s) && Enabled(c, s, m)
    ensures Crowded(c, After(c, s, m))
  {
    var t := After(c, s, m);
    var i := m.thread;
    assert PlaceFits(c, i, s.threads[i]);
    ArrivalDelta(c, s, m);
    TurnedAwayMove(c, s, m);
    RefusedMove(c, s, m);
    assert t.threads == s.threads[i := t.threads[i]] by {
      MoveDelta(c, s, m, Item(0, Error));
    }
    SumUpdate(ArrivalShares(), s.threads, i, t.threads[i]);
    SumMember(ArrivalShares(), s.threads, i);
  }

  lemma {:induction false} CrowdedAlways(c: Config, s: State, moves: seq<Move>)
    requires c.async && Inv(c, s) && Crowded(c, s) && Runs(c, s, moves)
    ensures Crowded(c, Final(c, s, moves))
    decreases moves
  {
    if moves != [] {
      InvKept(c, s, moves[0]);
      CrowdedKept(c, s, moves[0]);
      CrowdedAlways(c, After(c, s, moves[0]), moves[1..]);
    }
  }

  /** No event is dropped, or about to be, unless more than queueSize were captured; sync mode drops none. */
  lemma NoDropWithinCapacity(c: Config, s: State, i: nat)
    requires Reachable(c, s) && i < |s.threads|
    requires c.async ==> |s.captured| <= c.queueSize
    ensures s.refused == multiset{} && s.dropped == 0 && !TurnedAway(s.threads[i])
  {
    var threads: nat, moves :| Runs(c, Init(threads), moves) && Final(c, Init(threads), moves) == s;
    ReachableInv(c, s);
    if c.async {
      InvInit(c, threads);
      SumZero(ArrivalShares(), Init(threads).threads);
      CrowdedAlways(c, Init(threads), moves);
    } else {
      SyncNeverRefuses(c, Init(threads), moves) by {
        InvInit(c, threads);
      }
    }
    forall j | 0 <= j < |s.threads| ensures DropShare(s.threads[j]) == 0 {
      assert PlaceFits(c, j, s.threads[j]);
    }
    SumZero(DropShares(), s.threads);
    assert PlaceFits(c, i, s.threads[i]);
  }

  lemma {:induction false} SyncNeverRefuses(c: Config, s: State, moves: seq<Move>)
    requires !c.async && Inv(c, s) && Runs(c, s, moves) && s.refused == multiset{}
    ensures Final(c, s, moves).refused == multiset{}
    decreases moves
  {
    if moves != [] {
      InvKept(c, s, moves[0]);
      RefusedMove(c, s, moves[0]);
      assert PlaceFits(c, moves[0].thread, s.threads[moves[0].thread]);
      SyncNeverRefuses(c, After(c, s, moves[0]), moves[1..]);
    }
  }

  // Order

  /** Events of one type are taken for sending in the order they were accepted. */
  lemma PerTypeFifo(c: Config, s: State, k: EventType)
    requires Reachable(c, s)
    ensures Filter(s.order, k) == Filter(s.taken, k) + Buf(s, k) + Filter(Hand(c, s), k) + Filter(s.queue, k)
    ensures k == Transaction || c.batchSize <= 1 ==> Buf(s, k) == []
  {
    ReachableInv(c, s);
    assert BufferFits(c, k, Buf(s, k)) && Fifo(c, s, k);
  }

  // Batches

  /** A batch never exceeds batchSize in async mode, nor batchSize - 1 plus the number of threads in sync mode. */
  lemma BatchWithinLimit(c: Config, s: State, i: nat)
    requires Reachable(c, s) && i < |s.threads|
    ensures s.threads[i].Calling? ==>
              var items := s.threads[i].items;
              && 1 <= |items| <= (if c.async then c.batchSize else c.batchSize - 1 + |s.threads|)
              && forall x :: x in items ==> x.kind == s.threads[i].kind
    ensures forall k :: |Buf(s, k)| <= c.batchSize - 1 + Sum(DueShares(k), s.threads)
  {
    ReachableInv(c, s);
    assert PerThread(c, s, s.threads[i]) && PlaceFits(c, i, s.threads[i]);
    forall k ensures |Buf(s, k)| <= c.batchSize - 1 + Sum(DueShares(k), s.threads) {
      assert Bounded(c, s, k);
    }
  }

  // Flush

  function SinceOf(pc: Pc): Option<nat> {
    match pc
    case Waiting(n) => Some(n)
    case Released(n) => Some(n)
    case Returned(n) => Some(n)
    case Locking(_, Flush(n)) => Some(n)
    case Holding(_, _, Flush(n)) => Some(n)
    case Calling(_, _, Flush(n)) => Some(n)
    case Answered(_, _, Flush(n), _) => Some(n)
    case _ => None
  }

  lemma SinceMove(c: Config, s: State, m: Move)
    requires Enabled(c, s, m) && m.action != StartFlush
    ensures var q := After(c, s, m).threads[m.thread];
            SinceOf(q) == SinceOf(s.threads[m.thread]) || SinceOf(q) == None
  {
    if m.action.Advance? {
      var p := s.threads[m.thread];
      if p.Prepared? || p.Finishing? || EnqueueRank(p) > 0 {
        CaptureHasNoSince(c, s, m.thread);
      } else {
        SinceAdvance(c, s, m.thread);
      }
    }
  }

  lemma CaptureHasNoSince(c: Config, s: State, i: nat)
    requires Enabled(c, s, Move(i, Advance))
    requires var p := s.threads[i]; p.Prepared? || p.Finishing? || EnqueueRank(p) > 0
    ensures SinceOf(Advanced(c, s, i).threads[i]) == None
  {
  }

  lemma SinceAdvance(c: Config, s: State, i: nat)
    requires Enabled(c, s, Move(i, Advance))
    requires var p := s.threads[i]; !p.Prepared? && !p.Finishing? && EnqueueRank(p) == 0
    ensures var q := Advanced(c, s, i).threads[i]; SinceOf(q) == SinceOf(s.threads[i]) || SinceOf(q) == None
  {
    match s.threads[i]
    case Locking(_, _) =>
    case Answered(_, _, _, _) =>
    case _ =>
  }

  /** The number a flushing thread carries is the number of events accepted when its Flush began. */
  lemma {:induction false} SinceKept(c: Config, s: State, moves: seq<Move>, i: nat, n: nat)
    requires Runs(c, s, moves) && i < |s.threads|
    requires forall j :: 0 <= j < |moves| ==> moves[j] != Move(i, StartFlush)
    requires SinceOf(s.threads[i]) == Some(n) || SinceOf(s.threads[i]) == None
    ensures var t := Final(c, s, moves);
            i < |t.threads| && (SinceOf(t.threads[i]) == Some(n) || SinceOf(t.threads[i]) == None)
    decreases moves
  {
    if moves != [] {
      var m := moves[0];
      if m.thread == i {
        assert moves[0] != Move(i, StartFlush);
        SinceMove(c, s, m);
      } else {
        OthersStay(c, s, m, i);
      }
      SinceKept(c, After(c, s, m), moves[1..], i, n);
    }
  }

  /** What the first n accepted events have reached when a Flush carrying n returns. */
  lemma {:induction false} FlushBarrier(c: Config, s: State, i: nat, n: nat, x: Item)
    requires Inv(c, s) && i < |s.threads| && s.threads[i] == Returned(n)
    ensures n <= |s.order|
    ensures Copies(s.order[..n], x) <= Settled(s, x) + Sum(InFlightShares(x), s.threads)
    ensures c.async && Direct(c, x.kind) ==> Copies(s.order[..n], x) <= Settled(s, x)
    ensures s.captured[x] == 1 && x in s.order[..n] ==> x !in s.queue && x !in Buf(s, x.kind)
  {
    assert PerThread(c, s, s.threads[i]);
    assert Swept(c, s, Log, n);
    assert Conserved(s, x);
    PrefixTaken(c, s, n, x);
    ConservationFromInv(c, s, x);
  }

  lemma PrefixTaken(c: Config, s: State, n: nat, x: Item)
    requires Inv(c, s) && Swept(c, s, Log, n)
    ensures Copies(s.order[..n], x) <= Copies(s.taken, x)
  {
    var k := x.kind;
    assert Fifo(c, s, k) && Drained(s, k, n) && BufferFits(c, k, Buf(s, k));
    var prefix, taken := Filter(s.order[..n], k), Filter(s.taken, k);
    assert |prefix| <= |taken|;
    assert s.order == s.order[..n] + s.order[n..];
    FilterConcat(s.order[..n], s.order[n..], k);
    assert prefix == Filter(s.order, k)[..|prefix|] == taken[..|prefix|];
    assert taken == prefix + taken[|prefix|..];
    FilterCopies(s.order[..n], x);
    FilterCopies(s.taken, x);
  }

  lemma {:induction false} OrderGrows(c: Config, s: State, moves: seq<Move>)
    requires Inv(c, s) && Runs(c, s, moves)
    ensures s.order <= Final(c, s, moves).order
    decreases moves
  {
    if moves != [] {
      var m := moves[0];
      if m.action.Advance? {
        PassedAdvance(c, s, m);
      } else {
        PassedAction(c, s, m);
      }
      GrownByMove(c, s, m);
      InvKept(c, s, m);
      OrderGrows(c, After(c, s, m), moves[1..]);
    }
  }

  /** Thread i calls Flush in s and, whatever happens in between, that call returns in t without being cancelled. */
  ghost predicate Completes(c: Config, s: State, i: nat, t: State) {
    && Enabled(c, s, Move(i, StartFlush))
    && i < |t.threads| && t.threads[i].Returned?
    && exists moves ::
         && RunOfCall(c, After(c, s, Move(i, StartFlush)), moves, i)
         && Final(c, After(c, s, Move(i, StartFlush)), moves) == t
  }

  predicate RunOfCall(c: Config, s: State, moves: seq<Move>, i: nat) {
    Runs(c, s, moves) && forall j :: 0 <= j < |moves| ==> moves[j] != Move(i, StartFlush)
  }

  /**
    The flush barrier. When the call returns, all copies of every event accepted before it are
    acknowledged, reported, or in flight in another thread; in async mode the types that
    bypass the buffers are acknowledged or reported without that exception; an event captured
    once is neither queued nor buffered.
   */
  lemma {:induction false} FlushCall(c: Config, s: State, t: State, i: nat, x: Item)
    requires Reachable(c, s) && Completes(c, s, i, t)
    ensures Copies(s.order, x) <= Settled(t, x) + Sum(InFlightShares(x), t.threads)
    ensures InFlight(x, t.threads[i]) == 0
    ensures x in s.order && Settled(t, x) == 0 ==>
              exists j :: 0 <= j < |t.threads| && j != i && InFlight(x, t.threads[j]) > 0
    ensures c.async && (x.kind == Transaction || c.batchSize <= 1) ==> Copies(s.order, x) <= Settled(t, x)
    ensures x in s.order && t.captured[x] == 1 ==> x !in t.queue && x !in Buf(t, x.kind)
  {
    FlushReturns(c, s, t, i);
    FlushBarrier(c, t, i, |s.order|, x);
    if x in s.order && Settled(t, x) == 0 {
      var j := SumFind(InFlightShares(x), t.threads);
      assert j != i;
    }
  }

  /** The mark of the call is still there at its return, and so are the events accepted before it. */
  lemma {:induction false} FlushReturns(c: Config, s: State, t: State, i: nat)
    requires Reachable(c, s) && Completes(c, s, i, t)
    ensures Inv(c, t) && t.threads[i] == Returned(|s.order|)
    ensures s.order <= t.order && t.order[..|s.order|] == s.order
    ensures |t.threads| == |s.threads|
  {
    var s1 := After(c, s, Move(i, StartFlush));
    var moves :| RunOfCall(c, s1, moves, i) && Final(c, s1, moves) == t;
    StartCarries(c, s, i);
    assert Inv(c, s1) by {
      ReachableInv(c, s);
      InvKept(c, s, Move(i, StartFlush));
    }
    CallKeeps(c, s1, moves, i, |s.order|);
  }

  lemma {:induction false} CallKeeps(c: Config, s: State, moves: seq<Move>, i: nat, n: nat)
    requires Inv(c, s) && RunOfCall(c, s, moves, i) && i < |s.threads| && SinceOf(s.threads[i]) == Some(n)
    ensures var t := Final(c, s, moves);
            && Inv(c, t) && s.order <= t.order && |t.threads| == |s.threads|
            && (t.threads[i].Returned? ==> t.threads[i] == Returned(n))
  {
    SinceKept(c, s, moves, i, n);
    OrderGrows(c, s, moves);
    InvAlways(c, s, moves);
    ThreadsStay(c, s, moves);
  }

  lemma {:induction false} ThreadsStay(c: Config, s: State, moves: seq<Move>)
    requires Inv(c, s) && Runs(c, s, moves)
    ensures |Final(c, s, moves).threads| == |s.threads|
    decreases moves
  {
    if moves != [] {
      MoveDelta(c, s, moves[0], Item(0, Error));
      InvKept(c, s, moves[0]);
      ThreadsStay(c, After(c, s, moves[0]), moves[1..]);
    }
  }

  lemma StartCarries(c: Config, s: State, i: nat)
    requires Enabled(c, s, Move(i, StartFlush))
    ensures var s1 := After(c, s, Move(i, StartFlush));
            s1.order == s.order && |s1.threads| == |s.threads| && SinceOf(s1.threads[i]) == Some(|s.order|)
  {
  }

  // The ticker

  /** What one round of the ticker has taken so far, when it found `errors` and `logs` events taken or buffered. */
  predicate TickReached(s: State, errors: nat, logs: nat)
    requires s.threads != []
  {
    var hasErrors, hasLogs := |Filter(s.taken, Error)| >= errors, |Filter(s.taken, Log)| >= logs;
    match s.threads[0]
    case Locking(k, Ticker) => k == Log ==> hasErrors
    case Holding(k, _, Ticker) => hasErrors && (k == Log ==> hasLogs)
    case Calling(k, _, Ticker) => hasErrors && (k == Log ==> hasLogs)
    case Answered(k, _, Ticker, _) => hasErrors && (k == Log ==> hasLogs)
    case _ => hasErrors && hasLogs
  }

  function Arrived(s: State, k: EventType): nat {
    |Filter(s.taken, k)| + |Buf(s, k)|
  }

  /** The worker neither receives nor takes another tick. */
  predicate OneRound(moves: seq<Move>) {
    forall j :: 0 <= j < |moves| && moves[j].thread == 0 ==> !moves[j].action.Receive? && !moves[j].action.Tick?
  }

  lemma {:induction false} TickKept(c: Config, s: State, m: Move, errors: nat, logs: nat)
    requires Inv(c, s) && c.async && Enabled(c, s, m) && (m.thread == 0 ==> !m.action.Receive? && !m.action.Tick?)
    requires TickReached(s, errors, logs) && errors <= Arrived(s, Error) && logs <= Arrived(s, Log)
    ensures After(c, s, m).threads != [] && TickReached(After(c, s, m), errors, logs)
    ensures errors <= Arrived(After(c, s, m), Error) && logs <= Arrived(After(c, s, m), Log)
  {
    var t := After(c, s, m);
    if m.action.Advance? {
      PassedAdvance(c, s, m);
    } else {
      PassedAction(c, s, m);
    }
    GrownByMove(c, s, m);
    if m.thread != 0 {
      OthersStay(c, s, m, 0);
    } else {
      TickMoves(c, s, m, errors, logs);
    }
  }

  lemma {:induction false} TickMoves(c: Config, s: State, m: Move, errors: nat, logs: nat)
    requires Shape(c, s) && c.async && Enabled(c, s, m) && m.thread == 0 && !m.action.Receive? && !m.action.Tick?
    requires Passed(c, s, After(c, s, m), PassingOf(c, s, m)) && Grown(s, After(c, s, m))
    requires TickReached(s, errors, logs) && errors <= Arrived(s, Error) && logs <= Arrived(s, Log)
    ensures After(c, s, m).threads != [] && TickReached(After(c, s, m), errors, logs)
  {
    var t := After(c, s, m);
    var pc := s.threads[0];
    assert PlaceFits(c, 0, pc);
    if m.action.Advance? && pc.Locking? {
      GrownByPassing(c, s, t, Take(pc.kind), pc.kind);
    }
  }

  lemma {:induction false} TickRound(c: Config, s: State, moves: seq<Move>, errors: nat, logs: nat)
    requires Inv(c, s) && c.async && s.threads != [] && Runs(c, s, moves)
    requires OneRound(moves)
    requires TickReached(s, errors, logs) && errors <= Arrived(s, Error) && logs <= Arrived(s, Log)
    ensures var t := Final(c, s, moves);
            t.threads != [] && TickReached(t, errors, logs)
    decreases moves
  {
    if moves != [] {
      assert moves[0].thread == 0 ==> !moves[0].action.Receive? && !moves[0].action.Tick?;
      TickKept(c, s, moves[0], errors, logs);
      InvKept(c, s, moves[0]);
      TickRound(c, After(c, s, moves[0]), moves[1..], errors, logs);
    }
  }

  /** Of two states in which one type is in order, the later has taken what the earlier had taken or buffered. */
  lemma {:induction false} TakenPrefix(c: Config, s: State, t: State, k: EventType)
    requires Fifo(c, s, k) && Fifo(c, t, k) && s.order <= t.order && Arrived(s, k) <= |Filter(t.taken, k)|
    ensures Filter(s.taken, k) + Buf(s, k) <= Filter(t.taken, k)
  {
    assert t.order == s.order + t.order[|s.order|..];
    FilterConcat(s.order, t.order[|s.order|..], k);
    var early, late := Filter(s.taken, k) + Buf(s, k), Filter(t.taken, k);
    assert early == Filter(t.order, k)[..|early|];
    assert late == Filter(t.order, k)[..|late|];
    assert late[..|early|] == early;
  }

  /**
    The background flush. The worker takes a tick in s and is idle again in t. Every error and
    log event that was buffered in s has then been taken, in order, and is acknowledged,
    reported, or in flight in another thread.
   */
  lemma {:induction false} TickerFlush(c: Config, s: State, moves: seq<Move>, t: State, k: EventType, x: Item)
    requires Reachable(c, s) && Enabled(c, s, Move(0, Tick)) && k != Transaction
    requires Runs(c, After(c, s, Move(0, Tick)), moves) && t == Final(c, After(c, s, Move(0, Tick)), moves)
    requires OneRound(moves)
    requires t.threads != [] && t.threads[0].Ready?
    ensures Filter(s.taken, k) + Buf(s, k) <= Filter(t.taken, k)
    ensures x in Buf(s, k) ==>
              x in t.acked || x in t.failed || exists j :: 0 < j < |t.threads| && InFlight(x, t.threads[j]) > 0
  {
    var s1 := After(c, s, Move(0, Tick));
    ReachableInv(c, s);
    InvKept(c, s, Move(0, Tick));
    TickRound(c, s1, moves, Arrived(s, Error), Arrived(s, Log));
    OrderGrows(c, s1, moves);
    InvAlways(c, s1, moves);
    assert Fifo(c, s, k) && Fifo(c, t, k);
    TakenPrefix(c, s, t, k);
    if x in Buf(s, k) {
      assert x.kind == k by {
        assert BufferFits(c, k, Buf(s, k));
      }
      TakenSettles(c, t, x, Filter(s.taken, k) + Buf(s, k));
    }
  }

  lemma {:induction false} TakenSettles(c: Config, t: State, x: Item, early: seq<Item>)
    requires Conserved(t, x) && x in early && early <= Filter(t.taken, x.kind)
    ensures x in t.acked || x in t.failed || exists j :: 0 <= j < |t.threads| && InFlight(x, t.threads[j]) > 0
  {
    FilterCopies(t.taken, x);
    assert Filter(t.taken, x.kind) == early + Filter(t.taken, x.kind)[|early|..];
    if x !in t.acked && x !in t.failed {
      var j := SumFind(InFlightShares(x), t.threads);
      assert InFlight(x, t.threads[j]) > 0;
    }
  }
}
