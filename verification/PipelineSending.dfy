/** The order in which the transport is given the events of one type, and when it is the order of acceptance. */
module PipelineSending {
  import opened Core
  import opened Sums
  import opened Pipeline
  import opened PipelineInvariants
  import opened PipelineOrder
  import opened PipelineTheorems
  import opened PipelineProperties
  import opened PipelineRuns

  // Between taking a batch and giving it to the transport a thread can be overtaken

  predicate Holds(pc: Pc, k: EventType) {
    pc.Holding? && pc.kind == k
  }

  function HeldBy(pc: Pc, k: EventType): seq<Item> {
    if Holds(pc, k) then pc.items else []
  }

  function Held(ts: seq<Pc>, k: EventType): seq<Item> {
    if ts == [] then [] else HeldBy(ts[0], k) + Held(ts[1..], k)
  }

  predicate OneHolder(ts: seq<Pc>, k: EventType) {
    forall i, j :: 0 <= i < j < |ts| ==> !(Holds(ts[i], k) && Holds(ts[j], k))
  }

  /** What was taken is what was sent and then what some thread still holds. */
  predicate InOrder(s: State, k: EventType) {
    Filter(s.taken, k) == Filter(s.sent, k) + Held(s.threads, k)
  }

  lemma {:induction false} HeldNone(ts: seq<Pc>, k: EventType)
    requires forall j :: 0 <= j < |ts| ==> HeldBy(ts[j], k) == []
    ensures Held(ts, k) == []
  {
    if ts != [] {
      assert forall j :: 0 <= j < |ts| - 1 ==> ts[1..][j] == ts[j + 1];
      HeldNone(ts[1..], k);
    }
  }

  lemma {:induction false} HeldOne(ts: seq<Pc>, k: EventType, i: nat)
    requires i < |ts| && forall j :: 0 <= j < |ts| && j != i ==> HeldBy(ts[j], k) == []
    ensures Held(ts, k) == HeldBy(ts[i], k)
  {
    assert forall j :: 0 <= j < |ts| - 1 ==> ts[1..][j] == ts[j + 1];
    if i == 0 {
      HeldNone(ts[1..], k);
    } else {
      HeldOne(ts[1..], k, i - 1);
    }
  }

  lemma {:induction false} HeldSame(ts: seq<Pc>, i: nat, q: Pc, k: EventType)
    requires i < |ts| && HeldBy(ts[i], k) == HeldBy(q, k)
    ensures Held(ts[i := q], k) == Held(ts, k)
  {
    if i == 0 {
      assert ts[0 := q][1..] == ts[1..];
    } else {
      assert ts[i := q][1..] == ts[1..][i - 1 := q];
      HeldSame(ts[1..], i - 1, q, k);
    }
  }

  // One move takes, or gives to the transport, exactly what its thread then, or until then, holds

  predicate HoldingDelta(s: State, t: State, p: Pc, q: Pc, k: EventType) {
    || (HeldBy(q, k) == HeldBy(p, k) && Filter(t.taken, k) == Filter(s.taken, k) && t.sent == s.sent)
    || (HeldBy(p, k) == [] && Filter(t.taken, k) == Filter(s.taken, k) + HeldBy(q, k) && t.sent == s.sent)
    || (HeldBy(q, k) == [] && Filter(t.taken, k) == Filter(s.taken, k)
        && Filter(t.sent, k) == Filter(s.sent, k) + HeldBy(p, k))
  }

  lemma {:induction false} HoldingMove(c: Config, s: State, m: Move, k: EventType)
    requires Shape(c, s) && Enabled(c, s, m)
    ensures |After(c, s, m).threads| == |s.threads|
    ensures HoldingDelta(s, After(c, s, m), s.threads[m.thread], After(c, s, m).threads[m.thread], k)
  {
    var pc := s.threads[m.thread];
    assert PlaceFits(c, m.thread, pc);
    if m.action.Advance? {
      if pc.Locking? {
        TakeHolding(c, s, m.thread, k);
      } else if pc.Prepared? {
        DispatchHolding(c, s, m.thread, k);
      } else if pc.Holding? {
        CallHolding(c, s, m.thread, k);
      } else {
        OtherMove(c, s, m.thread);
      }
    }
  }

  lemma {:induction false} TakeHolding(c: Config, s: State, i: nat, k: EventType)
    requires Shape(c, s) && Enabled(c, s, Move(i, Advance)) && s.threads[i].Locking?
    ensures |Advanced(c, s, i).threads| == |s.threads|
    ensures HoldingDelta(s, Advanced(c, s, i), s.threads[i], Advanced(c, s, i).threads[i], k)
  {
    var pc := s.threads[i];
    TakeMove(c, s, i);
    assert BufferFits(c, pc.kind, Buf(s, pc.kind));
    KindFilter(s.taken, Buf(s, pc.kind), pc.kind, k);
  }

  lemma {:induction false} DispatchHolding(c: Config, s: State, i: nat, k: EventType)
    requires Enabled(c, s, Move(i, Advance)) && s.threads[i].Prepared?
    ensures |Advanced(c, s, i).threads| == |s.threads|
    ensures HoldingDelta(s, Advanced(c, s, i), s.threads[i], Advanced(c, s, i).threads[i], k)
  {
    var x := s.threads[i].item;
    DispatchMove(c, s, i);
    KindFilter(s.taken, [x], x.kind, k);
  }

  lemma {:induction false} CallHolding(c: Config, s: State, i: nat, k: EventType)
    requires Shape(c, s) && Enabled(c, s, Move(i, Advance)) && s.threads[i].Holding?
    ensures |Advanced(c, s, i).threads| == |s.threads|
    ensures HoldingDelta(s, Advanced(c, s, i), s.threads[i], Advanced(c, s, i).threads[i], k)
  {
    var pc := s.threads[i];
    assert PlaceFits(c, i, pc);
    CallMove(c, s, i);
    KindFilter(s.sent, pc.items, pc.kind, k);
  }

  lemma {:induction false} KindFilter(items: seq<Item>, more: seq<Item>, j: EventType, k: EventType)
    requires forall x :: x in more ==> x.kind == j
    ensures Filter(items + more, k) == Filter(items, k) + if j == k then more else []
    ensures j != k || more == [] ==> Filter(items + more, k) == Filter(items, k)
  {
    FilterConcat(items, more, k);
    FilterSame(more, j, k);
  }

  lemma {:induction false} TakeMove(c: Config, s: State, i: nat)
    requires Enabled(c, s, Move(i, Advance)) && s.threads[i].Locking?
    ensures var pc, t := s.threads[i], Advanced(c, s, i);
            var items := Buf(s, pc.kind);
            && |t.threads| == |s.threads| && t.sent == s.sent && t.taken == s.taken + items
            && if items == [] then !t.threads[i].Holding? else t.threads[i] == Holding(pc.kind, items, pc.origin)
  {
  }

  lemma {:induction false} DispatchMove(c: Config, s: State, i: nat)
    requires Enabled(c, s, Move(i, Advance)) && s.threads[i].Prepared?
    ensures var x, t := s.threads[i].item, Advanced(c, s, i);
            && |t.threads| == |s.threads| && t.sent == s.sent
            && if Direct(c, x.kind) then t.taken == s.taken + [x] && t.threads[i] == Holding(x.kind, [x], Capture)
               else t.taken == s.taken && !t.threads[i].Holding?
  {
  }

  lemma {:induction false} CallMove(c: Config, s: State, i: nat)
    requires Enabled(c, s, Move(i, Advance)) && s.threads[i].Holding?
    ensures var pc, t := s.threads[i], Advanced(c, s, i);
            && |t.threads| == |s.threads| && t.taken == s.taken && t.sent == s.sent + pc.items
            && t.threads[i].Calling?
  {
  }

  lemma {:induction false} OtherMove(c: Config, s: State, i: nat)
    requires Enabled(c, s, Move(i, Advance))
    requires !s.threads[i].Locking? && !s.threads[i].Prepared? && !s.threads[i].Holding?
    ensures var t := Advanced(c, s, i);
            && |t.threads| == |s.threads| && t.taken == s.taken && t.sent == s.sent && !t.threads[i].Holding?
  {
    match s.threads[i]
    case Answered(_, _, _, _) =>
    case _ =>
  }

  /** When no two threads hold the type before and after, and the moving one lets go or takes, it is the only holder. */
  lemma {:induction false} HeldChange(ts: seq<Pc>, i: nat, q: Pc, k: EventType)
    requires i < |ts| && OneHolder(ts, k) && OneHolder(ts[i := q], k) && HeldBy(ts[i], k) != HeldBy(q, k)
    ensures Held(ts, k) == HeldBy(ts[i], k) && Held(ts[i := q], k) == HeldBy(q, k)
  {
    var us := ts[i := q];
    forall j | 0 <= j < |ts| && j != i ensures HeldBy(ts[j], k) == [] {
      assert us[j] == ts[j];
      var before, after := Holds(ts[i], k), Holds(us[i], k);
    }
    HeldOne(ts, k, i);
    HeldOne(us, k, i);
  }

  /** As long as no two threads hold a batch of the type, the calls are in order. */
  lemma {:induction false} InOrderKept(s: State, t: State, i: nat, k: EventType)
    requires i < |s.threads| && |t.threads| == |s.threads| && t.threads == s.threads[i := t.threads[i]]
    requires OneHolder(s.threads, k) && OneHolder(t.threads, k)
    requires InOrder(s, k) && HoldingDelta(s, t, s.threads[i], t.threads[i], k)
    ensures InOrder(t, k)
  {
    var p, q := s.threads[i], t.threads[i];
    if HeldBy(p, k) == HeldBy(q, k) {
      HeldSame(s.threads, i, q, k);
    } else {
      HeldChange(s.threads, i, q, k);
    }
    Balance(Filter(s.taken, k), Filter(t.taken, k), Filter(s.sent, k), Filter(t.sent, k), Held(s.threads, k),
            Held(t.threads, k), HeldBy(p, k), HeldBy(q, k));
  }

  lemma {:induction false} Balance(taken: seq<Item>, taken': seq<Item>, sent: seq<Item>, sent': seq<Item>,
                                   held: seq<Item>, held': seq<Item>, own: seq<Item>, own': seq<Item>)
    requires taken == sent + held
    requires if own == own' then held' == held else held == own && held' == own'
    requires || (own' == own && taken' == taken && sent' == sent)
             || (own == [] && taken' == taken + own' && sent' == sent)
             || (own' == [] && taken' == taken && sent' == sent + own)
    ensures taken' == sent' + held'
  {
    if own == own' == [] {
      assert taken + [] == taken && sent + [] == sent;
    }
  }

  // When two threads never hold the same type

  /** The configurations in which the events of type k are sent in the order of acceptance. */
  predicate SendsInOrder(c: Config, threads: nat, k: EventType) {
    threads <= 1 || (c.async && (k == Transaction || c.batchSize <= 1 || threads <= 2))
  }

  /** A caller that is past pending.Wait() in Flush. */
  predicate Flushing(pc: Pc) {
    pc.Released? || pc.Locking? || pc.Holding? || pc.Calling? || pc.Answered?
  }

  /** With one caller beside the worker: its Flush finds the worker idle, and who holds a batch left no buffer. */
  predicate Calm(s: State, k: EventType) {
    && |s.threads| == 2
    && (Flushing(s.threads[1]) ==> s.pending == 0)
    && (Holds(s.threads[0], k) || Holds(s.threads[1], k) ==> Buf(s, k) == [])
    && !(Holds(s.threads[0], k) && Holds(s.threads[1], k))
  }

  lemma {:induction false} WorkerIdle(c: Config, s: State)
    requires Inv(c, s) && c.async && s.pending == 0 && s.threads != []
    ensures !Working(s.threads[0]) && s.queue == []
  {
    SumMember(PendingShares(c.async), s.threads, 0);
  }

  /** What a move changes of what Calm speaks of. */
  lemma {:induction false} FlushingMove(c: Config, s: State, m: Move)
    requires c.async && Enabled(c, s, m) && PlaceFits(c, m.thread, s.threads[m.thread])
    ensures |After(c, s, m).threads| == |s.threads|
    ensures m.thread != 0 && Flushing(After(c, s, m).threads[m.thread]) ==>
              After(c, s, m).pending == s.pending && (Flushing(s.threads[m.thread]) || s.pending == 0)
    ensures m.thread == 0 && After(c, s, m).pending != s.pending ==> Working(s.threads[0])
  {
    if m.action.Advance? {
      FlushingAdvance(c, s, m.thread);
    }
  }

  lemma {:induction false} FlushingAdvance(c: Config, s: State, i: nat)
    requires c.async && Enabled(c, s, Move(i, Advance)) && PlaceFits(c, i, s.threads[i])
    ensures |Advanced(c, s, i).threads| == |s.threads|
    ensures i != 0 && Flushing(Advanced(c, s, i).threads[i]) ==>
              Advanced(c, s, i).pending == s.pending && (Flushing(s.threads[i]) || s.pending == 0)
    ensures i == 0 && Advanced(c, s, i).pending != s.pending ==> Working(s.threads[0])
  {
    match s.threads[i]
    case Prepared(_) =>
    case Locking(_, _) =>
    case Answered(_, _, _, _) =>
    case _ =>
  }

  /** A thread comes to hold a batched type only by taking a buffer that was not empty. */
  lemma {:induction false} HolderMove(c: Config, s: State, m: Move, k: EventType)
    requires Enabled(c, s, m) && !Direct(c, k)
    ensures |After(c, s, m).threads| == |s.threads|
    ensures Holds(After(c, s, m).threads[m.thread], k) ==> PassingOf(c, s, m) == Take(k) && Buf(s, k) != []
  {
    if m.action.Advance? {
      HolderAdvance(c, s, m.thread, k);
    }
  }

  lemma {:induction false} HolderAdvance(c: Config, s: State, i: nat, k: EventType)
    requires Enabled(c, s, Move(i, Advance)) && !Direct(c, k)
    ensures |Advanced(c, s, i).threads| == |s.threads|
    ensures Holds(Advanced(c, s, i).threads[i], k) ==>
              s.threads[i].Locking? && s.threads[i].kind == k && Buf(s, k) != []
  {
    match s.threads[i]
    case Prepared(_) =>
    case Locking(_, _) =>
    case Answered(_, _, _, _) =>
    case _ =>
  }

  lemma {:induction false} CalmKept(c: Config, s: State, t: State, m: Move, k: EventType)
    requires Inv(c, s) && c.async && !Direct(c, k) && Calm(s, k) && Enabled(c, s, m) && t == After(c, s, m)
    requires Passed(c, s, t, PassingOf(c, s, m)) && t.threads == s.threads[m.thread := t.threads[m.thread]]
    ensures Calm(t, k)
  {
    assert PlaceFits(c, m.thread, s.threads[m.thread]);
    FlushingMove(c, s, m);
    HolderMove(c, s, m, k);
    if s.pending == 0 {
      WorkerIdle(c, s);
    }
    CalmBuffers(c, s, t, m, k);
  }

  lemma {:induction false} CalmBuffers(c: Config, s: State, t: State, m: Move, k: EventType)
    requires Shape(c, s) && c.async && !Direct(c, k) && Calm(s, k) && Enabled(c, s, m) && |t.threads| == 2
    requires Passed(c, s, t, PassingOf(c, s, m)) && t.threads == s.threads[m.thread := t.threads[m.thread]]
    requires Holds(t.threads[m.thread], k) ==> PassingOf(c, s, m) == Take(k) && Buf(s, k) != []
    requires s.pending == 0 ==> !Working(s.threads[0])
    ensures Holds(t.threads[0], k) || Holds(t.threads[1], k) ==> Buf(t, k) == []
    ensures !(Holds(t.threads[0], k) && Holds(t.threads[1], k))
  {
    var pc := s.threads[m.thread];
    assert PlaceFits(c, m.thread, pc);
    match PassingOf(c, s, m)
    case Append(x) => assert pc.Prepared? && m.thread == 0 && Working(pc);
    case Take(_) =>
    case _ =>
  }

  ghost predicate Sending(c: Config, s: State, k: EventType) {
    && OneHolder(s.threads, k) && InOrder(s, k)
    && (c.async && !Direct(c, k) && |s.threads| == 2 ==> Calm(s, k))
  }

  lemma {:induction false} OneHolderHolds(c: Config, s: State, k: EventType)
    requires Shape(c, s) && SendsInOrder(c, |s.threads|, k)
    requires c.async && !Direct(c, k) && |s.threads| == 2 ==> Calm(s, k)
    ensures OneHolder(s.threads, k)
  {
    forall i, j | 0 <= i < j < |s.threads| ensures !(Holds(s.threads[i], k) && Holds(s.threads[j], k)) {
      assert PlaceFits(c, j, s.threads[j]);
    }
  }

  lemma {:induction false} SendingKept(c: Config, s: State, m: Move, k: EventType)
    requires Inv(c, s) && SendsInOrder(c, |s.threads|, k) && Sending(c, s, k) && Enabled(c, s, m)
    ensures Sending(c, After(c, s, m), k) && |After(c, s, m).threads| == |s.threads|
  {
    var t := After(c, s, m);
    MoveDelta(c, s, m, Item(0, Error));
    InvKept(c, s, m);
    if c.async && !Direct(c, k) && |s.threads| == 2 {
      if m.action.Advance? {
        PassedAdvance(c, s, m);
      } else {
        PassedAction(c, s, m);
      }
      CalmKept(c, s, t, m, k);
    }
    OneHolderHolds(c, t, k);
    HoldingMove(c, s, m, k);
    InOrderKept(s, t, m.thread, k);
  }

  lemma {:induction false} SendingAlways(c: Config, s: State, moves: seq<Move>, k: EventType)
    requires Inv(c, s) && SendsInOrder(c, |s.threads|, k) && Sending(c, s, k) && Runs(c, s, moves)
    ensures Sending(c, Final(c, s, moves), k)
    decreases moves
  {
    if moves != [] {
      SendingKept(c, s, moves[0], k);
      InvKept(c, s, moves[0]);
      SendingAlways(c, After(c, s, moves[0]), moves[1..], k);
    }
  }

  lemma {:induction false} ReachableSending(c: Config, s: State, k: EventType)
    requires Reachable(c, s) && SendsInOrder(c, |s.threads|, k)
    ensures InOrder(s, k)
  {
    var threads: nat, moves :| Runs(c, Init(threads), moves) && Final(c, Init(threads), moves) == s;
    InvInit(c, threads);
    ThreadsStay(c, Init(threads), moves);
    InitSending(c, threads, k);
    SendingAlways(c, Init(threads), moves, k);
  }

  lemma {:induction false} InitSending(c: Config, threads: nat, k: EventType)
    ensures Sending(c, Init(threads), k)
  {
    HeldNone(Init(threads).threads, k);
  }

  // Otherwise some batch is overtaken

  /** Thread i flushes, and stops when it has taken the buffer of type k. */
  lemma {:induction false} FlushHolds(c: Config, s: State, i: nat, k: EventType) returns (t: State)
    requires Reachable(c, s) && i < |s.threads| && s.threads[i].Ready? && !IsWorker(c, i)
    requires k != Transaction && Buf(s, k) != [] && (k == Log ==> Buf(s, Error) == []) && s.pending == 0
    ensures Reachable(c, t)
    ensures t.threads == s.threads[i := Holding(k, Buf(s, k), Flush(|s.order|))]
    ensures t.order == s.order && t.sent == s.sent && t.pending == 0 && t.queue == s.queue
    ensures Buf(t, Error) == [] && Buf(t, k) == []
  {
    t := FlushLocks(c, s, i);
    t := FlushTakes(c, t, i, k, |s.order|);
  }

  lemma {:induction false} FlushTakes(c: Config, s: State, i: nat, k: EventType, n: nat) returns (t: State)
    requires Reachable(c, s) && i < |s.threads| && s.threads[i] == Locking(Error, Flush(n))
    requires k != Transaction && Buf(s, k) != [] && (k == Log ==> Buf(s, Error) == [])
    ensures Reachable(c, t)
    ensures t.threads == s.threads[i := Holding(k, Buf(s, k), Flush(n))]
    ensures t.order == s.order && t.sent == s.sent && t.pending == s.pending && t.queue == s.queue
    ensures Buf(t, Error) == [] && Buf(t, k) == []
  {
    LeadsSelf(c, s);
    t := Takes(c, s, s, i, Error, Flush(n));
    if k == Log {
      t := Takes(c, s, t, i, Log, Flush(n));
    }
    LeadsFrom(c, s, t);
  }

  lemma {:induction false} FlushLocks(c: Config, s: State, i: nat) returns (t: State)
    requires Reachable(c, s) && i < |s.threads| && s.threads[i].Ready? && !IsWorker(c, i) && s.pending == 0
    ensures Reachable(c, t) && t == s.(threads := s.threads[i := Locking(Error, Flush(|s.order|))])
  {
    t := FlushStarts(c, s, i);
    if c.async {
      t := FlushWakes(c, t, i, |s.order|);
    }
  }

  lemma {:induction false} FlushWakes(c: Config, s: State, i: nat, n: nat) returns (t: State)
    requires Reachable(c, s) && i < |s.threads| && s.threads[i] == Waiting(n) && s.pending == 0
    ensures Reachable(c, t) && t == s.(threads := s.threads[i := Locking(Error, Flush(n))])
  {
    LeadsSelf(c, s);
    t := Awakes(c, s, s, i, n);
    t := Locks(c, s, t, i, n);
    LeadsFrom(c, s, t);
  }

  lemma {:induction false} FlushStarts(c: Config, s: State, i: nat) returns (t: State)
    requires Reachable(c, s) && i < |s.threads| && s.threads[i].Ready? && !IsWorker(c, i)
    ensures Reachable(c, t)
    ensures var n := |s.order|;
            t == s.(threads := s.threads[i := if c.async then Waiting(n) else Locking(Error, Flush(n))])
  {
    ReachMore(c, s, Move(i, StartFlush));
    t := After(c, s, Move(i, StartFlush));
  }

  /** The second event of the type is given to the transport before the first. */
  predicate Overtaken(s: State, k: EventType) {
    |s.order| == 2 && s.sent == [s.order[1]] && s.order[0] != s.order[1] && s.order[0].kind == s.order[1].kind == k
  }

  lemma {:induction false} OutOfOrder(c: Config, threads: nat, k: EventType) returns (s: State)
    requires !SendsInOrder(c, threads, k)
    ensures Reachable(c, s) && |s.threads| == threads && Overtaken(s, k)
  {
    if c.async {
      s := FlushOvertaken(c, threads, k);
    } else if Direct(c, k) {
      s := CallerOvertaken(c, threads, k);
    } else {
      s := BatchOvertaken(c, threads, k);
    }
  }

  /** Two callers send directly. */
  lemma {:induction false} CallerOvertaken(c: Config, threads: nat, k: EventType) returns (s: State)
    requires !c.async && threads >= 2 && Direct(c, k)
    ensures Reachable(c, s) && |s.threads| == threads && Overtaken(s, k)
  {
    var o := Init(threads);
    LeadsSelf(c, o);
    s := FirstHolds(c, o, Item(0, k));
    s := SecondSends(c, o, s, Item(1, k));
    LeadsReaches(c, threads, s);
  }

  lemma {:induction false} FirstHolds(c: Config, o: State, a: Item) returns (t: State)
    requires Leads(c, o, o) && !c.async && |o.threads| >= 2 && o.threads[0].Ready? && Direct(c, a.kind)
    ensures Leads(c, o, t) && t.threads == o.threads[0 := Holding(a.kind, [a], Capture)]
    ensures t.order == o.order + [a] && t.sent == o.sent
  {
    t := Captures(c, o, o, 0, a);
    t := Dispatches(c, o, t, 0, a);
  }

  lemma {:induction false} SecondSends(c: Config, o: State, s: State, b: Item) returns (t: State)
    requires Leads(c, o, s) && !c.async && |s.threads| >= 2 && s.threads[1].Ready? && Direct(c, b.kind)
    ensures Leads(c, o, t) && |t.threads| == |s.threads|
    ensures t.order == s.order + [b] && t.sent == s.sent + [b]
  {
    t := Captures(c, o, s, 1, b);
    t := Dispatches(c, o, t, 1, b);
    t := Calls(c, o, t, 1, b.kind, [b], Capture);
  }

  /** Two callers flush, one after the other, with one event each. */
  lemma {:induction false} BatchOvertaken(c: Config, threads: nat, k: EventType) returns (s: State)
    requires !c.async && threads >= 2 && !Direct(c, k)
    ensures Reachable(c, s) && |s.threads| == threads && Overtaken(s, k)
  {
    s := Fresh(c, threads);
    s := SecondFlushesFirst(c, s, Item(0, k), Item(1, k));
  }

  lemma {:induction false} SecondFlushesFirst(c: Config, s: State, a: Item, b: Item) returns (t: State)
    requires Reachable(c, s) && !c.async && |s.threads| >= 2 && s.threads[0].Ready? && s.threads[1].Ready?
    requires a.kind == b.kind && !Direct(c, a.kind) && Buf(s, Error) == [] && Buf(s, a.kind) == [] && s.pending == 0
    ensures Reachable(c, t) && |t.threads| == |s.threads|
    ensures t.order == s.order + [a] + [b] && t.sent == s.sent + [b]
  {
    t := BothHold(c, s, a, b);
    t := SecondCalls(c, t, b.kind, [b], Flush(|s.order| + 2));
  }

  lemma {:induction false} BothHold(c: Config, s: State, a: Item, b: Item) returns (t: State)
    requires Reachable(c, s) && !c.async && |s.threads| >= 2 && s.threads[0].Ready? && s.threads[1].Ready?
    requires a.kind == b.kind && !Direct(c, a.kind) && Buf(s, Error) == [] && Buf(s, a.kind) == [] && s.pending == 0
    ensures Reachable(c, t) && |t.threads| == |s.threads|
    ensures t.threads[1] == Holding(b.kind, [b], Flush(|s.order| + 2))
    ensures t.order == s.order + [a] + [b] && t.sent == s.sent
  {
    t := CaptureAndHold(c, s, 0, a);
    t := CaptureAndHold(c, t, 1, b);
  }

  lemma {:induction false} SecondCalls(c: Config, s: State, k: EventType, items: seq<Item>, origin: Origin)
    returns (t: State)
    requires Reachable(c, s) && |s.threads| >= 2 && s.threads[1] == Holding(k, items, origin)
    ensures Reachable(c, t) && |t.threads| == |s.threads| && t.order == s.order && t.sent == s.sent + items
  {
    LeadsSelf(c, s);
    t := Calls(c, s, s, 1, k, items, origin);
    LeadsFrom(c, s, t);
  }

  lemma {:induction false} CaptureAndHold(c: Config, s: State, i: nat, x: Item) returns (t: State)
    requires Reachable(c, s) && !c.async && i < |s.threads| && s.threads[i].Ready? && !Direct(c, x.kind)
    requires Buf(s, Error) == [] && Buf(s, x.kind) == [] && s.pending == 0
    ensures Reachable(c, t) && t.threads == s.threads[i := Holding(x.kind, [x], Flush(|s.order| + 1))]
    ensures t.order == s.order + [x] && t.sent == s.sent && t.pending == 0
    ensures Buf(t, Error) == [] && Buf(t, x.kind) == []
  {
    LeadsSelf(c, s);
    t := CaptureAlone(c, s, s, i, x);
    LeadsFrom(c, s, t);
    t := FlushHolds(c, t, i, x.kind);
  }

  lemma {:induction false} CaptureAlone(c: Config, o: State, s: State, i: nat, x: Item) returns (t: State)
    requires Leads(c, o, s) && !c.async && i < |s.threads| && s.threads[i].Ready? && !Direct(c, x.kind)
    requires Buf(s, x.kind) == []
    ensures Leads(c, o, t) && t.threads == s.threads
    ensures t == s.(buffers := s.buffers[x.kind := [x]], order := s.order + [x], captured := s.captured + multiset{x})
  {
    t := Captures(c, o, s, i, x);
    assert Buf(t, x.kind) + [x] == [x];
    t := Dispatches(c, o, t, i, x);
    assert t.threads == s.threads;
  }

  /** A caller flushes, another enqueues, and the ticker is faster. */
  lemma {:induction false} FlushOvertaken(c: Config, threads: nat, k: EventType) returns (s: State)
    requires c.async && threads >= 3 && !Direct(c, k)
    ensures Reachable(c, s) && |s.threads| == threads && Overtaken(s, k)
  {
    s := Fresh(c, threads);
    s := EnqueueAndHold(c, s, Item(0, k));
    s := EnqueueAndSend(c, s, Item(1, k));
  }

  /** Nothing has happened yet. */
  lemma {:induction false} Fresh(c: Config, threads: nat) returns (s: State)
    ensures Reachable(c, s) && |s.threads| == threads && (forall i :: 0 <= i < threads ==> s.threads[i].Ready?)
    ensures s.order == [] && s.sent == [] && s.queue == [] && s.pending == 0 && forall k :: Buf(s, k) == []
  {
    s := Init(threads);
    LeadsSelf(c, s);
    LeadsReaches(c, threads, s);
  }

  lemma {:induction false} EnqueueAndHold(c: Config, s: State, x: Item) returns (t: State)
    requires Reachable(c, s) && c.async && |s.threads| >= 3 && s.threads[0].Ready? && s.threads[1].Ready?
    requires !Direct(c, x.kind) && s.queue == [] && Buf(s, Error) == [] && Buf(s, x.kind) == [] && s.pending == 0
    ensures Reachable(c, t) && t.threads == s.threads[1 := Holding(x.kind, [x], Flush(|s.order| + 1))]
    ensures t.order == s.order + [x] && t.sent == s.sent && t.queue == []
    ensures Buf(t, Error) == [] && Buf(t, x.kind) == []
  {
    LeadsSelf(c, s);
    t := EnqueueAndBuffer(c, s, s, 1, x);
    BufferedOnly(s, t, x);
    LeadsFrom(c, s, t);
    t := FlushHolds(c, t, 1, x.kind);
  }

  lemma {:induction false} EnqueueAndSend(c: Config, s: State, x: Item) returns (t: State)
    requires Reachable(c, s) && c.async && |s.threads| >= 3 && s.threads[0].Ready? && s.threads[2].Ready?
    requires !Direct(c, x.kind) && s.queue == [] && Buf(s, Error) == [] && Buf(s, x.kind) == []
    ensures Reachable(c, t) && |t.threads| == |s.threads|
    ensures t.order == s.order + [x] && t.sent == s.sent + [x]
  {
    LeadsSelf(c, s);
    t := EnqueueAndBuffer(c, s, s, 2, x);
    t := TickSends(c, s, t, x.kind, x);
    LeadsFrom(c, s, t);
  }

  lemma {:induction false} EnqueueAndBuffer(c: Config, o: State, s: State, i: nat, x: Item) returns (t: State)
    requires Leads(c, o, s) && c.async && 0 < i < |s.threads| && s.threads[0].Ready? && s.threads[i].Ready?
    requires !Direct(c, x.kind) && s.queue == [] && Buf(s, x.kind) == []
    ensures Leads(c, o, t)
    ensures t == s.(order := s.order + [x], captured := s.captured + multiset{x}, buffers := s.buffers[x.kind := [x]])
  {
    t := EnqueueAlone(c, o, s, i, x);
    assert s.queue + [x] == [x] && Buf(s, x.kind) + [x] == [x];
    t := BufferAlone(c, o, t, x);
  }

  lemma {:induction false} BufferedOnly(s: State, t: State, x: Item)
    requires t.buffers == s.buffers[x.kind := [x]] && Buf(s, Error) == []
    ensures Buf(t, x.kind) == [x] && (x.kind == Log ==> Buf(t, Error) == [])
  {
  }

  lemma {:induction false} TickSends(c: Config, o: State, s: State, k: EventType, x: Item) returns (t: State)
    requires Leads(c, o, s) && c.async && s.threads != [] && s.threads[0].Ready? && k != Transaction
    requires Buf(s, k) == [x] && (k == Log ==> Buf(s, Error) == [])
    ensures Leads(c, o, t) && |t.threads| == |s.threads|
    ensures t.order == s.order && t.sent == s.sent + [x]
  {
    t := Ticks(c, o, s);
    t := Takes(c, o, t, 0, Error, Ticker);
    if k == Log {
      t := Takes(c, o, t, 0, Log, Ticker);
    }
    t := Calls(c, o, t, 0, k, [x], Ticker);
  }

  // The order of the calls and their arguments are two records of the same calls

  lemma {:induction false} SentMove(c: Config, s: State, m: Move)
    requires Enabled(c, s, m)
    ensures var t := After(c, s, m);
            || (t.given == s.given && t.sent == s.sent)
            || exists items :: t.given == s.given + multiset(items) && t.sent == s.sent + items
  {
    if m.action.Advance? && s.threads[m.thread].Holding? {
      var items := s.threads[m.thread].items;
      assert After(c, s, m).given == s.given + multiset(items);
    }
  }

  lemma {:induction false} SentAlways(c: Config, s: State, moves: seq<Move>)
    requires Runs(c, s, moves) && s.given == multiset(s.sent)
    ensures var t := Final(c, s, moves); t.given == multiset(t.sent)
    decreases moves
  {
    if moves != [] {
      SentMove(c, s, moves[0]);
      SentAlways(c, After(c, s, moves[0]), moves[1..]);
    }
  }

  lemma {:induction false} SentIsGiven(c: Config, s: State)
    requires Reachable(c, s)
    ensures s.given == multiset(s.sent)
  {
    var threads: nat, moves :| Runs(c, Init(threads), moves) && Final(c, Init(threads), moves) == s;
    SentAlways(c, Init(threads), moves);
  }

  // The exact condition

  /** In every reachable state the transport was given a prefix of the accepted events of the type. */
  ghost predicate CallsFollowOrder(c: Config, threads: nat, k: EventType) {
    forall s :: Reachable(c, s) && |s.threads| == threads ==> Filter(s.sent, k) <= Filter(s.order, k)
  }

  lemma {:induction false} CallsFollowOrderExactly(c: Config, threads: nat, k: EventType)
    ensures CallsFollowOrder(c, threads, k) <==> SendsInOrder(c, threads, k)
  {
    if SendsInOrder(c, threads, k) {
      forall s | Reachable(c, s) && |s.threads| == threads ensures Filter(s.sent, k) <= Filter(s.order, k) {
        ReachableSending(c, s, k);
        PerTypeFifo(c, s, k);
      }
    } else {
      var s := OutOfOrder(c, threads, k);
      OvertakenShows(s, k);
    }
  }

  lemma {:induction false} OvertakenShows(s: State, k: EventType)
    requires Overtaken(s, k)
    ensures !(Filter(s.sent, k) <= Filter(s.order, k))
  {
    FilterSame(s.sent, k, k);
    FilterSame(s.order, k, k);
  }
}
