/** The whole invariant of the delivery pipeline, and what it says about every run. */
module PipelineTheorems {
  import opened Core
  import opened Sums
  import opened Pipeline
  import opened PipelineInvariants
  import opened PipelineOrder

  ghost predicate PerThread(c: Config, s: State, pc: Pc) {
    FlightBounded(c, |s.threads|, pc) && BarrierFits(c, s, pc)
  }

  ghost predicate Inv(c: Config, s: State) {
    && Shape(c, s)
    && Counters(c, s)
    && (forall x :: Conserved(s, x))
    && (forall k :: Fifo(c, s, k) && Bounded(c, s, k))
    && (forall i :: 0 <= i < |s.threads| ==> PerThread(c, s, s.threads[i]))
  }

  lemma InvInit(c: Config, threads: nat)
    ensures Inv(c, Init(threads))
  {
    var s := Init(threads);
    SumZero(PendingShares(c.async), s.threads);
    SumZero(DropShares(), s.threads);
    forall x ensures Conserved(s, x) {
      SumZero(IncomingShares(x), s.threads);
      SumZero(InFlightShares(x), s.threads);
      SumZero(UnsentShares(x), s.threads);
    }
    forall k ensures Fifo(c, s, k) && Bounded(c, s, k) {
      SumZero(DueShares(k), s.threads);
    }
  }

  // The barrier, at the moving thread

  /** When pending is zero nothing is queued, the worker holds nothing, and no direct send is in flight. */
  lemma BarrierAtZero(c: Config, s: State, n: nat)
    requires Inv(c, s) && c.async && s.pending == 0 && n <= |s.order|
    ensures Barrier(c, s, n)
  {
    forall i | 0 <= i < |s.threads| ensures PendingShare(c.async, s.threads[i]) == 0 {
      SumMember(PendingShares(c.async), s.threads, i);
    }
    assert Hand(c, s) == [];
    forall k ensures Drained(s, k, n) {
      PrefixDrained(c, s, k, n);
    }
    forall x: Item | Direct(c, x.kind) ensures Copies(s.order[..n], x) <= Settled(s, x) {
      SettledAtZero(c, s, x);
      PrefixCopies(s.order, n, x);
    }
  }

  lemma PrefixDrained(c: Config, s: State, k: EventType, n: nat)
    requires Fifo(c, s, k) && Hand(c, s) == [] && s.queue == [] && n <= |s.order|
    ensures Drained(s, k, n)
  {
    assert s.order == s.order[..n] + s.order[n..];
    FilterConcat(s.order[..n], s.order[n..], k);
  }

  lemma SettledAtZero(c: Config, s: State, x: Item)
    requires Shape(c, s) && Fifo(c, s, x.kind) && Conserved(s, x)
    requires c.async && s.queue == [] && Hand(c, s) == []
    requires forall i :: 0 <= i < |s.threads| ==> PendingShare(c.async, s.threads[i]) == 0
    requires Direct(c, x.kind)
    ensures Copies(s.order, x) == Settled(s, x)
  {
    assert BufferFits(c, x.kind, Buf(s, x.kind));
    DirectTaken(c, s, x);
    forall i | 0 <= i < |s.threads| ensures InFlightShares(x)(s.threads[i]) == 0 {
      assert PlaceFits(c, i, s.threads[i]);
      assert !Working(s.threads[i]);
    }
    SumZero(InFlightShares(x), s.threads);
  }

  lemma PrefixCopies(items: seq<Item>, n: nat, x: Item)
    requires n <= |items|
    ensures Copies(items[..n], x) <= Copies(items, x)
  {
    assert items == items[..n] + items[n..];
  }

  lemma {:induction false} DirectTaken(c: Config, s: State, x: Item)
    requires Fifo(c, s, x.kind) && BufferFits(c, x.kind, Buf(s, x.kind))
    requires s.queue == [] && Hand(c, s) == [] && Direct(c, x.kind)
    ensures Copies(s.taken, x) == Copies(s.order, x)
  {
    assert Filter(s.order, x.kind) == Filter(s.taken, x.kind) by {
      assert Buf(s, x.kind) == [];
    }
    SameCopies(s.order, s.taken, x);
  }

  lemma {:induction false} SameCopies(items: seq<Item>, others: seq<Item>, x: Item)
    requires Filter(items, x.kind) == Filter(others, x.kind)
    ensures Copies(items, x) == Copies(others, x)
  {
    FilterCopies(items, x);
    FilterCopies(others, x);
  }

  lemma BarrierMoves(c: Config, s: State, m: Move)
    requires Inv(c, s) && Enabled(c, s, m) && Grown(s, After(c, s, m))
    requires Passed(c, s, After(c, s, m), PassingOf(c, s, m))
    ensures BarrierFits(c, After(c, s, m), After(c, s, m).threads[m.thread])
  {
    var t := After(c, s, m);
    var pc := s.threads[m.thread];
    assert PlaceFits(c, m.thread, pc) && PerThread(c, s, pc);
    BarrierStable(c, s, t, pc);
    if m.action.StartFlush? {
      if !c.async {
        forall k ensures Drained(s, k, |s.order|) {
          PrefixDrained(c, s, k, |s.order|);
        }
        BarrierStable(c, s, t, Locking(Error, Flush(|s.order|)));
      }
    } else if m.action.Advance? && pc.Waiting? {
      BarrierAtZero(c, s, pc.since);
      BarrierStable(c, s, t, Released(pc.since));
    } else if m.action.Advance? && pc.Locking? {
      TakeReaches(c, s, m.thread);
    } else {
      BarrierCarried(c, s, t, m);
    }
  }

  lemma {:induction false} BarrierCarried(c: Config, s: State, t: State, m: Move)
    requires Enabled(c, s, m) && PlaceFits(c, m.thread, s.threads[m.thread]) && After(c, s, m).threads == t.threads
    requires BarrierFits(c, t, s.threads[m.thread]) && !m.action.StartFlush?
    requires m.action.Advance? ==> !s.threads[m.thread].Waiting? && !s.threads[m.thread].Locking?
    ensures BarrierFits(c, t, t.threads[m.thread])
  {
    if m.action.Advance? {
      BarrierAdvances(c, s, t, m.thread);
    }
  }

  lemma {:induction false} BarrierAdvances(c: Config, s: State, t: State, i: nat)
    requires Enabled(c, s, Move(i, Advance)) && PlaceFits(c, i, s.threads[i])
    requires Advanced(c, s, i).threads == t.threads
    requires BarrierFits(c, t, s.threads[i]) && !s.threads[i].Waiting? && !s.threads[i].Locking?
    ensures BarrierFits(c, t, t.threads[i])
  {
    var pc := s.threads[i];
    if pc.Answered? {
      assert t.threads[i] == Resume(c, pc.kind, pc.origin);
    } else if pc.Holding? {
      assert t.threads[i] == Calling(pc.kind, pc.items, pc.origin);
    } else if pc.Released? {
      assert t.threads[i] == Locking(Error, Flush(pc.since));
    } else {
      UnboundMove(c, s, i);
    }
  }

  lemma UnboundMove(c: Config, s: State, i: nat)
    requires Enabled(c, s, Move(i, Advance)) && PlaceFits(c, i, s.threads[i])
    requires var p := s.threads[i]; !p.Waiting? && !p.Released? && !p.Locking? && !p.Holding? && !p.Answered?
    ensures var q := Advanced(c, s, i).threads[i];
            && !q.Waiting? && !q.Released? && !q.Returned?
            && ((q.Locking? || q.Holding? || q.Calling? || q.Answered?) ==> q.origin.Capture?)
  {
  }

  lemma TakeReaches(c: Config, s: State, i: nat)
    requires Inv(c, s) && Enabled(c, s, Move(i, Advance)) && s.threads[i].Locking?
    requires Passed(c, s, Advanced(c, s, i), Take(s.threads[i].kind))
    requires BarrierFits(c, Advanced(c, s, i), s.threads[i])
    ensures BarrierFits(c, Advanced(c, s, i), Advanced(c, s, i).threads[i])
  {
    var t := Advanced(c, s, i);
    var pc := s.threads[i];
    assert PlaceFits(c, i, pc);
    GrownByPassing(c, s, t, Take(pc.kind), pc.kind);
    assert Buf(t, pc.kind) == [];
    if pc.origin.Flush? {
      assert Drained(t, pc.kind, pc.origin.since);
    }
  }

  // One move, then any number

  lemma InvKept(c: Config, s: State, m: Move)
    requires Inv(c, s) && Enabled(c, s, m)
    ensures Inv(c, After(c, s, m))
  {
    var t := After(c, s, m);
    var i := m.thread;
    var x0 := Item(0, Error);
    MoveDelta(c, s, m, x0);
    if m.action.Advance? {
      PassedAdvance(c, s, m);
    } else {
      PassedAction(c, s, m);
    }
    CountersKept(c, s, t, i, t.threads[i]);
    forall x ensures Conserved(t, x) {
      MoveDelta(c, s, m, x);
      ConservedKept(s, t, i, t.threads[i], x);
    }
    OrderKept(c, s, m);
    ThreadsKept(c, s, m);
  }

  lemma OrderKept(c: Config, s: State, m: Move)
    requires Inv(c, s) && Enabled(c, s, m) && Passed(c, s, After(c, s, m), PassingOf(c, s, m))
    requires ThreadDelta(c, s, After(c, s, m), m.thread, After(c, s, m).threads[m.thread])
    ensures Shape(c, After(c, s, m))
    ensures forall k :: Fifo(c, After(c, s, m), k) && Bounded(c, After(c, s, m), k)
  {
    var t := After(c, s, m);
    forall k ensures BufferFits(c, k, Buf(t, k)) && Fifo(c, t, k) && Bounded(c, t, k) {
      BufferKept(c, s, t, PassingOf(c, s, m), k);
      FifoKept(c, s, t, PassingOf(c, s, m), k);
      BoundedKept(c, s, m, k);
    }
    QueueEmptyInSync(c, s, t, PassingOf(c, s, m), m);
  }

  lemma QueueEmptyInSync(c: Config, s: State, t: State, p: Passing, m: Move)
    requires Shape(c, s) && Enabled(c, s, m) && p == PassingOf(c, s, m) && Passed(c, s, t, p)
    ensures !c.async ==> t.queue == []
  {
    assert PlaceFits(c, m.thread, s.threads[m.thread]);
  }

  lemma ThreadsKept(c: Config, s: State, m: Move)
    requires Inv(c, s) && Enabled(c, s, m) && Passed(c, s, After(c, s, m), PassingOf(c, s, m))
    requires ThreadDelta(c, s, After(c, s, m), m.thread, After(c, s, m).threads[m.thread])
    ensures forall i :: 0 <= i < |s.threads| ==> PerThread(c, After(c, s, m), After(c, s, m).threads[i])
  {
    var t := After(c, s, m);
    GrownByMove(c, s, m);
    forall i | 0 <= i < |s.threads| ensures PerThread(c, t, t.threads[i]) {
      assert PerThread(c, s, s.threads[i]);
      if i == m.thread {
        FlightBoundedKept(c, s, m);
        BarrierMoves(c, s, m);
      } else {
        BarrierStable(c, s, t, s.threads[i]);
      }
    }
  }

  lemma {:induction false} InvAlways(c: Config, s: State, moves: seq<Move>)
    requires Inv(c, s) && Runs(c, s, moves)
    ensures Inv(c, Final(c, s, moves))
    decreases moves
  {
    if moves != [] {
      InvKept(c, s, moves[0]);
      InvAlways(c, After(c, s, moves[0]), moves[1..]);
    }
  }
}
