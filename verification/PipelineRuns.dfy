/** Runs built one move at a time. */
module PipelineRuns {
  import opened Core
  import opened Pipeline
  import opened PipelineProperties

  lemma RunStep(c: Config, s: State, m: Move, rest: seq<Move>)
    requires Enabled(c, s, m) && Runs(c, After(c, s, m), rest)
    ensures Runs(c, s, [m] + rest) && Final(c, s, [m] + rest) == Final(c, After(c, s, m), rest)
  {
    assert ([m] + rest)[1..] == rest;
  }

  lemma {:induction false} RunSnoc(c: Config, s: State, moves: seq<Move>, m: Move)
    requires Runs(c, s, moves) && Enabled(c, Final(c, s, moves), m)
    ensures Runs(c, s, moves + [m]) && Final(c, s, moves + [m]) == After(c, Final(c, s, moves), m)
    decreases moves
  {
    if moves == [] {
      RunStep(c, s, m, []);
      assert moves + [m] == [m] + [];
    } else {
      RunSnoc(c, After(c, s, moves[0]), moves[1..], m);
      RunStep(c, s, moves[0], moves[1..] + [m]);
      assert moves + [m] == [moves[0]] + (moves[1..] + [m]);
    }
  }

  lemma {:induction false} ReachMore(c: Config, s: State, m: Move)
    requires Reachable(c, s) && Enabled(c, s, m)
    ensures Reachable(c, After(c, s, m))
  {
    var threads: nat, moves :| Runs(c, Init(threads), moves) && Final(c, Init(threads), moves) == s;
    RunSnoc(c, Init(threads), moves, m);
  }

  /** What is reached from a reachable state is reachable. */
  lemma {:induction false} ReachRun(c: Config, s: State, moves: seq<Move>)
    requires Reachable(c, s) && Runs(c, s, moves)
    ensures Reachable(c, Final(c, s, moves))
    decreases moves
  {
    if moves != [] {
      ReachMore(c, s, moves[0]);
      ReachRun(c, After(c, s, moves[0]), moves[1..]);
    }
  }

  /** A move that neither starts a Flush nor lets the transport answer. */
  predicate IsQuiet(m: Move) {
    !m.action.StartFlush? && !m.action.Answer?
  }

  predicate Quietly(c: Config, s: State, moves: seq<Move>) {
    Runs(c, s, moves) && forall j :: 0 <= j < |moves| ==> IsQuiet(moves[j])
  }

  /** Quiet moves lead from o to s. */
  ghost predicate Leads(c: Config, o: State, s: State) {
    exists moves :: Quietly(c, o, moves) && Final(c, o, moves) == s
  }

  lemma LeadsSelf(c: Config, s: State)
    ensures Leads(c, s, s)
  {
    assert Quietly(c, s, []) && Final(c, s, []) == s;
  }

  lemma {:induction false} LeadsMore(c: Config, o: State, s: State, m: Move)
    requires Leads(c, o, s) && Enabled(c, s, m) && IsQuiet(m)
    ensures Leads(c, o, After(c, s, m))
  {
    var moves :| Quietly(c, o, moves) && Final(c, o, moves) == s;
    RunSnoc(c, o, moves, m);
    assert Quietly(c, o, moves + [m]);
  }

  lemma LeadsReaches(c: Config, threads: nat, s: State)
    requires Leads(c, Init(threads), s)
    ensures Reachable(c, s)
  {
    var moves :| Quietly(c, Init(threads), moves) && Final(c, Init(threads), moves) == s;
  }

  lemma {:induction false} LeadsFrom(c: Config, o: State, s: State)
    requires Reachable(c, o) && Leads(c, o, s)
    ensures Reachable(c, s)
  {
    var moves :| Quietly(c, o, moves) && Final(c, o, moves) == s;
    ReachRun(c, o, moves);
  }

  /** What a call of Flush in s and quiet moves after it lead to. */
  lemma {:induction false} LeadsCompletes(c: Config, s: State, i: nat, t: State)
    requires Enabled(c, s, Move(i, StartFlush)) && Leads(c, After(c, s, Move(i, StartFlush)), t)
    requires i < |t.threads| && t.threads[i].Returned?
    ensures Completes(c, s, i, t)
  {
    var s1 := After(c, s, Move(i, StartFlush));
    var moves :| Quietly(c, s1, moves) && Final(c, s1, moves) == t;
    forall j | 0 <= j < |moves| ensures moves[j] != Move(i, StartFlush) {
      assert IsQuiet(moves[j]);
    }
    assert RunOfCall(c, s1, moves, i);
  }

  // One move each

  lemma {:induction false} Captures(c: Config, o: State, s: State, i: nat, x: Item) returns (t: State)
    requires Leads(c, o, s) && i < |s.threads| && s.threads[i].Ready? && !IsWorker(c, i)
    ensures Leads(c, o, t)
    ensures t == s.(threads := s.threads[i := if c.async then Entering(x) else Prepared(x)],
                    captured := s.captured + multiset{x})
  {
    LeadsMore(c, o, s, Move(i, CaptureEvent(x)));
    t := After(c, s, Move(i, CaptureEvent(x)));
  }

  lemma {:induction false} Adds(c: Config, o: State, s: State, i: nat, x: Item) returns (t: State)
    requires Leads(c, o, s) && i < |s.threads| && s.threads[i] == Entering(x)
    ensures Leads(c, o, t)
    ensures t == s.(threads := s.threads[i := Selecting(x)], pending := s.pending + 1)
  {
    LeadsMore(c, o, s, Move(i, Advance));
    t := After(c, s, Move(i, Advance));
  }

  lemma {:induction false} Accepts(c: Config, o: State, s: State, i: nat, x: Item) returns (t: State)
    requires Leads(c, o, s) && i < |s.threads| && s.threads[i] == Selecting(x) && |s.queue| < c.queueSize
    ensures Leads(c, o, t)
    ensures t == s.(threads := s.threads[i := Ready], queue := s.queue + [x], order := s.order + [x])
  {
    LeadsMore(c, o, s, Move(i, Advance));
    t := After(c, s, Move(i, Advance));
  }

  lemma {:induction false} Refuses(c: Config, o: State, s: State, i: nat, x: Item) returns (t: State)
    requires Leads(c, o, s) && i < |s.threads| && s.threads[i] == Selecting(x) && |s.queue| >= c.queueSize
    ensures Leads(c, o, t)
    ensures t == s.(threads := s.threads[i := Refused(x)])
  {
    LeadsMore(c, o, s, Move(i, Advance));
    t := After(c, s, Move(i, Advance));
  }

  lemma {:induction false} GivesUp(c: Config, o: State, s: State, i: nat, x: Item) returns (t: State)
    requires Leads(c, o, s) && i < |s.threads| && s.threads[i] == Refused(x)
    ensures Leads(c, o, t)
    ensures t == s.(threads := s.threads[i := Counting(x)], pending := s.pending - 1)
  {
    LeadsMore(c, o, s, Move(i, Advance));
    t := After(c, s, Move(i, Advance));
  }

  lemma {:induction false} Counts(c: Config, o: State, s: State, i: nat, x: Item) returns (t: State)
    requires Leads(c, o, s) && i < |s.threads| && s.threads[i] == Counting(x)
    ensures Leads(c, o, t)
    ensures t == s.(threads := s.threads[i := Dropping(x)], dropped := s.dropped + 1)
  {
    LeadsMore(c, o, s, Move(i, Advance));
    t := After(c, s, Move(i, Advance));
  }

  lemma {:induction false} Drops(c: Config, o: State, s: State, i: nat, x: Item) returns (t: State)
    requires Leads(c, o, s) && i < |s.threads| && s.threads[i] == Dropping(x)
    ensures Leads(c, o, t)
    ensures t == s.(threads := s.threads[i := Ready], refused := s.refused + multiset{x})
  {
    LeadsMore(c, o, s, Move(i, Advance));
    t := After(c, s, Move(i, Advance));
  }

  lemma {:induction false} Receives(c: Config, o: State, s: State, x: Item) returns (t: State)
    requires Leads(c, o, s) && c.async && s.threads != [] && s.threads[0].Ready? && s.queue == [x]
    ensures Leads(c, o, t)
    ensures t == s.(threads := s.threads[0 := Prepared(x)], queue := [])
  {
    LeadsMore(c, o, s, Move(0, Receive));
    t := After(c, s, Move(0, Receive));
  }

  lemma {:induction false} Dispatches(c: Config, o: State, s: State, i: nat, x: Item) returns (t: State)
    requires Leads(c, o, s) && i < |s.threads| && s.threads[i] == Prepared(x)
    ensures Leads(c, o, t)
    ensures t == Dispatched(c, s, i, x)
  {
    LeadsMore(c, o, s, Move(i, Advance));
    t := After(c, s, Move(i, Advance));
  }

  lemma {:induction false} Finishes(c: Config, o: State, s: State, i: nat) returns (t: State)
    requires Leads(c, o, s) && i < |s.threads| && s.threads[i] == Finishing
    ensures Leads(c, o, t)
    ensures t == s.(threads := s.threads[i := Ready], pending := s.pending - 1)
  {
    LeadsMore(c, o, s, Move(i, Advance));
    t := After(c, s, Move(i, Advance));
  }

  lemma {:induction false} Ticks(c: Config, o: State, s: State) returns (t: State)
    requires Leads(c, o, s) && c.async && s.threads != [] && s.threads[0].Ready?
    ensures Leads(c, o, t)
    ensures t == s.(threads := s.threads[0 := Locking(Error, Ticker)])
  {
    LeadsMore(c, o, s, Move(0, Tick));
    t := After(c, s, Move(0, Tick));
  }

  lemma {:induction false} Takes(c: Config, o: State, s: State, i: nat, k: EventType, origin: Origin) returns (t: State)
    requires Leads(c, o, s) && i < |s.threads| && s.threads[i] == Locking(k, origin)
    ensures Leads(c, o, t)
    ensures var items := Buf(s, k);
            var next := if items == [] then Resume(c, k, origin) else Holding(k, items, origin);
            t == s.(threads := s.threads[i := next], buffers := s.buffers[k := []], taken := s.taken + items)
  {
    LeadsMore(c, o, s, Move(i, Advance));
    t := After(c, s, Move(i, Advance));
  }

  lemma {:induction false} Calls(c: Config, o: State, s: State, i: nat, k: EventType, items: seq<Item>, origin: Origin)
    returns (t: State)
    requires Leads(c, o, s) && i < |s.threads| && s.threads[i] == Holding(k, items, origin)
    ensures Leads(c, o, t)
    ensures t == s.(threads := s.threads[i := Calling(k, items, origin)],
                    given := s.given + multiset(items), sent := s.sent + items)
  {
    LeadsMore(c, o, s, Move(i, Advance));
    t := After(c, s, Move(i, Advance));
  }

  lemma {:induction false} Awakes(c: Config, o: State, s: State, i: nat, n: nat) returns (t: State)
    requires Leads(c, o, s) && i < |s.threads| && s.threads[i] == Waiting(n) && s.pending == 0
    ensures Leads(c, o, t)
    ensures t == s.(threads := s.threads[i := Released(n)])
  {
    LeadsMore(c, o, s, Move(i, Advance));
    t := After(c, s, Move(i, Advance));
  }

  lemma {:induction false} Locks(c: Config, o: State, s: State, i: nat, n: nat) returns (t: State)
    requires Leads(c, o, s) && i < |s.threads| && s.threads[i] == Released(n)
    ensures Leads(c, o, t)
    ensures t == s.(threads := s.threads[i := Locking(Error, Flush(n))])
  {
    LeadsMore(c, o, s, Move(i, Advance));
    t := After(c, s, Move(i, Advance));
  }

  // A few moves together

  lemma {:induction false} EnqueueAlone(c: Config, o: State, s: State, i: nat, x: Item) returns (t: State)
    requires Leads(c, o, s) && c.async && 0 < i < |s.threads| && s.threads[i].Ready? && |s.queue| < c.queueSize
    ensures Leads(c, o, t)
    ensures t == s.(queue := s.queue + [x], order := s.order + [x], pending := s.pending + 1,
                    captured := s.captured + multiset{x})
  {
    t := Captures(c, o, s, i, x);
    t := Adds(c, o, t, i, x);
    t := Accepts(c, o, t, i, x);
    assert t.threads == s.threads;
  }

  lemma {:induction false} DropAlone(c: Config, o: State, s: State, i: nat, x: Item) returns (t: State)
    requires Leads(c, o, s) && c.async && 0 < i < |s.threads| && s.threads[i].Ready? && |s.queue| >= c.queueSize
    ensures Leads(c, o, t)
    ensures t == s.(dropped := s.dropped + 1, captured := s.captured + multiset{x}, refused := s.refused + multiset{x})
  {
    t := Captures(c, o, s, i, x);
    t := Adds(c, o, t, i, x);
    t := Refuses(c, o, t, i, x);
    t := GivesUp(c, o, t, i, x);
    t := DropReported(c, o, t, i, x);
    assert t.threads == s.threads;
  }

  lemma {:induction false} DropReported(c: Config, o: State, s: State, i: nat, x: Item) returns (t: State)
    requires Leads(c, o, s) && i < |s.threads| && s.threads[i] == Counting(x)
    ensures Leads(c, o, t)
    ensures t == s.(threads := s.threads[i := Ready], dropped := s.dropped + 1, refused := s.refused + multiset{x})
  {
    t := Counts(c, o, s, i, x);
    t := Drops(c, o, t, i, x);
  }

  /** Up to the buffer, when it does not fill up. */
  lemma {:induction false} BufferAlone(c: Config, o: State, s: State, x: Item) returns (t: State)
    requires Leads(c, o, s) && c.async && s.threads != [] && s.threads[0].Ready? && s.queue == [x]
    requires !Direct(c, x.kind) && |Buf(s, x.kind)| + 1 < c.batchSize
    ensures Leads(c, o, t)
    ensures t == s.(queue := [], pending := s.pending - 1, buffers := s.buffers[x.kind := Buf(s, x.kind) + [x]])
  {
    t := Receives(c, o, s, x);
    t := Dispatches(c, o, t, 0, x);
    t := Finishes(c, o, t, 0);
    assert t.threads == s.threads;
  }

  /** CaptureEvent in sync mode, up to the end of the locked section. */
  lemma {:induction false} CaptureInSync(c: Config, o: State, s: State, i: nat, x: Item) returns (t: State)
    requires Leads(c, o, s) && !c.async && i < |s.threads| && s.threads[i].Ready? && !Direct(c, x.kind)
    ensures Leads(c, o, t)
    ensures Buf(t, x.kind) == Buf(s, x.kind) + [x] && t.captured == s.captured + multiset{x} && t.queue == s.queue
    ensures t.threads == s.threads[i := if |Buf(s, x.kind)| + 1 >= c.batchSize then Locking(x.kind, Capture) else Ready]
  {
    t := Captures(c, o, s, i, x);
    t := Dispatches(c, o, t, i, x);
  }

  lemma {:induction false} TakeAndCall(c: Config, o: State, s: State, i: nat, k: EventType, origin: Origin)
    returns (t: State)
    requires Leads(c, o, s) && i < |s.threads| && s.threads[i] == Locking(k, origin) && Buf(s, k) != []
    ensures Leads(c, o, t) && t.captured == s.captured
    ensures t.threads == s.threads[i := Calling(k, Buf(s, k), origin)]
  {
    t := Takes(c, o, s, i, k, origin);
    t := Calls(c, o, t, i, k, Buf(s, k), origin);
  }

  // Reaching a batch

  /** Some goroutine can call CaptureEvent. */
  predicate HasCaller(c: Config, threads: nat) {
    threads >= if c.async then 2 else 1
  }

  predicate OfKind(items: seq<Item>, k: EventType) {
    forall x :: x in items ==> x.kind == k
  }

  /** Events of one type are captured one by one, and stay in the buffer as long as it does not fill up. */
  lemma {:induction false} FillBuffer(c: Config, threads: nat, k: EventType, items: seq<Item>) returns (s: State)
    requires HasCaller(c, threads) && !Direct(c, k) && OfKind(items, k) && |items| < c.batchSize
    ensures Leads(c, Init(threads), s) && s.threads == Init(threads).threads
    ensures Buf(s, k) == items && s.queue == [] && s.captured == multiset(items)
  {
    if items == [] {
      s := Init(threads);
      LeadsSelf(c, s);
    } else {
      var n := |items| - 1;
      var r := FillBuffer(c, threads, k, items[..n]);
      assert items == items[..n] + [items[n]];
      if c.async {
        s := EnqueueAlone(c, Init(threads), r, 1, items[n]);
        s := BufferAlone(c, Init(threads), s, items[n]);
      } else {
        s := CaptureInSync(c, Init(threads), r, 0, items[n]);
      }
    }
  }

  /** One more event fills the buffer, and its thread gives the batch to the transport. */
  lemma {:induction false} SendBatch(c: Config, threads: nat, k: EventType, items: seq<Item>) returns (s: State)
    requires HasCaller(c, threads) && !Direct(c, k) && OfKind(items, k) && |items| == c.batchSize
    ensures Leads(c, Init(threads), s) && |s.threads| == threads
    ensures s.threads[0].Calling? && s.threads[0].items == items && s.captured == multiset(items)
  {
    var n := |items| - 1;
    s := FillBuffer(c, threads, k, items[..n]);
    assert items == items[..n] + [items[n]];
    s := FillUp(c, Init(threads), s, items[n]);
    s := TakeAndCall(c, Init(threads), s, 0, k, Capture);
  }

  lemma {:induction false} FillUp(c: Config, o: State, s: State, x: Item) returns (t: State)
    requires Leads(c, o, s) && HasCaller(c, |s.threads|) && (forall i :: 0 <= i < |s.threads| ==> s.threads[i].Ready?)
    requires !Direct(c, x.kind) && |Buf(s, x.kind)| + 1 == c.batchSize && s.queue == []
    ensures Leads(c, o, t) && t.threads == s.threads[0 := Locking(x.kind, Capture)]
    ensures Buf(t, x.kind) == Buf(s, x.kind) + [x] && t.captured == s.captured + multiset{x}
  {
    if c.async {
      t := EnqueueAlone(c, o, s, 1, x);
      t := Receives(c, o, t, x);
      t := Dispatches(c, o, t, 0, x);
    } else {
      t := CaptureInSync(c, o, s, 0, x);
    }
  }

  lemma {:induction false} SendDirectly(c: Config, threads: nat, x: Item) returns (s: State)
    requires HasCaller(c, threads) && Direct(c, x.kind)
    ensures Leads(c, Init(threads), s) && |s.threads| == threads
    ensures s.threads[0].Calling? && s.threads[0].items == [x] && s.captured == multiset{x}
  {
    var o := Init(threads);
    LeadsSelf(c, o);
    if c.async {
      s := EnqueueAlone(c, o, o, 1, x);
      s := Receives(c, o, s, x);
    } else {
      s := Captures(c, o, o, 0, x);
    }
    s := Dispatches(c, o, s, 0, x);
    s := Calls(c, o, s, 0, x.kind, [x], Capture);
  }

  /** Any event can come to be in the transport, as often as it was captured. */
  lemma {:induction false} SendCopies(c: Config, threads: nat, x: Item) returns (s: State)
    requires HasCaller(c, threads)
    ensures Leads(c, Init(threads), s) && |s.threads| == threads
    ensures s.threads[0].Calling? && s.threads[0].items != [] && x in s.threads[0].items
    ensures s.captured == multiset(s.threads[0].items)
  {
    if Direct(c, x.kind) {
      s := SendDirectly(c, threads, x);
    } else {
      var items := seq(c.batchSize, _ => x);
      assert items[0] == x;
      s := SendBatch(c, threads, x.kind, items);
    }
  }
}
