/** What the threads of the pipeline can do next, how soon they are done, and what the transport's answers lead to. */
module PipelineProgress {
  import opened Core
  import opened Sums
  import opened Pipeline
  import opened PipelineInvariants
  import opened PipelineTheorems
  import opened PipelineProperties

  // Choices

  /** What each thread can do next. Only a Flush waits, and it can always be cancelled. */
  lemma {:induction false} Choices(c: Config, s: State, i: nat, x: Item, result: TransportResult)
    requires i < |s.threads|
    ensures var pc := s.threads[i];
            var worker := c.async && i == 0;
            && (Enabled(c, s, Move(i, CaptureEvent(x))) <==> pc.Ready? && !worker)
            && (Enabled(c, s, Move(i, StartFlush)) <==> pc.Ready? && !worker)
            && (Enabled(c, s, Move(i, Tick)) <==> pc.Ready? && worker)
            && (Enabled(c, s, Move(i, Receive)) <==> pc.Ready? && worker && |s.queue| > 0)
            && (Enabled(c, s, Move(i, Cancel)) <==> pc.Waiting? || pc.Released?)
            && (Enabled(c, s, Move(i, Answer(result))) <==> pc.Calling?)
            && (Enabled(c, s, Move(i, Advance)) <==>
                  if pc.Waiting? then s.pending == 0 else !pc.Ready? && !pc.Calling?)
  {
  }

  // Everything but waiting in Flush is over after a few moves

  /** Moves left until the thread is back from what it is doing; 0 where it waits or is idle. */
  function WorkRank(pc: Pc): nat {
    match pc
    case Prepared(_) => 6
    case Finishing => 1
    case Released(_) => 9
    case Locking(k, origin) => 4 + RankAfter(k, origin)
    case Holding(k, _, origin) => 3 + RankAfter(k, origin)
    case Calling(k, _, origin) => 2 + RankAfter(k, origin)
    case Answered(k, _, origin, _) => 1 + RankAfter(k, origin)
    case _ => EnqueueRank(pc)
  }

  function RankAfter(k: EventType, origin: Origin): nat {
    if origin == Capture then 1 else if k == Error then 4 else 0
  }

  predicate Back(pc: Pc) {
    pc.Ready? || pc.Returned?
  }

  /** A thread at work can move, and each of its moves brings it nearer to the end. */
  lemma {:induction false} WorkMoves(c: Config, s: State, m: Move)
    requires m.thread < |s.threads| && WorkRank(s.threads[m.thread]) > 0
    ensures || Enabled(c, s, Move(m.thread, Advance))
            || Enabled(c, s, Move(m.thread, Answer(TransportResult(0, "", 0, false))))
    ensures Enabled(c, s, m) ==>
              var t := After(c, s, m);
              && |t.threads| == |s.threads|
              && WorkRank(t.threads[m.thread]) < WorkRank(s.threads[m.thread])
              && (WorkRank(t.threads[m.thread]) > 0 || Back(t.threads[m.thread]))
  {
    if Enabled(c, s, m) && m.action.Advance? {
      WorkAdvances(c, s, m.thread);
    }
  }

  predicate Nearer(s: State, t: State, i: nat)
    requires i < |s.threads|
  {
    && |t.threads| == |s.threads| && WorkRank(t.threads[i]) < WorkRank(s.threads[i])
    && (WorkRank(t.threads[i]) > 0 || Back(t.threads[i]))
  }

  lemma {:induction false} WorkAdvances(c: Config, s: State, i: nat)
    requires Enabled(c, s, Move(i, Advance)) && WorkRank(s.threads[i]) > 0
    ensures Nearer(s, Advanced(c, s, i), i)
  {
    var pc := s.threads[i];
    if pc.Locking? || pc.Answered? {
      FlushTypeAdvances(c, s, i);
    } else if pc.Prepared? {
      CaptureAdvances(c, s, i);
    } else {
      OtherAdvances(c, s, i);
    }
  }

  lemma {:induction false} FlushTypeAdvances(c: Config, s: State, i: nat)
    requires Enabled(c, s, Move(i, Advance)) && (s.threads[i].Locking? || s.threads[i].Answered?)
    ensures Nearer(s, Advanced(c, s, i), i)
  {
    ResumeNearer(c, s.threads[i].kind, s.threads[i].origin);
    if s.threads[i].Locking? {
      LockAdvances(c, s, i);
    } else {
      HandleAdvances(c, s, i);
    }
  }

  lemma {:induction false} ResumeNearer(c: Config, k: EventType, origin: Origin)
    ensures var q := Resume(c, k, origin); WorkRank(q) <= RankAfter(k, origin) && (WorkRank(q) > 0 || Back(q))
  {
  }

  lemma {:induction false} LockAdvances(c: Config, s: State, i: nat)
    requires Enabled(c, s, Move(i, Advance)) && s.threads[i].Locking?
    ensures var t, pc := Advanced(c, s, i), s.threads[i];
            && |t.threads| == |s.threads|
            && (t.threads[i] == Resume(c, pc.kind, pc.origin)
                || t.threads[i] == Holding(pc.kind, Buf(s, pc.kind), pc.origin))
  {
  }

  lemma {:induction false} HandleAdvances(c: Config, s: State, i: nat)
    requires Enabled(c, s, Move(i, Advance)) && s.threads[i].Answered?
    ensures var t, pc := Advanced(c, s, i), s.threads[i];
            |t.threads| == |s.threads| && t.threads[i] == Resume(c, pc.kind, pc.origin)
  {
  }

  lemma {:induction false} CaptureAdvances(c: Config, s: State, i: nat)
    requires Enabled(c, s, Move(i, Advance)) && s.threads[i].Prepared?
    ensures Nearer(s, Advanced(c, s, i), i)
  {
  }

  lemma {:induction false} OtherAdvances(c: Config, s: State, i: nat)
    requires Enabled(c, s, Move(i, Advance)) && WorkRank(s.threads[i]) > 0
    requires !s.threads[i].Locking? && !s.threads[i].Answered? && !s.threads[i].Prepared?
    ensures Nearer(s, Advanced(c, s, i), i)
  {
  }

  predicate BackAfter(c: Config, s: State, moves: seq<Move>, j: nat, i: nat) {
    && j <= |moves| && Runs(c, s, moves[..j])
    && var t := Final(c, s, moves[..j]);
       i < |t.threads| && Back(t.threads[i])
  }

  /**
    A capture, a round of the ticker and a Flush that has stopped waiting are over after at
    most nine moves of their own thread, whatever the other threads do in between; one of
    these moves is each answer of the transport.
   */
  lemma {:induction false} WorkFinishes(c: Config, s: State, moves: seq<Move>, i: nat)
    requires Runs(c, s, moves) && i < |s.threads| && WorkRank(s.threads[i]) > 0
    requires MovesOf(i, moves) >= WorkRank(s.threads[i])
    ensures exists j :: 0 < j <= |moves| && BackAfter(c, s, moves, j, i)
    decreases moves
  {
    var m, rest := moves[0], moves[1..];
    var t := After(c, s, m);
    if m.thread == i {
      WorkMoves(c, s, m);
    } else {
      OthersStay(c, s, m, i);
    }
    if Back(t.threads[i]) {
      assert moves[..1] == [m];
      assert Runs(c, t, []) && Final(c, s, [m]) == t;
      assert BackAfter(c, s, moves, 1, i);
    } else {
      WorkFinishes(c, t, rest, i);
      var j :| 0 < j <= |rest| && BackAfter(c, t, rest, j, i);
      BackLater(c, s, moves, j, i);
    }
  }

  lemma {:induction false} BackLater(c: Config, s: State, moves: seq<Move>, j: nat, i: nat)
    requires moves != [] && Enabled(c, s, moves[0]) && BackAfter(c, After(c, s, moves[0]), moves[1..], j, i)
    ensures BackAfter(c, s, moves, j + 1, i)
  {
    assert moves[..j + 1][1..] == moves[1..][..j] && moves[..j + 1][0] == moves[0];
  }

  /** The bound that holds of all of them. */
  lemma {:induction false} WorkIsShort(pc: Pc)
    ensures WorkRank(pc) <= 9
    ensures WorkRank(pc) == 0 <==> pc.Ready? || pc.Waiting? || pc.Returned?
  {
  }

  // What the transport's answers lead to

  predicate Succeeded(r: TransportResult) {
    r.errorMessage == "" && (200 <= r.statusCode <= 299 || r.duplicate)
  }

  /** Copies of x in the batches that the transport answered along these moves, with or without success. */
  function AnsweredCopies(c: Config, s: State, moves: seq<Move>, x: Item, ok: bool): nat
    requires Runs(c, s, moves)
    decreases moves
  {
    if moves == [] then 0
    else
      var m := moves[0];
      (if m.action.Answer? && Succeeded(m.action.result) == ok then Copies(s.threads[m.thread].items, x) else 0)
      + AnsweredCopies(c, After(c, s, m), moves[1..], x, ok)
  }

  /** Copies of x in a batch whose answer has not been handled. */
  function Unhandled(x: Item, ok: bool, pc: Pc): nat {
    if pc.Answered? && Succeeded(pc.result) == ok then Copies(pc.items, x) else 0
  }

  function UnhandledShares(x: Item, ok: bool): Pc -> nat {
    pc => Unhandled(x, ok, pc)
  }

  function Outcomes(s: State, x: Item, ok: bool): nat {
    if ok then s.acked[x] else s.failed[x]
  }

  lemma {:induction false} OutcomeMove(c: Config, s: State, m: Move, x: Item, ok: bool)
    requires Enabled(c, s, m)
    ensures var t := After(c, s, m);
            && |t.threads| == |s.threads|
            && Outcomes(t, x, ok) + Unhandled(x, ok, t.threads[m.thread]) ==
               Outcomes(s, x, ok) + Unhandled(x, ok, s.threads[m.thread]) +
               if m.action.Answer? && Succeeded(m.action.result) == ok then Copies(s.threads[m.thread].items, x) else 0
  {
    if m.action.Advance? {
      OutcomeAdvance(c, s, m.thread, x, ok);
    }
  }

  predicate SameOutcomes(s: State, t: State, i: nat, x: Item, ok: bool)
    requires i < |s.threads|
  {
    && |t.threads| == |s.threads|
    && Outcomes(t, x, ok) + Unhandled(x, ok, t.threads[i]) == Outcomes(s, x, ok) + Unhandled(x, ok, s.threads[i])
  }

  lemma {:induction false} OutcomeAdvance(c: Config, s: State, i: nat, x: Item, ok: bool)
    requires Enabled(c, s, Move(i, Advance))
    ensures SameOutcomes(s, Advanced(c, s, i), i, x, ok)
  {
    if s.threads[i].Answered? {
      OutcomeHandled(c, s, i, x, ok);
    } else if s.threads[i].Prepared? || s.threads[i].Locking? {
      OutcomeBuffered(c, s, i, x, ok);
    } else {
      OutcomeElsewhere(c, s, i, x, ok);
    }
  }

  lemma {:induction false} OutcomeHandled(c: Config, s: State, i: nat, x: Item, ok: bool)
    requires Enabled(c, s, Move(i, Advance)) && s.threads[i].Answered?
    ensures SameOutcomes(s, Advanced(c, s, i), i, x, ok)
  {
  }

  lemma {:induction false} OutcomeBuffered(c: Config, s: State, i: nat, x: Item, ok: bool)
    requires Enabled(c, s, Move(i, Advance)) && (s.threads[i].Prepared? || s.threads[i].Locking?)
    ensures SameOutcomes(s, Advanced(c, s, i), i, x, ok)
  {
  }

  lemma {:induction false} OutcomeElsewhere(c: Config, s: State, i: nat, x: Item, ok: bool)
    requires Enabled(c, s, Move(i, Advance))
    requires !s.threads[i].Answered? && !s.threads[i].Prepared? && !s.threads[i].Locking?
    ensures SameOutcomes(s, Advanced(c, s, i), i, x, ok)
  {
  }

  lemma {:induction false} OutcomesAlong(c: Config, s: State, moves: seq<Move>, x: Item, ok: bool)
    requires Inv(c, s) && Runs(c, s, moves)
    ensures var t := Final(c, s, moves);
            Outcomes(t, x, ok) + Sum(UnhandledShares(x, ok), t.threads) ==
            Outcomes(s, x, ok) + Sum(UnhandledShares(x, ok), s.threads) + AnsweredCopies(c, s, moves, x, ok)
    decreases moves
  {
    if moves != [] {
      var m, t := moves[0], After(c, s, moves[0]);
      OutcomeMove(c, s, m, x, ok);
      MoveDelta(c, s, m, x);
      SumUpdate(UnhandledShares(x, ok), s.threads, m.thread, t.threads[m.thread]);
      InvKept(c, s, m);
      OutcomesAlong(c, t, moves[1..], x, ok);
    }
  }

  /**
    What is acknowledged is what the transport answered with success: no error, and a 2xx or a
    duplicate. What is reported as failed is what it answered otherwise. Both up to the
    answers that are still being handled.
   */
  lemma {:induction false} SettledByAnswers(c: Config, threads: nat, moves: seq<Move>, x: Item)
    requires Runs(c, Init(threads), moves)
    ensures var t := Final(c, Init(threads), moves);
            && t.acked[x] + Sum(UnhandledShares(x, true), t.threads) == AnsweredCopies(c, Init(threads), moves, x, true)
            && t.failed[x] + Sum(UnhandledShares(x, false), t.threads) ==
               AnsweredCopies(c, Init(threads), moves, x, false)
  {
    InvInit(c, threads);
    OutcomesAlong(c, Init(threads), moves, x, true);
    OutcomesAlong(c, Init(threads), moves, x, false);
    SumZero(UnhandledShares(x, true), Init(threads).threads);
    SumZero(UnhandledShares(x, false), Init(threads).threads);
  }
}
