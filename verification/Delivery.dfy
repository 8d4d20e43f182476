/**
  The pipeline, the retrying transport and the ingest server together.

  The network may lose any request before or after the server handled it. The server
  keeps one row per event id and does nothing on a conflict; for a payload that carries no
  usable id it mints one for each request. A 2xx or a 409 comes only from a server that
  handled the request and holds every event in it.
 */
module Delivery {
  import opened Core
  import opened Sums
  import opened Pipeline
  import opened PipelineInvariants
  import opened PipelineTheorems
  import opened HttpTransport
  import Payload

  // The server

  /** The payload of each event as preparePayload left it. */
  type Load = Item -> Payload.Object

  function IdOf(payload: Payload.Object): Option<string> {
    if Payload.HasId(payload) then Some(payload["eventId"].s) else None
  }

  datatype Key = Supplied(id: string) | Minted(serial: nat)

  datatype Row = Row(key: Key, item: Item)

  predicate Holds(rows: seq<Row>, key: Key) {
    exists j :: 0 <= j < |rows| && rows[j].key == key
  }

  /** The key of x when it is stored as row number n. */
  function KeyOf(load: Load, x: Item, n: nat): Key {
    match IdOf(load(x))
    case Some(id) => Supplied(id)
    case None => Minted(n)
  }

  function Insert(load: Load, rows: seq<Row>, x: Item): seq<Row> {
    var key := KeyOf(load, x, |rows|);
    if Holds(rows, key) then rows else rows + [Row(key, x)]
  }

  function StoreAll(load: Load, rows: seq<Row>, items: seq<Item>): seq<Row>
    decreases items
  {
    if items == [] then rows else StoreAll(load, Insert(load, rows, items[0]), items[1..])
  }

  function Stored(rows: seq<Row>, x: Item): nat {
    if rows == [] then 0 else (if rows[0].item == x then 1 else 0) + Stored(rows[1..], x)
  }

  /** Some row answers for x: its own, or, if it carries an id, the row of that id. */
  predicate Held(load: Load, rows: seq<Row>, x: Item) {
    match IdOf(load(x))
    case Some(id) => Holds(rows, Supplied(id))
    case None => Stored(rows, x) > 0
  }

  predicate AllHeld(load: Load, rows: seq<Row>, items: seq<Item>) {
    forall x :: x in items ==> Held(load, rows, x)
  }

  /** No two rows share a key, and each row has the key of its event. */
  predicate Keyed(load: Load, rows: seq<Row>) {
    && (forall j, k :: 0 <= j < k < |rows| ==> rows[j].key != rows[k].key)
    && (forall j :: 0 <= j < |rows| ==> rows[j].key == KeyOf(load, rows[j].item, j))
  }

  lemma {:induction false} StoredAppend(rows: seq<Row>, row: Row, x: Item)
    ensures Stored(rows + [row], x) == Stored(rows, x) + if row.item == x then 1 else 0
  {
    if rows == [] {
      assert rows + [row] == [row];
    } else {
      assert (rows + [row])[1..] == rows[1..] + [row];
      StoredAppend(rows[1..], row, x);
    }
  }

  lemma {:induction false} StoredFind(rows: seq<Row>, x: Item)
    ensures Stored(rows, x) > 0 <==> exists j :: 0 <= j < |rows| && rows[j].item == x
  {
    if rows != [] {
      StoredFind(rows[1..], x);
      if j :| 0 <= j < |rows| && rows[j].item == x {
        assert j > 0 ==> rows[1..][j - 1].item == x;
      }
      if j :| 0 <= j < |rows| - 1 && rows[1..][j].item == x {
        assert rows[j + 1].item == x;
      }
    }
  }

  /** An event with an id is never stored twice. */
  lemma {:induction false} StoredOnce(load: Load, rows: seq<Row>, x: Item)
    requires Keyed(load, rows) && IdOf(load(x)).Some?
    ensures Stored(rows, x) <= 1
    ensures Stored(rows, x) == 1 ==> Held(load, rows, x)
    decreases |rows|
  {
    if rows != [] {
      var n := |rows| - 1;
      assert rows == rows[..n] + [rows[n]];
      StoredAppend(rows[..n], rows[n], x);
      StoredOnce(load, rows[..n], x);
      if rows[n].item == x {
        assert Holds(rows, Supplied(IdOf(load(x)).value));
        StoredFind(rows[..n], x);
      } else if Stored(rows, x) == 1 {
        HoldsKept(rows[..n], rows, Supplied(IdOf(load(x)).value));
      }
    }
  }

  lemma {:induction false} HoldsKept(rows: seq<Row>, more: seq<Row>, key: Key)
    requires rows <= more && Holds(rows, key)
    ensures Holds(more, key)
  {
    var j :| 0 <= j < |rows| && rows[j].key == key;
    assert more[j].key == key;
  }

  lemma {:induction false} HeldKept(load: Load, rows: seq<Row>, more: seq<Row>, x: Item)
    requires rows <= more && Held(load, rows, x)
    ensures Held(load, more, x)
  {
    match IdOf(load(x))
    case Some(id) => HoldsKept(rows, more, Supplied(id));
    case None =>
      StoredFind(rows, x);
      var j :| 0 <= j < |rows| && rows[j].item == x;
      assert more[j].item == x;
      StoredFind(more, x);
  }

  lemma {:induction false} InsertHolds(load: Load, rows: seq<Row>, x: Item)
    requires Keyed(load, rows)
    ensures var next := Insert(load, rows, x);
            && Keyed(load, next) && Held(load, next, x) && rows <= next
            && (next == rows || next == rows + [Row(KeyOf(load, x, |rows|), x)])
            && (IdOf(load(x)).None? ==> next != rows)
  {
    var key, next := KeyOf(load, x, |rows|), Insert(load, rows, x);
    if next != rows {
      assert next[|rows|].key == key;
      StoredAppend(rows, Row(key, x), x);
    }
  }

  /** Everything in a request that was handled is held afterwards, and nothing else was added. */
  lemma {:induction false} StoreAllHolds(load: Load, rows: seq<Row>, items: seq<Item>)
    requires Keyed(load, rows)
    ensures Keyed(load, StoreAll(load, rows, items)) && AllHeld(load, StoreAll(load, rows, items), items)
    ensures rows <= StoreAll(load, rows, items)
    ensures forall j :: |rows| <= j < |StoreAll(load, rows, items)| ==> StoreAll(load, rows, items)[j].item in items
    decreases items
  {
    if items != [] {
      var x, rest := items[0], items[1..];
      var next := Insert(load, rows, x);
      InsertHolds(load, rows, x);
      StoreAllHolds(load, next, rest);
      HeldKept(load, next, StoreAll(load, next, rest), x);
      forall y | y in items ensures Held(load, StoreAll(load, rows, items), y) {
        if y != x {
          assert y in rest;
        }
      }
    }
  }

  /** A request adds at most one row for each copy of x in it, and exactly one if x carries no id. */
  lemma {:induction false} StoreAllAdds(load: Load, rows: seq<Row>, items: seq<Item>, x: Item)
    requires Keyed(load, rows)
    ensures Stored(StoreAll(load, rows, items), x) <= Stored(rows, x) + Copies(items, x)
    ensures IdOf(load(x)).None? ==> Stored(StoreAll(load, rows, items), x) == Stored(rows, x) + Copies(items, x)
    decreases items
  {
    if items != [] {
      var next := Insert(load, rows, items[0]);
      InsertHolds(load, rows, items[0]);
      StoredAppend(rows, Row(KeyOf(load, items[0], |rows|), items[0]), x);
      StoreAllAdds(load, next, items[1..], x);
      CopiesCons(items, x);
    }
  }

  lemma {:induction false} CopiesCons(items: seq<Item>, x: Item)
    requires items != []
    ensures Copies(items, x) == (if items[0] == x then 1 else 0) + Copies(items[1..], x)
  {
    assert items == [items[0]] + items[1..];
  }

  // The whole system

  datatype Attempt = Attempt(reached: bool, outcome: Outcome)

  datatype World = World(pipe: State, runs: seq<seq<Attempt>>, rows: seq<Row>)

  datatype Step =
    | Local(move: Move)                                          // any move of the pipeline but the transport's answer
    | Try(thread: nat, attempt: Attempt)
    | Finish(thread: nat, cancelled: bool, reason: string)
    | MarshalFails(thread: nat, message: string)
    | NoAttempt(thread: nat)                                     // the attempt limit overflowed

  predicate Verdict(o: Outcome) {
    o.Response? && (200 <= o.status < 300 || o.status == CONFLICT)
  }

  function Outcomes(run: seq<Attempt>): seq<Outcome> {
    seq(|run|, k requires 0 <= k < |run| => run[k].outcome)
  }

  predicate InTransport(w: World, i: nat) {
    i < |w.pipe.threads| && i < |w.runs| && w.pipe.threads[i].Calling?
  }

  /** The system: how the provider and its transport are set up, and what the events carry. */
  datatype System = System(config: Config, maxRetries: nat, load: Load)

  predicate Can(y: System, w: World, step: Step) {
    match step
    case Local(m) => Enabled(y.config, w.pipe, m) && !m.action.Answer? && m.thread < |w.runs|
    case Try(i, a) =>
      && InTransport(w, i) && y.maxRetries < MAX_INT64 && |w.runs[i]| <= y.maxRetries
      && (forall k :: 0 <= k < |w.runs[i]| ==> Retriable(w.runs[i][k].outcome))
      && (Verdict(a.outcome) ==> a.reached)
    case Finish(i, cancelled, reason) =>
      InTransport(w, i) && Complete(y.maxRetries, Outcomes(w.runs[i]), cancelled) && reason != ""
    case MarshalFails(i, message) => InTransport(w, i) && w.runs[i] == [] && message != ""
    case NoAttempt(i) => InTransport(w, i) && y.maxRetries >= MAX_INT64
  }

  /** What the transport returns to its caller in this step. */
  function Returned(w: World, step: Step): TransportResult
    requires !step.Local? && !step.Try?
    requires step.Finish? ==> InTransport(w, step.thread) && w.runs[step.thread] != []
  {
    match step
    case Finish(i, cancelled, reason) => ResultOf(Outcomes(w.runs[i]), cancelled, reason)
    case MarshalFails(_, message) => TransportResult(0, message, 1, false)
    case NoAttempt(_) => TransportResult(0, "", 0, false)
  }

  function Do(y: System, w: World, step: Step): World
    requires Can(y, w, step)
  {
    match step
    case Local(m) => w.(pipe := After(y.config, w.pipe, m), runs := w.runs[m.thread := []])
    case Try(i, a) =>
      w.(runs := w.runs[i := w.runs[i] + [a]],
         rows := if a.reached then StoreAll(y.load, w.rows, w.pipe.threads[i].items) else w.rows)
    case _ => w.(pipe := After(y.config, w.pipe, Move(step.thread, Answer(Returned(w, step)))))
  }

  predicate History(y: System, w: World, steps: seq<Step>)
    decreases steps
  {
    steps == [] || (Can(y, w, steps[0]) && History(y, Do(y, w, steps[0]), steps[1..]))
  }

  function Last(y: System, w: World, steps: seq<Step>): World
    requires History(y, w, steps)
    decreases steps
  {
    if steps == [] then w else Last(y, Do(y, w, steps[0]), steps[1..])
  }

  function Start(threads: nat): World {
    World(Init(threads), seq(threads, _ => []), [])
  }

  // Invariant

  predicate ThreadHeld(load: Load, w: World, i: nat)
    requires i < |w.pipe.threads| && i < |w.runs|
  {
    match w.pipe.threads[i]
    case Calling(_, items, _) =>
      (exists k :: 0 <= k < |w.runs[i]| && w.runs[i][k].reached) ==> AllHeld(load, w.rows, items)
    case Answered(_, items, _, result) => result.IsSuccess() ==> AllHeld(load, w.rows, items)
    case _ => true
  }

  predicate RunHonest(run: seq<Attempt>) {
    forall k :: 0 <= k < |run| ==> Verdict(run[k].outcome) ==> run[k].reached
  }

  predicate CallsGiven(w: World) {
    forall i :: 0 <= i < |w.pipe.threads| && w.pipe.threads[i].Calling? ==>
      forall x :: x in w.pipe.threads[i].items ==> x in w.pipe.given
  }

  ghost predicate ServerInv(y: System, w: World) {
    && |w.runs| == |w.pipe.threads|
    && Keyed(y.load, w.rows)
    && (forall j :: 0 <= j < |w.rows| ==> w.rows[j].item in w.pipe.given)
    && CallsGiven(w)
    && (forall i :: 0 <= i < |w.runs| ==> RunHonest(w.runs[i]) && ThreadHeld(y.load, w, i))
    && (forall x :: x in w.pipe.acked ==> Held(y.load, w.rows, x))
  }

  // What a pipeline move does to the fields the server side depends on

  predicate Frame(s: State, t: State, i: nat) {
    && i < |s.threads| && |t.threads| == |s.threads|
    && forall j :: 0 <= j < |s.threads| && j != i ==> t.threads[j] == s.threads[j]
  }

  lemma {:induction false} CallFrame(c: Config, s: State, i: nat)
    requires Enabled(c, s, Move(i, Advance)) && s.threads[i].Holding?
    ensures var t := After(c, s, Move(i, Advance));
            && Frame(s, t, i) && t.acked == s.acked && t.threads[i].Calling?
            && t.given == s.given + multiset(t.threads[i].items)
  {
  }

  lemma {:induction false} HandleFrame(c: Config, s: State, i: nat)
    requires Enabled(c, s, Move(i, Advance)) && s.threads[i].Answered?
    ensures var t := After(c, s, Move(i, Advance));
            && Frame(s, t, i) && t.given == s.given && !t.threads[i].Calling? && !t.threads[i].Answered?
            && t.acked == if s.threads[i].result.IsSuccess() then s.acked + multiset(s.threads[i].items) else s.acked
  {
  }

  lemma {:induction false} AnswerFrame(c: Config, s: State, i: nat, result: TransportResult)
    requires Enabled(c, s, Move(i, Answer(result)))
    ensures var t := After(c, s, Move(i, Answer(result)));
            && Frame(s, t, i) && t.given == s.given && t.acked == s.acked && t.threads[i].Answered?
            && t.threads[i].items == s.threads[i].items && t.threads[i].result == result
  {
  }

  lemma {:induction false} QuietFrame(c: Config, s: State, m: Move)
    requires Enabled(c, s, m) && !m.action.Answer?
    requires m.action.Advance? ==> !s.threads[m.thread].Holding? && !s.threads[m.thread].Answered?
    ensures var t := After(c, s, m);
            && Frame(s, t, m.thread) && t.given == s.given && t.acked == s.acked
            && !t.threads[m.thread].Calling? && !t.threads[m.thread].Answered?
  {
    if m.action.Advance? {
      QuietAdvance(c, s, m.thread);
    }
  }

  lemma {:induction false} QuietAdvance(c: Config, s: State, i: nat)
    requires Enabled(c, s, Move(i, Advance)) && !s.threads[i].Holding? && !s.threads[i].Answered?
    ensures var t := Advanced(c, s, i);
            && Frame(s, t, i) && t.given == s.given && t.acked == s.acked
            && !t.threads[i].Calling? && !t.threads[i].Answered?
  {
    match s.threads[i]
    case Prepared(_) =>
    case Locking(_, _) =>
    case _ =>
  }

  // Preservation

  lemma {:induction false} LocalKept(y: System, w: World, m: Move)
    requires ServerInv(y, w) && Can(y, w, Local(m))
    ensures ServerInv(y, Do(y, w, Local(m)))
  {
    var v := Do(y, w, Local(m));
    var pc := w.pipe.threads[m.thread];
    assert ThreadHeld(y.load, w, m.thread);
    if m.action.Advance? && pc.Holding? {
      CallFrame(y.config, w.pipe, m.thread);
    } else if m.action.Advance? && pc.Answered? {
      HandleFrame(y.config, w.pipe, m.thread);
    } else {
      QuietFrame(y.config, w.pipe, m);
    }
    forall i | 0 <= i < |v.runs| ensures RunHonest(v.runs[i]) && ThreadHeld(y.load, v, i) {
      if i != m.thread {
        assert RunHonest(w.runs[i]) && ThreadHeld(y.load, w, i);
      }
    }
  }

  lemma {:induction false} TryKept(y: System, w: World, i: nat, a: Attempt)
    requires ServerInv(y, w) && Can(y, w, Try(i, a))
    ensures ServerInv(y, Do(y, w, Try(i, a)))
  {
    var v := Do(y, w, Try(i, a));
    StoreAllHolds(y.load, w.rows, w.pipe.threads[i].items);
    forall x | Held(y.load, w.rows, x) ensures Held(y.load, v.rows, x) {
      HeldKept(y.load, w.rows, v.rows, x);
    }
    forall j | 0 <= j < |v.rows| ensures v.rows[j].item in v.pipe.given {
      if j < |w.rows| {
        assert v.rows[j] == w.rows[j];
      }
    }
    forall j | 0 <= j < |v.runs| ensures RunHonest(v.runs[j]) && ThreadHeld(y.load, v, j) {
      assert RunHonest(w.runs[j]) && ThreadHeld(y.load, w, j);
      if j == i && !a.reached {
        assert forall k :: 0 <= k < |w.runs[i]| ==> v.runs[i][k] == w.runs[i][k];
      }
    }
  }

  lemma {:induction false} AnswerKept(y: System, w: World, v: World, i: nat, result: TransportResult)
    requires ServerInv(y, w) && InTransport(w, i)
    requires v == w.(pipe := After(y.config, w.pipe, Move(i, Answer(result))))
    requires result.IsSuccess() ==> exists k :: 0 <= k < |w.runs[i]| && w.runs[i][k].reached
    ensures ServerInv(y, v)
  {
    AnswerFrame(y.config, w.pipe, i, result);
    forall j | 0 <= j < |v.runs| ensures RunHonest(v.runs[j]) && ThreadHeld(y.load, v, j) {
      assert RunHonest(w.runs[j]) && ThreadHeld(y.load, w, j);
    }
  }

  /** A successful result implies that some attempt reached the server. */
  lemma {:induction false} SuccessWasReached(maxRetries: nat, run: seq<Attempt>, cancelled: bool, reason: string)
    requires Complete(maxRetries, Outcomes(run), cancelled) && reason != "" && RunHonest(run)
    requires ResultOf(Outcomes(run), cancelled, reason).IsSuccess()
    ensures run[|run| - 1].reached
  {
    ResultClasses(maxRetries, Outcomes(run), cancelled, reason);
    assert Verdict(run[|run| - 1].outcome);
  }

  lemma {:induction false} ServerKept(y: System, w: World, step: Step)
    requires ServerInv(y, w) && Can(y, w, step)
    ensures ServerInv(y, Do(y, w, step))
  {
    match step
    case Local(m) => LocalKept(y, w, m);
    case Try(i, a) => TryKept(y, w, i, a);
    case Finish(i, cancelled, reason) =>
      if Returned(w, step).IsSuccess() {
        assert RunHonest(w.runs[i]);
        SuccessWasReached(y.maxRetries, w.runs[i], cancelled, reason);
      }
      AnswerKept(y, w, Do(y, w, step), i, Returned(w, step));
    case _ => AnswerKept(y, w, Do(y, w, step), step.thread, Returned(w, step));
  }

  // How often a request can be handled

  datatype Line = Line(pc: Pc, run: seq<Attempt>)

  /** The threads with the attempts each of them has made in its present call. */
  function Lines(w: World): seq<Line>
    requires |w.runs| == |w.pipe.threads|
  {
    seq(|w.runs|, i requires 0 <= i < |w.runs| => Line(w.pipe.threads[i], w.runs[i]))
  }

  /** Copies of x that the attempts still left in this call can deliver. */
  function Allowance(maxRetries: nat, x: Item, line: Line): nat {
    if line.pc.Calling? && |line.run| <= maxRetries + 1
    then Times(Copies(line.pc.items, x), maxRetries + 1 - |line.run|)
    else 0
  }

  function Times(a: nat, b: nat): nat {
    a * b
  }

  function Allowances(maxRetries: nat, x: Item): Line -> nat {
    line => Allowance(maxRetries, x, line)
  }

  /** Rows of x, and what may still be delivered, against what the transport was given. */
  predicate Budget(y: System, w: World, x: Item) {
    && |w.runs| == |w.pipe.threads|
    && (forall i :: 0 <= i < |w.runs| ==> |w.runs[i]| <= y.maxRetries + 1)
    && Stored(w.rows, x) + Sum(Allowances(y.maxRetries, x), Lines(w)) <= (y.maxRetries + 1) * w.pipe.given[x]
  }

  lemma {:induction false} Distributes(n: nat, a: nat, b: nat)
    ensures n * (a + b) == n * a + n * b && n * a == a * n
  {
  }

  lemma {:induction false} LinesUpdate(y: System, w: World, v: World, i: nat, x: Item)
    requires |w.runs| == |w.pipe.threads| && Frame(w.pipe, v.pipe, i)
    requires |v.runs| == |w.runs| && forall j :: 0 <= j < |w.runs| && j != i ==> v.runs[j] == w.runs[j]
    ensures var f := Allowances(y.maxRetries, x);
            Sum(f, Lines(v)) + f(Lines(w)[i]) == Sum(f, Lines(w)) + f(Lines(v)[i])
  {
    assert Lines(v) == Lines(w)[i := Lines(v)[i]];
    SumUpdate(Allowances(y.maxRetries, x), Lines(w), i, Lines(v)[i]);
  }

  lemma {:induction false} LocalBudget(y: System, w: World, m: Move, x: Item)
    requires Budget(y, w, x) && Can(y, w, Local(m))
    ensures Budget(y, Do(y, w, Local(m)), x)
  {
    var v := Do(y, w, Local(m));
    var i := m.thread;
    if m.action.Advance? && w.pipe.threads[i].Holding? {
      CallFrame(y.config, w.pipe, i);
      Distributes(y.maxRetries + 1, w.pipe.given[x], Copies(v.pipe.threads[i].items, x));
      Distributes(y.maxRetries + 1, Copies(v.pipe.threads[i].items, x), 0);
    } else if m.action.Advance? && w.pipe.threads[i].Answered? {
      HandleFrame(y.config, w.pipe, i);
    } else {
      QuietFrame(y.config, w.pipe, m);
    }
    LinesUpdate(y, w, v, i, x);
  }

  lemma {:induction false} TryBudget(y: System, w: World, i: nat, a: Attempt, x: Item)
    requires Budget(y, w, x) && Can(y, w, Try(i, a)) && Keyed(y.load, w.rows)
    ensures Budget(y, Do(y, w, Try(i, a)), x)
  {
    var v := Do(y, w, Try(i, a));
    var items, left := w.pipe.threads[i].items, y.maxRetries - |w.runs[i]|;
    StoreAllAdds(y.load, w.rows, items, x);
    LinesUpdate(y, w, v, i, x);
    Distributes(Copies(items, x), left, 1);
    assert Allowances(y.maxRetries, x)(Lines(w)[i]) == Copies(items, x) * (left + 1);
    assert Allowances(y.maxRetries, x)(Lines(v)[i]) == Copies(items, x) * left;
  }

  lemma {:induction false} BudgetKept(y: System, w: World, step: Step, x: Item)
    requires Budget(y, w, x) && Keyed(y.load, w.rows) && Can(y, w, step)
    ensures Budget(y, Do(y, w, step), x)
  {
    match step
    case Local(m) => LocalBudget(y, w, m, x);
    case Try(i, a) => TryBudget(y, w, i, a, x);
    case _ =>
      AnswerFrame(y.config, w.pipe, step.thread, Returned(w, step));
      LinesUpdate(y, w, Do(y, w, step), step.thread, x);
  }

  // Any number of steps

  ghost predicate WorldInv(y: System, w: World) {
    Inv(y.config, w.pipe) && ServerInv(y, w) && forall x :: Budget(y, w, x)
  }

  lemma {:induction false} StepKept(y: System, w: World, step: Step)
    requires WorldInv(y, w) && Can(y, w, step)
    ensures WorldInv(y, Do(y, w, step))
  {
    ServerKept(y, w, step);
    forall x ensures Budget(y, Do(y, w, step), x) {
      BudgetKept(y, w, step, x);
    }
    match step
    case Local(m) => InvKept(y.config, w.pipe, m);
    case Try(_, _) =>
    case _ => InvKept(y.config, w.pipe, Move(step.thread, Answer(Returned(w, step))));
  }

  lemma {:induction false} HistoryKept(y: System, w: World, steps: seq<Step>)
    requires WorldInv(y, w) && History(y, w, steps)
    ensures WorldInv(y, Last(y, w, steps))
    decreases steps
  {
    if steps != [] {
      StepKept(y, w, steps[0]);
      HistoryKept(y, Do(y, w, steps[0]), steps[1..]);
    }
  }

  lemma {:induction false} StartInv(y: System, threads: nat)
    ensures WorldInv(y, Start(threads))
  {
    InvInit(y.config, threads);
    forall x ensures Budget(y, Start(threads), x) {
      SumZero(Allowances(y.maxRetries, x), Lines(Start(threads)));
    }
  }
}
