/** The net/http middleware: one request through the handler, with its incidents and its transaction. */
module Middleware {
  import opened Core
  import opened ResponseWriter

  const INTERNAL_SERVER_ERROR := 500
  const BAD_REQUEST := 400

  datatype Config = Config(
    duck: bool,                    // a Duck was given to Middleware
    capturePanics: bool,
    captureHandled5xx: bool,
    repanic: bool,
    captureTransactions: bool,
    sampleRate: real,
    maxResponseBytes: int)

  datatype Incident =
    | Panic
    | Handled5xx(status: int, acceptedBytes: int, body: seq<byte>, truncated: bool)

  datatype TransactionRecord = TransactionRecord(measured: Option<int>, status: string)

  /** What the handler does with the writer it is given. */
  datatype Op =
    | DoWriteHeader(code: int)
    | DoWrite(data: seq<byte>)
    | DoWriteString(data: seq<byte>)
    | DoReadFrom(chunks: seq<seq<byte>>, sourceError: WriteError)
    | DoFlush
    | DoFlushError
    | DoHijack

  function TransactionStatus(code: int): string {
    if code == 0 then "unknown_error"
    else if code >= INTERNAL_SERVER_ERROR then "internal_error"
    else if code >= BAD_REQUEST then "invalid_argument"
    else "ok"
  }

  /** What a record says of the status it is made for. */
  predicate Describes(record: TransactionRecord, status: int) {
    && record.measured == (if status == 0 then None else Some(status))
    && (record.status == "unknown_error" <==> status == 0)
    && (record.status == "ok" <==> status != 0 && status <= 399)
    && (record.status == "invalid_argument" <==> 400 <= status <= 499)
    && (record.status == "internal_error" <==> status >= 500)
  }

  function RecordOf(code: int): TransactionRecord {
    TransactionRecord(if code == 0 then None else Some(code), TransactionStatus(code))
  }

  /** draw is the value of rand.Float64, in [0, 1). */
  predicate ShouldCapture(rate: real, code: int, draw: real) {
    if code >= INTERNAL_SERVER_ERROR then true
    else if rate <= 0.0 then false
    else if rate >= 1.0 then true
    else draw < rate
  }

  /** The sampling rate decides only below 500: never at rate 0, always at rate 1, and more draws at a higher rate. */
  lemma SamplingRule(rate: real, higher: real, code: int, draw: real)
    requires 0.0 <= draw < 1.0
    ensures ShouldCapture(rate, code, draw) <==> code >= 500 || draw < rate
    ensures rate <= higher && ShouldCapture(rate, code, draw) ==> ShouldCapture(higher, code, draw)
  {
  }

  /** The calls of the writer that one operation makes, after those `before` it; their answers are the writer's own. */
  predicate Effect(op: Op, before: seq<Event>, added: seq<Event>) {
    match op
    case DoWriteHeader(code) =>
      added == if FinalStatus(before) == 0 && !HasHijack(before) then [Header(code)] else []
    case DoWrite(data) => |added| == 1 && added[0].Wrote? && added[0].data == data
    case DoWriteString(data) => |added| == 1 && added[0].Wrote? && added[0].data == data
    case DoReadFrom(chunks, _) => CopyOf(chunks, added)
    case DoFlush => added == [FlushTried(Flushed)]
    case DoFlushError => |added| == 1 && added[0].FlushTried?
    case DoHijack => |added| == 1 && added[0].HijackTried?
  }

  predicate Invalid(op: Op, before: seq<Event>) {
    op.DoWriteHeader? && !ValidCode(op.code) && FinalStatus(before) == 0 && !HasHijack(before)
  }

  /** The writer saw exactly the effects of these operations, one after the other. */
  ghost predicate Performed(ops: seq<Op>, events: seq<Event>) {
    if ops == [] then events == []
    else exists k: nat :: k <= |events| && PerformedTo(ops, events, k)
  }

  ghost predicate PerformedTo(ops: seq<Op>, events: seq<Event>, k: nat)
    requires ops != [] && k <= |events|
  {
    Performed(ops[..|ops| - 1], events[..k]) && Effect(ops[|ops| - 1], events[..k], events[k..])
  }

  lemma PerformedNext(ops: seq<Op>, i: nat, before: seq<Event>, after: seq<Event>)
    requires i < |ops| && Performed(ops[..i], before) && before <= after
    requires Effect(ops[i], before, after[|before|..])
    ensures Performed(ops[..i + 1], after)
  {
    var more := ops[..i + 1];
    assert more[..i] == ops[..i] && more[i] == ops[i];
    assert after[..|before|] == before;
    assert PerformedTo(more, after, |before|);
  }

  /** The handler's operations in turn; an invalid status code panics and ends it. */
  method RunHandler(tracker: Tracker, ops: seq<Op>) returns (panicked: bool, ghost done: nat)
    requires tracker.Valid() && tracker.writer.events == []
    modifies tracker, tracker.writer
    ensures tracker.Valid() && tracker.Stable()
    ensures done <= |ops| && Performed(ops[..done], tracker.writer.events)
    ensures if panicked then done < |ops| && Invalid(ops[done], tracker.writer.events) else done == |ops|
  {
    panicked := false;
    var i := 0;
    while i < |ops|
      invariant 0 <= i <= |ops| && tracker.Valid() && tracker.Stable()
      invariant Performed(ops[..i], tracker.writer.events)
    {
      panicked := RunOp(tracker, ops[i], ops, i);
      if panicked {
        return true, i;
      }
      i := i + 1;
    }
    done := i;
  }

  method RunOp(tracker: Tracker, op: Op, ghost ops: seq<Op>, ghost i: nat) returns (panicked: bool)
    requires tracker.Valid() && i < |ops| && ops[i] == op && Performed(ops[..i], tracker.writer.events)
    modifies tracker, tracker.writer
    ensures tracker.Valid() && tracker.Stable()
    ensures if panicked then tracker.writer.events == old(tracker.writer.events) && Invalid(op, tracker.writer.events)
            else Performed(ops[..i + 1], tracker.writer.events)
  {
    panicked := false;
    match op {
      case DoWriteHeader(code) => panicked := tracker.WriteHeader(code);
      case DoWrite(data) => var n, e := tracker.Write(data);
      case DoWriteString(data) => var n, e := tracker.WriteString(data);
      case DoReadFrom(chunks, sourceError) => var n, e := tracker.ReadFrom(chunks, sourceError);
      case DoFlush => tracker.Flush();
      case DoFlushError => var e := tracker.FlushError();
      case DoHijack => var ok := tracker.Hijack();
    }
    if !panicked {
      PerformedNext(ops, i, old(tracker.writer.events), tracker.writer.events);
    }
  }

  /** The fallback, and nothing else, followed: status 500 and the text. */
  predicate Answered500(before: seq<Event>, after: seq<Event>, text: seq<byte>) {
    && |after| == |before| + 2 && before <= after
    && after[|before|] == Header(500) && after[|before| + 1].Wrote? && after[|before| + 1].data == text
  }

  class Request {
    const config: Config
    const tracker: Tracker
    const started: bool              // startTransaction returned a transaction
    var incidents: seq<Incident>
    var transactions: seq<TransactionRecord>

    constructor (config: Config, writer: Writer, websocket: bool)
      requires writer.Conforms() && writer.events == []
      ensures this.config == config && tracker.writer == writer && fresh(tracker) && tracker.Valid()
      ensures tracker.captureResponse == config.captureHandled5xx && tracker.maxResponseBytes == config.maxResponseBytes
      ensures started <==> config.duck && config.captureTransactions && !websocket
      ensures incidents == [] && transactions == [] && !tracker.wroteHeader && !tracker.hijacked
    {
      this.config := config;
      tracker := new Tracker(writer, config.captureHandled5xx, config.maxResponseBytes);
      started := !(!config.duck || !config.captureTransactions || websocket);
      incidents, transactions := [], [];
    }

    method CaptureTransaction(code: int, force: bool, draw: real)
      modifies this`transactions
      ensures transactions == old(transactions) +
                if started && config.duck && (force || ShouldCapture(config.sampleRate, code, draw))
                then [RecordOf(code)] else []
      ensures Describes(RecordOf(code), code)
    {
      if !config.duck || !started {
        return;
      }
      if !force && !ShouldCapture(config.sampleRate, code, draw) {
        return;
      }
      var measured := None;
      if code != 0 {
        measured := Some(code);
      }
      transactions := transactions + [TransactionRecord(measured, TransactionStatus(code))];
    }

    method CaptureHandled5xx()
      modifies this`incidents
      ensures incidents == old(incidents) +
                if config.duck && config.captureHandled5xx && tracker.statusCode >= INTERNAL_SERVER_ERROR
                then [Handled5xx(tracker.statusCode, tracker.acceptedBytes, tracker.responseBody, tracker.truncated)]
                else []
    {
      if !config.duck || !config.captureHandled5xx || tracker.statusCode < INTERNAL_SERVER_ERROR {
        return;
      }
      incidents := incidents +
        [Handled5xx(tracker.statusCode, tracker.acceptedBytes, tracker.responseBody, tracker.truncated)];
    }

    /** http.Error on the tracked writer: status 500 and a text. */
    method WriteFallback(text: seq<byte>)
      requires tracker.Valid() && !tracker.wroteHeader && !tracker.hijacked
      modifies tracker, tracker.writer
      ensures tracker.Valid() && tracker.wroteHeader && !tracker.hijacked && tracker.statusCode == INTERNAL_SERVER_ERROR
      ensures Answered500(old(tracker.writer.events), tracker.writer.events, text)
    {
      var panicked := tracker.WriteHeader(INTERNAL_SERVER_ERROR);
      ConformingCodes(old(tracker.writer.events));
      StatusAppend(old(tracker.writer.events), Header(INTERNAL_SERVER_ERROR));
      var n, e := tracker.Write(text);
    }

    /** What follows a handler that returned. */
    method Complete(draw: real)
      requires tracker.Valid() && incidents == [] && transactions == []
      requires tracker.captureResponse == config.captureHandled5xx && (started ==> config.duck)
      modifies this`incidents, this`transactions
      ensures var events := tracker.writer.events;
              var status := StatusSeen(false, events, false);
              && transactions ==
                 (if started && ShouldCapture(config.sampleRate, status, draw) then [RecordOf(status)] else [])
              && incidents == if config.duck && config.captureHandled5xx && FinalStatus(events) >= INTERNAL_SERVER_ERROR
                              then [HandledIncident(events, tracker.Limit())] else []
    {
      CaptureHandled5xx();
      CaptureTransaction(tracker.ResponseStatus(true), false, draw);
    }

    /** The deferred recovery of a panic. */
    method Recover(text: seq<byte>, draw: real) returns (rethrown: bool, fallback: bool)
      requires tracker.Valid() && transactions == []
      modifies this, tracker, tracker.writer
      ensures tracker.Valid() && rethrown == config.repanic
      ensures fallback ==> Answered500(old(tracker.writer.events), tracker.writer.events, text)
      ensures fallback <==> !config.repanic && !old(tracker.wroteHeader) && !old(tracker.hijacked)
      ensures !fallback ==> tracker.writer.events == old(tracker.writer.events)
      ensures tracker.statusCode == if fallback then INTERNAL_SERVER_ERROR else old(tracker.statusCode)
      ensures transactions == if started && config.duck then [RecordOf(tracker.statusCode)] else []
      ensures incidents == old(incidents) + if config.duck && config.capturePanics then [Panic] else []
    {
      rethrown, fallback := false, false;
      if config.duck && config.capturePanics {
        incidents := incidents + [Panic];
      }
      if config.repanic {
        CaptureTransaction(tracker.ResponseStatus(false), true, draw);
        rethrown := true;
        return;
      }
      if !tracker.wroteHeader && !tracker.hijacked {
        WriteFallback(text);
        fallback := true;
      }
      CaptureTransaction(tracker.ResponseStatus(false), true, draw);
    }

    /**
      One request that is not ignored. `panics` says that the handler panics after its
      operations, `draw` is the sampling draw. The protocol:
      exactly one transaction on a panic, an observed 5xx or a successful draw, if one was started, and none otherwise;
      one panic incident or at most one handled-5xx incident, never both;
      the measurement is the observed final status, omitted exactly when it is unknown;
      a fallback only when nothing was committed and the connection is not hijacked.
     */
    method Serve(ops: seq<Op>, panics: bool, text: seq<byte>, draw: real)
      returns (panicked: bool, rethrown: bool, fallback: bool, ghost handled: seq<Event>, ghost done: nat)
      requires tracker.Valid() && incidents == [] && transactions == [] && tracker.writer.events == []
      requires tracker.captureResponse == config.captureHandled5xx && (started ==> config.duck)
      modifies this, tracker, tracker.writer
      ensures tracker.Valid() && (rethrown <==> panicked && config.repanic)
      // the handler's own effect on the writer, and the fallback after it
      ensures done <= |ops| && Performed(ops[..done], handled)
      ensures panicked <==> panics || done < |ops|
      ensures done < |ops| ==> Invalid(ops[done], handled)
      ensures if fallback then Answered500(handled, tracker.writer.events, text) else tracker.writer.events == handled
      ensures fallback <==> panicked && !config.repanic && FinalStatus(handled) == 0 && !HasHijack(handled)
      ensures FinalStatus(tracker.writer.events) == if fallback then INTERNAL_SERVER_ERROR else FinalStatus(handled)
      // the transaction
      ensures transactions ==
                if started
                   && (panicked || ShouldCapture(config.sampleRate, StatusSeen(panicked, handled, fallback), draw))
                then [RecordOf(StatusSeen(panicked, handled, fallback))] else []
      ensures forall t :: t in transactions ==> Describes(t, StatusSeen(panicked, handled, fallback))
      // the incidents
      ensures incidents ==
                if panicked then (if config.duck && config.capturePanics then [Panic] else [])
                else if config.duck && config.captureHandled5xx && FinalStatus(handled) >= INTERNAL_SERVER_ERROR
                then [HandledIncident(handled, tracker.Limit())] else []
    {
      rethrown, fallback := false, false;
      panicked, done := RunHandler(tracker, ops);
      panicked := panicked || panics;
      handled := tracker.writer.events;
      if panicked {
        rethrown, fallback := Recover(text, draw);
        return;
      }
      Complete(draw);
    }
  }

  /** The status a transaction is measured with: 200 for an empty return, else what the writer sent, 0 if unknown. */
  function StatusSeen(panicked: bool, handled: seq<Event>, fallback: bool): int {
    if fallback then INTERNAL_SERVER_ERROR
    else if !panicked && FinalStatus(handled) == 0 && !HasHijack(handled) then OK
    else FinalStatus(handled)
  }

  /** The report of a handled failure, from the bytes the writer took. */
  function HandledIncident(handled: seq<Event>, limit: nat): Incident {
    var accepted := AcceptedBytes(handled);
    Handled5xx(FinalStatus(handled), |accepted|, accepted[..Min(|accepted|, limit)], |accepted| > limit)
  }

  /** A transaction lacks the measurement exactly when nothing was committed before a rethrown panic or a hijack. */
  lemma MeasurementOmitted(panicked: bool, handled: seq<Event>, repanic: bool)
    requires ValidCodes(handled)
    ensures var fallback := panicked && !repanic && FinalStatus(handled) == 0 && !HasHijack(handled);
            var record := RecordOf(StatusSeen(panicked, handled, fallback));
            && (record.measured.None? <==> record.status == "unknown_error")
            && (record.measured.None? <==>
                  FinalStatus(handled) == 0 && (HasHijack(handled) || (panicked && repanic)))
            && (record.status == "internal_error" <==> fallback || FinalStatus(handled) >= 500)
  {
  }
}
