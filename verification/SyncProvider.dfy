/** The provider in sync mode with a single caller: the object itself, refining a simple cut into chunks. */
module SyncProvider {
  import opened Core
  import opened Chunking

  datatype Call<P> = Send(kind: EventType, item: P) | SendBatch(kind: EventType, items: seq<P>)

  datatype FailureInfo<P> = FailureInfo(kind: EventType, items: seq<P>, result: TransportResult)

  function ItemsOf<P>(call: Call<P>): seq<P> {
    match call
    case Send(_, item) => [item]
    case SendBatch(_, items) => items
  }

  function CallFor<P>(k: EventType, items: seq<P>): Call<P> {
    if |items| == 1 then Send(k, items[0]) else SendBatch(k, items)
  }

  function CallsFor<P>(k: EventType, chunks: seq<seq<P>>): seq<Call<P>> {
    if chunks == [] then [] else CallsFor(k, chunks[..|chunks| - 1]) + [CallFor(k, chunks[|chunks| - 1])]
  }

  function CallsOf<P>(calls: seq<Call<P>>, k: EventType): seq<Call<P>> {
    if calls == [] then []
    else CallsOf(calls[..|calls| - 1], k) + if calls[|calls| - 1].kind == k then [calls[|calls| - 1]] else []
  }

  /** One report for every call that did not succeed, in order. */
  function FailuresOf<P>(calls: seq<Call<P>>, answers: nat -> TransportResult): seq<FailureInfo<P>> {
    if calls == [] then []
    else
      var n := |calls| - 1;
      FailuresOf(calls[..n], answers) +
      if answers(n).IsSuccess() then [] else [FailureInfo(calls[n].kind, ItemsOf(calls[n]), answers(n))]
  }

  // The reference: what the caller did decides what the transport is given

  datatype Op<P> = Capture(name: string, prepared: Option<P>) | Flush

  /** The event an operation adds to type k, if any. */
  function Kept<P>(op: Op<P>, k: EventType): seq<P> {
    if op.Capture? && ParseEventType(op.name) == Some(k) && op.prepared.Some? then [op.prepared.value] else []
  }

  /** Events of type k kept since the last Flush. */
  function Open<P>(ops: seq<Op<P>>, k: EventType): seq<P> {
    if ops == [] then []
    else
      var last := ops[|ops| - 1];
      if last.Flush? then [] else Open(ops[..|ops| - 1], k) + Kept(last, k)
  }

  /** Transport calls for type k up to and including the last Flush: each stretch between flushes, cut into chunks. */
  function Closed<P>(ops: seq<Op<P>>, k: EventType, n: nat): seq<Call<P>>
    requires n >= 1
  {
    if ops == [] then []
    else
      var before := ops[..|ops| - 1];
      Closed(before, k, n) + if ops[|ops| - 1].Flush? then CallsFor(k, Chunks(Open(before, k), n)) else []
  }

  // Small lemmas

  lemma CallsForAppend<P>(k: EventType, chunks: seq<seq<P>>, chunk: seq<P>)
    ensures CallsFor(k, chunks + [chunk]) == CallsFor(k, chunks) + [CallFor(k, chunk)]
  {
    assert (chunks + [chunk])[..|chunks|] == chunks;
  }

  lemma CallsOfAppend<P>(calls: seq<Call<P>>, call: Call<P>, k: EventType)
    ensures CallsOf(calls + [call], k) == CallsOf(calls, k) + if call.kind == k then [call] else []
  {
    assert (calls + [call])[..|calls|] == calls;
  }

  /** Sending what is left over completes the cut. */
  lemma FlushedCalls<P>(k: EventType, events: seq<P>, n: nat)
    requires n >= 1
    ensures CallsFor(k, Chunks(events, n)) ==
            CallsFor(k, FullChunks(events, n)) + LastCall(k, Remainder(events, n))
  {
    ChunksSplit(events, n);
    CallsForLast(k, FullChunks(events, n), Remainder(events, n));
  }

  function LastCall<P>(k: EventType, rest: seq<P>): seq<Call<P>> {
    if rest == [] then [] else [CallFor(k, rest)]
  }

  lemma CallsForLast<P>(k: EventType, full: seq<seq<P>>, rest: seq<P>)
    ensures CallsFor(k, full + if rest == [] then [] else [rest]) == CallsFor(k, full) + LastCall(k, rest)
  {
    if rest == [] {
      assert full + [] == full;
    } else {
      CallsForAppend(k, full, rest);
    }
  }

  lemma CallsOfLast<P>(calls: seq<Call<P>>, j: EventType, rest: seq<P>, k: EventType)
    ensures CallsOf(calls + LastCall(j, rest), k) == CallsOf(calls, k) + if j == k then LastCall(j, rest) else []
  {
    if rest == [] {
      assert calls + [] == calls;
    } else {
      CallsOfAppend(calls, CallFor(j, rest), k);
    }
  }

  /** The buffer and the calls of one type agree with the events kept since the last flush and the calls before it. */
  predicate Accounts<P(==)>(k: EventType, n: nat, buffer: seq<P>, calls: seq<Call<P>>, open: seq<P>,
                            closed: seq<Call<P>>)
  {
    n >= 1 && buffer == Remainder(open, n) && calls == closed + CallsFor(k, FullChunks(open, n))
  }

  lemma AccountsAppend<P>(k: EventType, n: nat, buffer: seq<P>, calls: seq<Call<P>>, open: seq<P>,
                          closed: seq<Call<P>>, x: P)
    requires Accounts(k, n, buffer, calls, open, closed)
    ensures var chunk := buffer + [x];
            if |chunk| == n then Accounts(k, n, [], calls + [CallFor(k, chunk)], open + [x], closed)
            else Accounts(k, n, chunk, calls, open + [x], closed)
  {
    AppendOne(open, n, x);
    CallsForAppend(k, FullChunks(open, n), buffer + [x]);
  }

  lemma AccountsFlush<P>(k: EventType, n: nat, buffer: seq<P>, calls: seq<Call<P>>, open: seq<P>, closed: seq<Call<P>>)
    requires Accounts(k, n, buffer, calls, open, closed)
    ensures calls + LastCall(k, buffer) == closed + CallsFor(k, Chunks(open, n))
  {
    FlushedCalls(k, open, n);
  }

  /** After the error buffer and then the log buffer were sent, the calls of every type are complete. */
  lemma AllFlushed<P>(calls: seq<Call<P>>, errors: seq<P>, logs: seq<P>, k: EventType, n: nat, buffer: seq<P>,
                      open: seq<P>, closed: seq<Call<P>>)
    requires Accounts(k, n, buffer, CallsOf(calls, k), open, closed)
    requires buffer == if k == Error then errors else if k == Log then logs else []
    ensures CallsOf(calls + LastCall(Error, errors) + LastCall(Log, logs), k) == closed + CallsFor(k, Chunks(open, n))
  {
    CallsOfLast(calls, Error, errors, k);
    CallsOfLast(calls + LastCall(Error, errors), Log, logs, k);
    AccountsFlush(k, n, buffer, CallsOf(calls, k), open, closed);
    assert CallsOf(calls, k) + LastCall(k, buffer) == CallsOf(calls, k)
           + (if k == Error then LastCall(Error, errors) else []) + (if k == Log then LastCall(Log, logs) else []);
  }

  lemma NothingOpen<P>(k: EventType, n: nat, calls: seq<Call<P>>)
    requires n >= 1
    ensures Accounts(k, n, [], calls, [], calls)
  {
    assert CallsFor(k, FullChunks<P>([], n)) == [];
  }

  /** A completed chunk of type k is one more call of that type only. */
  lemma SentOrKept<P>(calls: seq<Call<P>>, k: EventType, chunk: seq<P>, j: EventType)
    ensures CallsOf(calls + [CallFor(k, chunk)], j) == CallsOf(calls, j) + if k == j then [CallFor(k, chunk)] else []
    ensures k != j ==> CallsOf(calls + [CallFor(k, chunk)], j) == CallsOf(calls, j)
  {
    CallsOfAppend(calls, CallFor(k, chunk), j);
  }

  /** One event of type k: the accounts of its own type take it in, the others are as they were. */
  lemma AccountsAfter<P>(k: EventType, x: P, chunk: seq<P>, j: EventType, n: nat, buffer: seq<P>, after: seq<P>,
                         calls: seq<Call<P>>, more: seq<Call<P>>, open: seq<P>, closed: seq<Call<P>>)
    requires Accounts(j, n, buffer, CallsOf(calls, j), open, closed)
    requires if j != k then after == buffer && (more == calls || more == calls + [CallFor(k, chunk)])
             else chunk == buffer + [x] && if |chunk| == n then more == calls + [CallFor(k, chunk)] && after == []
                                           else more == calls && after == chunk
    ensures Accounts(j, n, after, CallsOf(more, j), if j == k then open + [x] else open, closed)
  {
    SentOrKept(calls, k, chunk, j);
    if j == k {
      AccountsAppend(k, n, buffer, CallsOf(calls, k), open, closed, x);
    }
  }

  /** The names of the three types on the wire. */
  lemma KeptNames<P>(name: string, prepared: Option<P>)
    ensures var op, events := Op.Capture(name, prepared), if prepared.Some? then [prepared.value] else [];
            && Kept(op, Error) == (if name == "errors" then events else [])
            && Kept(op, Log) == (if name == "logs" then events else [])
            && Kept(op, Transaction) == (if name == "transactions" then events else [])
  {
  }

  lemma FailuresOfAppend<P>(calls: seq<Call<P>>, call: Call<P>, answers: nat -> TransportResult)
    ensures FailuresOf(calls + [call], answers) ==
            FailuresOf(calls, answers) +
            if answers(|calls|).IsSuccess() then [] else [FailureInfo(call.kind, ItemsOf(call), answers(|calls|))]
  {
    assert (calls + [call])[..|calls|] == calls;
  }

  class Provider<P(==)> {
    const batchSize: nat
    const answers: nat -> TransportResult   // the transport's answer to each call in turn
    var buffers: map<EventType, seq<P>>
    var calls: seq<Call<P>>                 // what the transport was given
    var failures: seq<FailureInfo<P>>       // what the failure handler was given
    ghost var open: EventType -> seq<P>          // kept since the last Flush
    ghost var closed: EventType -> seq<Call<P>>  // calls up to the last Flush

    predicate Direct(k: EventType) {
      batchSize <= 1 || k == Transaction
    }

    function Size(k: EventType): (n: nat) {
      if Direct(k) then 1 else batchSize
    }

    function Buffer(k: EventType): seq<P>
      reads this
    {
      if k in buffers then buffers[k] else []
    }

    ghost predicate ValidFor(k: EventType)
      reads this
    {
      Accounts(k, Size(k), Buffer(k), CallsOf(calls, k), open(k), closed(k))
    }

    ghost predicate Valid()
      reads this
    {
      && batchSize >= 1
      && (forall k :: ValidFor(k))
      && failures == FailuresOf(calls, answers)
    }

    constructor (batchSize: int, answers: nat -> TransportResult)
      ensures Valid() && this.answers == answers
      ensures this.batchSize == if batchSize < 1 then 1 else batchSize
      ensures forall k :: open(k) == [] && closed(k) == []
    {
      this.batchSize := if batchSize < 1 then 1 else batchSize;
      this.answers := answers;
      buffers := map[Error := [], Log := [], Transaction := []];
      open, closed := _ => [], _ => [];
      calls, failures := [], [];
    }

    /** One transport call, and the report of its failure. */
    method Transmit(k: EventType, items: seq<P>)
      requires items != [] && failures == FailuresOf(calls, answers)
      modifies this`calls, this`failures
      ensures calls == old(calls) + [CallFor(k, items)]
      ensures var call := calls[|calls| - 1];
              call.kind == k && ItemsOf(call) == items && (call.Send? <==> |items| == 1)
      ensures failures == FailuresOf(calls, answers)
      ensures var result := answers(|old(calls)|);
              failures == old(failures) +
                if result.errorMessage == "" && (200 <= result.statusCode < 300 || result.duplicate) then []
                else [FailureInfo(k, items, result)]
    {
      var result := answers(|calls|);
      FailuresOfAppend(calls, CallFor(k, items), answers);
      assert ItemsOf(CallFor(k, items)) == items;
      if |items| == 1 {
        calls := calls + [Send(k, items[0])];
      } else {
        calls := calls + [SendBatch(k, items)];
      }
      if !result.IsSuccess() {
        failures := failures + [FailureInfo(k, items, result)];
      }
    }

    method FlushType(k: EventType)
      requires failures == FailuresOf(calls, answers)
      modifies this`buffers, this`calls, this`failures
      ensures buffers == old(buffers)[k := []]
      ensures calls == old(calls) + LastCall(k, old(Buffer(k)))
      ensures failures == FailuresOf(calls, answers)
    {
      var items := Buffer(k);
      buffers := buffers[k := []];
      if |items| == 0 {
        return;
      }
      Transmit(k, items);
    }

    method CapturePrepared(k: EventType, x: P)
      requires batchSize >= 1 && |Buffer(k)| < Size(k) && failures == FailuresOf(calls, answers)
      modifies this`buffers, this`calls, this`failures
      ensures var chunk := old(Buffer(k)) + [x];
              if |chunk| == Size(k)
              then calls == old(calls) + [CallFor(k, chunk)] && Buffer(k) == []
              else calls == old(calls) && Buffer(k) == chunk
      ensures forall j :: j != k ==> Buffer(j) == old(Buffer(j))
      ensures failures == FailuresOf(calls, answers)
    {
      if batchSize <= 1 || k == Transaction {
        assert Buffer(k) + [x] == [x];
        Transmit(k, [x]);
        return;
      }
      buffers := buffers[k := Buffer(k) + [x]];
      if |buffers[k]| >= batchSize {
        FlushType(k);
      }
    }

    method CaptureEvent(name: string, prepared: Option<P>)
      requires Valid()
      modifies this
      ensures Valid() && forall k :: closed(k) == old(closed(k))
      ensures forall k :: open(k) == old(open(k)) + Kept(Op.Capture(name, prepared), k)
      // the names of the three types on the wire
      ensures var events := if prepared.Some? then [prepared.value] else [];
              && open(Error) == old(open(Error)) + (if name == "errors" then events else [])
              && open(Log) == old(open(Log)) + (if name == "logs" then events else [])
              && open(Transaction) == old(open(Transaction)) + (if name == "transactions" then events else [])
    {
      KeptNames(name, prepared);
      var kind := ParseEventType(name);
      if kind == None || prepared == None {
        return;
      }
      CaptureKept(kind.value, prepared.value);
    }

    /** The event of a known type that preparePayload kept. */
    method CaptureKept(k: EventType, x: P)
      requires Valid()
      modifies this
      ensures Valid() && forall j :: closed(j) == old(closed(j))
      ensures forall j :: open(j) == old(open(j)) + if j == k then [x] else []
    {
      assert ValidFor(k);
      CapturePrepared(k, x);
      ghost var before, chunk := open, old(Buffer(k)) + [x];
      open := j => if j == k then before(j) + [x] else before(j);
      forall j ensures ValidFor(j) {
        assert old(ValidFor(j));
        AccountsAfter(k, x, chunk, j, Size(j), old(Buffer(j)), Buffer(j), old(calls), calls, old(open(j)), closed(j));
      }
    }

    method Flush()
      requires Valid()
      modifies this
      ensures Valid()
      ensures forall k :: Buffer(k) == [] && open(k) == []
      ensures forall k :: closed(k) == old(closed(k)) + CallsFor(k, Chunks(old(open(k)), Size(k)))
      ensures forall k :: CallsOf(calls, k) == closed(k)
      // errors first, then logs, one call for what each buffer still held
      ensures calls == old(calls) + LastCall(Error, old(Buffer(Error))) + LastCall(Log, old(Buffer(Log)))
    {
      assert ValidFor(Transaction) && Buffer(Transaction) == [];
      ghost var errors, logs := Buffer(Error), Buffer(Log);
      FlushType(Error);
      FlushType(Log);
      assert calls == old(calls) + LastCall(Error, errors) + LastCall(Log, logs);
      forall k ensures CallsOf(calls, k) == old(closed(k)) + CallsFor(k, Chunks(old(open(k)), Size(k))) {
        assert old(ValidFor(k));
        AllFlushed(old(calls), errors, logs, k, Size(k), old(Buffer(k)), old(open(k)), old(closed(k)));
      }
      ghost var log := calls;
      closed, open := k => CallsOf(log, k), _ => [];
      forall k ensures Buffer(k) == [] && ValidFor(k) {
        assert k == Error || k == Log || k == Transaction;
        NothingOpen(k, Size(k), CallsOf(calls, k));
      }
    }

    /** Any sequence of captures and flushes: the transport is given exactly the reference's calls. */
    method Serve(ops: seq<Op<P>>)
      requires Valid() && forall k :: open(k) == [] && closed(k) == []
      modifies this
      ensures Valid()
      // errors and logs in chunks of batchSize, transactions one by one
      ensures forall k ::
                var n := if k == Transaction || batchSize <= 1 then 1 else batchSize;
                && Buffer(k) == Remainder(Open(ops, k), n)
                && CallsOf(calls, k) == Closed(ops, k, n) + CallsFor(k, FullChunks(Open(ops, k), n))
      ensures failures == FailuresOf(calls, answers)
    {
      var i := 0;
      while i < |ops|
        decreases |ops| - i
        invariant 0 <= i <= |ops| && Valid()
        invariant forall k :: open(k) == Open(ops[..i], k) && closed(k) == Closed(ops[..i], k, Size(k))
      {
        assert ops[..i + 1][..i] == ops[..i] && ops[..i + 1][i] == ops[i];
        match ops[i] {
          case Capture(name, prepared) => CaptureEvent(name, prepared);
          case Flush => Flush();
        }
        i := i + 1;
      }
      assert ops[..i] == ops;
      forall k ensures ValidFor(k) && open(k) == Open(ops, k) && closed(k) == Closed(ops, k, Size(k)) {
      }
    }
  }
}
