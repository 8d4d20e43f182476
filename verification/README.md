# Verification model of the DuckBug Go SDK

This project models, in Dafny 4.11, the parts of the SDK in which a mistake loses,
duplicates or leaks an event, and proves what they guarantee. `dafny verify dfyconfig.toml`
checks all of it.

| files | what they model |
|---|---|
| `Core.dfy`, `Sums.dfy` | the event types and the transport result; sums over all threads |
| `Pipeline.dfy` | `providers/duckbug/provider.go` as a labelled transition system: callers, the worker with its ticker, and flushing threads, one move for each action the code makes atomic |
| `PipelineInvariants.dfy`, `PipelineOrder.dfy`, `PipelineTheorems.dfy` | the inductive invariant, part by part, and its preservation by every move |
| `PipelineProperties.dfy` | what follows for every reachable state and every run |
| `PipelineRuns.dfy`, `PipelineExactness.dfy` | runs built move by move, and with them the exact conditions under which batches, queue and `Flush` keep what one would expect of them |
| `PipelineSending.dfy`, `PipelineBatches.dfy` | in which order, and how many at a time, the transport is given the events of one type |
| `PipelineProgress.dfy` | what each thread can do next, how soon it is done, and what the transport's answers lead to |
| `Chunking.dfy`, `SyncProvider.dfy` | the provider as an object in sync mode with one caller, refining a cut into chunks |
| `HttpTransport.dfy` | `providers/duckbug/http_transport.go`: classification, the retry loop, 64-bit backoff |
| `Delivery.dfy`, `DeliveryTheorems.dfy` | pipeline, payload ids, retry loop, lossy network and an idempotent server, end to end |
| `ResponseWriter.dfy`, `Middleware.dfy` | the response observer over a conforming writer, and one request through the middleware |
| `Values.dfy`, `Normalize.dfy` | dynamic values, normalisation and cloning from `core/util.go` |
| `PondSanitizer.dfy` | the sanitiser of `pond/pond.go`, with the order of every map iteration as a parameter |
| `PondOutcomes.dfy`, `PondTheorems.dfy` | an order-free reading of its outcomes, proved exact, and what all outcomes satisfy |
| `Payload.dfy` | `preparePayload` and what it calls: cloning, privacy, stripping, hook, event id |
| `PayloadMasking.dfy` | masking and preparation together: what leaves the provider |
| `Sharing.dfy` | the two clone functions on the heap: which maps and lists of a copy are new |

## How to read the model

**Pipeline.** A state holds the queue, the wait-group counter, the buffers, one program
counter per goroutine, and histories of what was captured, accepted, taken, sent,
acknowledged, reported and dropped. `Enabled` and `After` are the moves; `Reachable` is any
number of moves of any number of threads, in any order. The transport's answer is arbitrary.
Tick, cancellation and the queue being full are moves like any other. An event is an id and
a type here; the same event may be captured any number of times unless a lemma says once.

**Objects.** `SyncProvider.Provider`, `HttpTransport.HTTPTransport`, `ResponseWriter.Tracker`,
`Middleware.Request` and `Payload.Document` are classes that are changed in place, as in the
source. Their methods are proved against functions of what came in: `Chunks`, `Complete`
and `ResultOf`, `FinalStatus` and `AcceptedBytes` of the list of events the writer saw,
`StatusSeen`, `Permitted` and `WithId`.

**Iteration order.** Loops over maps take any remaining key. Where the order can be seen (two
keys that trim alike), a `Plan` says in which order the keys of each map are visited, the
methods follow it, and `Visit` is their result. `Sanitized` reads the possible outcomes without
any order, `OutcomesExactly` proves that they are those of the plans, and the theorems hold of
each of them.

**Delivery.** A `System` is a provider configuration, a retry budget and the payload of every
event. The server keys a row by the payload's id if it has a usable one (`Payload.HasId`) and
otherwise mints a key for each request. `Arises` is any number of steps of pipeline, network
and server, in any order.

**Where an expected promise fails, and exactly when it holds.**

- The repository's README says that `Flush` sends everything buffered. A `Flush` can return
  while another thread still holds events accepted before it. `FlushSettlesExactly`: every
  completed `Flush` settles all of them if and only if there is at most one goroutine, or
  the provider is asynchronous and does not batch. `FlushCall` says what holds in every case.
- A batch can exceed `batchSize` in sync mode. `BatchSizeExactly`: none does if and only if the
  provider is asynchronous, or does not batch, or has at most one caller. `OversizedBatch`
  reaches the bound of `BatchWithinLimit` in every other configuration.
- The transport can be given the events of one type out of order. `CallsFollowOrderExactly`: it is
  given them in the order of acceptance if and only if there is at most one goroutine, or the
  provider is asynchronous and either sends the type without batching or has at most one caller.
- Async mode drops events that meet a full queue. `DropsExactly`: no
  run with at most m captures drops one if and only if m does not exceed `queueSize`, or the
  provider is synchronous, or has no caller beside the worker.
- The backoff doubles as promised if and only if the last delay fits in 63 bits
  (`BackoffExact`). In general it is the mathematical delay wrapped to 64 bits (`BackoffWraps`),
  and there is no wait at all if and only if 2^64 divides it (`NoDelayExactly`); with the
  default delay that is from attempt 57 on (`DefaultDelayVanishes`).
- With the largest possible `MaxRetries` the attempt limit wraps around and no request is made;
  `HTTPTransport.Request` states that this is the only such value.
- An event without an id can be stored once per attempt (`StoreTimes`). `OncePerCaptureExactly`:
  it is stored at most once per capture if and only if it has an id, or nothing is ever retried,
  or nothing is captured at all. `preparePayload` always leaves an id (`PreparedHasId`).
- Sanitising depends on the order of map iteration. `OrderIrrelevantExactly`: it does not if and
  only if, in every map that is read, unmasked keys that trim alike have entries that come to
  the same when each is sanitised on its own.
- Sensitive keys inside containers the sanitiser does not read, such as a list typed as a list
  of maps, stay as they are. `MaskedExactly`: every result is masked throughout if and only if
  whatever is passed on unread has nothing left to mask.
- The copy that a hook is shown can share lists with the payload. `Sharing.CloneMap`: all its maps
  and lists are new if and only if no list holds a list directly.

## Model

| member | source | states |
|---|---|---|
| PipelineTheorems.InvInit | providers/duckbug/provider.go:126-152 | a new provider satisfies the whole invariant, for any number of threads |
| PipelineInvariants.MoveDelta | providers/duckbug/provider.go:227-329 | every move changes exactly one thread and, for every event, moves each copy it removes from one place into another; the wait group and the drop counter follow the queue and that thread |
| PipelineOrder.FifoKept | providers/duckbug/provider.go:264-329 | accepting, receiving, appending, direct sending and taking a buffer each keep the per-type order |
| PipelineOrder.BoundedKept | providers/duckbug/provider.go:321-328 | every move keeps each buffer within `batchSize - 1` plus the threads that found it full and have not taken it |
| PipelineTheorems.BarrierAtZero | providers/duckbug/provider.go:299-312 | when the wait group is zero, every accepted event has left the queue and the worker, and the directly sent ones have been acknowledged or reported |
| PipelineTheorems.InvKept | providers/duckbug/provider.go:227-455 | every move of every thread keeps the invariant: places, counters, conservation, order, bounds and the flush barrier |
| PipelineTheorems.InvAlways | providers/duckbug/provider.go:227-455 | so does every run |
| PipelineProperties.WaitGroupExact | providers/duckbug/provider.go:264-297 | in every reachable state `pending` is the queue length, plus one if the worker is between receive and `Done`, plus the enqueuers between `Add` and their outcome; it is never negative and the queue never exceeds `queueSize`; `dropped` is the number of drop reports made or about to be made |
| PipelineProperties.EnqueueFinishes | providers/duckbug/provider.go:280-297 | `enqueue` never blocks: it is over after at most five moves of its own, whatever the other threads do in between |
| PipelineProgress.WorkFinishes | providers/duckbug/provider.go:248-400 | a capture, a round of the ticker and a `Flush` that has stopped waiting are over after at most nine moves of their own thread, each answer of the transport being one, whatever the other threads do in between |
| PipelineProgress.SettledByAnswers | providers/duckbug/provider.go:395-432 | on every run, the acknowledged copies of an event are those in batches the transport answered without an error and with a 2xx or as a duplicate, and the reported ones those in all other answered batches, up to answers still being handled |
| PipelineProperties.ConservationLaw | providers/duckbug/provider.go:264-329 | captures of an event equal its copies in queue, buffer, threads, acknowledgements, failure reports and drop reports; settled copies were given to the transport, and given and dropped ones together do not exceed the captures |
| PipelineProperties.ExactlyOnePlace | providers/duckbug/provider.go:264-455 | an event captured once is at exactly one place, exactly once, in every reachable state |
| PipelineProperties.QuiescentOutcome | providers/duckbug/provider.go:264-455 | with all threads idle and the queue empty, every capture is acknowledged, in one failure report, in one drop report, or buffered; and the wait group is zero |
| PipelineProperties.TurnedAwayMove | providers/duckbug/provider.go:290-296 | an enqueuing thread comes to drop its event exactly by meeting a full queue |
| PipelineProperties.NoDropWithinCapacity | providers/duckbug/provider.go:280-297 | no event is dropped, counted as dropped or on its way there unless more than `queueSize` were captured; sync mode drops none |
| PipelineExactness.DropsExactly | providers/duckbug/provider.go:280-297 | no run with at most m captures drops an event if and only if m is at most `queueSize`, or the mode is sync, or there is no caller beside the worker |
| PipelineExactness.FirstDrop | providers/duckbug/provider.go:290-296 | in every async configuration with a caller, `queueSize + 1` captures can end in one drop, counted and reported |
| PipelineProperties.PerTypeFifo | providers/duckbug/provider.go:268-277 | for each type, accepted events in order are the ones taken for sending, then the buffer, then the worker's item, then the queue; types that are sent directly have an empty buffer |
| PipelineSending.CallsFollowOrderExactly | providers/duckbug/provider.go:314-400 | in every reachable state the events of a type given to the transport are a prefix of the accepted ones, in order, if and only if there is at most one goroutine, or async mode with a directly sent type or at most one caller |
| PipelineSending.SendingKept | providers/duckbug/provider.go:314-400 | in those configurations every move keeps: no two threads hold a batch of the type, and what was taken is what was sent and then what is held |
| PipelineSending.OutOfOrder | providers/duckbug/provider.go:382-398 | in every other configuration the second of two events of the type can be given to the transport before the first |
| PipelineSending.SentIsGiven | providers/duckbug/provider.go:390-397 | the order of the calls and the count of their arguments agree in every reachable state |
| PipelineProperties.BatchWithinLimit | providers/duckbug/provider.go:314-328 | every batch in the transport is non-empty and of one type, at most `batchSize` long in async mode and `batchSize - 1` plus the number of threads in sync mode; buffers obey the bound they come from |
| PipelineBatches.CaptureSends | providers/duckbug/provider.go:314-328 | in every reachable state: a transaction, and any event with a batch size of one, is sent alone, by its capture; errors and logs are otherwise sent by a capture in batches of exactly `batchSize`, in async mode or with a single caller |
| PipelineBatches.AllFullKept | providers/duckbug/provider.go:321-328 | in those modes every move keeps: a capture that found the buffer full takes exactly `batchSize` events, or nothing if another thread was first |
| PipelineBatches.Unbuffered | providers/duckbug/provider.go:315-319 | no transaction ever enters a buffer, nor anything with a batch size of one, and a buffer holds one type |
| PipelineBatches.ErrorsFirst | providers/duckbug/provider.go:260-261 | a `Flush` sends logs only after all errors accepted before it have been taken |
| PipelineProperties.SinceKept | providers/duckbug/provider.go:248-262 | the mark a flushing thread carries stays the one set when its `Flush` began |
| PipelineProperties.FlushBarrier | providers/duckbug/provider.go:248-262 | at the return of a `Flush`, every event accepted before it has at least as many copies settled or in flight as it had accepted; for directly sent types in async mode, settled |
| PipelineProperties.FlushCall | providers/duckbug/provider.go:248-312 | for any run from the call of `Flush` to its uncancelled return: all copies of every event accepted before the call are acknowledged, reported, or in flight in another thread; directly sent types in async mode are settled without exception; an event captured once is neither queued nor buffered |
| PipelineExactness.FlushSettlesExactly | providers/duckbug/provider.go:248-262 | every completed `Flush` settles all copies of everything accepted before it if and only if there is at most one goroutine, or async mode with a batch size of one |
| PipelineExactness.Unsettled | providers/duckbug/provider.go:382-400 | in every other configuration there is a `Flush` that returns while another thread holds an event accepted before it |
| PipelineProperties.TickerFlush | providers/duckbug/provider.go:273-275 | after a tick, once the worker is idle again, every error and log event buffered at the tick has been taken, in order, and is acknowledged, reported or in flight in another thread |
| PipelineExactness.BatchSizeExactly | providers/duckbug/provider.go:314-328 | no batch exceeds `batchSize` if and only if the mode is async, or nothing is batched, or there is at most one caller |
| PipelineExactness.OversizedBatch | providers/duckbug/provider.go:321-328 | in sync mode with batching, for errors and for logs, any number of callers can make a batch of exactly `batchSize - 1` plus their number |
| Chunking.ChunksUnique | providers/duckbug/provider.go:321-328 | cutting into consecutive chunks of one size, the last possibly short and never empty, has exactly one result |
| SyncProvider.Provider.constructor | providers/duckbug/provider.go:108-153 | the batch size is at least one and nothing is buffered, sent or reported |
| SyncProvider.Provider.Transmit | providers/duckbug/provider.go:390-399 | one call with these items, `Send` exactly for one item, and one report with all of them and the answer, exactly when the answer has an error or is neither a 2xx nor a duplicate |
| SyncProvider.Provider.FlushType | providers/duckbug/provider.go:382-400 | the buffer of the type is emptied and all of it given to the transport in one call, or no call if it was empty |
| SyncProvider.Provider.CapturePrepared | providers/duckbug/provider.go:314-329 | the event completes a chunk, which is sent, or joins the buffer; other types are untouched |
| SyncProvider.Provider.CaptureEvent | providers/duckbug/provider.go:227-246 | the names "errors", "logs" and "transactions" are the three types; another name or a payload that was not kept changes nothing; otherwise the event joins those of its type kept since the last flush |
| SyncProvider.Provider.Flush | providers/duckbug/provider.go:248-262 | errors and then logs are sent, one call for what each buffer still held; all calls of every type since the last flush are then exactly the events kept since, cut into chunks, and every buffer is empty, the transaction buffer included, although it is never flushed |
| SyncProvider.Provider.Serve | providers/duckbug/provider.go:227-262 | over any sequence of captures and flushes, errors and logs are sent in chunks of `batchSize` and transactions one by one, each stretch between flushes on its own, with exactly one report for each unsuccessful call, in order |
| HttpTransport.BackoffExact | providers/duckbug/http_transport.go:233-238 | all delays of a run double exactly when the last of them fits in an int64 |
| HttpTransport.TotalSleep | providers/duckbug/http_transport.go:94-107 | a run that uses up its retries sleeps `retryDelay * (2^MaxRetries - 1)` in all, when its last delay fits |
| HttpTransport.BackoffWraps | providers/duckbug/http_transport.go:233-238 | at every attempt the delay is the mathematical one, wrapped once to an int64 |
| HttpTransport.NoDelayExactly | providers/duckbug/http_transport.go:233-238 | the delay is zero exactly when 2^64 divides the mathematical one, then stays zero, and is so after attempt 64 |
| HttpTransport.DefaultDelayVanishes | providers/duckbug/http_transport.go:42-45 | with the default delay, exactly from attempt 57 on |
| HttpTransport.HTTPTransport.constructor | providers/duckbug/http_transport.go:42-70 | negative retries count as none, a delay that is not positive as 100 ms, and other values are kept |
| HttpTransport.ResultReports | providers/duckbug/http_transport.go:112-153 | of any run, from its last outcome alone: the status is that of the response, or 0 without one; `Duplicate` is set exactly on 409; the error is the reported one, the reason of a cancellation after a response, or empty |
| HttpTransport.HTTPTransport.Request | providers/duckbug/http_transport.go:81-110 | for every network and every pattern of cancellation: every outcome before the last is worth retrying (no response, 408, 429, or from 500 on except 501), the last one is not or is at the limit, unless a sleep after it was cancelled; the sleeps are the backoff delays in order; the result reports the last outcome; no request is made exactly on a marshalling error or when the attempt limit overflows |
| Delivery.StepKept | providers/duckbug/http_transport.go:81-110 | every step of pipeline, network and server keeps: one row per key, only events given to the transport, every acknowledged event held, and no more rows of an event than attempts made for it |
| DeliveryTheorems.EndToEnd | providers/duckbug/http_transport.go:170-182 | after every history and for any payloads: an event has at most one row for each attempt of each time it was given to the transport, and at most one at all if it has an id; an acknowledged event is held; one captured once and dropped is not stored |
| DeliveryTheorems.StoredExactlyOnce | providers/duckbug/provider.go:352-380 | with payloads that left `preparePayload` and ids that are not shared, every event is stored at most once, and exactly once if it was acknowledged |
| DeliveryTheorems.OncePerCaptureExactly | providers/duckbug/provider.go:357-380 | an event is stored at most as often as it was captured, in every history, if and only if it has an id, or `MaxRetries` is zero or overflows the attempt limit, or there is no caller |
| DeliveryTheorems.StoreTimes | providers/duckbug/http_transport.go:176-182 | otherwise, for every n up to `MaxRetries + 1`, lost answers and retries can store it exactly n times for each time it was captured |
| Payload.PreparedHasId | providers/duckbug/provider.go:352-380 | whatever the input, the options and the hook, what `preparePayload` keeps has a usable id |
| ResponseWriter.FirstCommitDecides | integrations/nethttp/response_writer.go:30-41 | the final status is that of the first call that commits, before any hijack: an explicit code outside 100 to 199 or 101, and 200 for a write or a supported flush |
| ResponseWriter.NoCommitNoStatus | integrations/nethttp/response_writer.go:108-119 | without such a call there is no status to observe |
| ResponseWriter.StatusStays | integrations/nethttp/response_writer.go:108-119 | once there is a final status, later operations leave it |
| ResponseWriter.OneFinalCode | integrations/nethttp/response_writer.go:30-41 | the codes that reach the writer are informational ones and then at most one final code, 101 being final |
| ResponseWriter.Tracker.WriteHeader | integrations/nethttp/response_writer.go:30-41 | the code reaches the writer only while nothing is committed and the connection is not hijacked; an invalid code panics and changes nothing; the tracker agrees with the writer afterwards |
| ResponseWriter.Tracker.RecordWrite | integrations/nethttp/response_writer.go:97-106 | a write counts its accepted bytes and commits 200 unless hijacked; a short write without an error is reported as one |
| ResponseWriter.Tracker.CommitImplicit | integrations/nethttp/response_writer.go:108-112 | commits 200 exactly when nothing is committed and the connection is not hijacked |
| ResponseWriter.Tracker.CaptureBody | integrations/nethttp/response_writer.go:121-136 | if the snippet was the bounded prefix of the bytes before, it is the bounded prefix of those bytes and the new ones, with `truncated` exactly when they are more |
| ResponseWriter.Tracker.Write | integrations/nethttp/response_writer.go:42-51 | exactly one write reaches the writer; the caller is told what the writer took and reported, or a short write it did not report; the tracker agrees with the writer in status, hijack, count and snippet |
| ResponseWriter.Tracker.WriteString | integrations/nethttp/response_writer.go:52-65 | the same contract as Write, although the code captures the body on another path |
| ResponseWriter.Tracker.ReadFrom | integrations/nethttp/response_writer.go:66-71 | the non-empty chunks of the source are written in turn, up to the first that is not taken whole and without an error; its error is returned, or else how the source ended; the tracker agrees with the writer |
| ResponseWriter.CopyTakes | integrations/nethttp/response_writer.go:66-71 | such a copy takes a prefix of the source, and all of it when every write was taken whole |
| ResponseWriter.CopySucceeds | integrations/nethttp/response_writer.go:66-71 | it returns no error exactly when every write was taken whole without one and the source had none |
| ResponseWriter.Tracker.Flush | integrations/nethttp/response_writer.go:72-74 | a flush commits 200 in tracker and writer alike |
| ResponseWriter.Tracker.FlushError | integrations/nethttp/response_writer.go:75-83 | an unsupported flush commits nothing; any other leaves tracker and writer in agreement |
| ResponseWriter.Tracker.Hijack | integrations/nethttp/response_writer.go:84-92 | a successful hijack is noticed, a failed one is not, and status and bytes stay |
| Middleware.RunHandler | integrations/nethttp/middleware.go:85-85 | any sequence of writer operations leaves tracker and writer in agreement, and the writer was called exactly as these operations call it, answers included, up to the first invalid status code |
| Middleware.Request.constructor | integrations/nethttp/middleware.go:67-68 | a transaction is started exactly with a Duck, transactions enabled and no websocket; the observer has the configured capture and limit |
| Middleware.Request.CaptureTransaction | integrations/nethttp/middleware.go:228-248 | at most one transaction is added, exactly when one was started and it is forced or sampled; it carries the status, omitted exactly when 0, and is named ok below 400, invalid_argument from 400 to 499, internal_error from 500 on and unknown_error for 0 |
| Middleware.Request.CaptureHandled5xx | integrations/nethttp/middleware.go:250-293 | an incident is added exactly on an observed status of 500 or above, with the observed byte count and snippet |
| Middleware.Request.Recover | integrations/nethttp/middleware.go:69-83 | a panic is reported once if panics are captured, rethrown exactly if configured, and answered by status 500 and a text, and nothing else, exactly when it is not rethrown and nothing was committed or hijacked; its transaction is forced |
| Middleware.Request.Serve | integrations/nethttp/middleware.go:57-88 | the whole protocol: one transaction on a panic, an observed 5xx or a successful draw and none otherwise; a panic incident or a handled-5xx incident, never both; the transaction names and carries the status the writer sent; no fallback after commitment or hijack |
| Normalize.NormalizeValue | core/util.go:115-235 | the recursive loops compute the normal form, whatever order maps are visited in |
| Normalize.NormalizedIsNormal | core/util.go:115-235 | the result is nil, a scalar, a string, a generic list or a string-keyed map, all the way down |
| Normalize.FixedPoints | core/util.go:115-235 | the normal forms are exactly the values normalisation leaves alone |
| Normalize.SameLeaves | core/util.go:115-235 | normalising neither loses, adds, changes nor moves a leaf, through pointers, typed lists and maps, JSON round trips and keys that print alike |
| Normalize.SameKind | core/util.go:163-235 | lists stay lists of their length and maps stay maps with their keys, empty ones too |
| Normalize.CloneNormalizedValue | core/util.go:100-113 | the loops compute the clone |
| Normalize.CloneMapStringAny | core/util.go:76-87 | the loops compute the clone of a map, nil for an empty one |
| Normalize.CloneRoundTrip | core/util.go:76-113 | a clone of any value normalises to what the value itself does |
| Normalize.CloneOfNormal | core/util.go:76-113 | so normalising the clone of a normal form gives it back |
| Normalize.CloneIdentity | core/util.go:76-113 | a clone differs from its original exactly when an empty map occurs in it |
| Values.TrimExactly | pond/pond.go:182-185 | trimming cuts off white space at both ends and nothing else |
| PondSanitizer.New | pond/pond.go:76-115 | a key is sensitive exactly when its trimmed lower-case form is not blank and is that of a default or configured name, header names counting in header mode only; a blank mask means the default |
| PondSanitizer.SanitizeValue | pond/pond.go:202-225 | the loops, visiting maps in any given order, compute the result of that order |
| PondSanitizer.SanitizeMap | pond/pond.go:172-200 | the same for one map, nil included: of keys that trim alike the one visited last stays, sensitive ones hold the mask, blank ones go, and nothing left becomes nil |
| PondOutcomes.WrittenLast | pond/pond.go:181-193 | of unmasked keys that trim alike, the entry of the one visited last is what stands in the result |
| PondOutcomes.OutcomesExactly | pond/pond.go:172-225 | the results of all orders are exactly the outcomes of an order-free reading: the trimmed non-blank keys, each with the mask if sensitive and otherwise any outcome of any entry that trims to it |
| PondOutcomes.OutcomeExists | pond/pond.go:172-225 | every value has an outcome |
| PondTheorems.MaskingComplete | pond/pond.go:172-241 | on normal forms, nil maps included, every sensitive key at any depth of any outcome holds the mask, and the outcome has no container of another type |
| PondTheorems.DetailsAreMasked | core/duck.go:411-411 | so for any details at all, once normalised and sanitised |
| PondTheorems.FixedExactly | pond/pond.go:172-225 | for any value, some order of iteration leaves it alone if and only if it has nothing to convert, its maps that are read are non-empty with trimmed non-blank keys, and sensitive ones hold the mask |
| PondTheorems.FixedHasOneOutcome | pond/pond.go:172-225 | such a value has exactly one outcome, itself |
| PondTheorems.SanitizeTwice | pond/pond.go:172-225 | the only outcome of sanitising an outcome, of any value, is itself |
| PondTheorems.VisitTwice | pond/pond.go:172-225 | sanitising the result of the loops again, whatever the two orders of iteration, gives the same value |
| PondOutcomes.OrderIrrelevantExactly | pond/pond.go:180-193 | for any value, all orders give the same result if and only if colliding unmasked entries come to the same, in every map that is read |
| PondTheorems.InjectiveIsEnough | pond/pond.go:180-193 | in particular when no two keys of one map trim alike, blank and sensitive ones aside |
| PondTheorems.MaskedExactly | pond/pond.go:172-241 | for any value, every result is masked at every depth and in containers of every type if and only if what the sanitiser passes on unread has nothing left to mask |
| PondTheorems.CollisionIsAmbiguous | pond/pond.go:180-193 | for two unmasked scalars under keys that trim alike, the order shows exactly when they differ |
| PondTheorems.LeafKept | pond/pond.go:172-225 | for any value, a leaf reached through keys that are not blank, not sensitive and alone in what they trim to is unchanged at its trimmed path |
| PondTheorems.LeafOrigin | pond/pond.go:172-225 | for any value, every leaf of an outcome is the mask under a sensitive key or a leaf of the input at a path that trims to its own; leaves are read in the containers the sanitiser reads |
| Payload.Document.ApplyPrivacy | providers/duckbug/provider.go:457-493 | in place, exactly the keys that the options allow remain |
| Payload.PermittedTable | providers/duckbug/provider.go:457-493 | which option lets which section through, one by one; anything else stays, and nothing that stays is changed |
| Payload.Document.EnsureEventID | providers/duckbug/provider.go:374-380 | in place, an id is set exactly when there is no non-blank string id |
| Payload.CloneMap | providers/duckbug/provider.go:539-565 | the loops compute the clone |
| Payload.CloneChanges | providers/duckbug/provider.go:539-565 | a clone differs from its original exactly when there is an empty map in it, along maps and maps directly in lists |
| Payload.CloneKeeps | providers/duckbug/provider.go:539-565 | and normalises to what its original does |
| Payload.StripNilValues | providers/duckbug/provider.go:495-537 | the loops compute the stripped map |
| Payload.StripDropsHollow | providers/duckbug/provider.go:495-537 | a value is dropped exactly when it holds nothing but nils and empty maps and lists along maps and maps directly in lists |
| Payload.StripItemsExactly | providers/duckbug/provider.go:511-525 | what stays of a list are its items that are not hollow, maps stripped and others as they are, in their order |
| Payload.CleanIsFixed | providers/duckbug/provider.go:495-537 | stripping leaves alone exactly the values with no nil and no empty map or list along those paths |
| Payload.StripLaws | providers/duckbug/provider.go:495-565 | a clone strips to what its original does; stripping is idempotent and commutes with deleting keys; the keys that stay are those with something in them |
| Payload.RunHook | providers/duckbug/provider.go:341-347 | the hook is shown a clone and what it returns is cloned and stripped; a dropped or empty result is nothing |
| Payload.PreparePayload | providers/duckbug/provider.go:331-355 | the kept payload is the permitted part of the input, stripped, through the hook if there is one, with an id |
| Payload.NormalFormWithoutHook | providers/duckbug/provider.go:331-380 | without a hook a payload is kept exactly when a permitted value is not hollow, and its keys and values are those of the input, stripped; its id is the input's if that has something in it besides white space, and the new one otherwise |
| Payload.NormalFormWithHook | providers/duckbug/provider.go:331-380 | with any hook the payload is kept exactly when the hook returned something that is not hollow; its keys and values are those the hook returned, stripped; its id is the hook's if usable and the new one otherwise; it has no nil or empty map along the stripped paths |
| PayloadMasking.StrippedStaysMasked | providers/duckbug/provider.go:495-537 | stripping a masked value leaves it masked |
| PayloadMasking.ClonedStaysMasked | core/util.go:76-113 | so does cloning it with the event |
| PayloadMasking.PreparedStaysMasked | providers/duckbug/provider.go:331-355 | without a hook, a section of a payload that comes in masked goes out masked, whatever the privacy options |
| PayloadMasking.ContextLeavesMasked | core/duck.go:405-414 | from the caller's details to the transport, without a hook: normalised, sanitised in any order, cloned with the event and prepared, they leave with the mask under every sensitive key at any depth |
| Sharing.CloneNormalizedValue | core/util.go:100-113 | every map and list of the copy is new, and it stands for the clone of the original's value |
| Sharing.CloneMapStringAny | core/util.go:76-87 | the same for a map |
| Sharing.CloneMap | providers/duckbug/provider.go:539-565 | the copy stands for the clone of the original's value; all its maps and lists are new if and only if no list of the original holds a list directly, and otherwise it shares those |

## Small facts

Lemmas that follow from the definitions alone and support the rows above: `RetryRule`,
`SuccessMeetsRetry`, `CompleteOnce` and `ResultClasses` (which outcomes are retried, which are
successes, and how a run of the retry loop can end), `SuccessWasReached`, `SamplingRule`,
`MeasurementOmitted`, `IdSurvives`, `EnqueueMoves`, `Choices` (what each thread of the pipeline can do next),
`WrapCongruent`, `StripKeepsOthers`, `StripKeepsItems`,
`SpacesExactly`.

## Left out

- The network, TLS, timers and JSON: a request is an arbitrary outcome, a sleep an arbitrary boolean, JSON decoding in normalisation an arbitrary finite value, and a marshalling error a parameter.
- The ingest server is not part of this repository. `Delivery` assumes what its documentation promises: one row per event id, nothing done on a conflict, an id of its own for each request of a payload without a usable one, and a 2xx or 409 only after it handled the whole request. That it answers 400 to an id that is blank or not a UUID is not used.
- Random generation of ids: `Payload` takes the fresh id as a parameter, and `StoredExactlyOnce` assumes that events do not share ids.
- The memory model and misuse panics of the wait group; the goroutine that `wait` leaves behind after a cancelled `Flush` only reads the counter and has no move of its own.
- Liveness: that the ticker fires, that a waiting `Flush` is ever released, that a transport answers.
- Failure and drop reports are modelled by their items, type and result; message texts and the choice between handler and log are not.
- Response bodies and batch item results inside a transport result, which nothing modelled here reads.
- Payload.RunHook: the hook is a function of what it is shown. What it could reach through lists that a copy shares is stated by `Sharing.CloneMap`; hooks that go on changing what they returned are covered in the same way, by the second copy.
- Sharing.CloneMap: maps and lists are `map[string]any` and `[]any`; containers of any other type, which both clone functions pass on as they are, count as plain values.
- `strings.ToLower` is an arbitrary function and `strings.TrimSpace` is used through idempotence, which `PondSanitizer.New` establishes for the white space it trims.
- The sampling rate and the draw are reals, without rounding.
- A source that writes itself (`io.WriterTo`) is a source that yields the chunks it writes; one that goes on after an error is not covered.
- Outer writers that only offer `Unwrap`, which the documentation declares unsupported, and writers that report `ErrHijacked` together with accepted bytes, or more bytes than they were given.
- Middleware.Request.CaptureHandled5xx: reports the observed status, count and captured bytes; method, path and user agent, the snippet's trimming and its "(truncated)" suffix, and the response message taken from it are not modelled; nor are ignored paths and the request context.
- Cyclic values, reflection details, URL joining, level names, client address extraction, option constructors: no state and no hard property.
- The slog, zap and zerolog bridges, the gRPC interceptor, scopes and transaction getters: adapters, or simpler copies of what is modelled.
