/** The response observer of the net/http middleware, over a conforming response writer. */
module ResponseWriter {

  type byte = n: int | 0 <= n < 256

  datatype WriteError = NoError | Hijacked | ShortWrite | Other(code: int)

  datatype FlushError = Flushed | NotSupported | FlushHijacked | FlushFailed(code: int)

  const SWITCHING_PROTOCOLS := 101
  const OK := 200

  /** Section 15.2 of RFC 9110: 1xx is interim. Section 15.2.2: after 101 the connection is no longer HTTP. */
  predicate Informational(code: int) {
    100 <= code < 200 && code != SWITCHING_PROTOCOLS
  }

  predicate ValidCode(code: int) {
    100 <= code <= 999
  }

  // Reference: the status that a list of writer operations establishes

  /** A call of the underlying writer together with its answer. */
  datatype Event =
    | Header(code: int)                                  // accepted by the writer
    | Wrote(data: seq<byte>, n: nat, err: WriteError)    // asked to write data, it took n bytes and reported err
    | FlushTried(flushed: FlushError)
    | HijackTried(ok: bool)

  /** The first final status: explicit, or 200 by a write or a supported flush; none once hijacked. */
  function FinalStatus(events: seq<Event>): int {
    if events == [] then 0
    else
      match events[0]
      case Header(code) => if Informational(code) then FinalStatus(events[1..]) else code
      case Wrote(_, _, _) => OK
      case FlushTried(err) => if err == NotSupported then FinalStatus(events[1..]) else OK
      case HijackTried(ok) => if ok then 0 else FinalStatus(events[1..])
  }

  predicate HasHijack(events: seq<Event>) {
    exists k :: 0 <= k < |events| && events[k] == HijackTried(true)
  }

  /** The bytes a write call was taken with. */
  function Taken(e: Event): seq<byte> {
    if e.Wrote? && e.n <= |e.data| then e.data[..e.n] else []
  }

  /** All bytes the writer took before a hijack. */
  function AcceptedBytes(events: seq<Event>): seq<byte> {
    if events == [] || events[0] == HijackTried(true) then []
    else Taken(events[0]) + AcceptedBytes(events[1..])
  }

  /** The answers are such as net/http documents: hijacked exactly after a hijack, and then nothing is taken. */
  predicate Plausible(e: Event, hijacked: bool) {
    match e
    case Header(code) => ValidCode(code)
    case Wrote(data, n, err) => n <= |data| && (err == Hijacked <==> hijacked) && (hijacked ==> n == 0)
    case FlushTried(err) => err == FlushHijacked ==> hijacked
    case HijackTried(_) => true
  }

  predicate PlausibleAt(events: seq<Event>, k: nat)
    requires k < |events|
  {
    Plausible(events[k], HasHijack(events[..k]))
  }

  predicate Conforming(events: seq<Event>) {
    forall k {:trigger PlausibleAt(events, k)} :: 0 <= k < |events| ==> PlausibleAt(events, k)
  }

  lemma {:induction false} ConformingAppend(events: seq<Event>, e: Event)
    requires Conforming(events) && Plausible(e, HasHijack(events))
    ensures Conforming(events + [e])
  {
    var more := events + [e];
    forall k | 0 <= k < |more| ensures PlausibleAt(more, k) {
      assert more[..k] == events[..k];
      if k < |events| {
        assert PlausibleAt(events, k);
      } else {
        assert events[..k] == events;
      }
    }
  }

  lemma {:induction false} ConformingCodes(events: seq<Event>)
    requires Conforming(events)
    ensures ValidCodes(events)
  {
    forall k | 0 <= k < |events| && events[k].Header? ensures ValidCode(events[k].code) {
      assert PlausibleAt(events, k);
    }
  }

  lemma {:induction false} HijackAppend(events: seq<Event>, e: Event)
    ensures HasHijack(events + [e]) <==> HasHijack(events) || e == HijackTried(true)
  {
    var more := events + [e];
    if HasHijack(events) {
      var k :| 0 <= k < |events| && events[k] == HijackTried(true);
      assert more[k] == HijackTried(true);
    } else if e == HijackTried(true) {
      assert more[|events|] == HijackTried(true);
    } else {
      forall k | 0 <= k < |more| ensures more[k] != HijackTried(true) {
        assert k < |events| ==> more[k] == events[k];
      }
    }
  }

  /** A later event matters only while there is neither a final status nor a hijack. */
  lemma {:induction false} StatusAppend(events: seq<Event>, e: Event)
    requires ValidCodes(events)
    ensures FinalStatus(events + [e]) ==
            if FinalStatus(events) != 0 || HasHijack(events) then FinalStatus(events) else FinalStatus([e])
  {
    if events == [] {
      assert events + [e] == [e];
    } else {
      var rest := events[1..];
      assert (events + [e])[1..] == rest + [e];
      assert forall k :: 0 <= k < |rest| ==> rest[k] == events[k + 1];
      StatusAppend(rest, e);
      HijackCons(events);
    }
  }

  lemma HijackCons(events: seq<Event>)
    requires events != []
    ensures HasHijack(events) <==> events[0] == HijackTried(true) || HasHijack(events[1..])
  {
    assert events == [events[0]] + events[1..];
    if HasHijack(events[1..]) {
      var k :| 0 <= k < |events[1..]| && events[1..][k] == HijackTried(true);
      assert events[k + 1] == HijackTried(true);
    } else if events[0] != HijackTried(true) {
      forall k | 0 <= k < |events| ensures events[k] != HijackTried(true) {
        assert k > 0 ==> events[k] == events[1..][k - 1];
      }
    }
  }

  lemma {:induction false} BytesAppend(events: seq<Event>, e: Event)
    ensures AcceptedBytes(events + [e]) == AcceptedBytes(events) + if HasHijack(events) then [] else AcceptedBytes([e])
  {
    if events == [] {
      assert events + [e] == [e];
    } else {
      assert (events + [e])[1..] == events[1..] + [e];
      BytesAppend(events[1..], e);
      HijackCons(events);
    }
  }

  /** Section 15.2 of RFC 9110 with the exception of 101: what gives a response its final status. */
  predicate Commits(e: Event) {
    match e
    case Header(code) => !(100 <= code <= 199) || code == 101
    case Wrote(_, _, _) => true
    case FlushTried(err) => err != NotSupported
    case HijackTried(_) => false
  }

  /** The first such call decides, unless a hijack came before: an explicit code, or else 200. */
  lemma {:induction false} FirstCommitDecides(events: seq<Event>, j: nat)
    requires j < |events| && Commits(events[j])
    requires forall i :: 0 <= i < j ==> !Commits(events[i]) && events[i] != HijackTried(true)
    ensures FinalStatus(events) == if events[j].Header? then events[j].code else 200
  {
    if j > 0 {
      assert forall i :: 0 <= i < j - 1 ==> events[1..][i] == events[i + 1];
      FirstCommitDecides(events[1..], j - 1);
    }
  }

  /** Without one, or after a hijack, there is no status to observe. */
  lemma {:induction false} NoCommitNoStatus(events: seq<Event>, j: nat)
    requires j <= |events| && (j < |events| ==> events[j] == HijackTried(true))
    requires forall i :: 0 <= i < j ==> !Commits(events[i])
    ensures FinalStatus(events) == 0
    decreases j
  {
    if j > 0 {
      assert forall i :: 0 <= i < |events| - 1 ==> events[1..][i] == events[i + 1];
      NoCommitNoStatus(events[1..], j - 1);
    }
  }

  // What the observer lets through

  /** A status code reaches the writer only while there is neither a final status nor a hijack. */
  predicate HeadersInTime(events: seq<Event>) {
    forall k {:trigger InTime(events, k)} :: 0 <= k < |events| ==> InTime(events, k)
  }

  predicate InTime(events: seq<Event>, k: nat)
    requires k < |events|
  {
    events[k].Header? ==> FinalStatus(events[..k]) == 0 && !HasHijack(events[..k])
  }

  predicate ValidCodes(events: seq<Event>) {
    forall k :: 0 <= k < |events| && events[k].Header? ==> ValidCode(events[k].code)
  }

  lemma {:induction false} StatusStays(events: seq<Event>, j: nat, k: nat)
    requires j <= k <= |events| && ValidCodes(events) && FinalStatus(events[..j]) != 0
    ensures FinalStatus(events[..k]) == FinalStatus(events[..j])
    decreases k
  {
    if j < k {
      StatusStays(events, j, k - 1);
      assert events[..k] == events[..k - 1] + [events[k - 1]];
      StatusAppend(events[..k - 1], events[k - 1]);
    }
  }

  /** So the writer sees informational codes and then at most one final code. */
  lemma OneFinalCode(events: seq<Event>, j: nat, k: nat)
    requires HeadersInTime(events) && ValidCodes(events)
    requires j < k < |events| && events[j].Header? && events[k].Header?
    ensures Informational(events[j].code)
  {
    assert InTime(events, j) && InTime(events, k);
    if !Informational(events[j].code) {
      assert events[..j + 1] == events[..j] + [events[j]];
      StatusAppend(events[..j], events[j]);
      StatusStays(events, j + 1, k);
    }
  }

  // The underlying writer

  function Min(a: int, b: int): int {
    if a < b then a else b
  }

  function Max(a: int, b: int): int {
    if a > b then a else b
  }

  /** What net/http documents of a response writer; which bytes it takes and which errors it reports is its choice. */
  class Writer {
    var status: int
    var hijacked: bool
    var body: seq<byte>
    ghost var events: seq<Event>

    ghost predicate Conforms()
      reads this
    {
      && Conforming(events)
      && status == FinalStatus(events)
      && hijacked == HasHijack(events)
      && body == AcceptedBytes(events)
    }

    constructor ()
      ensures Conforms() && events == [] && status == 0 && !hijacked && body == []
    {
      status, hijacked, body, events := 0, false, [], [];
    }

    ghost method Record(e: Event)
      requires Conforms() && Plausible(e, hijacked)
      modifies this`events
      ensures events == old(events) + [e] && Conforming(events)
      ensures FinalStatus(events) == if status != 0 || hijacked then status else FinalStatus([e])
      ensures HasHijack(events) <==> hijacked || e == HijackTried(true)
      ensures AcceptedBytes(events) == body + if hijacked then [] else AcceptedBytes([e])
    {
      ConformingAppend(events, e);
      ConformingCodes(events);
      StatusAppend(events, e);
      HijackAppend(events, e);
      BytesAppend(events, e);
      events := events + [e];
    }

    /** An invalid code panics; a call after the final status or a hijack is ignored. */
    method WriteHeader(code: int) returns (panicked: bool)
      requires Conforms()
      modifies this
      ensures Conforms() && hijacked == old(hijacked) && body == old(body)
      ensures panicked <==> !ValidCode(code)
      ensures panicked ==> status == old(status) && events == old(events)
      ensures !panicked ==> events == old(events) + [Header(code)]
      ensures !panicked ==> status == if old(status) != 0 || hijacked || Informational(code) then old(status) else code
    {
      panicked := !ValidCode(code);
      if panicked {
        return;
      }
      Record(Header(code));
      if status == 0 && !hijacked && !Informational(code) {
        status := code;
      }
    }

    method Write(data: seq<byte>) returns (n: nat, err: WriteError)
      requires Conforms()
      modifies this
      ensures Conforms() && hijacked == old(hijacked) && n <= |data|
      ensures (err == Hijacked <==> hijacked) && (hijacked ==> n == 0)
      ensures events == old(events) + [Wrote(data, n, err)]
      ensures status == if old(status) == 0 && !hijacked then OK else old(status)
      ensures body == old(body) + data[..n]
    {
      n, err := 0, Hijacked;
      if !hijacked {
        n :| 0 <= n <= |data|;
        err := *;
        if err == Hijacked {
          err := ShortWrite;
        }
      }
      Record(Wrote(data, n, err));
      OneWrite(data, n, err);
      if status == 0 && !hijacked {
        status := OK;
      }
      body := body + data[..n];
    }

    method Flush()
      requires Conforms()
      modifies this
      ensures Conforms() && hijacked == old(hijacked) && body == old(body)
      ensures events == old(events) + [FlushTried(Flushed)]
      ensures status == if old(status) == 0 && !hijacked then OK else old(status)
    {
      Record(FlushTried(Flushed));
      if status == 0 && !hijacked {
        status := OK;
      }
    }

    method FlushError() returns (err: FlushError)
      requires Conforms()
      modifies this
      ensures Conforms() && hijacked == old(hijacked) && body == old(body)
      ensures err == FlushHijacked ==> hijacked
      ensures events == old(events) + [FlushTried(err)]
      ensures status == if old(status) == 0 && !hijacked && err != NotSupported then OK else old(status)
    {
      err := *;
      if err == FlushHijacked && !hijacked {
        err := Flushed;
      }
      Record(FlushTried(err));
      if status == 0 && !hijacked && err != NotSupported {
        status := OK;
      }
    }

    method Hijack() returns (ok: bool)
      requires Conforms()
      modifies this
      ensures Conforms() && status == old(status) && body == old(body)
      ensures hijacked == (old(hijacked) || ok)
      ensures events == old(events) + [HijackTried(ok)]
    {
      ok := *;
      Record(HijackTried(ok));
      hijacked := hijacked || ok;
    }
  }

  lemma OneWrite(data: seq<byte>, n: nat, err: WriteError)
    requires n <= |data|
    ensures AcceptedBytes([Wrote(data, n, err)]) == data[..n]
  {
    assert [Wrote(data, n, err)][1..] == [];
  }

  // Copying a source

  /** The error a caller of a tracked write is given: what the writer reported, or a short write it did not report. */
  function Reported(e: Event): WriteError
    requires e.Wrote?
  {
    if e.err == NoError && e.n < |e.data| then ShortWrite else e.err
  }

  predicate Whole(e: Event) {
    e.Wrote? && e.n == |e.data| && e.err == NoError
  }

  function NonEmpty(chunks: seq<seq<byte>>): seq<seq<byte>> {
    if chunks == [] then []
    else NonEmpty(chunks[..|chunks| - 1]) + if chunks[|chunks| - 1] == [] then [] else [chunks[|chunks| - 1]]
  }

  function Joined(chunks: seq<seq<byte>>): seq<byte> {
    if chunks == [] then [] else Joined(chunks[..|chunks| - 1]) + chunks[|chunks| - 1]
  }

  /** The calls of a copy: the chunks in turn, and no more after one that was not taken whole and without an error. */
  predicate CopyOf(chunks: seq<seq<byte>>, calls: seq<Event>) {
    var parts := NonEmpty(chunks);
    && |calls| <= |parts|
    && (forall j {:trigger CallFor(calls[j], parts[j])} :: 0 <= j < |calls| ==> CallFor(calls[j], parts[j]))
    && (forall j {:trigger Whole(calls[j])} :: 0 <= j < |calls| - 1 ==> Whole(calls[j]))
    && (|calls| < |parts| ==> calls != [] && !Whole(calls[|calls| - 1]))
  }

  predicate CallFor(call: Event, part: seq<byte>) {
    call.Wrote? && call.data == part && call.n <= |part|
  }

  /** What the copy returns: the error of the write that stopped it, or else how the source ended. */
  function CopyError(calls: seq<Event>, sourceError: WriteError): WriteError {
    if calls != [] && calls[|calls| - 1].Wrote? && !Whole(calls[|calls| - 1])
    then Reported(calls[|calls| - 1]) else sourceError
  }

  function TakenBy(calls: seq<Event>): seq<byte> {
    if calls == [] then [] else TakenBy(calls[..|calls| - 1]) + Taken(calls[|calls| - 1])
  }

  lemma {:induction false} NonEmptyPrefix(chunks: seq<seq<byte>>, i: nat)
    requires i <= |chunks|
    ensures NonEmpty(chunks[..i]) <= NonEmpty(chunks)
    decreases |chunks| - i
  {
    if i < |chunks| {
      assert chunks[..i + 1][..i] == chunks[..i];
      NonEmptyPrefix(chunks, i + 1);
    } else {
      assert chunks[..i] == chunks;
    }
  }

  lemma {:induction false} JoinedNonEmpty(chunks: seq<seq<byte>>)
    ensures Joined(NonEmpty(chunks)) == Joined(chunks)
  {
    if chunks != [] {
      var n := |chunks| - 1;
      JoinedNonEmpty(chunks[..n]);
      if chunks[n] != [] {
        assert NonEmpty(chunks)[..|NonEmpty(chunks)| - 1] == NonEmpty(chunks[..n]);
      } else {
        assert NonEmpty(chunks) == NonEmpty(chunks[..n]) && Joined(chunks) == Joined(chunks[..n]);
      }
    }
  }

  lemma {:induction false} WholeCalls(parts: seq<seq<byte>>, calls: seq<Event>)
    requires |calls| <= |parts|
    requires forall j :: 0 <= j < |calls| ==> Whole(calls[j]) && calls[j].data == parts[j]
    ensures TakenBy(calls) == Joined(parts[..|calls|])
  {
    if calls != [] {
      var n := |calls| - 1;
      WholeCalls(parts, calls[..n]);
      assert parts[..|calls|][..n] == parts[..n];
    }
  }

  lemma {:induction false} JoinedPrefix(chunks: seq<seq<byte>>, i: nat)
    requires i <= |chunks|
    ensures Joined(chunks[..i]) <= Joined(chunks)
    decreases |chunks| - i
  {
    if i < |chunks| {
      assert chunks[..i + 1][..i] == chunks[..i];
      JoinedPrefix(chunks, i + 1);
    } else {
      assert chunks[..i] == chunks;
    }
  }

  /** A copy takes a prefix of the source, and all of it when every call was taken whole and without an error. */
  lemma {:induction false} CopyTakes(chunks: seq<seq<byte>>, calls: seq<Event>)
    requires CopyOf(chunks, calls)
    ensures TakenBy(calls) <= Joined(chunks)
    ensures AllWhole(calls) ==> TakenBy(calls) == Joined(chunks)
  {
    var parts := NonEmpty(chunks);
    JoinedNonEmpty(chunks);
    forall j | 0 <= j < |calls| ensures calls[j].Wrote? && calls[j].data == parts[j] && calls[j].n <= |parts[j]| {
      assert CallFor(calls[j], parts[j]);
    }
    assert forall j {:trigger Whole(calls[j])} :: 0 <= j < |calls| - 1 ==> Whole(calls[j]);
    if AllWhole(calls) {
      WholeCalls(parts, calls);
      assert |calls| == |parts| && parts[..|calls|] == parts;
    } else {
      StoppedTakes(parts, calls);
    }
  }

  lemma {:induction false} StoppedTakes(parts: seq<seq<byte>>, calls: seq<Event>)
    requires 1 <= |calls| <= |parts|
    requires forall j :: 0 <= j < |calls| - 1 ==> Whole(calls[j]) && calls[j].data == parts[j]
    requires var e := calls[|calls| - 1]; e.Wrote? && e.data == parts[|calls| - 1] && e.n <= |e.data|
    ensures TakenBy(calls) <= Joined(parts)
  {
    var n := |calls| - 1;
    WholeCalls(parts, calls[..n]);
    JoinedPrefix(parts, n + 1);
    assert Joined(parts[..n + 1]) == Joined(parts[..n]) + parts[n] by {
      assert parts[..n + 1][..n] == parts[..n];
    }
    assert TakenBy(calls) <= Joined(parts[..n + 1]);
  }

  predicate AllWhole(calls: seq<Event>) {
    forall j :: 0 <= j < |calls| ==> Whole(calls[j])
  }

  /** And it returns no error exactly then, when the source has none either. */
  lemma {:induction false} CopySucceeds(chunks: seq<seq<byte>>, calls: seq<Event>, sourceError: WriteError)
    requires CopyOf(chunks, calls)
    ensures CopyError(calls, sourceError) == NoError <==> sourceError == NoError && AllWhole(calls)
  {
    if calls != [] {
      var n := |calls| - 1;
      assert CallFor(calls[n], NonEmpty(chunks)[n]);
      if Whole(calls[n]) {
        assert forall j {:trigger Whole(calls[j])} :: 0 <= j < n ==> Whole(calls[j]);
      }
    }
  }

  // The observer

  class Tracker {
    const writer: Writer
    const captureResponse: bool
    const maxResponseBytes: int
    var statusCode: int
    var wroteHeader: bool
    var hijacked: bool
    var acceptedBytes: int
    var responseBody: seq<byte>
    var truncated: bool

    function Limit(): nat {
      Max(0, maxResponseBytes)
    }

    /** The observer agrees with the writer; its snippet is the prefix of what the writer accepted. */
    ghost predicate Valid()
      reads this, writer
    {
      && writer.Conforms()
      && statusCode == writer.status && wroteHeader == (writer.status != 0) && hijacked == writer.hijacked
      && Counted(writer.body)
      && HeadersInTime(writer.events)
    }

    /** acceptedBytes, responseBody and truncated are functions of the accepted bytes alone. */
    ghost predicate Counted(accepted: seq<byte>)
      reads this
    {
      && acceptedBytes == |accepted|
      && responseBody == (if captureResponse then accepted[..Min(|accepted|, Limit())] else [])
      && (truncated <==> captureResponse && |accepted| > Limit())
    }

    /** Once committed the status stays; after a hijack nothing observable changes. */
    twostate predicate Stable()
      reads this
    {
      && (old(wroteHeader) ==> wroteHeader && statusCode == old(statusCode))
      && (old(hijacked) ==>
            && hijacked && wroteHeader == old(wroteHeader) && statusCode == old(statusCode)
            && acceptedBytes == old(acceptedBytes) && responseBody == old(responseBody) && truncated == old(truncated))
    }

    constructor (writer: Writer, captureResponse: bool, maxResponseBytes: int)
      requires writer.Conforms() && writer.events == []
      ensures Valid() && this.writer == writer && !wroteHeader && !hijacked
      ensures this.captureResponse == captureResponse && this.maxResponseBytes == maxResponseBytes
    {
      this.writer, this.captureResponse, this.maxResponseBytes := writer, captureResponse, maxResponseBytes;
      statusCode, wroteHeader, hijacked, acceptedBytes := 0, false, false, 0;
      responseBody, truncated := [], false;
    }

    method WriteHeader(code: int) returns (panicked: bool)
      requires Valid()
      modifies this, writer
      ensures Valid() && Stable() && hijacked == old(hijacked) && writer.body == old(writer.body)
      ensures panicked <==> !old(wroteHeader) && !old(hijacked) && !ValidCode(code)
      ensures writer.events == old(writer.events) +
                if !old(wroteHeader) && !old(hijacked) && ValidCode(code) then [Header(code)] else []
    {
      panicked := false;
      if wroteHeader || hijacked {
        return;
      }
      panicked := writer.WriteHeader(code);
      if panicked {
        return;
      }
      TimelyHeader(old(writer.events), Header(code));
      if code >= 100 && code < 200 && code != SWITCHING_PROTOCOLS {
        return;
      }
      statusCode, wroteHeader := code, true;
    }

    method CommitImplicit()
      modifies this`statusCode, this`wroteHeader
      ensures if !old(wroteHeader) && !hijacked then statusCode == OK && wroteHeader
              else statusCode == old(statusCode) && wroteHeader == old(wroteHeader)
    {
      if !wroteHeader && !hijacked {
        statusCode, wroteHeader := OK, true;
      }
    }

    method RecordWrite(n: nat, requested: nat, err: WriteError) returns (reported: WriteError)
      modifies this`statusCode, this`wroteHeader, this`acceptedBytes
      ensures reported == if n < requested && err == NoError then ShortWrite else err
      ensures err != Hijacked && !hijacked ==> acceptedBytes == old(acceptedBytes) + n && wroteHeader
      ensures err != Hijacked && !hijacked ==> statusCode == if old(wroteHeader) then old(statusCode) else OK
      ensures err == Hijacked || hijacked ==>
                acceptedBytes == old(acceptedBytes) && statusCode == old(statusCode) && wroteHeader == old(wroteHeader)
    {
      if err != Hijacked && !hijacked {
        CommitImplicit();
        acceptedBytes := acceptedBytes + n;
      }
      if n < requested && err == NoError {
        return ShortWrite;
      }
      return err;
    }

    method CaptureBody(data: seq<byte>, ghost before: seq<byte>)
      requires Captured(before)
      modifies this`responseBody, this`truncated
      ensures Captured(before + data)
    {
      if !captureResponse || |data| == 0 || truncated {
        assert |data| == 0 ==> before + data == before;
        return;
      }
      var remaining := maxResponseBytes - |responseBody|;
      if remaining <= 0 {
        truncated := true;
        return;
      }
      if |data| > remaining {
        responseBody := responseBody + data[..remaining];
        truncated := true;
        return;
      }
      responseBody := responseBody + data;
    }

    /** The part of Counted that captureBody maintains. */
    ghost predicate Captured(accepted: seq<byte>)
      reads this
    {
      && responseBody == (if captureResponse then accepted[..Min(|accepted|, Limit())] else [])
      && (truncated <==> captureResponse && |accepted| > Limit())
    }

    method Write(data: seq<byte>) returns (n: nat, err: WriteError)
      requires Valid()
      modifies this, writer
      ensures Valid() && Stable() && n <= |data| && hijacked == old(hijacked)
      ensures writer.body == old(writer.body) + data[..n]
      ensures Answered(old(writer.events), data, n, err)
      ensures n < |data| ==> err != NoError
    {
      n, err := writer.Write(data);
      TimelyOther(old(writer.events), Wrote(data, n, err));
      err := RecordWrite(n, |data|, err);
      if n > 0 && !hijacked {
        CaptureBody(data[..n], old(writer.body));
      } else {
        assert old(writer.body) + data[..0] == old(writer.body);
      }
    }

    /** One write call reached the writer, and the caller is told what it took and what it reported. */
    ghost predicate Answered(before: seq<Event>, data: seq<byte>, n: nat, err: WriteError)
      reads this, writer
    {
      && |writer.events| == |before| + 1 && before <= writer.events
      && var e := writer.events[|before|];
         e.Wrote? && e.data == data && e.n == n && err == Reported(e) && (e.err == Hijacked <==> hijacked)
    }

    method WriteString(data: seq<byte>) returns (n: nat, err: WriteError)
      requires Valid()
      modifies this, writer
      ensures Valid() && Stable() && n <= |data| && hijacked == old(hijacked)
      ensures writer.body == old(writer.body) + data[..n]
      ensures Answered(old(writer.events), data, n, err)
      ensures n < |data| ==> err != NoError
    {
      n, err := writer.Write(data);
      TimelyOther(old(writer.events), Wrote(data, n, err));
      err := RecordWrite(n, |data|, err);
      if n > 0 && !hijacked {
        CaptureString(data[..n], old(writer.body));
      } else {
        assert old(writer.body) + data[..0] == old(writer.body);
      }
    }

    /** What WriteString captures: at most what still fits is copied. */
    method CaptureString(data: seq<byte>, ghost before: seq<byte>)
      requires Captured(before) && data != []
      modifies this`responseBody, this`truncated
      ensures Captured(before + data)
    {
      if captureResponse && !truncated {
        var remaining := Max(0, maxResponseBytes - |responseBody|);
        CaptureBody(data[..Min(|data|, remaining)], before);
        if |data| > remaining {
          truncated := true;
        }
      }
    }

    /** One turn of the copy: the next chunk, if there is anything in it. */
    method CopyChunk(chunks: seq<seq<byte>>, i: nat, ghost calls: seq<Event>, ghost before: seq<Event>,
                     ghost body: seq<byte>)
      returns (n: nat, err: WriteError, ghost more: seq<Event>)
      requires Valid() && i < |chunks| && CopyOf(chunks[..i], calls) && CopyError(calls, NoError) == NoError
      requires writer.events == before + calls && writer.body == body + TakenBy(calls)
      modifies this, writer
      ensures Valid() && Stable() && hijacked == old(hijacked)
      ensures CopyOf(chunks[..i + 1], more) && err == CopyError(more, NoError)
      ensures writer.events == before + more
      ensures |TakenBy(more)| == |TakenBy(calls)| + n && writer.body == body + TakenBy(more)
    {
      n, err, more := 0, NoError, calls;
      if |chunks[i]| > 0 {
        ghost var call;
        n, err, call := WriteChunk(chunks[i]);
        more := calls + [call];
        CopyGrows(chunks, i, calls, call, before, body);
      } else {
        OneMoreChunk(chunks, i);
        CopySkips(chunks[..i], chunks[i], calls);
      }
    }

    /** A write, with the writer's answer to it. */
    method WriteChunk(chunk: seq<byte>) returns (n: nat, err: WriteError, ghost call: Event)
      requires Valid()
      modifies this, writer
      ensures Valid() && Stable() && hijacked == old(hijacked) && n <= |chunk|
      ensures call.Wrote? && call.data == chunk && call.n == n && err == Reported(call)
      ensures writer.events == old(writer.events) + [call] && writer.body == old(writer.body) + chunk[..n]
    {
      n, err := Write(chunk);
      call := writer.events[|writer.events| - 1];
    }

    /** io.Copy through Write: `chunks` is what the source yields, `sourceError` how it ends (NoError at its end). */
    method ReadFrom(chunks: seq<seq<byte>>, sourceError: WriteError) returns (written: nat, err: WriteError)
      requires Valid()
      modifies this, writer
      ensures Valid() && Stable() && hijacked == old(hijacked)
      ensures old(writer.events) <= writer.events
      ensures var calls := writer.events[|old(writer.events)|..];
              && CopyOf(chunks, calls) && err == CopyError(calls, sourceError)
              && written == |TakenBy(calls)| && writer.body == old(writer.body) + TakenBy(calls)
    {
      ghost var calls;
      written, err, calls := CopyAll(chunks);
      assert writer.events[|old(writer.events)|..] == calls;
      CopySucceeds(chunks, calls, NoError);
      CopySucceeds(chunks, calls, sourceError);
      if err == NoError {
        err := sourceError;
      }
    }

    /** The copy up to the end of the source or the first error. */
    method CopyAll(chunks: seq<seq<byte>>) returns (written: nat, err: WriteError, ghost calls: seq<Event>)
      requires Valid()
      modifies this, writer
      ensures Valid() && Stable() && hijacked == old(hijacked)
      ensures writer.events == old(writer.events) + calls && writer.body == old(writer.body) + TakenBy(calls)
      ensures CopyOf(chunks, calls) && err == CopyError(calls, NoError) && written == |TakenBy(calls)|
    {
      written, err, calls := 0, NoError, [];
      var i := 0;
      while i < |chunks| && err == NoError
        invariant 0 <= i <= |chunks| && Valid() && Stable() && hijacked == old(hijacked)
        invariant writer.events == old(writer.events) + calls && writer.body == old(writer.body) + TakenBy(calls)
        invariant CopyOf(chunks[..i], calls) && err == CopyError(calls, NoError) && written == |TakenBy(calls)|
        decreases |chunks| - i
      {
        var n;
        n, err, calls := CopyChunk(chunks, i, calls, old(writer.events), old(writer.body));
        written, i := written + n, i + 1;
      }
      CopyEnds(chunks, i, calls);
    }

    method Flush()
      requires Valid()
      modifies this, writer
      ensures Valid() && Stable() && hijacked == old(hijacked) && writer.body == old(writer.body)
      ensures writer.events == old(writer.events) + [FlushTried(Flushed)]
    {
      writer.Flush();
      CommitImplicit();
      TimelyOther(old(writer.events), FlushTried(Flushed));
    }

    method FlushError() returns (err: FlushError)
      requires Valid()
      modifies this, writer
      ensures Valid() && Stable() && hijacked == old(hijacked) && writer.body == old(writer.body)
      ensures writer.events == old(writer.events) + [FlushTried(err)]
    {
      err := writer.FlushError();
      TimelyOther(old(writer.events), FlushTried(err));
      if err != NotSupported && err != FlushHijacked {
        CommitImplicit();
      }
    }

    method Hijack() returns (ok: bool)
      requires Valid()
      modifies this, writer
      ensures Valid() && Stable() && writer.body == old(writer.body)
      ensures statusCode == old(statusCode) && wroteHeader == old(wroteHeader) && hijacked == (old(hijacked) || ok)
      ensures writer.events == old(writer.events) + [HijackTried(ok)]
    {
      ok := writer.Hijack();
      TimelyOther(old(writer.events), HijackTried(ok));
      if ok {
        hijacked := true;
      }
    }

    function ResponseStatus(finished: bool): int
      reads this
    {
      if !wroteHeader && finished && !hijacked then OK else statusCode
    }
  }

  lemma TimelyHeader(events: seq<Event>, e: Event)
    requires HeadersInTime(events) && FinalStatus(events) == 0 && !HasHijack(events)
    ensures HeadersInTime(events + [e])
  {
    var more := events + [e];
    forall k | 0 <= k < |more| ensures InTime(more, k) {
      assert more[..k] == events[..k];
      if k < |events| {
        assert InTime(events, k);
      } else {
        assert events[..k] == events;
      }
    }
  }

  lemma TimelyOther(events: seq<Event>, e: Event)
    requires HeadersInTime(events) && !e.Header?
    ensures HeadersInTime(events + [e])
  {
    var more := events + [e];
    forall k | 0 <= k < |more| ensures InTime(more, k) {
      assert more[..k] == events[..k];
      assert k < |events| ==> InTime(events, k);
    }
  }

  lemma {:induction false} CopyNext(chunks: seq<seq<byte>>, chunk: seq<byte>, calls: seq<Event>, call: Event)
    requires CopyOf(chunks, calls) && CopyError(calls, NoError) == NoError && chunk != []
    requires call.Wrote? && call.data == chunk && call.n <= |chunk|
    ensures CopyOf(chunks + [chunk], calls + [call])
    ensures CopyError(calls + [call], NoError) == Reported(call)
    ensures TakenBy(calls + [call]) == TakenBy(calls) + chunk[..call.n]
  {
    var parts, more, longer := NonEmpty(chunks), calls + [call], NonEmpty(chunks + [chunk]);
    assert (chunks + [chunk])[..|chunks|] == chunks && more[..|calls|] == calls;
    assert longer == parts + [chunk];
    CopySucceeds(chunks, calls, NoError);
    assert |calls| == |parts|;
    forall j | 0 <= j < |more| ensures CallFor(more[j], longer[j]) {
      if j < |calls| {
        assert CallFor(calls[j], parts[j]);
      }
    }
    forall j | 0 <= j < |more| - 1 ensures Whole(more[j]) {
      assert Whole(calls[j]);
    }
  }

  lemma {:induction false} CopyGrows(chunks: seq<seq<byte>>, i: nat, calls: seq<Event>, call: Event,
                                     before: seq<Event>, body: seq<byte>)
    requires i < |chunks| && CopyOf(chunks[..i], calls) && CopyError(calls, NoError) == NoError && chunks[i] != []
    requires call.Wrote? && call.data == chunks[i] && call.n <= |chunks[i]|
    ensures CopyOf(chunks[..i + 1], calls + [call]) && CopyError(calls + [call], NoError) == Reported(call)
    ensures before + calls + [call] == before + (calls + [call])
    ensures body + TakenBy(calls) + chunks[i][..call.n] == body + TakenBy(calls + [call])
    ensures |TakenBy(calls + [call])| == |TakenBy(calls)| + call.n
  {
    OneMoreChunk(chunks, i);
    CopyNext(chunks[..i], chunks[i], calls, call);
  }

  lemma {:induction false} CopySkips(chunks: seq<seq<byte>>, chunk: seq<byte>, calls: seq<Event>)
    requires CopyOf(chunks, calls) && chunk == []
    ensures CopyOf(chunks + [chunk], calls)
  {
    assert (chunks + [chunk])[..|chunks|] == chunks;
    assert NonEmpty(chunks + [chunk]) == NonEmpty(chunks);
  }

  lemma OneMoreChunk(chunks: seq<seq<byte>>, i: nat)
    requires i < |chunks|
    ensures chunks[..i + 1] == chunks[..i] + [chunks[i]]
  {
  }

  lemma {:induction false} CopyEnds(chunks: seq<seq<byte>>, i: nat, calls: seq<Event>)
    requires i <= |chunks| && CopyOf(chunks[..i], calls)
    requires i == |chunks| || CopyError(calls, NoError) != NoError
    ensures CopyOf(chunks, calls)
  {
    assert chunks[..|chunks|] == chunks;
    NonEmptyPrefix(chunks, i);
  }
}
