/** The HTTP transport: result classification, the retry loop and its backoff. */
module HttpTransport {
  import opened Core

  // int64 arithmetic

  const TWO_63: int := 0x8000_0000_0000_0000
  const TWO_64: int := 0x1_0000_0000_0000_0000
  const MAX_INT64: int := TWO_63 - 1

  type Int64 = n: int | -0x8000_0000_0000_0000 <= n < 0x8000_0000_0000_0000

  function Wrap64(n: int): Int64 {
    (n + TWO_63) % TWO_64 - TWO_63
  }

  function Pow2(n: nat): nat {
    if n == 0 then 1 else 2 * Pow2(n - 1)
  }

  /** 1 << n on an int64. */
  function Shift64(n: nat): Int64 {
    if n >= 64 then 0 else Wrap64(Pow2(n))
  }

  function BackoffDelay(base: Int64, attempt: nat): Int64 {
    if attempt <= 1 then base else Wrap64(base * Shift64(attempt - 1))
  }

  // One request

  /** What client.Do can report; an error always has a text. */
  datatype RawOutcome = NoResponse(message: string) | Response(status: int)

  type Outcome = o: RawOutcome | o.NoResponse? ==> o.message != "" witness Response(200)

  const DEFAULT_RETRY_DELAY: Int64 := 100_000_000

  const CONFLICT := 409
  const NOT_IMPLEMENTED := 501
  const REQUEST_TIMEOUT := 408
  const TOO_MANY_REQUESTS := 429
  const INTERNAL_SERVER_ERROR := 500

  function Execute(o: Outcome, attempts: int): TransportResult {
    match o
    case NoResponse(message) => TransportResult(0, message, attempts, false)
    case Response(status) => TransportResult(status, "", attempts, status == CONFLICT)
  }

  predicate ShouldRetry(r: TransportResult) {
    if r.errorMessage != "" then true
    else if r.statusCode == NOT_IMPLEMENTED then false
    else if r.statusCode == REQUEST_TIMEOUT || r.statusCode == TOO_MANY_REQUESTS then true
    else r.statusCode >= INTERNAL_SERVER_ERROR
  }

  /** Whether the outcome calls for another attempt, whichever attempt it was. */
  predicate Retriable(o: Outcome) {
    ShouldRetry(Execute(o, 1))
  }

  /** The README's wording: errors, 408, 429 and every 5xx and above except 501. */
  lemma RetryRule(o: Outcome, attempts: int)
    ensures ShouldRetry(Execute(o, attempts)) <==>
            o.NoResponse? || o.status in {408, 429} || (o.status >= 500 && o.status != 501)
    ensures Execute(o, attempts).IsSuccess() <==> o.Response? && (200 <= o.status < 300 || o.status == 409)
    ensures !(ShouldRetry(Execute(o, attempts)) && Execute(o, attempts).IsSuccess())
  {
  }

  /** Off the transport's own results the two verdicts can meet, exactly on a duplicate with a retriable status. */
  lemma SuccessMeetsRetry(r: TransportResult)
    ensures r.IsSuccess() && ShouldRetry(r) <==>
            && r.errorMessage == "" && r.duplicate && r.statusCode != 501
            && (r.statusCode in {408, 429} || r.statusCode >= 500)
  {
  }

  /** What is worth another attempt, read from the outcome alone. */
  predicate WorthRetrying(o: Outcome) {
    o.NoResponse? || o.status == 408 || o.status == 429 || (o.status >= 500 && o.status != 501)
  }

  /** What the transport reports of the last outcome of a run, read from that outcome alone. */
  predicate Reports(r: TransportResult, last: Outcome, attempts: int, cancelled: bool, reason: string) {
    && r.attempts == attempts
    && r.statusCode == (if last.Response? then last.status else 0)
    && (r.duplicate <==> last.Response? && last.status == 409)
    && r.errorMessage == if last.NoResponse? then last.message else if cancelled then reason else ""
  }

  // A whole run of the loop

  /** `run` is a complete list of attempts; `cancelled` says that the context ended it while sleeping. */
  predicate Complete(maxRetries: nat, run: seq<Outcome>, cancelled: bool) {
    && 1 <= |run| <= maxRetries + 1
    && (forall k :: 0 <= k < |run| - 1 ==> Retriable(run[k]))
    && if cancelled then Retriable(run[|run| - 1]) && |run| <= maxRetries
       else !Retriable(run[|run| - 1]) || |run| == maxRetries + 1
  }

  function ResultOf(run: seq<Outcome>, cancelled: bool, reason: string): TransportResult
    requires run != []
  {
    var r := Execute(run[|run| - 1], |run|);
    if cancelled && r.errorMessage == "" then r.(errorMessage := reason) else r
  }

  /** The request cannot stop at two different points for one network: a complete run extends no other. */
  lemma CompleteOnce(maxRetries: nat, run: seq<Outcome>, longer: seq<Outcome>, cancelled: bool)
    requires Complete(maxRetries, run, false) && Complete(maxRetries, longer, cancelled) && run <= longer
    ensures run == longer
  {
  }

  /** The result of a run tells its last outcome, and how many attempts there were. */
  lemma {:induction false} ResultReports(run: seq<Outcome>, cancelled: bool, reason: string)
    requires run != []
    ensures Reports(ResultOf(run, cancelled, reason), run[|run| - 1], |run|, cancelled, reason)
  {
  }

  /** The four ways a request can end. */
  lemma ResultClasses(maxRetries: nat, run: seq<Outcome>, cancelled: bool, reason: string)
    requires Complete(maxRetries, run, cancelled) && reason != ""
    ensures var r := ResultOf(run, cancelled, reason);
            var last := run[|run| - 1];
            && r.attempts == |run| && 1 <= r.attempts <= maxRetries + 1
            && (r.IsSuccess() <==> !cancelled && last.Response? && (200 <= last.status < 300 || last.status == 409))
            && (ShouldRetry(r) <==> cancelled || (Retriable(last) && |run| == maxRetries + 1))
            && (cancelled ==> r.errorMessage != "" && !r.IsSuccess())
  {
    RetryRule(run[|run| - 1], |run|);
    RetryRule(run[|run| - 1], 1);
  }

  // Backoff

  lemma {:induction false} Pow2Monotone(a: nat, b: nat)
    requires a <= b
    ensures 1 <= Pow2(a) <= Pow2(b)
    decreases b
  {
    if b > a {
      Pow2Monotone(a, b - 1);
    } else if a > 0 {
      Pow2Monotone(a - 1, b - 1);
    }
  }

  lemma {:induction false} Pow2Add(a: nat, b: nat)
    ensures Pow2(a + b) == Pow2(a) * Pow2(b)
    decreases b
  {
    if b > 0 {
      Pow2Add(a, b - 1);
      assert Pow2(a + b) == 2 * (Pow2(a) * Pow2(b - 1)) == Pow2(a) * (2 * Pow2(b - 1));
    }
  }

  lemma Pow2At63()
    ensures Pow2(63) == TWO_63
  {
    assert Pow2(7) == 128;
    Pow2Add(7, 7);
    Pow2Add(14, 14);
    Pow2Add(28, 28);
    Pow2Add(56, 7);
  }

  lemma WrapSmall(n: int)
    requires 0 <= n < TWO_63
    ensures Wrap64(n) == n
  {
  }

  lemma ExactWhenItFits(base: Int64, attempt: nat)
    requires base > 0 && attempt >= 1 && base * Pow2(attempt - 1) < TWO_63
    ensures BackoffDelay(base, attempt) == base * Pow2(attempt - 1)
  {
    var p := Pow2(attempt - 1);
    Pow2Monotone(0, attempt - 1);
    ProductAtLeast(base, p);
    if attempt - 1 >= 63 {
      Pow2At63();
      Pow2Monotone(63, attempt - 1);
      assert false;
    }
    WrapSmall(p);
    WrapSmall(base * p);
  }

  lemma ProductAtLeast(a: int, b: int)
    requires a >= 1 && b >= 0
    ensures b <= a * b
  {
  }

  /** Every delay of a run doubles the one before exactly when the last of them fits in an int64. */
  lemma BackoffExact(base: Int64, maxRetries: nat)
    requires base > 0 && maxRetries >= 1
    ensures (forall a :: 1 <= a <= maxRetries ==> BackoffDelay(base, a) == base * Pow2(a - 1))
            <==> base * Pow2(maxRetries - 1) < TWO_63
  {
    if base * Pow2(maxRetries - 1) < TWO_63 {
      forall a | 1 <= a <= maxRetries ensures BackoffDelay(base, a) == base * Pow2(a - 1) {
        Pow2Monotone(a - 1, maxRetries - 1);
        assert base * Pow2(a - 1) <= base * Pow2(maxRetries - 1);
        ExactWhenItFits(base, a);
      }
    } else {
      assert BackoffDelay(base, maxRetries) < TWO_63;
    }
  }

  function Total(delays: seq<Int64>): int {
    if delays == [] then 0 else Total(delays[..|delays| - 1]) + delays[|delays| - 1]
  }

  function Delays(base: Int64, n: nat): seq<Int64> {
    seq(n, k requires 0 <= k => BackoffDelay(base, k + 1))
  }

  /** A run that uses up its retries sleeps base * (2^maxRetries - 1) in all, when its last delay fits. */
  lemma {:induction false} TotalSleep(base: Int64, n: nat)
    requires base > 0 && (n > 0 ==> base * Pow2(n - 1) < TWO_63)
    ensures Total(Delays(base, n)) == base * (Pow2(n) - 1)
  {
    if n > 0 {
      assert Delays(base, n)[..n - 1] == Delays(base, n - 1);
      if n > 1 {
        Pow2Monotone(n - 2, n - 1);
        assert base * Pow2(n - 2) <= base * Pow2(n - 1);
      }
      TotalSleep(base, n - 1);
      ExactWhenItFits(base, n);
      Doubled(base, Pow2(n - 1));
    }
  }

  lemma Doubled(base: int, p: int)
    ensures base * (2 * p - 1) == base * (p - 1) + base * p
  {
  }

  /** The two's complement reading: in range, and the same modulo 2^64. */
  lemma {:induction false} WrapCongruent(n: int)
    ensures (Wrap64(n) - n) % TWO_64 == 0 && -TWO_63 <= Wrap64(n) < TWO_63
  {
    assert n + TWO_63 == (n + TWO_63) / TWO_64 * TWO_64 + (n + TWO_63) % TWO_64;
  }

  lemma {:induction false} WrapShift(n: int, k: int)
    ensures Wrap64(n + k * TWO_64) == Wrap64(n)
  {
    var m := n + TWO_63;
    assert m + k * TWO_64 == (m / TWO_64 + k) * TWO_64 + m % TWO_64;
  }

  lemma {:induction false} Distribute(a: int, b: int, k: int)
    ensures a * (b - k * TWO_64) == a * b + (0 - a * k) * TWO_64
  {
  }

  lemma {:induction false} Pow2Beyond64(n: nat)
    requires n >= 64
    ensures Pow2(n) == TWO_64 * Pow2(n - 64)
  {
    Pow2At63();
    assert Pow2(64) == TWO_64;
    Pow2Add(64, n - 64);
  }

  /** Shifting and multiplying in 64 bits is doubling, wrapped once. */
  lemma {:induction false} BackoffWraps(base: Int64, attempt: nat)
    requires attempt >= 1
    ensures BackoffDelay(base, attempt) == Wrap64(base * Pow2(attempt - 1))
  {
    var n := attempt - 1;
    if n >= 64 {
      Pow2Beyond64(n);
      var k := base * Pow2(n - 64);
      assert base * Pow2(n) == 0 + k * TWO_64;
      WrapShift(0, k);
      assert Wrap64(0) == 0;
      assert base * Shift64(n) == 0;
    } else if n > 0 {
      var k := (Pow2(n) + TWO_63) / TWO_64;
      assert Shift64(n) == Pow2(n) - k * TWO_64;
      Distribute(base, Pow2(n), k);
      WrapShift(base * Pow2(n), 0 - base * k);
    } else {
      assert Pow2(0) == 1;
    }
  }

  /** A retry does not wait at all exactly when 2^64 divides its mathematical delay; and then no later one does. */
  lemma {:induction false} NoDelayExactly(base: Int64, attempt: nat, later: nat)
    requires 1 <= attempt <= later
    ensures BackoffDelay(base, attempt) == 0 <==> base * Pow2(attempt - 1) % TWO_64 == 0
    ensures BackoffDelay(base, attempt) == 0 ==> BackoffDelay(base, later) == 0
    ensures attempt > 64 ==> BackoffDelay(base, attempt) == 0
  {
    assert attempt > 64 ==> base * Shift64(attempt - 1) == 0;
    BackoffWraps(base, attempt);
    ZeroWrap(base * Pow2(attempt - 1));
    if BackoffDelay(base, attempt) == 0 {
      var k, p := base * Pow2(attempt - 1) / TWO_64, Pow2(later - attempt);
      Pow2Add(attempt - 1, later - attempt);
      assert base * Pow2(later - 1) == base * Pow2(attempt - 1) * p by {
        Associate(base, Pow2(attempt - 1), p);
      }
      Associate(k, p, TWO_64);
      assert base * Pow2(attempt - 1) == k * TWO_64;
      assert base * Pow2(later - 1) == 0 + (k * p) * TWO_64;
      WrapShift(0, k * p);
      BackoffWraps(base, later);
    }
  }

  lemma {:induction false} Associate(a: int, b: int, c: int)
    ensures a * (b * c) == a * b * c && a * c * b == a * b * c
  {
  }

  lemma {:induction false} ZeroWrap(n: int)
    ensures Wrap64(n) == 0 <==> n % TWO_64 == 0
  {
  }

  /** With the default delay of 100 ms, 2^8 * 5^8 nanoseconds, that is from attempt 57 on. */
  lemma {:induction false} DefaultDelayVanishes(attempt: nat)
    requires attempt >= 1
    ensures BackoffDelay(DEFAULT_RETRY_DELAY, attempt) == 0 <==> attempt >= 57
  {
    Pow2At63();
    assert Pow2(62) == 0x4000_0000_0000_0000;
    Pow2Add(56, 7);
    assert Pow2(7) == 128 && Pow2(56) == 0x100_0000_0000_0000;
    NoDelayExactly(DEFAULT_RETRY_DELAY, 57, if attempt >= 57 then attempt else 57);
    if attempt < 57 {
      Pow2Add(56 - attempt, attempt);
      NoDelayExactly(DEFAULT_RETRY_DELAY, attempt, 56);
      NoDelayExactly(DEFAULT_RETRY_DELAY, 56, 56);
      assert Pow2(55) == 0x80_0000_0000_0000;
    }
  }

  // The transport object

  class HTTPTransport {
    const maxRetries: Int64
    const retryDelay: Int64

    constructor (maxRetries: Int64, retryDelay: Int64)
      ensures this.maxRetries >= 0 && this.retryDelay > 0
      ensures maxRetries >= 0 ==> this.maxRetries == maxRetries
      ensures maxRetries < 0 ==> this.maxRetries == 0
      ensures retryDelay > 0 ==> this.retryDelay == retryDelay
      ensures retryDelay <= 0 ==> this.retryDelay == 100_000_000
    {
      this.maxRetries := if 0 > maxRetries then 0 else maxRetries;
      this.retryDelay := if retryDelay <= 0 then DEFAULT_RETRY_DELAY else retryDelay;
    }

    /**
      network(n) is what attempt n meets, wakes(n) whether the sleep after it ends by its timer.
      The largest MaxRetries overflows the attempt limit, and then no request is made at all.
     */
    method Request(marshalError: string, network: nat -> Outcome, wakes: nat -> bool, reason: string)
      returns (result: TransportResult, run: seq<Outcome>, slept: seq<Int64>)
      requires maxRetries >= 0 && reason != ""
      ensures marshalError != "" ==> run == [] && result == TransportResult(0, marshalError, 1, false)
      ensures marshalError == "" ==> (run == [] <==> maxRetries == MAX_INT64)
      ensures marshalError == "" && run == [] ==> result == TransportResult(0, "", 0, false)
      ensures run != [] ==>
                && run == seq(|run|, k requires 0 <= k => network(k + 1))
                && (forall k :: 1 <= k < |run| ==> wakes(k))
                && slept <= Delays(retryDelay, maxRetries) && |run| - 1 <= |slept| <= |run|
                && (|slept| == |run| ==> !wakes(|run|))
                && Complete(maxRetries, run, |slept| == |run|)
                && result == ResultOf(run, |slept| == |run|, reason)
      // the same, read from the outcomes alone
      ensures run != [] ==>
                var last, cancelled := run[|run| - 1], |slept| == |run|;
                && |run| <= maxRetries + 1 && (forall k :: 0 <= k < |run| - 1 ==> WorthRetrying(run[k]))
                && (if cancelled then WorthRetrying(last) && |run| <= maxRetries && !wakes(|run|)
                    else !WorthRetrying(last) || |run| == maxRetries + 1)
                && Reports(result, last, |run|, cancelled, reason)
    {
      run, slept := [], [];
      if marshalError != "" {
        return TransportResult(0, marshalError, 1, false), run, slept;
      }
      var maxAttempts := Wrap64(maxRetries + 1);
      result := TransportResult(0, "", 0, false);
      var attempt := 1;
      while attempt <= maxAttempts
        invariant maxRetries == MAX_INT64 ==> maxAttempts < 1
        invariant maxRetries < MAX_INT64 ==> maxAttempts == maxRetries + 1
        invariant 1 <= attempt && (attempt <= maxAttempts || attempt == 1)
        invariant |run| == |slept| == attempt - 1
        invariant run == seq(|run|, k requires 0 <= k => network(k + 1))
        invariant slept <= Delays(retryDelay, maxRetries)
        invariant forall k :: 1 <= k < attempt ==> wakes(k)
        invariant forall k :: 0 <= k < |run| ==> Retriable(run[k])
        invariant run == [] ==> result == TransportResult(0, "", 0, false)
        decreases maxAttempts as int - attempt
      {
        var outcome := network(attempt);
        result := Execute(outcome, attempt);
        run := run + [outcome];
        if !ShouldRetry(result) || attempt >= maxAttempts {
          return;
        }
        var delay := BackoffDelay(retryDelay, attempt);
        slept := slept + [delay];
        if !wakes(attempt) {
          if result.errorMessage == "" {
            result := result.(errorMessage := reason);
          }
          return;
        }
        attempt := attempt + 1;
      }
    }
  }
}
