/** The retry loops of internal/api/client.go and internal/server/statestore.go, and the
    one specification both meet. */
module Retry {
  import opened Backoff

  datatype End = Concluded | Cancelled | Exhausted

  /** Of at most `n` attempts, `calls` were made.  `retryable[i]` says how call i would
      answer, `stops[i]` whether a cancellation is observed before it. */
  ghost predicate Meets(n: int, stops: seq<bool>, retryable: seq<bool>, calls: nat, end: End)
    requires |stops| >= n && |retryable| >= n
  {
    && calls <= (if n > 0 then n else 0)
    && (forall i | 0 <= i < calls :: !stops[i])
    && (forall i | 0 <= i < calls - 1 :: retryable[i])
    && match end
       case Concluded => calls > 0 && !retryable[calls-1]
       case Cancelled => calls < n && stops[calls] && (calls > 0 ==> retryable[calls-1])
       case Exhausted => (calls == if n > 0 then n else 0) && (calls > 0 ==> retryable[calls-1])
  }

  /** The specification leaves no choice: the attempts made and the way the loop ends are
      determined by the answers and the cancellation. */
  lemma OneOutcome(n: int, stops: seq<bool>, retryable: seq<bool>, c1: nat, e1: End, c2: nat, e2: End)
    requires |stops| >= n && |retryable| >= n
    requires Meets(n, stops, retryable, c1, e1) && Meets(n, stops, retryable, c2, e2)
    ensures c1 == c2 && e1 == e2
  {
  }

  // ---- doWithRetry ----

  const TOO_MANY_REQUESTS := 429

  /** What httpClient.Do answers; `retryAfter` is the parsed Retry-After header. */
  datatype Answer = TransportError(error: string) | Response(status: int, retryAfter: int, body: string)

  predicate Retryable(a: Answer) {
    a.TransportError? || a.status == TOO_MANY_REQUESTS || a.status >= 500
  }

  /** Retry-After (section 10.2.3 of RFC 9110) of the latest response; a 5xx clears it and
      transport errors leave it. */
  function LatestRetryAfter(answers: seq<Answer>): int {
    if answers == [] then 0
    else
      var a := answers[|answers|-1];
      if a.TransportError? then LatestRetryAfter(answers[..|answers|-1])
      else if a.status == TOO_MANY_REQUESTS then a.retryAfter
      else 0
  }

  datatype HttpResult =
    | Ok(response: Answer)
    | BadRequest
    | ContextDone
    | LastError(error: string)
    | LastStatus(status: int)

  /** The latest transport error, if any call met one. */
  function LatestError(answers: seq<Answer>): (r: HttpResult)
    ensures r.LastError? <==> exists i :: 0 <= i < |answers| && answers[i].TransportError?
    ensures r.LastError? || r == LastStatus(0)
  {
    if answers == [] then LastStatus(0)
    else if answers[|answers|-1].TransportError? then LastError(answers[|answers|-1].error)
    else LatestError(answers[..|answers|-1])
  }

  /** `i` is the last call that met a transport error. */
  predicate IsLastError(answers: seq<Answer>, i: nat) {
    i < |answers| && answers[i].TransportError? && forall j | i < j < |answers| :: answers[j].Response?
  }

  /** What is reported is the error of the last call that met one. */
  lemma {:induction false} LatestErrorIsLast(answers: seq<Answer>, i: nat)
    requires IsLastError(answers, i)
    ensures LatestError(answers) == LastError(answers[i].error)
  {
    if i < |answers| - 1 { LatestErrorIsLast(answers[..|answers|-1], i); }
  }

  function LatestStatus(answers: seq<Answer>): int {
    if answers == [] then 0
    else if answers[|answers|-1].Response? then answers[|answers|-1].status
    else LatestStatus(answers[..|answers|-1])
  }

  /** What exhaustion reports: a transport error if there was any, else the last status. */
  function Report(answers: seq<Answer>): HttpResult {
    if LatestError(answers).LastError? then LatestError(answers) else LastStatus(LatestStatus(answers))
  }

  function Flags(answers: seq<Answer>): seq<bool> {
    seq(|answers|, i requires 0 <= i < |answers| => Retryable(answers[i]))
  }

  /** `i` is the last call among the first `n` that was answered. */
  predicate IsLastResponse(answers: seq<Answer>, n: nat, i: nat) {
    i < n <= |answers| && answers[i].Response? && forall j | i < j < n :: answers[j].TransportError?
  }

  lemma {:induction false} RetryAfterOfTheLast(answers: seq<Answer>, n: nat)
    requires n <= |answers|
    ensures forall i: nat | IsLastResponse(answers, n, i) ::
      LatestRetryAfter(answers[..n]) == if answers[i].status == 429 then answers[i].retryAfter else 0
    ensures (forall i | 0 <= i < n :: answers[i].TransportError?) ==> LatestRetryAfter(answers[..n]) == 0
  {
    if n > 0 {
      RetryAfterOfTheLast(answers, n - 1);
      assert answers[..n][..n-1] == answers[..n-1];
      forall i: nat | IsLastResponse(answers, n, i)
        ensures i < n - 1 ==> IsLastResponse(answers, n - 1, i) && answers[n-1].TransportError?
      {
      }
    }
  }

  /** The wait after the first k+1 calls: the jittered backoff of 100ms and 200ms, or the
      Retry-After of the last response, if that was a 429 that asks for more. */
  ghost predicate WaitIs(answers: seq<Answer>, draws: seq<int>, k: nat, wait: int)
    requires k + 1 < |answers| == |draws|
  {
    var jittered := WithJitter(if k == 0 then 100_000_000 else 200_000_000, draws[k+1]);
    && (forall i: nat | IsLastResponse(answers, k + 1, i) ::
          wait == if answers[i].status == 429 && answers[i].retryAfter > jittered then answers[i].retryAfter else jittered)
    && ((forall i | 0 <= i <= k :: answers[i].TransportError?) ==> wait == jittered)
  }

  lemma WaitIsRight(answers: seq<Answer>, draws: seq<int>, k: nat, conv: Conversion)
    requires k + 1 < |answers| == |draws| == 3 && Converts(conv)
    ensures WaitIs(answers, draws, k, Backed(answers, draws, k, conv))
  {
    DefaultDelays(conv);
    RetryAfterOfTheLast(answers, k + 1);
    assert WithJitter(Delay(DEFAULT_RETRY, k, conv), draws[k+1]) >= 0;
  }

  /** The wait the loop comes to after the first k+1 calls. */
  function Backed(answers: seq<Answer>, draws: seq<int>, k: nat, conv: Conversion): int
    requires k + 1 < |answers| == |draws|
  {
    var delay, asked := WithJitter(Delay(DEFAULT_RETRY, k, conv), draws[k+1]), LatestRetryAfter(answers[..k+1]);
    if asked > delay then asked else delay
  }

  /** `doneDuring[i]` says that the context ends during the wait before attempt i. */
  method DoWithRetry(answers: seq<Answer>, doneDuring: seq<bool>, draws: seq<int>, badRequest: bool, conv: Conversion)
    returns (r: HttpResult, calls: nat, waits: seq<int>, ghost end: End)
    requires |answers| == |doneDuring| == |draws| == DEFAULT_RETRY.maxAttempts
    requires !doneDuring[0] && Converts(conv)
    ensures calls <= 3 && |waits| <= 2
    ensures badRequest ==> r == BadRequest && calls == 0 && waits == []
    ensures !badRequest ==> Meets(DEFAULT_RETRY.maxAttempts, doneDuring, Flags(answers), calls, end)
    // what is retried, what ends the loop, what it reports
    ensures !badRequest ==> forall i | 0 <= i < calls - 1 :: Transient(answers[i])
    ensures !badRequest && end.Concluded? ==> !Transient(answers[calls-1]) && r == Ok(answers[calls-1])
    ensures !badRequest && end.Cancelled? ==> r == ContextDone
    ensures !badRequest && end.Exhausted? ==> calls == 3 && Transient(answers[2]) && Exhaustion(answers, r)
    ensures !badRequest ==> |waits| == (if end.Cancelled? then calls else calls - 1)
    ensures forall k | 0 <= k < |waits| :: WaitIs(answers, draws, k, waits[k])
  {
    r, calls, waits, end := Attempts(answers, doneDuring, draws, badRequest, conv);
    if !badRequest { MeetsInNumbers(answers, doneDuring, calls, end); }
    if end.Exhausted? { ReportIsExhaustion(answers); }
    forall k | 0 <= k < |waits| ensures WaitIs(answers, draws, k, waits[k]) { WaitIsRight(answers, draws, k, conv); }
  }

  /** Answers worth another attempt. */
  predicate Transient(a: Answer) { a.TransportError? || a.status == 429 || a.status >= 500 }

  /** After three such answers: the last transport error if there was one, else the last
      status. */
  ghost predicate Exhaustion(answers: seq<Answer>, r: HttpResult)
    requires |answers| == 3
  {
    && (forall i: nat | IsLastError(answers, i) :: r == LastError(answers[i].error))
    && ((forall i | 0 <= i < 3 :: answers[i].Response?) ==> r == LastStatus(answers[2].status))
  }

  lemma MeetsInNumbers(answers: seq<Answer>, stops: seq<bool>, calls: nat, end: End)
    requires |answers| == |stops| == DEFAULT_RETRY.maxAttempts && Meets(3, stops, Flags(answers), calls, end)
    ensures forall i | 0 <= i < calls - 1 :: Transient(answers[i])
    ensures end.Concluded? ==> calls > 0 && !Transient(answers[calls-1])
    ensures end.Exhausted? ==> calls == 3 && Transient(answers[2])
  {
    forall i | 0 <= i < 3 ensures Flags(answers)[i] == Transient(answers[i]) {}
  }

  lemma ReportIsExhaustion(answers: seq<Answer>)
    requires |answers| == 3
    ensures Exhaustion(answers, Report(answers))
  {
    forall i: nat | IsLastError(answers, i) ensures Report(answers) == LastError(answers[i].error) {
      LatestErrorIsLast(answers, i);
    }
  }

  /** The loop, its waits and its outcome. */
  method Attempts(answers: seq<Answer>, doneDuring: seq<bool>, draws: seq<int>, badRequest: bool, conv: Conversion)
    returns (r: HttpResult, calls: nat, waits: seq<int>, ghost end: End)
    requires |answers| == |doneDuring| == |draws| == DEFAULT_RETRY.maxAttempts
    requires !doneDuring[0]
    ensures badRequest ==> r == BadRequest && calls == 0 && waits == [] && end == Cancelled
    ensures !badRequest ==> Meets(DEFAULT_RETRY.maxAttempts, doneDuring, Flags(answers), calls, end)
    ensures !badRequest ==> match end
      case Concluded => r == Ok(answers[calls-1])
      case Cancelled => r == ContextDone
      case Exhausted => r == Report(answers)
    ensures !badRequest ==> |waits| == (if end.Cancelled? then calls else calls - 1)
    ensures |waits| < |answers| && forall k | 0 <= k < |waits| :: waits[k] == Backed(answers, draws, k, conv)
  {
    var lastErr, failed, lastStatus, retryAfter := "", false, 0, 0;
    calls, waits, end := 0, [], Exhausted;
    for attempt := 0 to DEFAULT_RETRY.maxAttempts
      invariant calls == attempt && |waits| == (if attempt == 0 then 0 else attempt - 1)
      invariant badRequest ==> attempt == 0
      invariant forall i | 0 <= i < attempt :: !doneDuring[i] && Retryable(answers[i])
      invariant retryAfter == LatestRetryAfter(answers[..attempt])
      invariant LatestError(answers[..attempt]) == if failed then LastError(lastErr) else LastStatus(0)
      invariant lastStatus == LatestStatus(answers[..attempt])
      invariant forall k | 0 <= k < |waits| :: waits[k] == Backed(answers, draws, k, conv)
    {
      if attempt > 0 {
        var base := CalculateDelay(DEFAULT_RETRY, attempt - 1, conv);
        var delay := WithJitter(base, draws[attempt]);
        if retryAfter > delay { delay := retryAfter; }
        waits := waits + [delay];
        if doneDuring[attempt] {
          end := Cancelled;
          return ContextDone, calls, waits, end;
        }
      }
      if badRequest {
        end := Cancelled;
        return BadRequest, calls, waits, end;
      }
      var a := answers[attempt];
      calls := calls + 1;
      assert answers[..attempt+1][..attempt] == answers[..attempt];
      if a.TransportError? {
        lastErr, failed := a.error, true;
      } else if a.status == TOO_MANY_REQUESTS || a.status >= 500 {
        lastStatus := a.status;
        retryAfter := if a.status == TOO_MANY_REQUESTS then a.retryAfter else 0;
      } else {
        end := Concluded;
        return Ok(a), calls, waits, end;
      }
    }
    assert answers[..DEFAULT_RETRY.maxAttempts] == answers;
    r := if failed then LastError(lastErr) else LastStatus(lastStatus);
  }

  // ---- newStateStoreWithRetryConfig ----

  datatype Made = Store(id: int) | Failure(error: string)

  datatype StoreResult = Created(id: int) | Stopped(before: nat) | NoAttempts | GaveUp(error: string)

  /** `doneAt[i]`: the context has ended when attempt i begins; `doneDuring[i]`: it ends
      during the wait before attempt i. */
  function Stops(doneAt: seq<bool>, doneDuring: seq<bool>): seq<bool>
    requires |doneAt| == |doneDuring|
  {
    seq(|doneAt|, i requires 0 <= i < |doneAt| => doneAt[i] || (i > 0 && doneDuring[i]))
  }

  function Failures(made: seq<Made>): seq<bool> {
    seq(|made|, i requires 0 <= i < |made| => made[i].Failure?)
  }

  method NewStateStoreWithRetry(rc: RetryConfig, made: seq<Made>, doneAt: seq<bool>, doneDuring: seq<bool>, draws: seq<int>,
                                conv: Conversion)
    returns (r: StoreResult, calls: nat, waits: seq<int>, ghost end: End)
    requires |made| == |doneAt| == |doneDuring| == |draws| >= rc.maxAttempts
    ensures Meets(rc.maxAttempts, Stops(doneAt, doneDuring), Failures(made), calls, end)
    // call by call: no attempt after a cancellation, every earlier one failed
    ensures forall i | 0 <= i < calls :: !doneAt[i] && (i > 0 ==> !doneDuring[i])
    ensures forall i | 0 <= i < calls - 1 :: made[i].Failure?
    ensures end.Cancelled? ==> calls < rc.maxAttempts && (doneAt[calls] || (calls > 0 && doneDuring[calls]))
    ensures end.Concluded? ==> calls > 0 && made[calls-1].Store?
    ensures end.Exhausted? && rc.maxAttempts > 0 ==> calls == rc.maxAttempts && made[calls-1].Failure?
    ensures match end
      case Concluded => r == Created(made[calls-1].id)
      case Cancelled => r == Stopped(calls)
      case Exhausted => r == if rc.maxAttempts <= 0 then NoAttempts else GaveUp(made[calls-1].error)
    ensures forall k | 0 <= k < |waits| :: k + 1 < |draws| && waits[k] == WithJitter(Delay(rc, k, conv), draws[k+1])
    ensures |waits| == if calls == 0 then 0 else if end.Cancelled? && !doneAt[calls] then calls else calls - 1
  {
    calls, waits, end := 0, [], Exhausted;
    var lastErr := "";
    var attempt := 0;
    while attempt < rc.maxAttempts
      invariant 0 <= attempt && (attempt > 0 ==> attempt <= rc.maxAttempts)
      invariant calls == attempt && |waits| == if attempt == 0 then 0 else attempt - 1
      invariant forall i | 0 <= i < attempt :: !Stops(doneAt, doneDuring)[i] && made[i].Failure?
      invariant forall i | 0 <= i < attempt :: !doneAt[i] && (i > 0 ==> !doneDuring[i])
      invariant attempt > 0 ==> lastErr == made[attempt-1].error
      invariant forall k | 0 <= k < |waits| :: waits[k] == WithJitter(Delay(rc, k, conv), draws[k+1])
    {
      if doneAt[attempt] {
        end := Cancelled;
        return Stopped(attempt), calls, waits, end;
      }
      if attempt > 0 {
        var delay := CalculateDelay(rc, attempt - 1, conv);
        waits := waits + [WithJitter(delay, draws[attempt])];
        if doneDuring[attempt] {
          end := Cancelled;
          return Stopped(attempt), calls, waits, end;
        }
      }
      calls := calls + 1;
      if made[attempt].Store? {
        end := Concluded;
        return Created(made[attempt].id), calls, waits, end;
      }
      lastErr := made[attempt].error;
      attempt := attempt + 1;
    }
    r := if attempt == 0 then NoAttempts else GaveUp(lastErr);
  }

  // ---- How long a start-up can wait ----

  function Sum(waits: seq<int>): int {
    if waits == [] then 0 else Sum(waits[..|waits|-1]) + waits[|waits|-1]
  }

  lemma {:induction false} SumIsTotal(rc: RetryConfig, waits: seq<int>, conv: Conversion, draws: nat -> int)
    requires forall k | 0 <= k < |waits| :: waits[k] == WithJitter(Delay(rc, k, conv), draws(k))
    ensures Sum(waits) == Total(rc, |waits|, conv, Jittered(draws))
  {
    if waits != [] { SumIsTotal(rc, waits[..|waits|-1], conv, draws); }
  }

  /** Giving up on the state store takes between 68.25s and 113.75s of waiting. */
  lemma StartupWaitIsBounded(waits: seq<int>, conv: Conversion, draws: nat -> int)
    requires |waits| == STARTUP_RETRY.maxAttempts - 1 && Converts(conv)
    requires forall k: nat | k < 7 :: Draw(Delay(STARTUP_RETRY, k, conv), draws(k))
    requires forall k | 0 <= k < |waits| :: waits[k] == WithJitter(Delay(STARTUP_RETRY, k, conv), draws(k))
    ensures 68_250_000_000 <= Sum(waits) <= 113_750_000_000
  {
    SumIsTotal(STARTUP_RETRY, waits, conv, draws);
    StartupBudget(conv, draws);
  }
}
