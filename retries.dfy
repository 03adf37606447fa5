/**
 request_with_retries of multi_account_bot.py. The network is a script: element k of
 the script is what the k-th call of session.request produces, either a network
 exception or a response. Sleeps are recorded by kind, not by duration.
 */
module Retries {
  import opened Options

  const MaxRetries: nat := 5
  /** The largest number of calls one request can make: attempts 0 through MaxRetries. */
  const Budget: nat := MaxRetries + 1

  /** The Retry-After header, as far as the loop looks at it. */
  datatype RetryAfter =
    | NoHint              // header missing or empty
    | Hint(seconds: real) // header that float() accepts
    | BadHint             // header that float() rejects

  datatype Response = Response(status: int, retryAfter: RetryAfter)

  datatype Outcome = NetworkError | Answer(response: Response)

  /** One backoff sleep; `attempt` is the counter after its increment, the exponent of BACKOFF_BASE. */
  datatype Delay =
    | NetworkBackoff(attempt: nat) // BACKOFF_BASE ** attempt * 0.5 plus jitter
    | ServerBackoff(attempt: nat)  // BACKOFF_BASE ** attempt plus jitter
    | ServerHint(seconds: real)    // the Retry-After value plus jitter

  /** What one request observably does: its result, how many calls it made, and its sleeps in order. */
  datatype Retried = Retried(result: Option<Response>, calls: nat, delays: seq<Delay>)

  predicate Accepted(status: int) {
    status == 200 || status == 201 || status == 204
  }

  /** Rate limiting or a server error: the statuses the loop retries. */
  predicate Transient(status: int) {
    status == 429 || 500 <= status < 600
  }

  predicate Retryable(o: Outcome) {
    o.NetworkError? || Transient(o.response.status)
  }

  /** All calls that a request may make fail transiently. */
  predicate Exhausting(script: seq<Outcome>)
    requires |script| >= Budget
  {
    forall j :: 0 <= j < Budget ==> Retryable(script[j])
  }

  /** The sleep taken after a retryable outcome, once the counter has become `attempt`. */
  function BackoffFor(o: Outcome, attempt: nat): (d: Delay)
    requires Retryable(o)
    ensures o.NetworkError? ==> d == NetworkBackoff(attempt)
    ensures o.Answer? && o.response.retryAfter.Hint? ==> d == ServerHint(o.response.retryAfter.seconds)
    ensures o.Answer? && !o.response.retryAfter.Hint? ==> d == ServerBackoff(attempt)
  {
    match o
    case NetworkError => NetworkBackoff(attempt)
    case Answer(resp) =>
      match resp.retryAfter
      case Hint(s) => ServerHint(s)
      case _ => ServerBackoff(attempt)
  }

  /**
   The request seen from the moment the counter is `attempt`: the calls it still
   makes and the sleeps it still takes. A retryable outcome costs one call and one
   sleep and moves on; any other outcome is the answer; after the last attempt
   there is no answer.
   */
  function RetryFrom(script: seq<Outcome>, attempt: nat): Retried
    requires |script| >= Budget
    decreases Budget - attempt
  {
    if attempt > MaxRetries then Retried(None, 0, [])
    else if Retryable(script[attempt]) then
      var rest := RetryFrom(script, attempt + 1);
      Retried(rest.result, rest.calls + 1, [BackoffFor(script[attempt], attempt + 1)] + rest.delays)
    else
      Retried(Some(script[attempt].response), 1, [])
  }

  /** The whole request: the counter starts at 0. */
  function Retry(script: seq<Outcome>): Retried
    requires |script| >= Budget
  {
    RetryFrom(script, 0)
  }

  /**
   From counter value `attempt` on, there is no response exactly when every remaining
   attempt is retryable; then every remaining attempt was called and followed by a sleep.
   By induction on the attempts left.
   */
  lemma {:induction false} RetryFromExhausted(script: seq<Outcome>, attempt: nat)
    requires |script| >= Budget && attempt <= Budget
    ensures var r := RetryFrom(script, attempt);
      && r.calls <= Budget - attempt
      && (r.result.None? <==> forall j :: attempt <= j < Budget ==> Retryable(script[j]))
      && (r.result.None? ==> r.calls == Budget - attempt && |r.delays| == r.calls)
    decreases Budget - attempt
  {
    if attempt <= MaxRetries && Retryable(script[attempt]) {
      RetryFromExhausted(script, attempt + 1);
      RetryUnfold(script, attempt);
    }
  }

  /**
   From counter value `attempt` on, a response is the outcome of the last call made, which
   is not retryable, and every call before it was followed by a sleep. By induction on the
   attempts left.
   */
  lemma {:induction false} RetryFromAnswer(script: seq<Outcome>, attempt: nat)
    requires |script| >= Budget && attempt <= Budget
    ensures var r := RetryFrom(script, attempt);
      && r.calls <= Budget - attempt
      && (r.result.Some? ==>
            && 1 <= r.calls
            && |r.delays| == r.calls - 1
            && script[attempt + r.calls - 1].Answer?
            && !Transient(script[attempt + r.calls - 1].response.status)
            && r.result.value == script[attempt + r.calls - 1].response)
    decreases Budget - attempt
  {
    if attempt <= MaxRetries && Retryable(script[attempt]) {
      RetryFromAnswer(script, attempt + 1);
      RetryUnfold(script, attempt);
    }
  }

  /** The sleeps of RetryFrom, one per retried call in call order, by induction on the attempts left. */
  lemma {:induction false} RetryFromDelays(script: seq<Outcome>, attempt: nat)
    requires |script| >= Budget && attempt <= Budget
    ensures var r := RetryFrom(script, attempt);
      && attempt + |r.delays| <= Budget
      && forall j :: attempt <= j < attempt + |r.delays| ==>
        Retryable(script[j]) && r.delays[j - attempt] == BackoffFor(script[j], j + 1)
    decreases Budget - attempt
  {
    if attempt <= MaxRetries && Retryable(script[attempt]) {
      RetryFromDelays(script, attempt + 1);
      var rest := RetryFrom(script, attempt + 1);
      var r := RetryFrom(script, attempt);
      var first := BackoffFor(script[attempt], attempt + 1);
      RetryUnfold(script, attempt);
      forall j | attempt <= j < attempt + |r.delays|
        ensures Retryable(script[j]) && r.delays[j - attempt] == BackoffFor(script[j], j + 1)
      {
        if j > attempt {
          ConsIndex(first, rest.delays, j - attempt);
        }
      }
    }
  }

  /** A retryable outcome costs one call and one sleep and the request goes on from the next attempt. */
  lemma RetryUnfold(script: seq<Outcome>, attempt: nat)
    requires |script| >= Budget && attempt <= MaxRetries && Retryable(script[attempt])
    ensures var rest := RetryFrom(script, attempt + 1);
      RetryFrom(script, attempt) == Retried(rest.result, rest.calls + 1, [BackoffFor(script[attempt], attempt + 1)] + rest.delays)
  {
  }

  /** Element k of a sequence with one element put in front is element k - 1 of the original. */
  lemma ConsIndex<T>(x: T, s: seq<T>, k: nat)
    requires 0 < k <= |s|
    ensures ([x] + s)[k] == s[k - 1]
  {
  }

  /** A request makes at least one call and at most MaxRetries + 1 of them. */
  lemma CallsBounded(script: seq<Outcome>)
    requires |script| >= Budget
    ensures 1 <= Retry(script).calls <= Budget
  {
    RetryFromExhausted(script, 0);
    RetryFromAnswer(script, 0);
  }

  /**
   No response exactly when the first MaxRetries + 1 outcomes are all retryable; then
   every one of them was called and each was followed by a sleep, the last one too.
   */
  lemma ExhaustedIff(script: seq<Outcome>)
    requires |script| >= Budget
    ensures Retry(script).result.None? <==> Exhausting(script)
    ensures Retry(script).result.None? ==> Retry(script).calls == Budget && |Retry(script).delays| == Budget
  {
    RetryFromExhausted(script, 0);
  }

  /**
   A response that comes back is the first outcome in the script that is not retryable:
   its status is neither 429 nor 5xx, every call before it was retried, and each of those
   calls, and only those, was followed by a sleep.
   */
  lemma AnswerIsFirstFinal(script: seq<Outcome>)
    requires |script| >= Budget
    ensures var r := Retry(script);
      r.result.Some? ==>
        var k := r.calls - 1;
        && k < Budget
        && script[k].Answer? && r.result.value == script[k].response
        && !Transient(r.result.value.status)
        && (forall j :: 0 <= j < k ==> Retryable(script[j]))
        && |r.delays| == k
  {
    RetryFromAnswer(script, 0);
    RetryFromDelays(script, 0);
  }

  /** The j-th sleep follows the j-th call and uses the counter value j + 1. */
  lemma OneBackoffPerRetry(script: seq<Outcome>)
    requires |script| >= Budget
    ensures var r := Retry(script);
      && |r.delays| <= r.calls
      && forall j :: 0 <= j < |r.delays| ==> Retryable(script[j]) && r.delays[j] == BackoffFor(script[j], j + 1)
  {
    var r := RetryFrom(script, 0);
    RetryFromExhausted(script, 0);
    RetryFromAnswer(script, 0);
    RetryFromDelays(script, 0);
    forall j | 0 <= j < |r.delays|
      ensures Retryable(script[j]) && r.delays[j] == BackoffFor(script[j], j + 1)
    {
      assert r.delays[j - 0] == r.delays[j];
    }
  }

  /** A first outcome that is not retried (200, 201, 204, 401, any other non-5xx, non-429 status) is the answer:
      one call, no sleep. */
  lemma ImmediateAnswer(script: seq<Outcome>)
    requires |script| >= Budget
    requires script[0].Answer? && !Transient(script[0].response.status)
    ensures Retry(script) == Retried(Some(script[0].response), 1, [])
  {
  }

  /** 429 without Retry-After, then 200: two calls, one exponential backoff, the 200 is returned. */
  lemma RateLimitedThenAccepted(script: seq<Outcome>)
    requires |script| >= Budget
    requires script[0] == Answer(Response(429, NoHint))
    requires script[1].Answer? && script[1].response.status == 200
    ensures Retry(script) == Retried(Some(script[1].response), 2, [ServerBackoff(1)])
  {
    assert RetryFrom(script, 1) == Retried(Some(script[1].response), 1, []);
  }

  /** 500 without Retry-After on every attempt: no response after six calls and six growing backoffs. */
  lemma {:induction false} ServerDown(script: seq<Outcome>)
    requires |script| >= Budget
    requires forall j :: 0 <= j < Budget ==> script[j] == Answer(Response(500, NoHint))
    ensures Retry(script).result.None?
    ensures Retry(script).calls == Budget
    ensures Retry(script).delays == seq(Budget, j requires 0 <= j < Budget => ServerBackoff(j + 1))
  {
    RetryFromExhausted(script, 0);
    RetryFromDelays(script, 0);
    var r := Retry(script);
    assert |r.delays| == Budget;
    forall j | 0 <= j < Budget ensures r.delays[j] == ServerBackoff(j + 1) {
      assert BackoffFor(script[j], j + 1) == ServerBackoff(j + 1);
    }
  }

  /** One retried call, seen from the sleeps taken before it. */
  lemma RetryStep(script: seq<Outcome>, attempt: nat, before: seq<Delay>)
    requires |script| >= Budget && attempt <= MaxRetries && Retryable(script[attempt])
    ensures var now := RetryFrom(script, attempt);
            var next := RetryFrom(script, attempt + 1);
      && now.result == next.result
      && now.calls == next.calls + 1
      && before + now.delays == (before + [BackoffFor(script[attempt], attempt + 1)]) + next.delays
  {
  }

  /**
   The loop of request_with_retries. `calls` counts calls of session.request and
   `delays` lists the backoff sleeps in the order they are taken.
   */
  method RequestWithRetries(script: seq<Outcome>) returns (result: Option<Response>, calls: nat, delays: seq<Delay>)
    requires |script| >= Budget
    ensures Retried(result, calls, delays) == Retry(script)
  {
    var attempt: nat := 0;
    calls := 0;
    delays := [];
    while attempt <= MaxRetries
      invariant attempt <= Budget
      invariant calls == attempt
      invariant Retry(script).result == RetryFrom(script, attempt).result
      invariant Retry(script).calls == attempt + RetryFrom(script, attempt).calls
      invariant Retry(script).delays == delays + RetryFrom(script, attempt).delays
      decreases Budget - attempt
    {
      var outcome := script[attempt];
      calls := calls + 1;
      if outcome.NetworkError? {
        RetryStep(script, attempt, delays);
        attempt := attempt + 1;
        delays := delays + [NetworkBackoff(attempt)];
        continue;
      }
      var resp := outcome.response;
      if resp.status == 200 || resp.status == 201 || resp.status == 204 {
        return Some(resp), calls, delays;
      }
      if resp.status == 401 {
        return Some(resp), calls, delays;
      }
      if resp.status == 429 || 500 <= resp.status < 600 {
        RetryStep(script, attempt, delays);
        attempt := attempt + 1;
        var delay;
        if resp.retryAfter.Hint? {
          delay := ServerHint(resp.retryAfter.seconds);
        } else {
          delay := ServerBackoff(attempt);
        }
        delays := delays + [delay];
        continue;
      }
      return Some(resp), calls, delays;
    }
    result := None;
  }
}
