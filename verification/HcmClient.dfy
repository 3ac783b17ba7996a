// The bounded retry loop of src/hcm/hcm-client.service.ts. The wire is the sequence of what
// each try comes back with, and silent after its end; waiting is a number of milliseconds.
module HcmClient {
  import opened Entities

  // A 2xx body (`ok` may be missing), an HTTP error status, no response at all, or any other exception.
  datatype Response =
    | Body(ok: Option<bool>, ackedAt: Option<int>, bodyHint: Option<string>)
    | HttpError(status: nat, message: Option<string>)
    | NoResponse(code: Option<string>)
    | Thrown

  datatype PostResult = Acknowledged(at: int) | NotOk(errorHint: string)

  predicate Retryable(r: Response) {
    match r
    case Body(_, _, _) => false
    case HttpError(status, _) => status >= 500
    case NoResponse(_) => true
    case Thrown => true
  }

  function Digits(n: nat): string {
    if n < 10 then [DIGITS[n]] else Digits(n / 10) + [DIGITS[n % 10]]
  }

  const DIGITS := "0123456789"

  function OrElse<T>(o: Option<T>, default: T): T {
    match o
    case Some(v) => v
    case None => default
  }

  function ErrorHint(r: Response): string {
    match r
    case HttpError(status, message) => OrElse(message, "http_" + Digits(status))
    case NoResponse(code) => OrElse(code, "network_error")
    case Thrown => "unknown_error"
    case Body(_, _, hint) => OrElse(hint, "hcm-rejected")
  }

  // A 2xx whose `ok` is true or missing.
  predicate Success(r: Response) {
    r.Body? && r.ok != Some(false)
  }

  function Pow2(n: nat): nat {
    if n == 0 then 1 else 2 * Pow2(n - 1)
  }

  function At(wire: seq<Response>, n: nat): Response {
    if n < |wire| then wire[n] else NoResponse(None)
  }

  function From(wire: seq<Response>, n: nat): seq<Response> {
    if n <= |wire| then wire[n..] else []
  }

  // The first try that settles the matter, or max.
  function Decisive(wire: seq<Response>, max: nat): (n: nat)
    ensures n <= max
    ensures n < max ==> !Retryable(At(wire, n))
    ensures forall m: nat :: m < n ==> Retryable(At(wire, m))
    decreases max
  {
    if max == 0 || !Retryable(At(wire, 0)) then 0
    else
      var rest := Decisive(From(wire, 1), max - 1);
      assert forall m: nat :: At(wire, m) == if m == 0 then At(wire, 0) else At(From(wire, 1), m - 1);
      rest + 1
  }

  // What the caller is told, given what the wire does within `max` tries.
  function Verdict(wire: seq<Response>, max: nat, now: int): PostResult {
    var n := Decisive(wire, max);
    if n < max then
      if Success(At(wire, n)) then Acknowledged(OrElse(At(wire, n).ackedAt, now)) else NotOk(ErrorHint(At(wire, n)))
    else NotOk(if max == 0 then "unreachable" else ErrorHint(At(wire, max - 1)))
  }

  // How many requests go out.
  function Posts(wire: seq<Response>, max: nat): nat {
    if Decisive(wire, max) < max then Decisive(wire, max) + 1 else max
  }

  class HcmClientService {
    const hcmRetryMaxAttempts: nat
    const hcmRetryBackoffMs: nat

    constructor (maxAttempts: nat, backoffMs: nat)
      ensures hcmRetryMaxAttempts == maxAttempts && hcmRetryBackoffMs == backoffMs
    {
      hcmRetryMaxAttempts, hcmRetryBackoffMs := maxAttempts, backoffMs;
    }

    method BackoffDelay(attempt: nat) returns (ms: nat)
      requires attempt >= 1
      ensures ms == hcmRetryBackoffMs * Pow2(attempt - 1)
    {
      ms := hcmRetryBackoffMs * Pow2(attempt - 1);
    }

    // Always comes back with a result. `posts` counts the requests sent, `slept` the time spent waiting.
    method PostWithRetry(wire: seq<Response>, now: int) returns (r: PostResult, posts: nat, slept: nat)
      ensures r == Verdict(wire, hcmRetryMaxAttempts, now)
      ensures posts == Posts(wire, hcmRetryMaxAttempts)
      ensures posts >= 1 ==> slept == hcmRetryBackoffMs * (Pow2(posts - 1) - 1)
      ensures posts == 0 ==> slept == 0
    {
      var lastHint := "unreachable";
      posts, slept := 0, 0;
      var attempt := 0;
      while attempt < hcmRetryMaxAttempts
        invariant 0 <= attempt <= hcmRetryMaxAttempts
        invariant posts == attempt
        invariant attempt == 0 ==> slept == 0 && lastHint == "unreachable"
        invariant attempt > 0 ==>
                    slept == hcmRetryBackoffMs * (Pow2(attempt - 1) - 1) && lastHint == ErrorHint(At(wire, attempt - 1))
        invariant forall m: nat :: m < attempt ==> Retryable(At(wire, m))
      {
        if attempt > 0 {
          var ms := BackoffDelay(attempt);
          DelayAddsUp(hcmRetryBackoffMs, attempt);
          slept := slept + ms;
        }
        posts := posts + 1;
        var response := At(wire, attempt);
        if response.Body? {
          if response.ok == Some(false) {
            return NotOk(OrElse(response.bodyHint, "hcm-rejected")), posts, slept;
          }
          return Acknowledged(OrElse(response.ackedAt, now)), posts, slept;
        }
        if !Retryable(response) {
          return NotOk(ErrorHint(response)), posts, slept;
        }
        lastHint := ErrorHint(response);
        attempt := attempt + 1;
      }
      r := NotOk(lastHint);
    }

    // Which try brought the balance, None for HcmUnavailableError. With retry: false there is one try and no
    // waiting; otherwise the same budget and the same delays as for a post.
    method GetBalance(wire: seq<Response>, retry: bool) returns (served: Option<nat>, gets: nat, slept: nat)
      ensures var budget := if retry then hcmRetryMaxAttempts else 1;
              && (served.Some? <==> Decisive(wire, budget) < budget && At(wire, Decisive(wire, budget)).Body?)
              && (served.Some? ==> served.value == Decisive(wire, budget))
              && gets == Posts(wire, budget)
              && slept == if gets == 0 then 0 else hcmRetryBackoffMs * (Pow2(gets - 1) - 1)
    {
      served, gets, slept := None, 0, 0;
      if !retry {
        gets := 1;
        if At(wire, 0).Body? {
          served := Some(0);
        }
        return;
      }
      var attempt := 0;
      while attempt < hcmRetryMaxAttempts
        invariant 0 <= attempt <= hcmRetryMaxAttempts
        invariant gets == attempt
        invariant slept == if attempt == 0 then 0 else hcmRetryBackoffMs * (Pow2(attempt - 1) - 1)
        invariant forall m: nat :: m < attempt ==> Retryable(At(wire, m))
      {
        if attempt > 0 {
          var ms := BackoffDelay(attempt);
          DelayAddsUp(hcmRetryBackoffMs, attempt);
          slept := slept + ms;
        }
        gets := gets + 1;
        var response := At(wire, attempt);
        if response.Body? {
          return Some(attempt), gets, slept;
        }
        if !Retryable(response) {
          return;
        }
        attempt := attempt + 1;
      }
    }
  }

  lemma DelayAddsUp(base: nat, attempt: nat)
    requires attempt >= 1
    ensures base * (Pow2(attempt - 1) - 1) + base * Pow2(attempt - 1) == base * (Pow2(attempt) - 1)
  {
    var p: int := Pow2(attempt - 1);
    assert base * (p - 1) + base * p == base * (2 * p - 1);
  }

  // ok exactly when some try within the budget brings a 2xx body that does not say `ok: false`, and every try before
  // it had no response, threw, or had a status of 500 or above.
  lemma AcknowledgedIff(wire: seq<Response>, max: nat, now: int)
    ensures Verdict(wire, max, now).Acknowledged? <==>
              exists n: nat ::
                && n < max && At(wire, n).Body? && At(wire, n).ok != Some(false)
                && forall m: nat :: m < n ==>
                     At(wire, m).NoResponse? || At(wire, m).Thrown? ||
                     (At(wire, m).HttpError? && At(wire, m).status >= 500)
  {
    var d := Decisive(wire, max);
    if n: nat :| && n < max && Success(At(wire, n)) && forall m: nat :: m < n ==> Retryable(At(wire, m)) {
      assert d == n;
    }
  }

  // The first try that is neither of these decides: its body or its error is reported and no further post goes out.
  lemma ReportsTheDecisiveTry(wire: seq<Response>, max: nat, now: int, n: nat)
    requires n < max && forall m: nat :: m < n ==> Retryable(At(wire, m))
    requires At(wire, n).Body? || (At(wire, n).HttpError? && At(wire, n).status < 500)
    ensures Posts(wire, max) == n + 1
    ensures var r := At(wire, n);
            Verdict(wire, max, now) ==
              if r.HttpError? then NotOk(if r.message.Some? then r.message.value else "http_" + Digits(r.status))
              else if r.ok == Some(false) then NotOk(if r.bodyHint.Some? then r.bodyHint.value else "hcm-rejected")
              else Acknowledged(if r.ackedAt.Some? then r.ackedAt.value else now)
  {
    var d := Decisive(wire, max);
    assert d == n;
  }

  // A spent budget reports the last try.
  lemma ReportsTheLastTry(wire: seq<Response>, max: nat, now: int)
    requires max > 0 && forall m: nat :: m < max ==> Retryable(At(wire, m))
    ensures Posts(wire, max) == max
    ensures Verdict(wire, max, now) ==
              match At(wire, max - 1)
              case HttpError(status, message) =>
                NotOk(if message.Some? then message.value else "http_" + Digits(status))
              case NoResponse(code) => NotOk(if code.Some? then code.value else "network_error")
              case _ => NotOk("unknown_error")
  {
    assert Decisive(wire, max) == max;
  }
}
