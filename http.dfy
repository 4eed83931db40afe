/** The HTTP endpoint as an oracle, and the meaning of the bounded attempt loops
    (`for attempt in range(1, retries + 1): try ... except: last_exc = exc`). */
module Http {
  import opened Wrappers
  import opened Values

  datatype Request = Request(verb: string, url: string, headers: Value, params: Value, body: Value)

  /** A delivered response: its raw body and, when the body is JSON, its decoded value. */
  datatype Response = Response(content: seq<bv8>, json: Option<Value>)

  /** What one call does: a response with a success status, or a transport/status failure. */
  datatype Outcome = Delivered(response: Response) | Failed(reason: string)

  /** The remote side: the outcome of the n-th call of the run for the given request. */
  type Server = (nat, Request) -> Outcome

  /** One attempt inside `try`: a failed call raises; so does `resp.json()` when the caller
      decodes inside the `try` (needJson) and the body is not JSON. */
  function AttemptResult(o: Outcome, needJson: bool): Result<Response, Error> {
    match o
    case Failed(reason) => Err(RequestFailed(reason))
    case Delivered(r) => if needJson && r.json.None? then Err(JsonDecodeError) else Ok(r)
  }

  /** The attempts made: the first successful response, if any, and the errors before it. */
  datatype RetryRun = RetryRun(response: Option<Response>, errors: seq<Error>)

  function Prepend(es: seq<Error>, run: RetryRun): RetryRun {
    RetryRun(run.response, es + run.errors)
  }

  /** The attempts from number done + 1 on; call indices continue from n. */
  function RetryFrom(server: Server, n: nat, req: Request, done: nat, retries: int, needJson: bool): RetryRun
    decreases retries - done
  {
    if done >= retries then RetryRun(None, [])
    else match AttemptResult(server(n + done, req), needJson)
      case Ok(r) => RetryRun(Some(r), [])
      case Err(e) => Prepend([e], RetryFrom(server, n, req, done + 1, retries, needJson))
  }

  function Retry(server: Server, n: nat, req: Request, retries: int, needJson: bool): RetryRun {
    RetryFrom(server, n, req, 0, retries, needJson)
  }

  /** How many calls the run made. */
  function Calls(run: RetryRun): nat {
    |run.errors| + if run.response.Some? then 1 else 0
  }

  /** What the loop returns or raises: the response, else the last error, else `whenNone`
      (no attempt was made at all). */
  function Returned(run: RetryRun, whenNone: Error): Result<Response, Error> {
    if run.response.Some? then Ok(run.response.value)
    else if run.errors == [] then Err(whenNone)
    else Err(run.errors[|run.errors| - 1])
  }

  function Pow2(k: nat): nat {
    if k == 0 then 1 else 2 * Pow2(k - 1)
  }

  /** The seconds slept by `time.sleep(2 ** attempt)` after the first `count` failed attempts. */
  function Sleeps(count: nat): (r: seq<nat>)
    ensures |r| == count
  {
    if count == 0 then [] else Sleeps(count - 1) + [Pow2(count)]
  }

  /** After failed attempt k + 1 the loop sleeps 2 ** (k + 1) seconds. */
  lemma {:induction false} SleepsAt(count: nat)
    ensures forall k :: 0 <= k < count ==> Sleeps(count)[k] == Pow2(k + 1)
  {
    if count > 0 {
      SleepsAt(count - 1);
    }
  }

  /** The sleeps of a whole run: one per failed attempt. */
  function Backoffs(run: RetryRun): seq<nat> {
    Sleeps(|run.errors|)
  }

  function Max0(x: int): nat {
    if x < 0 then 0 else x
  }

  /** One step of a retry loop that has already recorded the errors errs: a failed attempt
      adds its error and moves on to the next attempt. */
  lemma AttemptFailed(run: RetryRun, errs: seq<Error>, server: Server, n: nat, req: Request, done: nat, retries: int,
                      needJson: bool, e: Error)
    requires run == Prepend(errs, RetryFrom(server, n, req, done, retries, needJson))
    requires done < retries && AttemptResult(server(n + done, req), needJson) == Err(e)
    ensures run == Prepend(errs + [e], RetryFrom(server, n, req, done + 1, retries, needJson))
  {
    var later := RetryFrom(server, n, req, done + 1, retries, needJson);
    assert errs + ([e] + later.errors) == (errs + [e]) + later.errors;
  }

  /** A successful attempt ends the run with its response. */
  lemma AttemptSucceeded(run: RetryRun, errs: seq<Error>, server: Server, n: nat, req: Request, done: nat, retries: int,
                         needJson: bool, r: Response)
    requires run == Prepend(errs, RetryFrom(server, n, req, done, retries, needJson))
    requires done < retries && AttemptResult(server(n + done, req), needJson) == Ok(r)
    ensures run == RetryRun(Some(r), errs)
  {
    assert errs + [] == errs;
  }

  /** Once every attempt is used up the run ends without a response. */
  lemma AttemptsExhausted(run: RetryRun, errs: seq<Error>, server: Server, n: nat, req: Request, done: nat, retries: int,
                          needJson: bool)
    requires run == Prepend(errs, RetryFrom(server, n, req, done, retries, needJson))
    requires done >= retries
    ensures run == RetryRun(None, errs)
  {
    assert errs + [] == errs;
  }

  lemma {:induction false} RetryFromShape(server: Server, n: nat, req: Request, done: nat, retries: int, needJson: bool)
    ensures var run := RetryFrom(server, n, req, done, retries, needJson);
      && Calls(run) <= Max0(retries - done)
      && (forall j :: 0 <= j < |run.errors| ==>
            AttemptResult(server(n + done + j, req), needJson) == Err(run.errors[j]))
      && (run.response.Some? ==>
            done + |run.errors| < retries &&
            AttemptResult(server(n + done + |run.errors|, req), needJson) == Ok(run.response.value))
      && (run.response.None? ==> |run.errors| == Max0(retries - done))
    decreases retries - done
  {
    if done < retries {
      match AttemptResult(server(n + done, req), needJson)
      case Ok(r) =>
      case Err(e) =>
        RetryFromShape(server, n, req, done + 1, retries, needJson);
        var rest := RetryFrom(server, n, req, done + 1, retries, needJson);
        var run := RetryFrom(server, n, req, done, retries, needJson);
        assert run.errors == [e] + rest.errors;
        forall j | 0 <= j < |run.errors|
          ensures AttemptResult(server(n + done + j, req), needJson) == Err(run.errors[j])
        {
          if j > 0 { assert run.errors[j] == rest.errors[j - 1]; assert n + done + j == n + (done + 1) + (j - 1); }
        }
    }
  }

  /** The retry loop makes at most `retries` calls; every call before the last failed; it
      stops at the first success; and when no call succeeds it made exactly `retries` calls. */
  lemma RetryShape(server: Server, n: nat, req: Request, retries: int, needJson: bool)
    ensures var run := Retry(server, n, req, retries, needJson);
      && Calls(run) <= Max0(retries)
      && (forall j :: 0 <= j < |run.errors| ==> AttemptResult(server(n + j, req), needJson) == Err(run.errors[j]))
      && (run.response.Some? ==>
            AttemptResult(server(n + |run.errors|, req), needJson) == Ok(run.response.value))
      && (run.response.None? ==> |run.errors| == Max0(retries))
  {
    RetryFromShape(server, n, req, 0, retries, needJson);
  }

  /** With no attempt allowed, nothing is called and the loop falls through to its raise. */
  lemma RetryNone(server: Server, n: nat, req: Request, retries: int, needJson: bool, whenNone: Error)
    requires retries < 1
    ensures Calls(Retry(server, n, req, retries, needJson)) == 0
    ensures Returned(Retry(server, n, req, retries, needJson), whenNone) == Err(whenNone)
  {
  }
}
