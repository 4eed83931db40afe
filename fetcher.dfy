/** fetcher.py: strict placeholder injection, the paginated list fetch, the day filter and
    the export download. */
module Fetcher {
  import opened Wrappers
  import opened Values
  import opened Env
  import opened Text
  import opened Http
  import opened Dedup
  import Utils

  // ---------------------------------------------------------------------------
  // _inject_env, _deep_inject_env (strict policy)
  // ---------------------------------------------------------------------------

  /** A placeholder string becomes its variable's value, or "" when the variable is unset;
      anything else is returned as it is. */
  function InjectEnv(v: Value, env: Environment): Value {
    if v.VStr? && StartsWith(v.s, "${") && EndsWith(v.s, "}")
    then VStr(GetEnv(env, PlaceholderName(v.s)).GetOr(""))
    else v
  }

  /** Descends into dicts and lists only; a tuple is a leaf and is returned untouched. */
  function DeepInjectEnv(v: Value, env: Environment): Value {
    match v
    case VDict(es) => VDict(seq(|es|, i requires 0 <= i < |es| => (es[i].0, DeepInjectEnv(es[i].1, env))))
    case VList(xs) => VList(seq(|xs|, i requires 0 <= i < |xs| => DeepInjectEnv(xs[i], env)))
    case _ => InjectEnv(v, env)
  }

  /** Strict policy: a placeholder naming an unset variable becomes the empty string. */
  lemma StrictUnsetIsEmpty(s: string, env: Environment)
    requires IsPlaceholder(s) && PlaceholderName(s) !in env
    ensures DeepInjectEnv(VStr(s), env) == VStr("")
  {
  }

  /** A tuple, and every placeholder inside it, is left as it is. */
  lemma TupleUntouched(xs: seq<Value>, env: Environment)
    ensures DeepInjectEnv(VTuple(xs), env) == VTuple(xs)
  {
  }

  ghost predicate TupleFree(v: Value) {
    match v
    case VTuple(_) => false
    case VList(xs) => forall i :: 0 <= i < |xs| ==> TupleFree(xs[i])
    case VDict(es) => forall i :: 0 <= i < |es| ==> TupleFree(es[i].1)
    case _ => true
  }

  /** Every placeholder in v names a variable that is set. */
  ghost predicate AllSet(v: Value, env: Environment) {
    match v
    case VStr(s) => IsPlaceholder(s) ==> PlaceholderName(s) in env
    case VList(xs) => forall i :: 0 <= i < |xs| ==> AllSet(xs[i], env)
    case VTuple(xs) => forall i :: 0 <= i < |xs| ==> AllSet(xs[i], env)
    case VDict(es) => forall i :: 0 <= i < |es| ==> AllSet(es[i].1, env)
    case _ => true
  }

  /** The two policies differ only on unset variables and on tuples: without either, the
      strict injection is the lenient one of utils.py. */
  lemma {:induction false} StrictAgreesWithLenient(v: Value, env: Environment)
    requires TupleFree(v) && AllSet(v, env)
    ensures DeepInjectEnv(v, env) == Utils.DeepInjectEnv(v, env)
  {
    match v
    case VDict(es) =>
      forall i | 0 <= i < |es| ensures DeepInjectEnv(es[i].1, env) == Utils.DeepInjectEnv(es[i].1, env) {
        StrictAgreesWithLenient(es[i].1, env);
      }
      assert DeepInjectEnv(v, env).entries == Utils.DeepInjectEnv(v, env).entries;
    case VList(xs) =>
      forall i | 0 <= i < |xs| ensures DeepInjectEnv(xs[i], env) == Utils.DeepInjectEnv(xs[i], env) {
        StrictAgreesWithLenient(xs[i], env);
      }
      assert DeepInjectEnv(v, env).items == Utils.DeepInjectEnv(v, env).items;
    case VStr(s) =>
    case _ =>
  }

  /** Strict injection keeps the shape of its argument (tuples included, since they are kept). */
  lemma {:induction false} StrictPreservesShape(v: Value, env: Environment)
    ensures SameShape(v, DeepInjectEnv(v, env))
  {
    match v
    case VDict(es) =>
      var r := DeepInjectEnv(v, env).entries;
      SameKeys(es, r);
      forall i | 0 <= i < |es| ensures SameShape(es[i].1, r[i].1) { StrictPreservesShape(es[i].1, env); }
    case VList(xs) =>
      forall i | 0 <= i < |xs| ensures SameShape(xs[i], DeepInjectEnv(v, env).items[i]) {
        StrictPreservesShape(xs[i], env);
      }
    case VTuple(xs) =>
      forall i | 0 <= i < |xs| ensures SameShape(xs[i], xs[i]) { SameShapeRefl(xs[i]); }
    case _ =>
  }

  lemma {:induction false} SameShapeRefl(v: Value)
    ensures SameShape(v, v)
  {
    match v
    case VList(xs) => forall i | 0 <= i < |xs| ensures SameShape(xs[i], xs[i]) { SameShapeRefl(xs[i]); }
    case VTuple(xs) => forall i | 0 <= i < |xs| ensures SameShape(xs[i], xs[i]) { SameShapeRefl(xs[i]); }
    case VDict(es) => forall i | 0 <= i < |es| ensures SameShape(es[i].1, es[i].1) { SameShapeRefl(es[i].1); }
    case _ =>
  }

  // ---------------------------------------------------------------------------
  // _post_with_retry
  // ---------------------------------------------------------------------------

  /** `resp.json()` of the returned response; decoding happens inside the retried block. */
  function JsonOf(res: Result<Response, Error>): Result<Value, Error> {
    match res
    case Err(e) => Err(e)
    case Ok(r) => if r.json.Some? then Ok(r.json.value) else Err(JsonDecodeError)
  }

  /** One `_post_with_retry`: the body or the error, the calls made, the seconds slept. */
  datatype PostRun = PostRun(result: Result<Value, Error>, calls: nat, sleeps: seq<nat>)

  function PostSpec(server: Server, n: nat, req: Request, retries: int): PostRun {
    var run := Retry(server, n, req, retries, true);
    PostRun(JsonOf(Returned(run, TypeError(RaiseNone))), Calls(run), Backoffs(run))
  }

  /** At most `retries` attempts, a JSON body required, `2 ** attempt` seconds slept after
      each failed attempt, the last error raised on exhaustion. */
  lemma PostFacts(server: Server, n: nat, req: Request, retries: int)
    ensures var r := PostSpec(server, n, req, retries);
      && r.calls <= Max0(retries)
      && |r.sleeps| == r.calls - (if r.result.Ok? then 1 else 0)
      && (forall k :: 0 <= k < |r.sleeps| ==> r.sleeps[k] == Pow2(k + 1))
      && (retries < 1 ==> r == PostRun(Err(TypeError(RaiseNone)), 0, []))
  {
    RetryShape(server, n, req, retries, true);
    SleepsAt(|Retry(server, n, req, retries, true).errors|);
    if retries < 1 { RetryNone(server, n, req, retries, true, TypeError(RaiseNone)); }
  }

  method PostWithRetry(server: Server, n: nat, req: Request, retries: int)
    returns (res: Result<Value, Error>, calls: nat, sleeps: seq<nat>)
    ensures PostRun(res, calls, sleeps) == PostSpec(server, n, req, retries)
  {
    ghost var run := Retry(server, n, req, retries, true);
    var lastExc: Option<Error> := None;
    ghost var errs: seq<Error> := [];
    sleeps := [];
    var attempt := 1;
    while attempt <= retries
      invariant 1 <= attempt <= Max0(retries) + 1
      invariant |errs| == attempt - 1 && sleeps == Sleeps(|errs|)
      invariant run == Prepend(errs, RetryFrom(server, n, req, attempt - 1, retries, true))
      invariant lastExc == if errs == [] then None else Some(errs[|errs| - 1])
      decreases retries - attempt
    {
      var outcome := AttemptResult(server(n + (attempt - 1), req), true);
      if outcome.Ok? {
        PostAfterSuccess(run, errs, server, n, req, attempt - 1, retries, outcome.value, sleeps);
        return Ok(outcome.value.json.value), attempt, sleeps;
      }
      AttemptFailed(run, errs, server, n, req, attempt - 1, retries, true, outcome.error);
      lastExc := Some(outcome.error);
      errs := errs + [outcome.error];
      sleeps := sleeps + [Pow2(attempt)];
      attempt := attempt + 1;
    }
    PostAfterFailures(run, errs, server, n, req, attempt - 1, retries, sleeps, lastExc);
    calls := attempt - 1;
    match lastExc
    case Some(e) => res := Err(e);
    case None => res := Err(TypeError(RaiseNone));
  }

  lemma PostAfterSuccess(run: RetryRun, errs: seq<Error>, server: Server, n: nat, req: Request, done: nat, retries: int,
                         r: Response, sleeps: seq<nat>)
    requires run == Prepend(errs, RetryFrom(server, n, req, done, retries, true))
    requires done < retries && AttemptResult(server(n + done, req), true) == Ok(r)
    requires sleeps == Sleeps(|errs|)
    ensures r.json.Some?
    ensures PostRun(JsonOf(Returned(run, TypeError(RaiseNone))), Calls(run), Backoffs(run))
         == PostRun(Ok(r.json.value), |errs| + 1, sleeps)
  {
    AttemptSucceeded(run, errs, server, n, req, done, retries, true, r);
  }

  lemma PostAfterFailures(run: RetryRun, errs: seq<Error>, server: Server, n: nat, req: Request, done: nat, retries: int,
                          sleeps: seq<nat>, lastExc: Option<Error>)
    requires run == Prepend(errs, RetryFrom(server, n, req, done, retries, true)) && done >= retries
    requires sleeps == Sleeps(|errs|)
    requires lastExc == if errs == [] then None else Some(errs[|errs| - 1])
    ensures PostRun(JsonOf(Returned(run, TypeError(RaiseNone))), Calls(run), Backoffs(run))
         == PostRun(match lastExc case Some(e) => Err(e) case None => Err(TypeError(RaiseNone)), |errs|, sleeps)
  {
    AttemptsExhausted(run, errs, server, n, req, done, retries, true);
  }

  // ---------------------------------------------------------------------------
  // filter_codes_for_day
  // ---------------------------------------------------------------------------

  /** `(r.get(field) or "").strip()`. */
  function FieldText(r: Entries, field: string): Result<string, Error> {
    var v := Get(r, field).GetOr(VNull);
    if !Truthy(v) then Ok("")
    else if v.VStr? then Ok(Strip(v.s))
    else Err(AttributeError(NoStripMethod))
  }

  /** The code one row contributes: its trimmed real_train_code when the trimmed
      departure_date starts with the day and the code is not empty. */
  function RowCode(row: Value, day: string): Result<Option<string>, Error> {
    if !row.VDict? then Err(AttributeError(NoGetMethod))
    else match FieldText(row.entries, "departure_date")
      case Err(e) => Err(e)
      case Ok(dep) =>
        if |dep| >= 10 && dep[..10] == day then
          match FieldText(row.entries, "real_train_code")
          case Err(e) => Err(e)
          case Ok(code) => Ok(if code != "" then Some(code) else None)
        else Ok(None)
  }

  /** The first loop over any per-row rule: codes in row order, duplicates kept; the first
      failing row raises. */
  function Collect(rows: seq<Value>, f: Value -> Result<Option<string>, Error>): Result<seq<string>, Error> {
    if rows == [] then Ok([])
    else match Collect(rows[..|rows| - 1], f)
      case Err(e) => Err(e)
      case Ok(cs) =>
        match f(rows[|rows| - 1])
        case Err(e) => Err(e)
        case Ok(None) => Ok(cs)
        case Ok(Some(c)) => Ok(cs + [c])
  }

  function DayRule(day: string): Value -> Result<Option<string>, Error> {
    r => RowCode(r, day)
  }

  function Itself(c: string): string { c }

  function FilterSpec(rows: seq<Value>, day: string): Result<seq<string>, Error> {
    match Collect(rows, DayRule(day))
    case Err(e) => Err(e)
    case Ok(cs) => Ok(DedupBy(cs, Itself))
  }

  /** A failure in a prefix is the failure of the whole. */
  lemma {:induction false} CollectErrSticky(rows: seq<Value>, f: Value -> Result<Option<string>, Error>, i: nat)
    requires i <= |rows| && Collect(rows[..i], f).Err?
    ensures Collect(rows, f) == Collect(rows[..i], f)
  {
    if i < |rows| {
      var p := rows[..|rows| - 1];
      assert p[..i] == rows[..i];
      CollectErrSticky(p, f, i);
    } else {
      assert rows[..i] == rows;
    }
  }

  method FilterCodesForDay(rows: seq<Value>, day: string) returns (r: Result<seq<string>, Error>)
    ensures r == FilterSpec(rows, day)
  {
    var codes := CollectCodes(rows, day);
    if codes.Err? {
      return Err(codes.error);
    }
    var dedup := DedupCodes(codes.value);
    r := Ok(dedup);
  }

  /** The first loop of filter_codes_for_day: the trimmed codes of the rows of the day, in
      row order; a row that cannot be read raises. */
  method CollectCodes(rows: seq<Value>, day: string) returns (r: Result<seq<string>, Error>)
    ensures r == Collect(rows, DayRule(day))
  {
    ghost var f := DayRule(day);
    var codes: seq<string> := [];
    var i := 0;
    while i < |rows|
      invariant 0 <= i <= |rows|
      invariant Collect(rows[..i], f) == Ok(codes)
    {
      var code := RowCode(rows[i], day);
      DayRuleAt(day, rows[i]);
      if code.Err? {
        CollectFailsAt(rows, f, i, codes);
        return Err(code.error);
      }
      ghost var before := codes;
      if code.value.Some? {
        codes := codes + [code.value.value];
      }
      CollectStep(rows, f, i, before, code.value, codes);
      i := i + 1;
    }
    assert rows[..i] == rows;
    r := Ok(codes);
  }

  /** The second loop of filter_codes_for_day: the seen-set scan that keeps first occurrences. */
  method DedupCodes(codes: seq<string>) returns (dedup: seq<string>)
    ensures dedup == DedupBy(codes, Itself)
  {
    dedup := [];
    var seen: set<string> := {};
    var j := 0;
    while j < |codes|
      invariant 0 <= j <= |codes|
      invariant dedup == DedupBy(codes[..j], Itself)
      invariant seen == KeySet(dedup, Itself)
    {
      var c := codes[j];
      ghost var before, seenBefore := dedup, seen;
      if c !in seen {
        seen := seen + {c};
        dedup := dedup + [c];
      }
      DedupStep(codes, j, before, seenBefore, dedup, seen);
      j := j + 1;
    }
    assert codes[..j] == codes;
  }

  /** One more row taken by the first loop. */
  lemma CollectStep(rows: seq<Value>, f: Value -> Result<Option<string>, Error>, i: nat, before: seq<string>,
                     o: Option<string>, after: seq<string>)
    requires i < |rows| && Collect(rows[..i], f) == Ok(before) && f(rows[i]) == Ok(o)
    requires after == if o.Some? then before + [o.value] else before
    ensures Collect(rows[..i + 1], f) == Ok(after)
  {
    var q := rows[..i + 1];
    assert q[..|q| - 1] == rows[..i] && q[|q| - 1] == rows[i];
  }

  lemma DayRuleAt(day: string, row: Value)
    ensures DayRule(day)(row) == RowCode(row, day)
  {
  }

  /** A row whose rule raises ends the first loop with that error. */
  lemma CollectFailsAt(rows: seq<Value>, f: Value -> Result<Option<string>, Error>, i: nat, codes: seq<string>)
    requires i < |rows| && Collect(rows[..i], f) == Ok(codes) && f(rows[i]).Err?
    ensures Collect(rows, f) == Err(f(rows[i]).error)
  {
    var q := rows[..i + 1];
    assert q[..|q| - 1] == rows[..i] && q[|q| - 1] == rows[i];
    CollectErrSticky(rows, f, i + 1);
  }

  /** One more code taken by the second loop, with the seen set kept in step. */
  lemma DedupStep(codes: seq<string>, j: nat, before: seq<string>, seenBefore: set<string>,
                  after: seq<string>, seenAfter: set<string>)
    requires j < |codes| && before == DedupBy(codes[..j], Itself) && seenBefore == KeySet(before, Itself)
    requires codes[j] in seenBefore ==> after == before && seenAfter == seenBefore
    requires codes[j] !in seenBefore ==> after == before + [codes[j]] && seenAfter == seenBefore + {codes[j]}
    ensures after == DedupBy(codes[..j + 1], Itself) && seenAfter == KeySet(after, Itself)
  {
    var q := codes[..j + 1];
    assert q[..|q| - 1] == codes[..j] && q[|q| - 1] == codes[j];
    KeySetSnoc(before, codes[j], Itself);
  }

  lemma CollectSnoc(rows: seq<Value>, f: Value -> Result<Option<string>, Error>)
    requires rows != [] && Collect(rows, f).Ok?
    ensures var p, x := rows[..|rows| - 1], rows[|rows| - 1];
      && Collect(p, f).Ok? && f(x).Ok?
      && Collect(rows, f).value == Collect(p, f).value + (match f(x).value case Some(c) => [c] case None => [])
  {
  }

  /** Every collected code comes from a row. */
  lemma {:induction false} CollectWitness(rows: seq<Value>, f: Value -> Result<Option<string>, Error>, c: string)
    returns (i: nat)
    requires Collect(rows, f).Ok? && c in Collect(rows, f).value
    ensures i < |rows| && f(rows[i]) == Ok(Some(c))
  {
    var p := rows[..|rows| - 1];
    CollectSnoc(rows, f);
    if c in Collect(p, f).value {
      i := CollectWitness(p, f, c);
      assert rows[i] == p[i];
    } else {
      i := |rows| - 1;
    }
  }

  /** Every row's code is collected. */
  lemma {:induction false} CollectIncludes(rows: seq<Value>, f: Value -> Result<Option<string>, Error>, i: nat, c: string)
    requires Collect(rows, f).Ok? && i < |rows| && f(rows[i]) == Ok(Some(c))
    ensures c in Collect(rows, f).value
  {
    var p := rows[..|rows| - 1];
    CollectSnoc(rows, f);
    if i < |p| {
      assert p[i] == rows[i];
      CollectIncludes(p, f, i, c);
    }
  }

  /** A code is collected exactly when some row contributes it. */
  lemma CollectIff(rows: seq<Value>, f: Value -> Result<Option<string>, Error>, c: string)
    requires Collect(rows, f).Ok?
    ensures c in Collect(rows, f).value <==> exists i :: 0 <= i < |rows| && f(rows[i]) == Ok(Some(c))
  {
    if c in Collect(rows, f).value {
      var i := CollectWitness(rows, f, c);
    }
    if exists i :: 0 <= i < |rows| && f(rows[i]) == Ok(Some(c)) {
      var i :| 0 <= i < |rows| && f(rows[i]) == Ok(Some(c));
      CollectIncludes(rows, f, i, c);
    }
  }

  /** Collect-then-deduplicate, for any row rule: a code is listed exactly when some row
      contributes it, each code once, at the position of its first occurrence. */
  lemma CollectDedupFacts(rows: seq<Value>, f: Value -> Result<Option<string>, Error>, c: string)
    requires Collect(rows, f).Ok?
    ensures var cs := Collect(rows, f).value;
      var out := DedupBy(cs, Itself);
      && (c in out <==> exists i :: 0 <= i < |rows| && f(rows[i]) == Ok(Some(c)))
      && NoDupKeys(out, Itself)
      && out == FirstOccurrences(cs, Itself)
  {
    var cs := Collect(rows, f).value;
    CollectIff(rows, f, c);
    DedupKeySet(cs, Itself);
    var out := DedupBy(cs, Itself);
    assert c in out <==> c in KeySet(out, Itself) by {
      if c in out { var k :| 0 <= k < |out| && out[k] == c; assert Itself(out[k]) == c; }
    }
    assert c in cs <==> c in KeySet(cs, Itself) by {
      if c in cs { var k :| 0 <= k < |cs| && cs[k] == c; assert Itself(cs[k]) == c; }
    }
    DedupNoDup(cs, Itself);
    DedupIsFirstOccurrences(cs, Itself);
  }

  /** The day filter: a code is listed exactly when it is the trimmed, non-empty
      real_train_code of a row whose trimmed departure_date starts with the day; each code
      once, in first-occurrence order. */
  lemma FilterFacts(rows: seq<Value>, day: string, c: string)
    requires FilterSpec(rows, day).Ok?
    ensures var out := FilterSpec(rows, day).value;
      && (c in out <==> exists i :: 0 <= i < |rows| && RowCode(rows[i], day) == Ok(Some(c)))
      && NoDupKeys(out, Itself)
      && out == FirstOccurrences(Collect(rows, DayRule(day)).value, Itself)
  {
    CollectDedupFacts(rows, DayRule(day), c);
  }

  // ---------------------------------------------------------------------------
  // fetch_all_real_train_info
  // ---------------------------------------------------------------------------

  /** The keyword arguments; DefaultParams gives the defaults of the signature. */
  datatype FetchParams = FetchParams(
    url: string, headers: Value, payloadTemplate: Entries,
    pageNumberField: string, pageSizeField: string, rowsField: string, totalField: string,
    startPageNumber: int, retries: int)

  function DefaultParams(url: string, headers: Value, payloadTemplate: Entries): FetchParams {
    FetchParams(url, headers, payloadTemplate, "pageNumber", "pageSize", "rows", "total", 0, 3)
  }

  function BasePayload(p: FetchParams, env: Environment): (r: Entries)
    ensures Keys(r) == Keys(p.payloadTemplate)
  {
    var es := p.payloadTemplate;
    var d := seq(|es|, i requires 0 <= i < |es| => (es[i].0, DeepInjectEnv(es[i].1, env)));
    assert DeepInjectEnv(VDict(es), env) == VDict(d);
    SameKeys(es, d);
    d
  }

  /** A copy of the base payload with only the page number field set. */
  function PagePayload(base: Entries, field: string, page: int): Entries {
    Set(base, field, VInt(page))
  }

  /** The POST of one page, with the headers and base payload injected once beforehand. */
  function PageRequest(p: FetchParams, headers: Value, base: Entries, page: int): Request {
    Request("POST", p.url, headers, VNull, VDict(PagePayload(base, p.pageNumberField, page)))
  }

  /** Each request carries the page number it asks for and the injected template otherwise. */
  lemma PagePayloadFacts(p: FetchParams, env: Environment, page: int, k: string)
    ensures var q := PagePayload(BasePayload(p, env), p.pageNumberField, page);
      && Get(q, p.pageNumberField) == Some(VInt(page))
      && (k != p.pageNumberField ==> Get(q, k) == Get(BasePayload(p, env), k))
      && (Keys(q) == Keys(p.payloadTemplate) || Keys(q) == Keys(p.payloadTemplate) + [p.pageNumberField])
  {
    SetKeys(BasePayload(p, env), p.pageNumberField, VInt(page));
    SetGet(BasePayload(p, env), p.pageNumberField, VInt(page));
    if k != p.pageNumberField {
      SetOther(BasePayload(p, env), p.pageNumberField, VInt(page), k);
    }
  }

  /** `int(v)` for the values a JSON body holds (floats are not modelled). */
  function PyInt(v: Value): Result<int, Error> {
    match v
    case VInt(i) => Ok(i)
    case VBool(b) => Ok(if b then 1 else 0)
    case VStr(s) => (match ParseInt(s) case Some(k) => Ok(k) case None => Err(ValueError(NotAnInteger)))
    case _ => Err(TypeError(NotAnInteger))
  }

  /** `list(v)`: a list or tuple gives its items, a dict its keys, a string its characters. */
  function PyList(v: Value): Result<seq<Value>, Error> {
    match v
    case VList(xs) => Ok(xs)
    case VTuple(xs) => Ok(xs)
    case VDict(es) => Ok(seq(|es|, i requires 0 <= i < |es| => VStr(es[i].0)))
    case VStr(s) => Ok(seq(|s|, i requires 0 <= i < |s| => VStr([s[i]])))
    case _ => Err(TypeError(NotIterable))
  }

  /** `int(first.get(total_field, 0) or 0)`: a missing or falsy total counts as 0. */
  function TotalOf(body: Entries, field: string): Result<int, Error> {
    var v := Get(body, field).GetOr(VInt(0));
    if !Truthy(v) then Ok(0) else PyInt(v)
  }

  /** `int(base_payload.get(page_size_field, 200))`. */
  function PageSizeOf(base: Entries, field: string): Result<int, Error> {
    PyInt(Get(base, field).GetOr(VInt(200)))
  }

  /** `data.get(rows_field, []) or []`, iterated: missing or falsy rows are no rows. */
  function RowsOf(body: Entries, field: string): Result<seq<Value>, Error> {
    var v := Get(body, field).GetOr(VList([]));
    if !Truthy(v) then Ok([]) else PyList(v)
  }

  /** Floor division, as Python's `//`. */
  function FloorDiv(a: int, b: int): int
    requires b != 0
  {
    if b > 0 then a / b else (-a) / (-b)
  }

  /** `math.ceil(a / b)`, computed exactly. */
  function CeilDiv(a: int, b: int): (r: int)
    requires b != 0
    ensures b > 0 ==> (r - 1) * b < a <= r * b
  {
    -FloorDiv(-a, b)
  }

  datatype Sleep = Backoff(seconds: nat) | BetweenPages

  function AsSleeps(xs: seq<nat>): (r: seq<Sleep>)
    ensures |r| == |xs|
  {
    seq(|xs|, k requires 0 <= k < |xs| => Backoff(xs[k]))
  }

  function Flatten(ss: seq<seq<Value>>): seq<Value> {
    if ss == [] then [] else Flatten(ss[..|ss| - 1]) + ss[|ss| - 1]
  }

  /** The rows or the error that aborted the fetch; the page numbers requested in order; the
      rows of each page; the calls made; the sleeps taken. */
  datatype FetchRun = FetchRun(result: Result<seq<Value>, Error>, pages: seq<int>,
                               pageRows: seq<seq<Value>>, calls: nat, sleeps: seq<Sleep>)

  /** What one page request yields, given the page number and the global number of its
      first call; and how a page body yields its rows. */
  type PageSource = (int, nat) -> PostRun
  type RowsRule = Value -> Result<seq<Value>, Error>

  function Source(p: FetchParams, headers: Value, base: Entries, server: Server): PageSource {
    (page: int, k: nat) => PostSpec(server, k, PageRequest(p, headers, base, page), p.retries)
  }

  lemma SourceAt(p: FetchParams, headers: Value, base: Entries, server: Server, page: int, k: nat)
    ensures Source(p, headers, base, server)(page, k) == PostSpec(server, k, PageRequest(p, headers, base, page), p.retries)
  {
  }

  function PageRows(field: string): RowsRule {
    (body: Value) => if body.VDict? then RowsOf(body.entries, field) else Err(AttributeError(NoGetMethod))
  }

  lemma PageRowsAt(field: string, body: Value)
    ensures PageRows(field)(body) == if body.VDict? then RowsOf(body.entries, field) else Err(AttributeError(NoGetMethod))
  {
  }

  /** Pages start + i .. start + totalPages - 1, each appended to the accumulated rows; the
      first failure aborts. Call numbers continue from n + calls made so far. */
  function FetchPagesFrom(src: PageSource, rowsOf: RowsRule, start: int, n: nat,
                          i: int, totalPages: int, acc: FetchRun): FetchRun
    decreases totalPages - i
  {
    if i >= totalPages || acc.result.Err? then acc
    else
      var page := start + i;
      var r := src(page, n + acc.calls);
      var pages, calls, sleeps := acc.pages + [page], acc.calls + r.calls, acc.sleeps + AsSleeps(r.sleeps);
      match r.result
      case Err(e) => FetchRun(Err(e), pages, acc.pageRows, calls, sleeps)
      case Ok(body) =>
        match rowsOf(body)
        case Err(e) => FetchRun(Err(e), pages, acc.pageRows, calls, sleeps)
        case Ok(rs) =>
          FetchPagesFrom(src, rowsOf, start, n, i + 1, totalPages,
                         FetchRun(Ok(acc.result.value + rs), pages, acc.pageRows + [rs], calls, sleeps + [BetweenPages]))
  }

  /** After the first page: either the fetch is over, or the loop starts from `acc` and
      runs up to `totalPages`. */
  datatype Start = Done(run: FetchRun) | Continue(acc: FetchRun, totalPages: int)

  /** The first page's total, page size and rows; the short circuit when the rows already
      reach total; the page count otherwise. */
  function FirstStage(p: FetchParams, base: Entries, first: PostRun): Start {
    var start := p.startPageNumber;
    var sl := AsSleeps(first.sleeps);
    if first.result.Err? then Done(FetchRun(Err(first.result.error), [start], [], first.calls, sl))
    else if !first.result.value.VDict? then Done(FetchRun(Err(AttributeError(NoGetMethod)), [start], [], first.calls, sl))
    else
      var body := first.result.value.entries;
      var total := TotalOf(body, p.totalField);
      var size := PageSizeOf(base, p.pageSizeField);
      var rows := RowsOf(body, p.rowsField);
      if total.Err? then Done(FetchRun(Err(total.error), [start], [], first.calls, sl))
      else if size.Err? then Done(FetchRun(Err(size.error), [start], [], first.calls, sl))
      else if rows.Err? then Done(FetchRun(Err(rows.error), [start], [], first.calls, sl))
      else
        var acc := FetchRun(Ok(rows.value), [start], [rows.value], first.calls, sl);
        if total.value <= |rows.value| then Done(acc)
        else if size.value == 0 then Done(FetchRun(Err(ZeroDivisionError), [start], [rows.value], first.calls, sl))
        else Continue(acc, CeilDiv(total.value, size.value))
  }

  /** The first page, then the rest when the first does not already hold `total` rows. */
  function FetchWith(p: FetchParams, base: Entries, src: PageSource, n: nat): FetchRun {
    match FirstStage(p, base, src(p.startPageNumber, n))
    case Done(run) => run
    case Continue(acc, totalPages) =>
      FetchPagesFrom(src, PageRows(p.rowsField), p.startPageNumber, n, 1, totalPages, acc)
  }

  function FetchAll(p: FetchParams, env: Environment, server: Server, n: nat): FetchRun {
    var base := BasePayload(p, env);
    FetchWith(p, base, Source(p, DeepInjectEnv(p.headers, env), base, server), n)
  }

  /** The first stage requests page start_page_number alone; a successful stop and a loop it
      starts both hold exactly the rows of the first page's body. */
  lemma FirstStageFacts(p: FetchParams, base: Entries, first: PostRun)
    ensures match FirstStage(p, base, first)
      case Done(run) => run.pages == [p.startPageNumber] && run.calls == first.calls &&
                        (run.result.Ok? ==> run.pageRows == [run.result.value] && first.result.Ok? &&
                                            PageRows(p.rowsField)(first.result.value) == Ok(run.result.value))
      case Continue(acc, _) =>
        && acc.pages == [p.startPageNumber] && acc.calls == first.calls
        && acc.result.Ok? && acc.pageRows == [acc.result.value]
        && first.result.Ok? && PageRows(p.rowsField)(first.result.value) == Ok(acc.result.value)
  {
  }

  /** The calls made by requesting `pages` in order, the first call numbered k. */
  function CallsOf(src: PageSource, pages: seq<int>, k: nat): nat
    decreases |pages|
  {
    if pages == [] then 0
    else
      var c := CallsOf(src, pages[..|pages| - 1], k);
      c + src(pages[|pages| - 1], k + c).calls
  }

  /** Each `rows[j]` is what the request for `pages[j]` returned, that request being made after
      those for the earlier pages (so its first call is numbered k + their calls). */
  predicate Served(src: PageSource, rowsOf: RowsRule, pages: seq<int>, k: nat, rows: seq<seq<Value>>)
    decreases |pages|
  {
    && |rows| == |pages|
    && (pages != [] ==>
          var q := src(pages[|pages| - 1], k + CallsOf(src, pages[..|pages| - 1], k));
          && Served(src, rowsOf, pages[..|pages| - 1], k, rows[..|rows| - 1])
          && q.result.Ok? && rowsOf(q.result.value) == Ok(rows[|rows| - 1]))
  }

  /** Served, page by page. */
  lemma {:induction false} ServedAt(src: PageSource, rowsOf: RowsRule, pages: seq<int>, k: nat, rows: seq<seq<Value>>,
                                    j: int)
    requires Served(src, rowsOf, pages, k, rows) && 0 <= j < |pages|
    ensures var q := src(pages[j], k + CallsOf(src, pages[..j], k));
      q.result.Ok? && rowsOf(q.result.value) == Ok(rows[j])
    decreases |pages|
  {
    if j < |pages| - 1 {
      var ps, rr := pages[..|pages| - 1], rows[..|rows| - 1];
      ServedAt(src, rowsOf, ps, k, rr, j);
      assert ps[..j] == pages[..j];
    }
  }

  lemma CallsSnoc(src: PageSource, pages: seq<int>, k: nat, page: int)
    ensures CallsOf(src, pages + [page], k) == CallsOf(src, pages, k) + src(page, k + CallsOf(src, pages, k)).calls
  {
    assert (pages + [page])[..|pages|] == pages;
  }

  lemma ServedSnoc(src: PageSource, rowsOf: RowsRule, pages: seq<int>, k: nat, rows: seq<seq<Value>>,
                   page: int, rs: seq<Value>)
    requires Served(src, rowsOf, pages, k, rows)
    requires var q := src(page, k + CallsOf(src, pages, k)); q.result.Ok? && rowsOf(q.result.value) == Ok(rs)
    ensures Served(src, rowsOf, pages + [page], k, rows + [rs])
  {
    var ps, rr := pages + [page], rows + [rs];
    assert ps[..|ps| - 1] == pages && ps[|ps| - 1] == page;
    assert rr[..|rr| - 1] == rows && rr[|rr| - 1] == rs;
  }

  /** One page of the loop keeps the call count and the provenance of every page's rows. */
  lemma AdvanceServed(src: PageSource, rowsOf: RowsRule, n: nat, acc: FetchRun, page: int, next: FetchRun)
    requires acc.calls == CallsOf(src, acc.pages, n)
    requires Served(src, rowsOf, acc.pages, n, acc.pageRows)
    requires var q := src(page, n + acc.calls);
      && next.pages == acc.pages + [page] && next.calls == acc.calls + q.calls
      && (next.result.Ok? ==> q.result.Ok? && rowsOf(q.result.value).Ok? &&
                              next.pageRows == acc.pageRows + [rowsOf(q.result.value).value])
    ensures next.calls == CallsOf(src, next.pages, n)
    ensures next.result.Ok? ==> Served(src, rowsOf, next.pages, n, next.pageRows)
  {
    CallsSnoc(src, acc.pages, n, page);
    if next.result.Ok? {
      var q := src(page, n + acc.calls);
      ServedSnoc(src, rowsOf, acc.pages, n, acc.pageRows, page, rowsOf(q.result.value).value);
    }
  }

  /** One page of the loop, part by part. */
  lemma AdvanceShape(acc: FetchRun, page: int, q: PostRun, rowsOf: RowsRule, next: FetchRun)
    requires acc.result.Ok? && next == Advance(acc, page, q, rowsOf)
    ensures next.pages == acc.pages + [page] && next.calls == acc.calls + q.calls
    ensures next.result.Ok? ==> q.result.Ok? && rowsOf(q.result.value).Ok? &&
                                next.pageRows == acc.pageRows + [rowsOf(q.result.value).value]
  {
  }

  /** The calls of a run are those of the pages it requested, in order, and on success each
      page's rows are what its own request returned. */
  predicate Traced(src: PageSource, rowsOf: RowsRule, n: nat, run: FetchRun) {
    && run.calls == CallsOf(src, run.pages, n)
    && (run.result.Ok? ==> Served(src, rowsOf, run.pages, n, run.pageRows))
  }

  /** The page loop keeps its runs traced. */
  lemma {:induction false} PagesFromServed(src: PageSource, rowsOf: RowsRule, start: int, n: nat,
                                           i: int, totalPages: int, acc: FetchRun)
    requires acc.result.Ok? && Traced(src, rowsOf, n, acc)
    ensures Traced(src, rowsOf, n, FetchPagesFrom(src, rowsOf, start, n, i, totalPages, acc))
    decreases totalPages - i
  {
    if i < totalPages {
      var next := Advance(acc, start + i, src(start + i, n + acc.calls), rowsOf);
      PagesFromStep(src, rowsOf, start, n, i, totalPages, acc, next);
      AdvanceShape(acc, start + i, src(start + i, n + acc.calls), rowsOf, next);
      AdvanceServed(src, rowsOf, n, acc, start + i, next);
      if next.result.Ok? {
        PagesFromServed(src, rowsOf, start, n, i + 1, totalPages, next);
      } else {
        PagesFromDone(src, rowsOf, start, n, i + 1, totalPages, next);
      }
    } else {
      PagesFromDone(src, rowsOf, start, n, i, totalPages, acc);
    }
  }

  /** The first page alone: its calls, and the rows it returned. */
  lemma FirstServed(src: PageSource, rowsOf: RowsRule, page: int, n: nat, rows: seq<Value>)
    ensures CallsOf(src, [page], n) == src(page, n).calls
    ensures src(page, n).result.Ok? && rowsOf(src(page, n).result.value) == Ok(rows) ==>
              Served(src, rowsOf, [page], n, [rows])
  {
    assert [page][..0] == [];
  }

  function Max1(x: int): nat {
    if x < 1 then 1 else x
  }

  /** What the page loop adds: ascending page numbers after those requested so far, at most
      one request per remaining page and all of them on success, the rows of each page
      appended in request order. */
  lemma PagesFromFacts(src: PageSource, rowsOf: RowsRule, start: int, n: nat,
                       i: int, totalPages: int, acc: FetchRun)
    requires acc.result.Ok? && acc.result.value == Flatten(acc.pageRows)
    ensures var r := FetchPagesFrom(src, rowsOf, start, n, i, totalPages, acc);
      var added := |r.pages| - |acc.pages|;
      && 0 <= added <= Max0(totalPages - i)
      && r.pages[..|acc.pages|] == acc.pages
      && (forall j :: |acc.pages| <= j < |r.pages| ==> r.pages[j] == start + i + (j - |acc.pages|))
      && (r.result.Ok? ==>
            && added == Max0(totalPages - i)
            && |r.pageRows| == |acc.pageRows| + added
            && r.result.value == Flatten(r.pageRows))
      && (acc.calls == CallsOf(src, acc.pages, n) && Served(src, rowsOf, acc.pages, n, acc.pageRows) ==>
            && r.calls == CallsOf(src, r.pages, n)
            && (r.result.Ok? ==> Served(src, rowsOf, r.pages, n, r.pageRows)))
  {
    PagesFromNumbers(src, rowsOf, start, n, i, totalPages, acc);
    PagesFromRows(src, rowsOf, start, n, i, totalPages, acc);
    if acc.calls == CallsOf(src, acc.pages, n) && Served(src, rowsOf, acc.pages, n, acc.pageRows) {
      PagesFromServed(src, rowsOf, start, n, i, totalPages, acc);
    }
  }

  /** The page numbers requested: ascending after those requested so far, at most one per
      remaining page. */
  lemma {:induction false} PagesFromNumbers(src: PageSource, rowsOf: RowsRule, start: int, n: nat,
                                            i: int, totalPages: int, acc: FetchRun)
    ensures var r := FetchPagesFrom(src, rowsOf, start, n, i, totalPages, acc);
      && |acc.pages| <= |r.pages| <= |acc.pages| + Max0(totalPages - i)
      && r.pages[..|acc.pages|] == acc.pages
      && (forall j :: |acc.pages| <= j < |r.pages| ==> r.pages[j] == start + i + (j - |acc.pages|))
    decreases totalPages - i
  {
    if i < totalPages && acc.result.Ok? {
      var next := Advance(acc, start + i, src(start + i, n + acc.calls), rowsOf);
      PagesFromStep(src, rowsOf, start, n, i, totalPages, acc, next);
      AdvanceFacts(acc, start + i, src(start + i, n + acc.calls), rowsOf);
      PagesFromNumbers(src, rowsOf, start, n, i + 1, totalPages, next);
      var fin := FetchPagesFrom(src, rowsOf, start, n, i + 1, totalPages, next);
      assert fin.pages[..|next.pages|] == next.pages;
      assert fin.pages[..|acc.pages|] == next.pages[..|acc.pages|];
    }
  }

  /** On success every remaining page was requested and the rows are those of the pages,
      appended in request order. */
  lemma {:induction false} PagesFromRows(src: PageSource, rowsOf: RowsRule, start: int, n: nat,
                                         i: int, totalPages: int, acc: FetchRun)
    requires acc.result.Ok? && acc.result.value == Flatten(acc.pageRows)
    ensures var r := FetchPagesFrom(src, rowsOf, start, n, i, totalPages, acc);
      r.result.Ok? ==>
        && |r.pages| == |acc.pages| + Max0(totalPages - i)
        && |r.pageRows| == |acc.pageRows| + Max0(totalPages - i)
        && r.result.value == Flatten(r.pageRows)
    decreases totalPages - i
  {
    if i < totalPages {
      var next := Advance(acc, start + i, src(start + i, n + acc.calls), rowsOf);
      PagesFromStep(src, rowsOf, start, n, i, totalPages, acc, next);
      AdvanceFacts(acc, start + i, src(start + i, n + acc.calls), rowsOf);
      if next.result.Ok? {
        PagesFromRows(src, rowsOf, start, n, i + 1, totalPages, next);
      } else {
        PagesFromDone(src, rowsOf, start, n, i + 1, totalPages, next);
      }
    }
  }

  /** One page of the loop: its number is appended, and on success its rows extend both the
      flat row list and the per-page rows. */
  lemma AdvanceFacts(acc: FetchRun, page: int, r: PostRun, rowsOf: RowsRule)
    requires acc.result.Ok?
    ensures var next := Advance(acc, page, r, rowsOf);
      && next.pages == acc.pages + [page]
      && (next.result.Ok? ==>
            && |next.pageRows| == |acc.pageRows| + 1
            && (acc.result.value == Flatten(acc.pageRows) ==> next.result.value == Flatten(next.pageRows)))
  {
    var next := Advance(acc, page, r, rowsOf);
    if next.result.Ok? {
      assert next.pageRows[..|next.pageRows| - 1] == acc.pageRows;
    }
  }

  /** a * b, by repeated addition, so that bounds on call counts stay linear. */
  function Times(a: nat, b: nat): nat {
    if a == 0 then 0 else Times(a - 1, b) + b
  }

  /** At most `bound` calls per page requested. */
  lemma {:induction false} PagesFromCalls(src: PageSource, rowsOf: RowsRule, start: int, n: nat,
                                          i: int, totalPages: int, acc: FetchRun, bound: nat)
    requires forall page, k :: src(page, k).calls <= bound
    ensures var r := FetchPagesFrom(src, rowsOf, start, n, i, totalPages, acc);
      |r.pages| >= |acc.pages| && r.calls <= acc.calls + Times(|r.pages| - |acc.pages|, bound)
    decreases totalPages - i
  {
    if i < totalPages && acc.result.Ok? {
      var page := start + i;
      var r := src(page, n + acc.calls);
      var pages, calls, sleeps := acc.pages + [page], acc.calls + r.calls, acc.sleeps + AsSleeps(r.sleeps);
      if r.result.Ok? && rowsOf(r.result.value).Ok? {
        var rs := rowsOf(r.result.value).value;
        var next := FetchRun(Ok(acc.result.value + rs), pages, acc.pageRows + [rs], calls, sleeps + [BetweenPages]);
        PagesFromCalls(src, rowsOf, start, n, i + 1, totalPages, next, bound);
        var fin := FetchPagesFrom(src, rowsOf, start, n, i + 1, totalPages, next);
        assert Times(|fin.pages| - |acc.pages|, bound) == Times(|fin.pages| - |pages|, bound) + bound;
      }
    }
  }

  lemma SourceBound(p: FetchParams, headers: Value, base: Entries, server: Server)
    ensures forall page, k :: Source(p, headers, base, server)(page, k).calls <= Max0(p.retries)
  {
    forall page, k ensures Source(p, headers, base, server)(page, k).calls <= Max0(p.retries) {
      PostFacts(server, k, PageRequest(p, headers, base, page), p.retries);
    }
  }

  /** The page loop run from a first page alone: the facts of the whole fetch. */
  lemma ContinueFacts(src: PageSource, rowsOf: RowsRule, start: int, n: nat, totalPages: int,
                      acc: FetchRun, bound: nat)
    requires forall page, k :: src(page, k).calls <= bound
    requires acc.pages == [start] && acc.calls <= bound
    requires acc.result.Ok? && acc.pageRows == [acc.result.value]
    ensures var r := FetchPagesFrom(src, rowsOf, start, n, 1, totalPages, acc);
      && |r.pages| >= 1
      && (forall j :: 0 <= j < |r.pages| ==> r.pages[j] == start + j)
      && r.calls <= Times(|r.pages|, bound)
      && (r.result.Ok? ==> r.result.value == Flatten(r.pageRows) && |r.pageRows| == |r.pages|)
  {
    assert Flatten([acc.result.value]) == Flatten([]) + acc.result.value;
    PagesFromFacts(src, rowsOf, start, n, 1, totalPages, acc);
    PagesFromCalls(src, rowsOf, start, n, 1, totalPages, acc, bound);
    var r := FetchPagesFrom(src, rowsOf, start, n, 1, totalPages, acc);
    assert Times(|r.pages|, bound) == Times(|r.pages| - 1, bound) + bound;
    assert r.pages[..1] == [start];
  }

  lemma FetchWithFacts(p: FetchParams, base: Entries, src: PageSource, n: nat, bound: nat)
    requires forall page, k :: src(page, k).calls <= bound
    ensures var r := FetchWith(p, base, src, n);
      && |r.pages| >= 1
      && (forall j :: 0 <= j < |r.pages| ==> r.pages[j] == p.startPageNumber + j)
      && r.calls <= Times(|r.pages|, bound)
      && r.calls == CallsOf(src, r.pages, n)
      && (r.result.Ok? ==> r.result.value == Flatten(r.pageRows) && Served(src, PageRows(p.rowsField), r.pages, n, r.pageRows))
  {
    var first := src(p.startPageNumber, n);
    FirstStageFacts(p, base, first);
    match FirstStage(p, base, first)
    case Done(run) =>
      assert Times(1, bound) == bound;
      if run.result.Ok? {
        assert Flatten([run.result.value]) == Flatten([]) + run.result.value;
        FirstServed(src, PageRows(p.rowsField), p.startPageNumber, n, run.result.value);
      } else {
        FirstServed(src, PageRows(p.rowsField), p.startPageNumber, n, []);
      }
    case Continue(acc, totalPages) =>
      ContinueFacts(src, PageRows(p.rowsField), p.startPageNumber, n, totalPages, acc, bound);
      FirstServed(src, PageRows(p.rowsField), p.startPageNumber, n, acc.result.value);
      PagesFromServed(src, PageRows(p.rowsField), p.startPageNumber, n, 1, totalPages, acc);
  }

  /** The whole fetch: page numbers ascend from start_page_number, at most `retries` calls per
      page, and on success the rows are every page's rows concatenated in request order. */
  lemma FetchFacts(p: FetchParams, env: Environment, server: Server, n: nat)
    ensures var r := FetchAll(p, env, server, n);
      && |r.pages| >= 1
      && (forall j :: 0 <= j < |r.pages| ==> r.pages[j] == p.startPageNumber + j)
      && r.calls <= Times(|r.pages|, Max0(p.retries))
      && (r.result.Ok? ==>
            && r.result.value == Flatten(r.pageRows)
            && Served(Source(p, DeepInjectEnv(p.headers, env), BasePayload(p, env), server), PageRows(p.rowsField),
                      r.pages, n, r.pageRows))
  {
    var base := BasePayload(p, env);
    var headers := DeepInjectEnv(p.headers, env);
    SourceBound(p, headers, base, server);
    FetchWithFacts(p, base, Source(p, headers, base, server), n, Max0(p.retries));
  }

  /** The page count: one request when the first page already holds `total` rows, otherwise
      `ceil(total / page_size)` requests (at least one) on success. */
  lemma PageCountWith(p: FetchParams, base: Entries, src: PageSource, n: nat, body: Entries)
    requires src(p.startPageNumber, n).result == Ok(VDict(body))
    requires TotalOf(body, p.totalField).Ok? && RowsOf(body, p.rowsField).Ok?
    requires PageSizeOf(base, p.pageSizeField).Ok?
    ensures var r := FetchWith(p, base, src, n);
      var total, size, rows := TotalOf(body, p.totalField).value,
                               PageSizeOf(base, p.pageSizeField).value,
                               RowsOf(body, p.rowsField).value;
      && (total <= |rows| ==> r.result == Ok(rows) && r.pages == [p.startPageNumber])
      && (total > |rows| && size == 0 ==> r.result == Err(ZeroDivisionError))
      && (total > |rows| && size != 0 && r.result.Ok? ==> |r.pages| == Max1(CeilDiv(total, size)))
  {
    var first := src(p.startPageNumber, n);
    FirstStageFacts(p, base, first);
    match FirstStage(p, base, first)
    case Done(_) =>
    case Continue(acc, totalPages) =>
      assert Flatten([acc.result.value]) == Flatten([]) + acc.result.value;
      PagesFromFacts(src, PageRows(p.rowsField), p.startPageNumber, n, 1, totalPages, acc);
  }

  /** The page count of the whole fetch, from the first page's body. */
  lemma PageCount(p: FetchParams, env: Environment, server: Server, n: nat, body: Entries)
    requires PostSpec(server, n, PageRequest(p, DeepInjectEnv(p.headers, env), BasePayload(p, env), p.startPageNumber),
                      p.retries).result == Ok(VDict(body))
    requires TotalOf(body, p.totalField).Ok? && RowsOf(body, p.rowsField).Ok?
    requires PageSizeOf(BasePayload(p, env), p.pageSizeField).Ok?
    ensures var r := FetchAll(p, env, server, n);
      var total, size, rows := TotalOf(body, p.totalField).value,
                               PageSizeOf(BasePayload(p, env), p.pageSizeField).value,
                               RowsOf(body, p.rowsField).value;
      && (total <= |rows| ==> r.result == Ok(rows) && r.pages == [p.startPageNumber])
      && (total > |rows| && size == 0 ==> r.result == Err(ZeroDivisionError))
      && (total > |rows| && size != 0 && r.result.Ok? ==> |r.pages| == Max1(CeilDiv(total, size)))
  {
    var base, headers := BasePayload(p, env), DeepInjectEnv(p.headers, env);
    SourceAt(p, headers, base, server, p.startPageNumber, n);
    PageCountWith(p, base, Source(p, headers, base, server), n, body);
  }

  method FetchAllRealTrainInfo(p: FetchParams, env: Environment, server: Server, n: nat) returns (run: FetchRun)
    ensures run == FetchAll(p, env, server, n)
  {
    var headers := DeepInjectEnv(p.headers, env);
    var base := BasePayload(p, env);
    var first := PostPage(p, headers, base, server, p.startPageNumber, n);
    var stage := FirstStage(p, base, first);
    if stage.Done? {
      return stage.run;
    }
    run := FetchRest(p, headers, base, server, n, stage.acc, stage.totalPages);
  }

  /** `_post_with_retry` of one page's request, as the page source describes it. */
  method PostPage(p: FetchParams, headers: Value, base: Entries, server: Server, page: int, k: nat) returns (r: PostRun)
    ensures r == Source(p, headers, base, server)(page, k)
  {
    var res, c, s := PostWithRetry(server, k, PageRequest(p, headers, base, page), p.retries);
    SourceAt(p, headers, base, server, page, k);
    r := PostRun(res, c, s);
  }

  /** One page of the loop: its request's outcome and then its rows, appended to `acc`. */
  function Advance(acc: FetchRun, page: int, r: PostRun, rowsOf: RowsRule): FetchRun
    requires acc.result.Ok?
  {
    var pages, calls, sleeps := acc.pages + [page], acc.calls + r.calls, acc.sleeps + AsSleeps(r.sleeps);
    match r.result
    case Err(e) => FetchRun(Err(e), pages, acc.pageRows, calls, sleeps)
    case Ok(body) =>
      match rowsOf(body)
      case Err(e) => FetchRun(Err(e), pages, acc.pageRows, calls, sleeps)
      case Ok(rs) => FetchRun(Ok(acc.result.value + rs), pages, acc.pageRows + [rs], calls, sleeps + [BetweenPages])
  }

  lemma PagesFromStep(src: PageSource, rowsOf: RowsRule, start: int, n: nat, i: int, totalPages: int, acc: FetchRun,
                      next: FetchRun)
    requires i < totalPages && acc.result.Ok?
    requires next == Advance(acc, start + i, src(start + i, n + acc.calls), rowsOf)
    ensures FetchPagesFrom(src, rowsOf, start, n, i, totalPages, acc) == FetchPagesFrom(src, rowsOf, start, n, i + 1, totalPages, next)
  {
  }

  /** One pass of the page loop: request page start + i and append its rows. */
  method FetchPage(p: FetchParams, headers: Value, base: Entries, server: Server, n: nat, i: int, run: FetchRun)
    returns (next: FetchRun)
    requires run.result.Ok?
    ensures next == Advance(run, p.startPageNumber + i,
                            Source(p, headers, base, server)(p.startPageNumber + i, n + run.calls), PageRows(p.rowsField))
  {
    var page := p.startPageNumber + i;
    var r := PostPage(p, headers, base, server, page, n + run.calls);
    var pages, calls, sleeps := run.pages + [page], run.calls + r.calls, run.sleeps + AsSleeps(r.sleeps);
    if r.result.Err? {
      return FetchRun(Err(r.result.error), pages, run.pageRows, calls, sleeps);
    }
    PageRowsAt(p.rowsField, r.result.value);
    if !r.result.value.VDict? {
      return FetchRun(Err(AttributeError(NoGetMethod)), pages, run.pageRows, calls, sleeps);
    }
    var rs := RowsOf(r.result.value.entries, p.rowsField);
    if rs.Err? {
      return FetchRun(Err(rs.error), pages, run.pageRows, calls, sleeps);
    }
    next := FetchRun(Ok(run.result.value + rs.value), pages, run.pageRows + [rs.value], calls, sleeps + [BetweenPages]);
  }

  /** The loop over pages 2 .. totalPages of fetch_all_real_train_info. */
  method FetchRest(p: FetchParams, headers: Value, base: Entries, server: Server, n: nat, acc: FetchRun, totalPages: int)
    returns (run: FetchRun)
    requires acc.result.Ok?
    ensures run == FetchPagesFrom(Source(p, headers, base, server), PageRows(p.rowsField), p.startPageNumber, n, 1, totalPages, acc)
  {
    ghost var src, rowsOf := Source(p, headers, base, server), PageRows(p.rowsField);
    run := acc;
    var i := 1;
    while i < totalPages && run.result.Ok?
      invariant FetchPagesFrom(src, rowsOf, p.startPageNumber, n, i, totalPages, run)
             == FetchPagesFrom(src, rowsOf, p.startPageNumber, n, 1, totalPages, acc)
      decreases totalPages - i
    {
      var next := FetchPage(p, headers, base, server, n, i, run);
      PagesFromStep(src, rowsOf, p.startPageNumber, n, i, totalPages, run, next);
      run, i := next, i + 1;
    }
    PagesFromDone(src, rowsOf, p.startPageNumber, n, i, totalPages, run);
  }

  lemma PagesFromDone(src: PageSource, rowsOf: RowsRule, start: int, n: nat, i: int, totalPages: int, acc: FetchRun)
    requires i >= totalPages || acc.result.Err?
    ensures FetchPagesFrom(src, rowsOf, start, n, i, totalPages, acc) == acc
  {
  }

  // ---------------------------------------------------------------------------
  // download_export_loaded_box_xlsx
  // ---------------------------------------------------------------------------

  /** The files on disk, by path. */
  type Disk = map<string, seq<bv8>>

  /** The keyword arguments of the download (the timeout is not modelled). */
  datatype ExportParams = ExportParams(url: string, headers: Value, codes: seq<string>, outPath: string,
                                       flag: string, retries: int)

  function DefaultExport(url: string, headers: Value, codes: seq<string>, outPath: string): ExportParams {
    ExportParams(url, headers, codes, outPath, "单表", 3)
  }

  /** `{"realTrainCode": ",".join(codes), "flag": flag}`. */
  function ExportPayload(codes: seq<string>, flag: string): Value {
    VDict([("realTrainCode", VStr(Join(codes, ","))), ("flag", VStr(flag))])
  }

  function ExportRequest(d: ExportParams, env: Environment): Request {
    Request("POST", d.url, DeepInjectEnv(d.headers, env), VNull, ExportPayload(d.codes, d.flag))
  }

  /** The path returned or the error raised; the disk afterwards; calls made; seconds slept. */
  datatype DownloadRun = DownloadRun(result: Result<string, Error>, disk: Disk, calls: nat, sleeps: seq<nat>)

  /** After the attempts: the first delivered response written to out_path, else the last
      error, else RuntimeError when no attempt was made. */
  function Saved(run: RetryRun, outPath: string, disk: Disk): DownloadRun {
    match Returned(run, RuntimeError(NoExceptionCaptured))
    case Ok(resp) => DownloadRun(Ok(outPath), disk[outPath := resp.content], Calls(run), Backoffs(run))
    case Err(e) => DownloadRun(Err(e), disk, Calls(run), Backoffs(run))
  }

  /** The guard on an empty code list, then the attempts. */
  function DownloadSpec(d: ExportParams, env: Environment, server: Server, n: nat, disk: Disk): DownloadRun {
    if d.codes == [] then DownloadRun(Err(ValueError(RealTrainCodesEmpty)), disk, 0, [])
    else Saved(Retry(server, n, ExportRequest(d, env), d.retries, false), d.outPath, disk)
  }

  method DownloadExportLoadedBoxXlsx(d: ExportParams, env: Environment, server: Server, n: nat, disk: Disk)
    returns (result: Result<string, Error>, disk': Disk, calls: nat, sleeps: seq<nat>)
    ensures DownloadRun(result, disk', calls, sleeps) == DownloadSpec(d, env, server, n, disk)
  {
    if d.codes == [] {
      return Err(ValueError(RealTrainCodesEmpty)), disk, 0, [];
    }
    result, disk', calls, sleeps := DownloadAttempts(server, n, ExportRequest(d, env), d.retries, d.outPath, disk);
  }

  /** The attempt loop of the download: post, then write the body to out_path and return. */
  method DownloadAttempts(server: Server, n: nat, req: Request, retries: int, outPath: string, disk: Disk)
    returns (result: Result<string, Error>, disk': Disk, calls: nat, sleeps: seq<nat>)
    ensures DownloadRun(result, disk', calls, sleeps) == Saved(Retry(server, n, req, retries, false), outPath, disk)
  {
    ghost var run := Retry(server, n, req, retries, false);
    var lastExc: Option<Error> := None;
    ghost var errs: seq<Error> := [];
    sleeps := [];
    var attempt := 1;
    while attempt <= retries
      invariant 1 <= attempt <= Max0(retries) + 1
      invariant |errs| == attempt - 1 && sleeps == Sleeps(|errs|)
      invariant run == Prepend(errs, RetryFrom(server, n, req, attempt - 1, retries, false))
      invariant lastExc == if errs == [] then None else Some(errs[|errs| - 1])
      decreases retries - attempt
    {
      var outcome := AttemptResult(server(n + (attempt - 1), req), false);
      if outcome.Ok? {
        SavedAfterSuccess(run, errs, server, n, req, attempt - 1, retries, outPath, disk, outcome.value, sleeps);
        return Ok(outPath), disk[outPath := outcome.value.content], attempt, sleeps;
      }
      AttemptFailed(run, errs, server, n, req, attempt - 1, retries, false, outcome.error);
      lastExc := Some(outcome.error);
      errs := errs + [outcome.error];
      sleeps := sleeps + [Pow2(attempt)];
      attempt := attempt + 1;
    }
    SavedAfterFailures(run, errs, server, n, req, attempt - 1, retries, outPath, disk, sleeps, lastExc);
    calls, disk' := attempt - 1, disk;
    match lastExc
    case Some(e) => result := Err(e);
    case None => result := Err(RuntimeError(NoExceptionCaptured));
  }

  lemma SavedAfterSuccess(run: RetryRun, errs: seq<Error>, server: Server, n: nat, req: Request, done: nat, retries: int,
                          outPath: string, disk: Disk, resp: Response, sleeps: seq<nat>)
    requires run == Prepend(errs, RetryFrom(server, n, req, done, retries, false))
    requires done < retries && AttemptResult(server(n + done, req), false) == Ok(resp)
    requires sleeps == Sleeps(|errs|)
    ensures Saved(run, outPath, disk) == DownloadRun(Ok(outPath), disk[outPath := resp.content], |errs| + 1, sleeps)
  {
    AttemptSucceeded(run, errs, server, n, req, done, retries, false, resp);
  }

  lemma SavedAfterFailures(run: RetryRun, errs: seq<Error>, server: Server, n: nat, req: Request, done: nat, retries: int,
                           outPath: string, disk: Disk, sleeps: seq<nat>, lastExc: Option<Error>)
    requires run == Prepend(errs, RetryFrom(server, n, req, done, retries, false)) && done >= retries
    requires sleeps == Sleeps(|errs|)
    requires lastExc == if errs == [] then None else Some(errs[|errs| - 1])
    ensures Saved(run, outPath, disk) ==
              DownloadRun(match lastExc case Some(e) => Err(e) case None => Err(RuntimeError(NoExceptionCaptured)),
                          disk, |errs|, sleeps)
  {
    AttemptsExhausted(run, errs, server, n, req, done, retries, false);
  }

  /** An empty code list is refused before any call; otherwise at most `retries` calls, and the
      disk changes only on success, at out_path alone, to the body of the last call made. */
  lemma DownloadFacts(d: ExportParams, env: Environment, server: Server, n: nat, disk: Disk)
    ensures var r := DownloadSpec(d, env, server, n, disk);
      && (d.codes == [] ==> r == DownloadRun(Err(ValueError(RealTrainCodesEmpty)), disk, 0, []))
      && r.calls <= Max0(d.retries)
      && |r.sleeps| == r.calls - (if r.result.Ok? then 1 else 0)
      && (forall k :: 0 <= k < |r.sleeps| ==> r.sleeps[k] == Pow2(k + 1))
      && (r.result.Err? ==> r.disk == disk)
      && (r.result.Ok? ==>
            && r.result.value == d.outPath && r.calls >= 1
            && server(n + r.calls - 1, ExportRequest(d, env)).Delivered?
            && r.disk == disk[d.outPath := server(n + r.calls - 1, ExportRequest(d, env)).response.content])
      && (d.codes != [] && d.retries < 1 ==> r.result == Err(RuntimeError(NoExceptionCaptured)) && r.calls == 0)
  {
    if d.codes != [] {
      var req := ExportRequest(d, env);
      RetryShape(server, n, req, d.retries, false);
      SleepsAt(|Retry(server, n, req, d.retries, false).errors|);
      if d.retries < 1 { RetryNone(server, n, req, d.retries, false, RuntimeError(NoExceptionCaptured)); }
    }
  }

  /** The payload carries the codes in order: splitting realTrainCode on "," gives them back
      when no code holds a comma. */
  lemma ExportPayloadRoundTrip(codes: seq<string>, flag: string)
    requires |codes| >= 1 && forall i :: 0 <= i < |codes| ==> ',' !in codes[i]
    ensures var q := ExportPayload(codes, flag).entries;
      && Keys(q) == ["realTrainCode", "flag"]
      && Get(q, "flag") == Some(VStr(flag))
      && Get(q, "realTrainCode").Some? && Get(q, "realTrainCode").value.VStr?
      && Split(Get(q, "realTrainCode").value.s, ',') == codes
  {
    SplitJoin(codes, ',');
  }
}
