/** login.py: placeholder helpers, captcha acquisition, login request assembly, token
    extraction and publication of the new credentials. */
module Login {
  import opened Wrappers
  import opened Values
  import opened Env
  import opened Text
  import opened Http
  import Utils

  // ---------------------------------------------------------------------------
  // _resolve_env_placeholder, _deep_inject_env
  // ---------------------------------------------------------------------------

  /** `os.getenv(value[2:-1], value)` for a placeholder, the string itself otherwise. */
  function ResolveEnvPlaceholder(s: string, env: Environment): (r: string)
    ensures IsPlaceholder(s) && PlaceholderName(s) in env ==> r == env[PlaceholderName(s)]
    ensures !(IsPlaceholder(s) && PlaceholderName(s) in env) ==> r == s
  {
    if IsPlaceholder(s) then GetEnv(env, PlaceholderName(s)).GetOr(s) else s
  }

  /** Lenient injection, strings handled first, then lists, tuples and dicts. */
  function DeepInjectEnv(v: Value, env: Environment): Value
  {
    match v
    case VStr(s) => VStr(ResolveEnvPlaceholder(s, env))
    case VList(xs) => VList(seq(|xs|, i requires 0 <= i < |xs| => DeepInjectEnv(xs[i], env)))
    case VTuple(xs) => VTuple(seq(|xs|, i requires 0 <= i < |xs| => DeepInjectEnv(xs[i], env)))
    case VDict(es) => VDict(seq(|es|, i requires 0 <= i < |es| => (es[i].0, DeepInjectEnv(es[i].1, env))))
    case _ => v
  }

  /** login.py's injection is utils.py's: same lenient policy, same shape, tuples included,
      so every property proved of Utils.DeepInjectEnv holds for it. */
  lemma {:induction false} InjectMatchesUtils(v: Value, env: Environment)
    ensures DeepInjectEnv(v, env) == Utils.DeepInjectEnv(v, env)
  {
    match v
    case VList(xs) =>
      forall i | 0 <= i < |xs| ensures DeepInjectEnv(xs[i], env) == Utils.DeepInjectEnv(xs[i], env) {
        InjectMatchesUtils(xs[i], env);
      }
      assert DeepInjectEnv(v, env).items == Utils.DeepInjectEnv(v, env).items;
    case VTuple(xs) =>
      forall i | 0 <= i < |xs| ensures DeepInjectEnv(xs[i], env) == Utils.DeepInjectEnv(xs[i], env) {
        InjectMatchesUtils(xs[i], env);
      }
      assert DeepInjectEnv(v, env).elems == Utils.DeepInjectEnv(v, env).elems;
    case VDict(es) =>
      forall i | 0 <= i < |es| ensures DeepInjectEnv(es[i].1, env) == Utils.DeepInjectEnv(es[i].1, env) {
        InjectMatchesUtils(es[i].1, env);
      }
      assert DeepInjectEnv(v, env).entries == Utils.DeepInjectEnv(v, env).entries;
    case _ =>
  }

  /** Injection of a dict template, as a dict. */
  function InjectEntries(es: Entries, env: Environment): Entries
  {
    DeepInjectEnv(VDict(es), env).entries
  }

  /** Substitution rewrites the values of a mapping and keeps its keys, in order. */
  lemma InjectKeepsKeys(es: Entries, env: Environment)
    ensures Keys(InjectEntries(es, env)) == Keys(es)
  {
    SameKeys(es, InjectEntries(es, env));
  }

  // ---------------------------------------------------------------------------
  // _extract_json_path
  // ---------------------------------------------------------------------------

  /** Walk the key path; None when a key is absent or an intermediate value is not a mapping. */
  method ExtractJsonPath(data: Value, path: seq<string>) returns (r: Option<Value>)
    ensures r == At(data, KeySteps(path))
  {
    var current := data;
    var i := 0;
    while i < |path|
      invariant 0 <= i <= |path|
      invariant At(data, KeySteps(path[..i])) == Some(current)
    {
      var key := path[i];
      if !current.VDict? || key !in Keys(current.entries) {
        KeyPathMissing(data, path, i);
        return None;
      }
      KeyPathStep(data, path, i, current);
      current := Get(current.entries, key).value;
      i := i + 1;
    }
    assert path[..i] == path;
    r := Some(current);
  }

  // ---------------------------------------------------------------------------
  // _request_with_retry
  // ---------------------------------------------------------------------------

  /** Up to `retries` calls, returning the first successful response and re-raising the
      last failure; with retries < 1 it reaches `raise None`, a TypeError. */
  method RequestWithRetry(server: Server, n: nat, req: Request, retries: int)
    returns (res: Result<Response, Error>, calls: nat)
    ensures var run := Retry(server, n, req, retries, false);
      res == Returned(run, TypeError(RaiseNone)) && calls == Calls(run)
  {
    ghost var run := Retry(server, n, req, retries, false);
    var lastExc: Option<Error> := None;
    ghost var errs: seq<Error> := [];
    var attempt := 1;
    while attempt <= retries
      invariant 1 <= attempt <= Max0(retries) + 1
      invariant |errs| == attempt - 1
      invariant run == Prepend(errs, RetryFrom(server, n, req, attempt - 1, retries, false))
      invariant lastExc == if errs == [] then None else Some(errs[|errs| - 1])
      decreases retries - attempt
    {
      var outcome := AttemptResult(server(n + (attempt - 1), req), false);
      if outcome.Ok? {
        RequestAfterSuccess(run, errs, server, n, req, attempt - 1, retries, outcome.value);
        return Ok(outcome.value), attempt;
      }
      AttemptFailed(run, errs, server, n, req, attempt - 1, retries, false, outcome.error);
      lastExc := Some(outcome.error);
      errs := errs + [outcome.error];
      attempt := attempt + 1;
    }
    RequestAfterFailures(run, errs, server, n, req, attempt - 1, retries, lastExc);
    calls := attempt - 1;
    match lastExc
    case Some(e) => res := Err(e);
    case None => res := Err(TypeError(RaiseNone));
  }

  lemma RequestAfterSuccess(run: RetryRun, errs: seq<Error>, server: Server, n: nat, req: Request, done: nat,
                            retries: int, r: Response)
    requires run == Prepend(errs, RetryFrom(server, n, req, done, retries, false))
    requires done < retries && AttemptResult(server(n + done, req), false) == Ok(r)
    ensures Returned(run, TypeError(RaiseNone)) == Ok(r) && Calls(run) == |errs| + 1
  {
    AttemptSucceeded(run, errs, server, n, req, done, retries, false, r);
  }

  lemma RequestAfterFailures(run: RetryRun, errs: seq<Error>, server: Server, n: nat, req: Request, done: nat,
                             retries: int, lastExc: Option<Error>)
    requires run == Prepend(errs, RetryFrom(server, n, req, done, retries, false)) && done >= retries
    requires lastExc == if errs == [] then None else Some(errs[|errs| - 1])
    ensures Returned(run, TypeError(RaiseNone)) == (match lastExc case Some(e) => Err(e) case None => Err(TypeError(RaiseNone)))
    ensures Calls(run) == |errs|
  {
    AttemptsExhausted(run, errs, server, n, req, done, retries, false);
  }

  // ---------------------------------------------------------------------------
  // _decode_base64_image (the data-URL split)
  // ---------------------------------------------------------------------------

  /** `\w` of the regular expression, restricted to ASCII. */
  predicate IsWordChar(c: char) {
    ('a' <= c <= 'z') || ('A' <= c <= 'Z') || ('0' <= c <= '9') || c == '_'
  }

  /** Length of the leading run of word characters. */
  function WordRun(s: string): (k: nat)
    ensures k <= |s| && (forall i :: 0 <= i < k ==> IsWordChar(s[i])) && (k < |s| ==> !IsWordChar(s[k]))
  {
    if s != [] && IsWordChar(s[0]) then 1 + WordRun(s[1..]) else 0
  }

  /** What `(.*)` matches: everything up to the first newline. */
  function UpToNewline(s: string): (r: string)
    ensures |r| <= |s| && r == s[..|r|] && '\n' !in r && (|r| < |s| ==> s[|r|] == '\n')
  {
    if s == [] || s[0] == '\n' then []
    else
      var t := UpToNewline(s[1..]);
      assert s[..1 + |t|] == [s[0]] + s[1..][..|t|];
      [s[0]] + t
  }

  /** `re.match(r"data:image/(\w+);base64,(.*)", raw)`: group 2 when it matches. */
  function DataUrlPayload(raw: string): Option<string>
  {
    if !StartsWith(raw, "data:image/") then None
    else
      var rest := raw[11..];
      var w := WordRun(rest);
      if w > 0 && StartsWith(rest[w..], ";base64,") then Some(UpToNewline(rest[w + 8..])) else None
  }

  /** The text handed to base64.b64decode. */
  function Base64Text(raw: string): string {
    match DataUrlPayload(raw)
    case Some(d) => d
    case None => raw
  }

  /** A data URL `data:image/<word>;base64,<data>` hands over exactly <data>. */
  lemma DataUrlSplit(w: string, d: string)
    requires w != [] && forall i :: 0 <= i < |w| ==> IsWordChar(w[i])
    requires '\n' !in d
    ensures Base64Text("data:image/" + w + ";base64," + d) == d
  {
    var tail := ";base64," + d;
    var rest := w + tail;
    var raw := "data:image/" + rest;
    ConcatRight("data:image/", w, ";base64,", d);
    PrefixSplit("data:image/", rest);
    PrefixSplit(w, tail);
    PrefixSplit(";base64,", d);
    WordRunPrefix(w, tail);
    UpToNewlineAll(d);
    DataUrlMatched(raw, rest, |w|, d);
  }

  lemma ConcatRight(a: string, b: string, c: string, e: string)
    ensures a + b + c + e == a + (b + (c + e))
  {
  }

  lemma PrefixSplit(p: string, t: string)
    ensures |p + t| == |p| + |t| && (p + t)[..|p|] == p && (p + t)[|p|..] == t
    ensures t != [] ==> (p + t)[|p|] == t[0]
    ensures p != [] ==> (p + t)[0] == p[0]
  {
  }

  lemma DataUrlMatched(raw: string, rest: string, k: nat, d: string)
    requires StartsWith(raw, "data:image/") && raw[11..] == rest
    requires k > 0 && WordRun(rest) == k && StartsWith(rest[k..], ";base64,")
    requires UpToNewline(rest[k + 8..]) == d
    ensures Base64Text(raw) == d
  {
  }

  lemma {:induction false} WordRunPrefix(w: string, t: string)
    requires forall i :: 0 <= i < |w| ==> IsWordChar(w[i])
    requires t != [] && !IsWordChar(t[0])
    ensures WordRun(w + t) == |w|
  {
    if w != [] {
      assert (w + t)[1..] == w[1..] + t;
      WordRunPrefix(w[1..], t);
    } else {
      assert w + t == t;
    }
  }

  lemma UpToNewlineAll(d: string)
    requires '\n' !in d
    ensures UpToNewline(d) == d
  {
  }

  /** Anything that is not a data URL is decoded whole. */
  lemma PlainBase64Whole(raw: string)
    requires !StartsWith(raw, "data:image/")
    ensures Base64Text(raw) == raw
  {
  }

  // ---------------------------------------------------------------------------
  // _fetch_captcha
  // ---------------------------------------------------------------------------

  /** The captcha section; a field is None when its key is absent. A missing section
      behaves as one with enabled false. */
  datatype CaptchaConfig = CaptchaConfig(
    enabled: bool,
    valueEnvKey: Option<string>, keyEnvKey: Option<string>, rsIdEnvKey: Option<string>,
    url: Option<string>, verb: Option<string>, headers: Option<Value>, params: Option<Value>,
    retries: Option<int>,
    imageField: Option<string>, keyField: Option<string>, rsIdField: Option<string>)

  /** A recognised or supplied captcha; VNull stands for Python None in key and rsId. */
  datatype CaptchaResult = CaptchaResult(value: string, key: Value, rsId: Value, image: Option<seq<bv8>>)

  datatype CaptchaRun = CaptchaRun(result: Result<Option<CaptchaResult>, Error>, calls: nat)

  predicate TruthyStr(o: Option<string>) {
    o.Some? && o.value != ""
  }

  function OptionalValue(o: Option<string>): Value {
    match o case Some(s) => VStr(s) case None => VNull
  }

  /** `os.getenv(k) if k else None`. */
  function EnvIfConfigured(env: Environment, k: Option<string>): Option<string> {
    if TruthyStr(k) then GetEnv(env, k.value) else None
  }

  function CaptchaRequest(cfg: CaptchaConfig, env: Environment): Request
    requires cfg.url.Some?
  {
    Request(cfg.verb.GetOr("GET"), cfg.url.value,
            DeepInjectEnv(cfg.headers.GetOr(VDict([])), env),
            DeepInjectEnv(cfg.params.GetOr(VDict([])), env), VNull)
  }

  /** From a delivered captcha response to the result: image field required, base64-decoded,
      recognised by `ocr`. `b64decode` yields None where base64.b64decode raises. */
  function CaptchaFromResponse(cfg: CaptchaConfig, resp: Response,
                               b64decode: string -> Option<seq<bv8>>, ocr: seq<bv8> -> string)
    : Result<Option<CaptchaResult>, Error>
  {
    if resp.json.None? then Err(JsonDecodeError)
    else if !resp.json.value.VDict? then Err(AttributeError(NoGetMethod))
    else
      var payload := resp.json.value.entries;
      var raw := Get(payload, cfg.imageField.GetOr("randomCodeImage")).GetOr(VStr(""));
      if !Truthy(raw) then Err(ValueError(CaptchaImageMissing))
      else if !raw.VStr? then Err(TypeError(NotAString))
      else match b64decode(Base64Text(raw.s))
        case None => Err(Base64Error)
        case Some(image) =>
          Ok(Some(CaptchaResult(ocr(image),
                                Get(payload, cfg.keyField.GetOr("captchaKey")).GetOr(VNull),
                                Get(payload, cfg.rsIdField.GetOr("_rs_id")).GetOr(VNull),
                                Some(image))))
  }

  /** _fetch_captcha; its decision order is stated by CaptchaDecisions. */
  function FetchCaptcha(cfg: CaptchaConfig, env: Environment, server: Server, n: nat,
                        b64decode: string -> Option<seq<bv8>>, ocr: seq<bv8> -> string): CaptchaRun
  {
    if !cfg.enabled then CaptchaRun(Ok(None), 0)
    else
      var envValue := EnvIfConfigured(env, cfg.valueEnvKey);
      if TruthyStr(envValue) then
        CaptchaRun(Ok(Some(CaptchaResult(envValue.value,
                                         OptionalValue(EnvIfConfigured(env, cfg.keyEnvKey)),
                                         OptionalValue(EnvIfConfigured(env, cfg.rsIdEnvKey)), None))), 0)
      else if !TruthyStr(cfg.url) then CaptchaRun(Err(ValueError(CaptchaUrlMissing)), 0)
      else
        var run := Retry(server, n, CaptchaRequest(cfg, env), cfg.retries.GetOr(1), false);
        match Returned(run, TypeError(RaiseNone))
        case Err(e) => CaptchaRun(Err(e), Calls(run))
        case Ok(resp) => CaptchaRun(CaptchaFromResponse(cfg, resp, b64decode, ocr), Calls(run))
  }

  /** What a retry loop without a response raises: its last error, or TypeError when no
      attempt was made. */
  function LastError(run: RetryRun): Error {
    if run.errors == [] then TypeError(RaiseNone) else run.errors[|run.errors| - 1]
  }

  /** How the captcha result follows a delivered response: a body that is not JSON raises
      JSONDecodeError and one that is not an object AttributeError; with `raw` the image
      field (default ""), a falsy `raw` is ValueError, a non-string one TypeError, text that
      does not decode Base64Error; otherwise the result holds the decoded image, the text
      `ocr` reads from it, and the payload's key and rs_id fields (None when absent). */
  predicate ImageDecisions(cfg: CaptchaConfig, resp: Response, b64decode: string -> Option<seq<bv8>>,
                           ocr: seq<bv8> -> string, result: Result<Option<CaptchaResult>, Error>) {
    match resp.json
    case None => result == Err(JsonDecodeError)
    case Some(body) =>
      if !body.VDict? then result == Err(AttributeError(NoGetMethod))
      else
        var raw := Get(body.entries, cfg.imageField.GetOr("randomCodeImage")).GetOr(VStr(""));
        if !Truthy(raw) then result == Err(ValueError(CaptchaImageMissing))
        else if !raw.VStr? then result == Err(TypeError(NotAString))
        else
          var image := b64decode(Base64Text(raw.s));
          && (image.None? ==> result == Err(Base64Error))
          && (image.Some? ==>
                result == Ok(Some(CaptchaResult(ocr(image.value),
                                                Get(body.entries, cfg.keyField.GetOr("captchaKey")).GetOr(VNull),
                                                Get(body.entries, cfg.rsIdField.GetOr("_rs_id")).GetOr(VNull),
                                                image))))
  }

  /** The decision order: disabled gives None; a set override value gives a result without
      any request; otherwise a missing url is an error before any request, and after up to
      `retries` calls a response without the image field is an error, while a success
      carries the image and the text recognised from it. */
  lemma CaptchaDecisions(cfg: CaptchaConfig, env: Environment, server: Server, n: nat,
                         b64decode: string -> Option<seq<bv8>>, ocr: seq<bv8> -> string)
    ensures var r := FetchCaptcha(cfg, env, server, n, b64decode, ocr);
      var envValue := EnvIfConfigured(env, cfg.valueEnvKey);
      && r.calls <= Max0(cfg.retries.GetOr(1))
      && (!cfg.enabled ==> r == CaptchaRun(Ok(None), 0))
      && (cfg.enabled && TruthyStr(envValue) ==>
            r == CaptchaRun(Ok(Some(CaptchaResult(envValue.value,
                                                  OptionalValue(EnvIfConfigured(env, cfg.keyEnvKey)),
                                                  OptionalValue(EnvIfConfigured(env, cfg.rsIdEnvKey)), None))), 0))
      && (cfg.enabled && !TruthyStr(envValue) && !TruthyStr(cfg.url) ==>
            r == CaptchaRun(Err(ValueError(CaptchaUrlMissing)), 0))
      && (cfg.enabled && !TruthyStr(envValue) && TruthyStr(cfg.url) ==>
            var run := Retry(server, n, CaptchaRequest(cfg, env), cfg.retries.GetOr(1), false);
            && r.calls == Calls(run)
            && (run.response.None? ==> r.result == Err(LastError(run)))
            && (run.response.Some? ==> ImageDecisions(cfg, run.response.value, b64decode, ocr, r.result))
            && (r.result.Ok? ==> r.result.value.Some? && r.result.value.value.image.Some? &&
                                 r.result.value.value.value == ocr(r.result.value.value.image.value)))
  {
    if cfg.enabled && !TruthyStr(EnvIfConfigured(env, cfg.valueEnvKey)) && TruthyStr(cfg.url) {
      RetryShape(server, n, CaptchaRequest(cfg, env), cfg.retries.GetOr(1), false);
    }
  }

  // ---------------------------------------------------------------------------
  // login_and_refresh_auth: assembling the login request
  // ---------------------------------------------------------------------------

  /** The login section; a field is None when its key is absent. */
  datatype LoginConfig = LoginConfig(
    url: Option<string>, verb: Option<string>, headers: Option<Value>,
    paramsTemplate: Option<Entries>, payloadTemplate: Option<Entries>,
    captchaField: Option<string>, captchaKeyField: Option<string>,
    rsIdParam: Option<string>, randomCodeParam: Option<string>,
    passwordHash: Option<string>, retries: Option<int>)

  datatype LoginBody = LoginBody(params: Entries, payload: Entries)

  /** Captcha value into the payload and the query, key and rs_id where present. */
  function WithCaptcha(conf: LoginConfig, c: CaptchaResult, body: LoginBody): LoginBody {
    var p1 := Set(body.payload, conf.captchaField.GetOr("captcha"), VStr(c.value));
    var p2 := if TruthyStr(conf.captchaKeyField) && Truthy(c.key)
              then Set(p1, conf.captchaKeyField.value, c.key) else p1;
    var q1 := if Truthy(c.rsId) then Set(body.params, conf.rsIdParam.GetOr("_rs_id"), c.rsId)
              else body.params;
    var q2 := Set(q1, conf.randomCodeParam.GetOr("_randomCode_"), VStr(c.value));
    LoginBody(q2, p2)
  }

  /** `payload["password"] = md5_hex(str(payload["password"]))` when configured. */
  function HashPassword(conf: LoginConfig, payload: Entries, md5Hex: string -> string,
                        strOf: Value -> string): Entries {
    if conf.passwordHash == Some("md5") && "password" in Keys(payload)
    then Set(payload, "password", VStr(md5Hex(strOf(Get(payload, "password").value))))
    else payload
  }

  function AssembleLogin(conf: LoginConfig, captcha: Option<CaptchaResult>, env: Environment,
                         md5Hex: string -> string, strOf: Value -> string): LoginBody {
    var injected := LoginBody(InjectEntries(conf.paramsTemplate.GetOr([]), env),
                              InjectEntries(conf.payloadTemplate.GetOr([]), env));
    var withCaptcha := match captcha case None => injected case Some(c) => WithCaptcha(conf, c, injected);
    LoginBody(withCaptcha.params, HashPassword(conf, withCaptcha.payload, md5Hex, strOf))
  }

  /** Without a captcha the injected templates are sent as they are, apart from hashing. */
  lemma AssembleWithoutCaptcha(conf: LoginConfig, env: Environment, md5Hex: string -> string,
                               strOf: Value -> string)
    ensures var b := AssembleLogin(conf, None, env, md5Hex, strOf);
      && b.params == InjectEntries(conf.paramsTemplate.GetOr([]), env)
      && b.payload == HashPassword(conf, InjectEntries(conf.payloadTemplate.GetOr([]), env), md5Hex, strOf)
  {
  }

  /** The query gets the captcha value under random_code_param, rs_id under rs_id_param
      exactly when rs_id is truthy, and keeps every other parameter. */
  lemma {:induction false} CaptchaQuery(conf: LoginConfig, c: CaptchaResult, body: LoginBody, k: string)
    ensures var rc := conf.randomCodeParam.GetOr("_randomCode_");
      var rs := conf.rsIdParam.GetOr("_rs_id");
      var q := WithCaptcha(conf, c, body).params;
      && Get(q, rc) == Some(VStr(c.value))
      && (k == rs && k != rc ==> Get(q, k) == if Truthy(c.rsId) then Some(c.rsId) else Get(body.params, k))
      && (k != rs && k != rc ==> Get(q, k) == Get(body.params, k))
  {
    var rc := conf.randomCodeParam.GetOr("_randomCode_");
    var rs := conf.rsIdParam.GetOr("_rs_id");
    var q1 := if Truthy(c.rsId) then Set(body.params, rs, c.rsId) else body.params;
    SetGet(q1, rc, VStr(c.value));
    if Truthy(c.rsId) {
      SetGet(body.params, rs, c.rsId);
    }
    if k != rc {
      SetOther(q1, rc, VStr(c.value), k);
      if Truthy(c.rsId) && k != rs {
        SetOther(body.params, rs, c.rsId, k);
      }
    }
  }

  /** The payload gets the captcha value under captcha_field, the captcha key under
      captcha_key_field exactly when both are truthy, and keeps every other field. */
  lemma {:induction false} CaptchaPayload(conf: LoginConfig, c: CaptchaResult, body: LoginBody, k: string)
    ensures var cf := conf.captchaField.GetOr("captcha");
      var keyed := TruthyStr(conf.captchaKeyField) && Truthy(c.key);
      var p := WithCaptcha(conf, c, body).payload;
      && (!(keyed && conf.captchaKeyField.value == cf) ==> Get(p, cf) == Some(VStr(c.value)))
      && (keyed ==> Get(p, conf.captchaKeyField.value) == Some(c.key))
      && (k != cf && (keyed ==> k != conf.captchaKeyField.value) ==> Get(p, k) == Get(body.payload, k))
      && (k != cf && !keyed ==> Get(p, k) == Get(body.payload, k))
  {
    var cf := conf.captchaField.GetOr("captcha");
    var keyed := TruthyStr(conf.captchaKeyField) && Truthy(c.key);
    var p1 := Set(body.payload, cf, VStr(c.value));
    SetGet(body.payload, cf, VStr(c.value));
    if keyed {
      SetGet(p1, conf.captchaKeyField.value, c.key);
      if conf.captchaKeyField.value != cf {
        SetOther(p1, conf.captchaKeyField.value, c.key, cf);
      }
      if k != conf.captchaKeyField.value {
        SetOther(p1, conf.captchaKeyField.value, c.key, k);
      }
    }
    if k != cf {
      SetOther(body.payload, cf, VStr(c.value), k);
    }
  }

  /** The password is replaced by its digest exactly when password_hash is "md5" and the
      payload has a password; nothing else changes. */
  lemma HashPasswordFacts(conf: LoginConfig, payload: Entries, md5Hex: string -> string,
                          strOf: Value -> string, k: string)
    ensures var r := HashPassword(conf, payload, md5Hex, strOf);
      && Keys(r) == Keys(payload)
      && (conf.passwordHash == Some("md5") && "password" in Keys(payload) ==>
            Get(r, "password") == Some(VStr(md5Hex(strOf(Get(payload, "password").value)))))
      && (!(conf.passwordHash == Some("md5") && "password" in Keys(payload)) ==> r == payload)
      && (k != "password" ==> Get(r, k) == Get(payload, k))
  {
    if conf.passwordHash == Some("md5") && "password" in Keys(payload) {
      var v := VStr(md5Hex(strOf(Get(payload, "password").value)));
      SetKeys(payload, "password", v);
      SetGet(payload, "password", v);
      if k != "password" {
        SetOther(payload, "password", v, k);
      }
    }
  }

  // ---------------------------------------------------------------------------
  // _build_cookie_string
  // ---------------------------------------------------------------------------

  /** The session's cookies, as the name/value dict requests builds from the jar. */
  function CookieString(cookies: seq<(string, string)>): string {
    Join(Utils.Render(cookies), "; ")
  }

  function Lift(cookies: seq<(string, string)>): (r: Utils.CookiePairs)
    ensures |r| == |cookies|
  {
    seq(|cookies|, i requires 0 <= i < |cookies| => (cookies[i].0, Some(cookies[i].1)))
  }

  /** The login's cookie string is utils.build_cookie_header with no preferred keys. */
  lemma CookieStringIsHeader(cookies: seq<(string, string)>)
    ensures CookieString(cookies) == Join(Utils.Render(Utils.CookieEntries(Lift(cookies), [])), "; ")
  {
    var pairs := Lift(cookies);
    assert Utils.PreferredEntries(pairs, []) == [];
    assert Utils.UsedKeys(pairs, []) == {};
    TailOfLift(cookies);
    assert Utils.CookieEntries(pairs, []) == [] + Utils.TailEntries(pairs, {});
    assert [] + cookies == cookies;
  }

  lemma {:induction false} TailOfLift(cookies: seq<(string, string)>)
    ensures Utils.TailEntries(Lift(cookies), {}) == cookies
  {
    if cookies != [] {
      var init := cookies[..|cookies| - 1];
      assert Lift(cookies)[..|cookies| - 1] == Lift(init);
      TailOfLift(init);
      assert cookies == init + [cookies[|cookies| - 1]];
    }
  }

  // ---------------------------------------------------------------------------
  // _apply_auth_to_headers
  // ---------------------------------------------------------------------------

  /** ${AUTH_TOKEN} becomes the token, ${COOKIE} the cookie, anything else stays. */
  function RewriteAuthValue(v: Value, token: string, cookie: string): Value {
    if v.VStr? && IsPlaceholder(v.s) then
      if PlaceholderName(v.s) == "AUTH_TOKEN" then VStr(token)
      else if PlaceholderName(v.s) == "COOKIE" then VStr(cookie)
      else v
    else v
  }

  /** The headers after the rewrite: same keys in the same order. */
  function AuthRewritten(es: Entries, token: string, cookie: string): (r: Entries)
    ensures |r| == |es| && forall i :: 0 <= i < |es| ==> r[i].0 == es[i].0
  {
    MapValues(es, v => RewriteAuthValue(v, token, cookie))
  }

  /** Only the two exact placeholders are rewritten. */
  lemma RewriteAuthValueFacts(v: Value, token: string, cookie: string)
    ensures v == VStr("${AUTH_TOKEN}") ==> RewriteAuthValue(v, token, cookie) == VStr(token)
    ensures v == VStr("${COOKIE}") ==> RewriteAuthValue(v, token, cookie) == VStr(cookie)
    ensures v != VStr("${AUTH_TOKEN}") && v != VStr("${COOKIE}") ==> RewriteAuthValue(v, token, cookie) == v
  {
    assert "${AUTH_TOKEN}" == "${" + "AUTH_TOKEN" + "}" && "${COOKIE}" == "${" + "COOKIE" + "}";
    PlaceholderRoundTrip("${AUTH_TOKEN}", "AUTH_TOKEN");
    PlaceholderRoundTrip("${COOKIE}", "COOKIE");
    if v.VStr? && IsPlaceholder(v.s) {
      PlaceholderNamed(v.s, "AUTH_TOKEN");
      PlaceholderNamed(v.s, "COOKIE");
    }
  }

  /** Each header: ${AUTH_TOKEN} becomes the token, ${COOKIE} the cookie, and any other
      value, placeholder or not, is kept. */
  lemma AuthRewrittenAt(es: Entries, token: string, cookie: string, i: nat)
    requires i < |es|
    ensures var r := AuthRewritten(es, token, cookie);
      && r[i].0 == es[i].0
      && (es[i].1 == VStr("${AUTH_TOKEN}") ==> r[i].1 == VStr(token))
      && (es[i].1 == VStr("${COOKIE}") ==> r[i].1 == VStr(cookie))
      && (es[i].1 != VStr("${AUTH_TOKEN}") && es[i].1 != VStr("${COOKIE}") ==> r[i] == es[i])
  {
    RewriteAuthValueFacts(es[i].1, token, cookie);
  }

  /** A mutable headers mapping of an API section. */
  class Headers {
    var entries: Entries

    constructor(es: Entries)
      ensures entries == es
    {
      entries := es;
    }

    /** Rewrites the placeholders in place, key by key. */
    method ApplyAuth(token: string, cookie: string)
      modifies this
      ensures entries == AuthRewritten(old(entries), token, cookie)
    {
      var i := 0;
      while i < |entries|
        invariant 0 <= i <= |entries| && |entries| == |old(entries)|
        invariant entries[..i] == AuthRewritten(old(entries), token, cookie)[..i]
        invariant entries[i..] == old(entries)[i..]
      {
        assert entries[i] == old(entries)[i];
        var (key, value) := entries[i];
        var updated := RewriteAuthValue(value, token, cookie);
        entries := entries[i := (key, updated)];
        assert entries[..i + 1] == AuthRewritten(old(entries), token, cookie)[..i + 1];
        i := i + 1;
      }
      assert entries == AuthRewritten(old(entries), token, cookie);
    }
  }

  // ---------------------------------------------------------------------------
  // login_and_refresh_auth
  // ---------------------------------------------------------------------------

  /** The login_api section; a missing captcha section is one with enabled false, a
      missing login section one with every field absent. */
  datatype LoginApi = LoginApi(enabled: bool, captcha: CaptchaConfig, login: LoginConfig,
                               tokenJsonPath: Option<seq<string>>,
                               tokenEnv: Option<string>, cookieEnv: Option<string>)

  /** What the model takes from outside: base64 decoding, recognition, the digest, str(),
      and the session's cookies after the login exchange. */
  datatype Services = Services(b64decode: string -> Option<seq<bv8>>, ocr: seq<bv8> -> string,
                               md5Hex: string -> string, strOf: Value -> string,
                               cookies: seq<(string, string)>)

  datatype AuthPair = AuthPair(authToken: string, cookie: string)

  datatype LoginRun = LoginRun(result: Result<Option<AuthPair>, Error>, env: Environment, calls: nat)

  function LoginRequest(conf: LoginConfig, body: LoginBody, env: Environment): Request
    requires conf.url.Some?
  {
    Request(conf.verb.GetOr("POST"), conf.url.value,
            DeepInjectEnv(conf.headers.GetOr(VDict([])), env), VDict(body.params), VDict(body.payload))
  }

  function TokenPath(api: LoginApi): seq<string> {
    api.tokenJsonPath.GetOr(["data", "token"])
  }

  /** The token at the configured path; absent or JSON null is an error. */
  function TokenOf(api: LoginApi, resp: Response): Result<Value, Error> {
    if resp.json.None? then Err(JsonDecodeError)
    else match At(resp.json.value, KeySteps(TokenPath(api)))
      case None => Err(ValueError(TokenMissing))
      case Some(t) => if t == VNull then Err(ValueError(TokenMissing)) else Ok(t)
  }

  /** The token is missing exactly when the path leads nowhere or to JSON null; a token
      found is the non-null value at the path. */
  lemma TokenFacts(api: LoginApi, resp: Response)
    ensures var r := TokenOf(api, resp);
      && (r == Err(ValueError(TokenMissing)) <==>
            resp.json.Some? && At(resp.json.value, KeySteps(TokenPath(api))) in {None, Some(VNull)})
      && (r.Ok? ==> resp.json.Some? && r.value != VNull && At(resp.json.value, KeySteps(TokenPath(api))) == Some(r.value))
  {
  }

  function Publish(api: LoginApi, env: Environment, token: string, cookie: string): Environment {
    env[api.tokenEnv.GetOr("AUTH_TOKEN") := token][api.cookieEnv.GetOr("COOKIE") := cookie]
  }

  /** The retried login request of the exchange. */
  function LoginRetry(a: LoginApi, env: Environment, server: Server, n: nat, fx: Services,
                      captcha: Option<CaptchaResult>): RetryRun
    requires a.login.url.Some?
  {
    Retry(server, n, LoginRequest(a.login, AssembleLogin(a.login, captcha, env, fx.md5Hex, fx.strOf), env),
          a.login.retries.GetOr(1), false)
  }

  /** How the login result follows the login run: without a response its last error is
      raised; a body that is not JSON raises JSONDecodeError; a token path leading nowhere
      or to null raises ValueError; otherwise the result holds str() of the value at the
      path and the session's cookie string. */
  predicate FollowsResponse(a: LoginApi, fx: Services, run: RetryRun, result: Result<Option<AuthPair>, Error>) {
    match run.response
    case None => result == Err(LastError(run))
    case Some(resp) =>
      if resp.json.None? then result == Err(JsonDecodeError)
      else match At(resp.json.value, KeySteps(TokenPath(a)))
        case None => result == Err(ValueError(TokenMissing))
        case Some(t) =>
          if t == VNull then result == Err(ValueError(TokenMissing))
          else result == Ok(Some(AuthPair(fx.strOf(t), CookieString(fx.cookies))))
  }

  /** The exchange once the captcha is settled and the url is known: the environment is
      written only on success, with the token and cookie string that are returned. */
  function LoginExchange(a: LoginApi, env: Environment, server: Server, n: nat, fx: Services,
                         captcha: Option<CaptchaResult>): LoginRun
    requires a.login.url.Some?
  {
    var run := LoginRetry(a, env, server, n, fx, captcha);
    match Returned(run, TypeError(RaiseNone))
    case Err(e) => LoginRun(Err(e), env, Calls(run))
    case Ok(resp) =>
      match TokenOf(a, resp)
      case Err(e) => LoginRun(Err(e), env, Calls(run))
      case Ok(t) =>
        var token := fx.strOf(t);
        var cookie := CookieString(fx.cookies);
        LoginRun(Ok(Some(AuthPair(token, cookie))), Publish(a, env, token, cookie), Calls(run))
  }

  /** At most `retries` login calls; the result follows the login response; the environment
      is written only on success, with the token and cookie string that are returned. */
  lemma ExchangeFacts(a: LoginApi, env: Environment, server: Server, n: nat, fx: Services,
                      captcha: Option<CaptchaResult>)
    requires a.login.url.Some?
    ensures var r := LoginExchange(a, env, server, n, fx, captcha);
      && r.calls <= Max0(a.login.retries.GetOr(1))
      && (!(r.result.Ok? && r.result.value.Some?) ==> r.env == env)
      && (r.result.Ok? ==>
            && r.result.value.Some?
            && r.result.value.value.cookie == CookieString(fx.cookies)
            && r.env == Publish(a, env, r.result.value.value.authToken, r.result.value.value.cookie))
      && r.calls == Calls(LoginRetry(a, env, server, n, fx, captcha))
      && FollowsResponse(a, fx, LoginRetry(a, env, server, n, fx, captcha), r.result)
  {
    var req := LoginRequest(a.login, AssembleLogin(a.login, captcha, env, fx.md5Hex, fx.strOf), env);
    RetryShape(server, n, req, a.login.retries.GetOr(1), false);
  }

  /** The whole refresh; LoginFacts states what it guarantees. */
  function LoginSpec(api: Option<LoginApi>, env: Environment, server: Server, n: nat, fx: Services)
    : LoginRun
  {
    if api.None? || !api.value.enabled then LoginRun(Ok(None), env, 0)
    else AfterCaptcha(api.value, env, server, n, fx,
                      FetchCaptcha(api.value.captcha, env, server, n, fx.b64decode, fx.ocr))
  }

  /** What follows _fetch_captcha: its error propagates, then the login url is required. */
  function AfterCaptcha(a: LoginApi, env: Environment, server: Server, n: nat, fx: Services,
                        cap: CaptchaRun): LoginRun
  {
    if cap.result.Err? then LoginRun(Err(cap.result.error), env, cap.calls)
    else if !TruthyStr(a.login.url) then LoginRun(Err(ValueError(LoginUrlMissing)), env, cap.calls)
    else
      var x := LoginExchange(a, env, server, n + cap.calls, fx, cap.result.value);
      LoginRun(x.result, x.env, cap.calls + x.calls)
  }

  /** Disabled means nothing happens; a captcha failure or a missing url stops before the
      login request; the environment changes only on success, and then holds exactly the
      returned token and cookie string under the configured names. */
  lemma LoginFacts(api: Option<LoginApi>, env: Environment, server: Server, n: nat, fx: Services)
    ensures var r := LoginSpec(api, env, server, n, fx);
      && (api.None? || !api.value.enabled ==> r == LoginRun(Ok(None), env, 0))
      && (!(r.result.Ok? && r.result.value.Some?) ==> r.env == env)
      && (r.result.Ok? && r.result.value.Some? ==>
            && api.Some? && api.value.enabled
            && r.result.value.value.cookie == CookieString(fx.cookies)
            && r.env == Publish(api.value, env, r.result.value.value.authToken, r.result.value.value.cookie))
      && (api.Some? && api.value.enabled ==>
            var cap := FetchCaptcha(api.value.captcha, env, server, n, fx.b64decode, fx.ocr);
            && (cap.result.Err? ==> r == LoginRun(Err(cap.result.error), env, cap.calls))
            && (cap.result.Ok? && !TruthyStr(api.value.login.url) ==>
                  r == LoginRun(Err(ValueError(LoginUrlMissing)), env, cap.calls))
            && r.calls <= cap.calls + Max0(api.value.login.retries.GetOr(1))
            && (cap.result.Ok? && TruthyStr(api.value.login.url) ==>
                  var run := LoginRetry(api.value, env, server, n + cap.calls, fx, cap.result.value);
                  r.calls == cap.calls + Calls(run) && FollowsResponse(api.value, fx, run, r.result)))
  {
    if api.Some? && api.value.enabled {
      AfterCaptchaFacts(api.value, env, server, n, fx, FetchCaptcha(api.value.captcha, env, server, n, fx.b64decode, fx.ocr));
    }
  }

  /** What follows the captcha, whatever the captcha step gave. */
  lemma AfterCaptchaFacts(a: LoginApi, env: Environment, server: Server, n: nat, fx: Services, cap: CaptchaRun)
    ensures var r := AfterCaptcha(a, env, server, n, fx, cap);
      && (!(r.result.Ok? && r.result.value.Some?) ==> r.env == env)
      && (r.result.Ok? && r.result.value.Some? ==>
            && r.result.value.value.cookie == CookieString(fx.cookies)
            && r.env == Publish(a, env, r.result.value.value.authToken, r.result.value.value.cookie))
      && (cap.result.Err? ==> r == LoginRun(Err(cap.result.error), env, cap.calls))
      && (cap.result.Ok? && !TruthyStr(a.login.url) ==> r == LoginRun(Err(ValueError(LoginUrlMissing)), env, cap.calls))
      && r.calls <= cap.calls + Max0(a.login.retries.GetOr(1))
      && (cap.result.Ok? && TruthyStr(a.login.url) ==>
            var run := LoginRetry(a, env, server, n + cap.calls, fx, cap.result.value);
            r.calls == cap.calls + Calls(run) && FollowsResponse(a, fx, run, r.result))
  {
    if cap.result.Ok? && TruthyStr(a.login.url) {
      ExchangeFacts(a, env, server, n + cap.calls, fx, cap.result.value);
    }
  }

  /** The headers of an API section after the refresh. */
  function Refreshed(result: Result<Option<AuthPair>, Error>, es: Entries): Entries {
    if result.Ok? && result.value.Some?
    then AuthRewritten(es, result.value.value.authToken, result.value.value.cookie)
    else es
  }

  /** The login request and the token, as login_and_refresh_auth performs them. */
  method Exchange(a: LoginApi, env: Environment, server: Server, n: nat, fx: Services,
                  captcha: Option<CaptchaResult>) returns (x: LoginRun)
    requires a.login.url.Some?
    ensures x == LoginExchange(a, env, server, n, fx, captcha)
  {
    var body := AssembleLogin(a.login, captcha, env, fx.md5Hex, fx.strOf);
    var response, calls := RequestWithRetry(server, n, LoginRequest(a.login, body, env), a.login.retries.GetOr(1));
    if response.Err? {
      return LoginRun(Err(response.error), env, calls);
    }
    var resp := response.value;
    if resp.json.None? {
      return LoginRun(Err(JsonDecodeError), env, calls);
    }
    var token := ExtractJsonPath(resp.json.value, TokenPath(a));
    if token.None? || token.value == VNull {
      return LoginRun(Err(ValueError(TokenMissing)), env, calls);
    }
    var tokenText := fx.strOf(token.value);
    var cookie := CookieString(fx.cookies);
    x := LoginRun(Ok(Some(AuthPair(tokenText, cookie))), Publish(a, env, tokenText, cookie), calls);
  }

  /** _apply_auth_to_headers on a section whose headers may be absent. */
  method RefreshSection(h: Headers?, result: Result<Option<AuthPair>, Error>)
    modifies h
    ensures h != null ==> h.entries == Refreshed(result, old(h.entries))
  {
    if h != null && result.Ok? && result.value.Some? {
      h.ApplyAuth(result.value.value.authToken, result.value.value.cookie);
    }
  }

  method ContinueAfterCaptcha(a: LoginApi, env: Environment, server: Server, n: nat, fx: Services,
                              cap: CaptchaRun) returns (x: LoginRun)
    ensures x == AfterCaptcha(a, env, server, n, fx, cap)
  {
    if cap.result.Err? {
      return LoginRun(Err(cap.result.error), env, cap.calls);
    }
    if !TruthyStr(a.login.url) {
      return LoginRun(Err(ValueError(LoginUrlMissing)), env, cap.calls);
    }
    var y := Exchange(a, env, server, n + cap.calls, fx, cap.result.value);
    AfterCaptchaExchange(a, env, server, n, fx, cap, y);
    x := LoginRun(y.result, y.env, cap.calls + y.calls);
  }

  lemma AfterCaptchaExchange(a: LoginApi, env: Environment, server: Server, n: nat, fx: Services, cap: CaptchaRun,
                             y: LoginRun)
    requires cap.result.Ok? && TruthyStr(a.login.url)
    requires y == LoginExchange(a, env, server, n + cap.calls, fx, cap.result.value)
    ensures AfterCaptcha(a, env, server, n, fx, cap) == LoginRun(y.result, y.env, cap.calls + y.calls)
  {
  }

  /** Performs the refresh: captcha, login request, token, environment, then the headers
      of the list and export sections (null where a section or its headers is absent). */
  method LoginAndRefreshAuth(api: Option<LoginApi>, listHeaders: Headers?, exportHeaders: Headers?,
                             env: Environment, server: Server, n: nat, fx: Services)
    returns (result: Result<Option<AuthPair>, Error>, newEnv: Environment, calls: nat)
    requires listHeaders == null || listHeaders != exportHeaders
    modifies listHeaders, exportHeaders
    ensures LoginRun(result, newEnv, calls) == LoginSpec(api, env, server, n, fx)
    ensures listHeaders != null ==> listHeaders.entries == Refreshed(result, old(listHeaders.entries))
    ensures exportHeaders != null ==> exportHeaders.entries == Refreshed(result, old(exportHeaders.entries))
  {
    if api.None? || !api.value.enabled {
      return Ok(None), env, 0;
    }
    var cap := FetchCaptcha(api.value.captcha, env, server, n, fx.b64decode, fx.ocr);
    var x := ContinueAfterCaptcha(api.value, env, server, n, fx, cap);
    result, newEnv, calls := x.result, x.env, x.calls;
    RefreshSection(listHeaders, result);
    RefreshSection(exportHeaders, result);
  }
}
