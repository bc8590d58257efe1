/** The decision path of the `/webhook` handler: method dispatch, payload
    selection, header selection, the shared-secret check, the stored row and
    the response. Storage, forwarding and the clock are collaborators whose
    calls appear as effects in the handler's result. */
module Webhook {
  import opened Js
  import opened Signature
  import opened Normalize
  import opened Limit

  /** What the handler reads from the request. `capturedBody` is the text
      collected from the body stream ("" when nothing arrived in time);
      `parsedBody` is `req.body` as a framework may have parsed it (None when
      `undefined`). Header names are lower-case, as Node delivers them. */
  datatype Request = Request(
    httpMethod: string,
    queryN: QueryParam,
    headers: map<string, string>,
    capturedBody: string,
    parsedBody: Option<Json>)

  /** `WEBHOOK_SECRET`, `STORE_RAW` and `VESSEL_URL`; None when unset. */
  datatype Env = Env(
    webhookSecret: Option<string>,
    storeRaw: Option<string>,
    vesselUrl: Option<string>)

  /** Library and storage calls. `parse` is `JSON.parse`, `stringify` is
      `JSON.stringify` (None: it threw), `fetchLatest(n)` is the newest-first
      select of at most `n` rows (None: the store reported an error). */
  datatype Services = Services(
    crypto: Crypto,
    parse: string -> Option<Json>,
    stringify: Json -> Option<string>,
    fetchLatest: Num -> Option<seq<Json>>)

  /** The `toInsert` row: the compact fields without `recv_at`, plus `raw`. */
  datatype Row = Row(
    source: string,
    symbol: Json,
    action: Json,
    signal: Json,
    interval: Json,
    price: Json,
    time: Json,
    raw: Json)

  /** Calls made to collaborators, in order. Their outcomes never reach the
      response: insert and forward errors are logged and dropped. */
  datatype Effect =
    | Select(limit: Num)
    | Insert(row: Row)
    | Forward(url: string, compact: Compact, forwardedBy: string, timeoutMs: nat)

  /** The `x-forwarded-by` header and the timeout of the forwarding POST. */
  const ForwardedBy := "tv-webhook-vercel"
  const ForwardTimeoutMs: nat := 7000

  datatype Reply =
    | Listed(count: int, data: seq<Json>)
    | DbError
    | MethodNotAllowed
    | InvalidJson
    | InvalidSecret
    | Saved(symbol: Json, action: Json)
    | ServerError

  function StatusCode(r: Reply): (code: int)
    ensures code == 200 <==> r.Listed? || r.Saved?
    ensures code == 500 <==> r.DbError? || r.ServerError?
  {
    match r
    case Listed(_, _) => 200
    case Saved(_, _) => 200
    case DbError => 500
    case ServerError => 500
    case MethodNotAllowed => 405
    case InvalidJson => 400
    case InvalidSecret => 401
  }

  /** The `error` string of a failure body; None for a success body. */
  function ErrorCode(r: Reply): (e: Option<string>)
    ensures e.None? <==> StatusCode(r) == 200
  {
    match r
    case Listed(_, _) => None
    case Saved(_, _) => None
    case DbError => Some("db_error")
    case ServerError => Some("server_error")
    case MethodNotAllowed => Some("method_not_allowed")
    case InvalidJson => Some("invalid_json")
    case InvalidSecret => Some("invalid_secret")
  }

  function Header(headers: map<string, string>, name: string): Option<string> {
    if name in headers then Some(headers[name]) else None
  }

  /** `x-tv-secret || x-secret`, kept only when truthy. */
  function HeaderToken(headers: map<string, string>): (r: Option<string>)
    ensures r.Some? ==> NonEmpty(r.value) && (r == Header(headers, "x-tv-secret") || r == Header(headers, "x-secret"))
    ensures r.None? <==> !TruthyStr(Header(headers, "x-tv-secret")) && !TruthyStr(Header(headers, "x-secret"))
  {
    var cands := [Header(headers, "x-tv-secret"), Header(headers, "x-secret")];
    assert cands[0] == Header(headers, "x-tv-secret") && cands[1] == Header(headers, "x-secret");
    FirstTruthy(cands, NonEmpty)
  }

  /** `x-tv-signature || x-signature || x-hub-signature`, kept only when
      truthy. */
  function HeaderSignature(headers: map<string, string>): (r: Option<string>)
    ensures r.Some? ==> (NonEmpty(r.value) &&
      (r == Header(headers, "x-tv-signature") || r == Header(headers, "x-signature") || r == Header(headers, "x-hub-signature")))
  {
    FirstTruthy([Header(headers, "x-tv-signature"), Header(headers, "x-signature"), Header(headers, "x-hub-signature")], NonEmpty)
  }

  /** The token is `x-tv-secret` when that is non-empty, else a non-empty
      `x-secret`, else absent. */
  lemma {:induction false} TokenPrecedence(headers: map<string, string>)
    ensures TruthyStr(Header(headers, "x-tv-secret")) ==> HeaderToken(headers) == Header(headers, "x-tv-secret")
    ensures !TruthyStr(Header(headers, "x-tv-secret")) && TruthyStr(Header(headers, "x-secret")) ==>
      HeaderToken(headers) == Header(headers, "x-secret")
    ensures !TruthyStr(Header(headers, "x-tv-secret")) && !TruthyStr(Header(headers, "x-secret")) ==>
      HeaderToken(headers) == None
  {
    var cands := [Header(headers, "x-tv-secret"), Header(headers, "x-secret")];
    if TruthyStr(cands[0]) {
      FirstTruthyAt(cands, NonEmpty, 0);
    } else if TruthyStr(cands[1]) {
      FirstTruthyAt(cands, NonEmpty, 1);
    }
  }

  /** The signature is the first non-empty of `x-tv-signature`,
      `x-signature`, `x-hub-signature`, and absent when all three are. */
  lemma {:induction false} SignaturePrecedence(headers: map<string, string>)
    ensures TruthyStr(Header(headers, "x-tv-signature")) ==> HeaderSignature(headers) == Header(headers, "x-tv-signature")
    ensures !TruthyStr(Header(headers, "x-tv-signature")) && TruthyStr(Header(headers, "x-signature")) ==>
      HeaderSignature(headers) == Header(headers, "x-signature")
    ensures (!TruthyStr(Header(headers, "x-tv-signature")) && !TruthyStr(Header(headers, "x-signature")) &&
             TruthyStr(Header(headers, "x-hub-signature"))) ==> HeaderSignature(headers) == Header(headers, "x-hub-signature")
    ensures HeaderSignature(headers).None? <==>
      !TruthyStr(Header(headers, "x-tv-signature")) && !TruthyStr(Header(headers, "x-signature")) &&
      !TruthyStr(Header(headers, "x-hub-signature"))
  {
    var cands := [Header(headers, "x-tv-signature"), Header(headers, "x-signature"), Header(headers, "x-hub-signature")];
    if TruthyStr(cands[0]) {
      FirstTruthyAt(cands, NonEmpty, 0);
    } else if TruthyStr(cands[1]) {
      FirstTruthyAt(cands, NonEmpty, 1);
    } else if TruthyStr(cands[2]) {
      FirstTruthyAt(cands, NonEmpty, 2);
    }
  }

  /** The payload and the text that a signature is checked against. */
  datatype Parsed = Parsed(payload: Json, signedBody: string)

  /** Payload selection: a captured body is parsed (None: `invalid_json`);
      otherwise a truthy `req.body` is used and re-serialised for the
      signature check; otherwise the payload is `{}` and nothing is signed. */
  function ParsedBody(captured: string, parsedBody: Option<Json>, svc: Services): (r: Option<Parsed>)
    ensures r.None? <==> captured != "" && svc.parse(captured).None?
    ensures captured != "" && r.Some? ==> r.value.signedBody == captured && svc.parse(captured) == Some(r.value.payload)
    ensures captured == "" && TruthyOpt(parsedBody) ==>
      && r.Some? && r.value.payload == parsedBody.value
      && (svc.stringify(parsedBody.value).Some? ==> r.value.signedBody == svc.stringify(parsedBody.value).value)
      && (svc.stringify(parsedBody.value).None? ==> r.value.signedBody == "")
    ensures captured == "" && !TruthyOpt(parsedBody) ==> r == Some(Parsed(EmptyObject, ""))
  {
    if captured != "" then
      match svc.parse(captured)
      case None => None
      case Some(p) => Some(Parsed(p, captured))
    else if TruthyOpt(parsedBody) then
      Some(Parsed(parsedBody.value, svc.stringify(parsedBody.value).GetOr("")))
    else
      Some(Parsed(EmptyObject, ""))
  }

  predicate SecretConfigured(env: Env) {
    TruthyStr(env.webhookSecret)
  }

  /** Strategy 1: a signature header over a non-empty signed body. */
  predicate HmacStrategy(c: Crypto, secret: string, sig: Option<string>, signedBody: string) {
    sig.Some? && signedBody != "" && VerifyHmac(c, Some(signedBody), Some(secret), sig)
  }

  /** Strategy 2: the token header equals the secret. */
  predicate TokenStrategy(secret: string, token: Option<string>) {
    TruthyStr(token) && token.value == secret
  }

  /** Strategy 3: the payload's `secret` field is the secret, as a string. */
  predicate BodySecretStrategy(secret: string, payload: Json) {
    Truthy(payload) && TruthyOpt(Prop(payload, "secret")) && Prop(payload, "secret") == Some(JString(secret))
  }

  /** A configured secret is satisfied by any one of the three strategies. */
  predicate Accepts(c: Crypto, secret: string, sig: Option<string>, token: Option<string>, p: Parsed): (r: bool)
    ensures secret == "" ==> !r
    ensures r ==>
      || (TruthyStr(sig) && p.signedBody != "")
      || token == Some(secret)
      || Prop(p.payload, "secret") == Some(JString(secret))
  {
    HmacStrategy(c, secret, sig, p.signedBody) || TokenStrategy(secret, token) || BodySecretStrategy(secret, p.payload)
  }

  /** Whether the request gets past the secret check. */
  predicate Authorized(env: Env, svc: Services, headers: map<string, string>, p: Parsed): (r: bool)
    ensures !SecretConfigured(env) ==> r
    ensures SecretConfigured(env) && r ==>
      HeaderSignature(headers).Some? || HeaderToken(headers).Some? || Prop(p.payload, "secret").Some?
  {
    !SecretConfigured(env) ||
    Accepts(svc.crypto, env.webhookSecret.value, HeaderSignature(headers), HeaderToken(headers), p)
  }

  /** With a secret configured, a request passes exactly when a signature
      header verifies over a non-empty signed body, or the token header is
      the secret, or the payload's `secret` field is the secret; with none
      configured, every request passes. */
  lemma AuthorizationCases(env: Env, svc: Services, headers: map<string, string>, p: Parsed)
    ensures !SecretConfigured(env) ==> Authorized(env, svc, headers, p)
    ensures SecretConfigured(env) ==>
      (Authorized(env, svc, headers, p) <==>
        || (HeaderSignature(headers).Some? && p.signedBody != "" &&
            VerifyHmac(svc.crypto, Some(p.signedBody), env.webhookSecret, HeaderSignature(headers)))
        || HeaderToken(headers) == env.webhookSecret
        || Prop(p.payload, "secret") == Some(JString(env.webhookSecret.value)))
  {
  }

  /** The `headerSig && rawBody` guard before the signature strategy only
      repeats the guard inside `verifyHmac`. */
  lemma HmacGuardRedundant(c: Crypto, secret: string, sig: Option<string>, signedBody: string)
    ensures HmacStrategy(c, secret, sig, signedBody) <==> VerifyHmac(c, Some(signedBody), Some(secret), sig)
  {
  }

  /** `toInsert`: the compact fields, and the payload under `raw` exactly when
      `STORE_RAW` is the string "true". */
  function ToRow(c: Compact, payload: Json, storeRaw: Option<string>): (r: Row)
    ensures r.source == c.source && r.symbol == c.symbol && r.action == c.action && r.signal == c.signal
    ensures r.interval == c.interval && r.price == c.price && r.time == c.time
    ensures storeRaw == Some("true") ==> r.raw == payload
    ensures storeRaw != Some("true") ==> r.raw == JNull
  {
    Row(c.source, c.symbol, c.action, c.signal, c.interval, c.price, c.time,
        if storeRaw == Some("true") then payload else JNull)
  }

  /** Payload selection with the handler's own locals: `rawBody` starts as
      the captured text and is replaced by the re-serialised `req.body` on the
      fallback path; `payload` starts as `{}`. `ok` is false when the captured
      text is not JSON. */
  method SelectPayload(captured: string, parsedBody: Option<Json>, svc: Services)
    returns (ok: bool, payload: Json, rawBody: string)
    ensures ok <==> ParsedBody(captured, parsedBody, svc).Some?
    ensures ok ==> ParsedBody(captured, parsedBody, svc).value == Parsed(payload, rawBody)
  {
    rawBody := captured;
    payload := EmptyObject;
    if rawBody != "" {
      var parsed := svc.parse(rawBody);
      if parsed.None? {
        return false, payload, rawBody;
      }
      payload := parsed.value;
    } else if TruthyOpt(parsedBody) {
      payload := parsedBody.value;
      var text := svc.stringify(parsedBody.value);
      if text.Some? {
        rawBody := text.value;
      } else {
        rawBody := "";
      }
    }
    ok := true;
  }

  /** The secret check as the handler runs it: a `valid` flag set by the
      signature, then (if still false) the token header, then (if still
      false) the payload's `secret` field. The result is the plain
      disjunction of the three strategies. */
  method CheckSecret(c: Crypto, secret: string, headerSig: Option<string>, headerToken: Option<string>,
                     rawBody: string, payload: Json) returns (valid: bool)
    ensures valid <==> Accepts(c, secret, headerSig, headerToken, Parsed(payload, rawBody))
  {
    valid := false;
    if headerSig.Some? && rawBody != "" {
      valid := VerifyHmac(c, Some(rawBody), Some(secret), headerSig);
    }
    if !valid && TruthyStr(headerToken) && headerToken.value == secret {
      valid := true;
    }
    if !valid && Truthy(payload) && TruthyOpt(Prop(payload, "secret")) && Prop(payload, "secret") == Some(JString(secret)) {
      valid := true;
    }
  }

  /** One request through the handler. `now` is the clock reading that
      `recv_at` records. */
  method Handle(req: Request, env: Env, svc: Services, now: string) returns (reply: Reply, effects: seq<Effect>)
    ensures req.httpMethod != "GET" && req.httpMethod != "POST" ==> reply == MethodNotAllowed && effects == []
    ensures req.httpMethod == "GET" ==>
      && effects == [Select(ListLimit(req.queryN))]
      && reply == match svc.fetchLatest(ListLimit(req.queryN))
                  case Some(rows) => Listed(|rows|, rows)
                  case None => DbError
    ensures req.httpMethod == "POST" && ParsedBody(req.capturedBody, req.parsedBody, svc).None? ==>
      reply == InvalidJson && effects == []
    ensures req.httpMethod == "POST" && ParsedBody(req.capturedBody, req.parsedBody, svc).Some? ==>
      var p := ParsedBody(req.capturedBody, req.parsedBody, svc).value;
      && (!Authorized(env, svc, req.headers, p) ==> reply == InvalidSecret && effects == [])
      && (Authorized(env, svc, req.headers, p) && p.payload == JNull ==> reply == ServerError && effects == [])
      && (Authorized(env, svc, req.headers, p) && p.payload != JNull ==>
            var c := BuildCompact(p.payload, now).value;
            && reply == Saved(c.symbol, c.action)
            && effects == [Insert(ToRow(c, p.payload, env.storeRaw))] + (if TruthyStr(env.vesselUrl) then [Forward(env.vesselUrl.value, c, ForwardedBy, ForwardTimeoutMs)] else []))
    // Without a configured secret, every POST whose body parsed to a non-null payload is saved.
    ensures (req.httpMethod == "POST" && !SecretConfigured(env) && ParsedBody(req.capturedBody, req.parsedBody, svc).Some? &&
             ParsedBody(req.capturedBody, req.parsedBody, svc).value.payload != JNull) ==> reply.Saved?
    // Nothing is stored or forwarded for a request that fails the secret check.
    ensures (exists e :: e in effects && !e.Select?) ==>
      && req.httpMethod == "POST"
      && ParsedBody(req.capturedBody, req.parsedBody, svc).Some?
      && Authorized(env, svc, req.headers, ParsedBody(req.capturedBody, req.parsedBody, svc).value)
  {
    if req.httpMethod == "GET" {
      var n := ListLimit(req.queryN);
      effects := [Select(n)];
      match svc.fetchLatest(n) {
        case Some(rows) => reply := Listed(|rows|, rows);
        case None => reply := DbError;
      }
      return;
    }
    if req.httpMethod != "POST" {
      return MethodNotAllowed, [];
    }

    var parsedOk, payload, rawBody := SelectPayload(req.capturedBody, req.parsedBody, svc);
    if !parsedOk {
      return InvalidJson, [];
    }
    ghost var parsed := Parsed(payload, rawBody);
    assert ParsedBody(req.capturedBody, req.parsedBody, svc) == Some(parsed);

    var headerToken := HeaderToken(req.headers);
    var headerSig := HeaderSignature(req.headers);

    if SecretConfigured(env) {
      var valid := CheckSecret(svc.crypto, env.webhookSecret.value, headerSig, headerToken, rawBody, payload);
      assert valid == Authorized(env, svc, req.headers, parsed);
      if !valid {
        return InvalidSecret, [];
      }
    }
    assert Authorized(env, svc, req.headers, parsed);

    match BuildCompact(payload, now)
    case None =>
      // reading a field of a `null` payload throws; the catch answers 500
      return ServerError, [];
    case Some(compact) =>
      var toInsert := ToRow(compact, payload, env.storeRaw);
      effects := [Insert(toInsert)];
      if TruthyStr(env.vesselUrl) {
        effects := effects + [Forward(env.vesselUrl.value, compact, ForwardedBy, ForwardTimeoutMs)];
      }
      reply := Saved(compact.symbol, compact.action);
  }
}
