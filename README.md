# TradingView webhook handler — a Dafny model

This project models the request-decision core of the `/webhook` endpoint in
`api/webhook.js`. The endpoint receives trading-signal notifications,
authenticates them against a shared secret, normalises the payload into a
compact signal, stores a row and optionally forwards the compact signal to a
downstream service. The model covers:

- `buildCompact`: the fixed-shape record built from an arbitrary JSON payload
  with JavaScript `||` fallback chains (module `Normalize`). JSON values,
  JavaScript truthiness and the `a || b || c` chain are in module `Js`.
- `verifyHmac`: the wrapper around an HMAC-SHA256 check (module `Signature`).
  It covers the empty-input guard, the optional `sha256=` prefix, hex decoding
  of both sides, the length check, the byte comparison and the fail-closed
  handling of exceptions.
- The GET row limit `Math.min(100, parseInt(n || '10', 10))`, with
  ECMAScript `parseInt` written out (module `Limit`).
- The handler's decision path (module `Webhook`):
  - method dispatch;
  - payload selection from the captured body or the pre-parsed `req.body`;
  - header selection;
  - the three-strategy secret check with its sequential `valid` flag;
  - the `toInsert` row;
  - the reply, its status and its error string.

  The method `Handle` keeps the handler's locals (`rawBody`, `payload`,
  `valid`) and returns the reply together with the calls it makes to the
  storage and forwarding collaborators (`Effect`).

Library calls are inputs to the model, as function-typed fields of the
`Crypto` and `Services` datatypes:

- the HMAC hex digest;
- `Buffer.from(hex)`, left abstract (its failure case is an over-approximation: Node 18 does not throw here);
- `JSON.parse` and `JSON.stringify`, which may throw;
- the Supabase select.

The clock reading used for `recv_at` is a parameter of `Handle` and
`BuildCompact`.

Where the code's behaviour may surprise a reader, the model follows the code:

- The GET limit is not clamped below 1, and non-numeric `n` yields NaN, not
  the default 10 (`Limit.NonNumericIsNaN`, `Limit.NegativeNotClamped`). A
  repeated `n` is read up to the first comma
  (`Limit.RepeatedQueryReadsFirst`).
- `buildCompact` is not total: on a payload that is JSON `null` (a captured
  body `null`), reading `payload.action` throws. The surrounding `try`
  answers 500 `server_error`, before any row is stored.
- The stored row has no `recv_at`; only the forwarded compact signal has it.

## Model

| member | source | states |
|---|---|---|
| Js.Truthy | api/webhook.js:14-19 | JavaScript truthiness of a JSON value: falsy exactly for `null`, `false`, `0` and `""`; every array and object is truthy |
| Js.FirstTruthy | api/webhook.js:14-18 | the fallback chain yields a candidate that is truthy and every earlier candidate is falsy; it yields nothing exactly when no candidate is truthy |
| Js.FirstTruthyAt | api/webhook.js:14-18 | the first truthy candidate decides the chain, whatever candidates follow it |
| Normalize.Pick | api/webhook.js:14-19 | the fallback chain over the keys, ending in `null`, is `null` or a truthy value found under one of the keys, and is `null` exactly when every key is falsy or missing |
| Normalize.BuildCompact | api/webhook.js:10-20 | fails (TypeError) exactly on a `null` payload; otherwise `source` is "tradingview", `recv_at` is the clock reading, and every field is `null` or a truthy payload value under one of its own keys |
| Normalize.ActionPrecedence | api/webhook.js:14 | `action` is the first truthy of `action`, `signal`, `type`, else `null`; with both `action` and `signal` set, `action` wins |
| Normalize.SymbolAndPricePrecedence | api/webhook.js:16-18 | `symbol` is `ticker` if truthy, else `symbol` if truthy, else `null`; `price` is `price`, else `close`, else `null` |
| Normalize.PassThrough | api/webhook.js:15-19 | `signal`, `interval` and `time` pass through when truthy and are `null` otherwise |
| Normalize.FalsyIsAbsent | api/webhook.js:14-19 | a key holding `0`, `""`, `false` or `null` normalises exactly as if the key were missing |
| Signature.StripSignaturePrefix | api/webhook.js:27 | a header starting with `sha256=` is that prefix followed by the result; any other header is returned unchanged |
| Signature.StripsOnePrefix | api/webhook.js:27 | exactly one leading `sha256=` is removed, even when a second one follows |
| Signature.TimingSafeEqual | api/webhook.js:32 | on equal-length buffers, true exactly when every byte agrees |
| Signature.VerifyHmac | api/webhook.js:23-36 | false whenever the secret, signature or body is empty or missing; true exactly when all three are present, the computed digest (lines 28-29) decodes, and the decoded signature equals the decoded digest |
| Signature.LengthMismatchRejects | api/webhook.js:31 | decoded lengths that differ give false, before the comparison that would throw |
| Signature.UndecodableRejects | api/webhook.js:33-35 | a signature or digest whose decoding fails gives false, never an error (a defensive case: Node 18 decodes any string without throwing) |
| Signature.CorrectSignatureAccepted | api/webhook.js:26-32 | the HMAC of the exact body under the secret is accepted, with the `sha256=` prefix or bare |
| Signature.TamperedBodyRejected | api/webhook.js:28-32 | a body whose decoded digest differs from the signed body's is rejected under the original signature |
| Limit.TrimStart | api/webhook.js:40 | `parseInt`'s whitespace skip: a suffix of the input, everything removed is whitespace, and the rest does not start with whitespace |
| Limit.DigitRun | api/webhook.js:40 | the leading run of decimal digits that `parseInt` reads: all digits, followed by a non-digit or the end |
| Limit.ParseInt | api/webhook.js:40 | NaN exactly when no digit follows the whitespace and the optional sign; a negative result needs a leading `-` |
| Limit.QueryText | api/webhook.js:40 | the `'10'` fallback: a missing or empty `n` becomes "10", any other single value is kept; a repeated `n` is its values joined by commas, starting with the first value and a comma |
| Limit.JoinComma | api/webhook.js:40 | `String(array)`: nothing for no values, the value itself for one, and otherwise the first value, a comma, then the rest joined the same way |
| Limit.Min100 | api/webhook.js:40 | `Math.min(100, x)`: NaN stays NaN; otherwise the result is at most 100 and at most `x`, and is one of them |
| Limit.ListLimit | api/webhook.js:40 | the row limit never exceeds 100, is 10 when `n` is missing or empty, and is NaN exactly when `parseInt` gives NaN |
| Limit.ParseNumeral | api/webhook.js:40 | `parseInt` reads every decimal numeral back to its value |
| Limit.NumericQueryCapped | api/webhook.js:40 | `?n=k` gives `min(100, k)`, so `?n=500` gives 100 |
| Limit.NonNumericIsNaN | api/webhook.js:40 | text that starts with no whitespace, sign or digit (`?n=abc`) gives NaN, not 10 |
| Limit.NegativeNotClamped | api/webhook.js:40 | `?n=-k` gives `-k` for every `k` up to 2^53: there is no lower bound |
| Limit.TrailingTextIgnored | api/webhook.js:40 | text after the leading digits is ignored: `?n=42rows` gives 42 |
| Limit.ParseStopsAtComma | api/webhook.js:40 | `parseInt` of text followed by a comma and anything else equals `parseInt` of the text alone, and is NaN for empty text |
| Limit.RepeatedQueryReadsFirst | api/webhook.js:40 | a repeated `n` (`?n=5&n=7`) gives the limit of its first value alone, and NaN when that first value is empty, since the array is truthy and skips the default |
| Webhook.StatusCode | api/webhook.js:48-144 | over the replies at lines 48, 51, 55, 80, 105, 141 and 144: a reply is 200 exactly for a listing or a saved signal, and 500 exactly for `db_error` and `server_error` |
| Webhook.ErrorCode | api/webhook.js:48-144 | over the replies at lines 48, 51, 55, 80, 105, 141 and 144: a reply carries an error string exactly when its status is not 200 |
| Webhook.HeaderToken | api/webhook.js:91 | the token is absent exactly when neither `x-tv-secret` nor `x-secret` is non-empty; otherwise it is one of those two headers, and non-empty |
| Webhook.HeaderSignature | api/webhook.js:92 | a signature, when present, is non-empty and is one of `x-tv-signature`, `x-signature`, `x-hub-signature` |
| Webhook.TokenPrecedence | api/webhook.js:91 | the token is a non-empty `x-tv-secret`, else a non-empty `x-secret`, else absent |
| Webhook.SignaturePrecedence | api/webhook.js:92 | the signature is the first non-empty of `x-tv-signature`, `x-signature`, `x-hub-signature`, and absent exactly when all three are empty or missing |
| Webhook.ParsedBody | api/webhook.js:74-89 | `invalid_json` exactly when a non-empty captured body fails to parse; a captured body is itself what is signed; otherwise a truthy `req.body` is the payload, and what is signed is its re-serialisation when `JSON.stringify` succeeds and "" exactly when it throws; otherwise the payload is `{}` and "" is signed |
| Webhook.SelectPayload | api/webhook.js:74-89 | the step-by-step selection with the handler's `rawBody` and `payload` locals agrees with `ParsedBody` |
| Webhook.CheckSecret | api/webhook.js:94-104 | the sequentially updated `valid` flag equals the plain disjunction of the signature, token-header and in-body strategies |
| Webhook.Accepts | api/webhook.js:96-103 | an empty secret accepts nothing; an accepted request carries a non-empty signature over a non-empty signed body, or a token equal to the secret, or a `payload.secret` string equal to the secret |
| Webhook.Authorized | api/webhook.js:94-106 | with no secret configured every request passes; with one, a request that passes carries a signature header, a token header or a `secret` field |
| Webhook.AuthorizationCases | api/webhook.js:94-106 | with no secret configured every request passes; with one, a request passes exactly when a signature verifies over a non-empty signed body, or the token is the secret, or `payload.secret` is the secret |
| Webhook.HmacGuardRedundant | api/webhook.js:97-98 | the `headerSig && rawBody` guard before the signature strategy changes nothing, since `verifyHmac` repeats it |
| Webhook.ToRow | api/webhook.js:111-120 | the row copies the compact fields; `raw` is the payload when `STORE_RAW` is exactly "true", and `null` otherwise |
| Webhook.Handle | api/webhook.js:38-146 | GET queries once with `ListLimit(n)` and answers the rows or `db_error`; other methods get 405 with no calls; a POST whose body does not parse gets 400, and one that fails the secret check gets 401, both with no calls; a `null` payload gets 500; otherwise exactly one insert of `ToRow`, then one forward when a URL is set, and the reply carries the compact `symbol` and `action`; no insert or forward happens unless the request was authorized |

## Left out

- Raw-body capture from the request stream (api/webhook.js:60-72) is
  event-driven and timing-dependent. The captured text is an input of
  `Handle` (`Request.capturedBody`, an arbitrary string). It covers the
  empty text when nothing arrived within 25 ms, and a truncated body when
  data had started but the stream had not ended by then.
- The HMAC-SHA256 computation, `Buffer.from(..., 'hex')`, `JSON.parse`,
  `JSON.stringify` and the clock are library calls. They are function-typed
  inputs, and `TimingSafeEqual` is plain byte equality, without the
  constant-time property.
- The Supabase select (api/webhook.js:42-47) is the function-typed input
  `Services.fetchLatest`, whose outcome decides between the listing and
  `db_error`, and is recorded as one `Select` effect. The Supabase insert
  (api/webhook.js:122-125) and the axios POST (api/webhook.js:127-139)
  appear only as `Effect` values, recorded in the order the handler makes
  them. Their outcomes are not inputs, because an insert or forward error is
  logged and dropped and never reaches the reply.
  Row ordering, the content-type header and network timeouts are not
  modelled.
- `console.error` logging is not modelled.
- The JSON response bodies are represented by `Reply` together with
  `StatusCode` and `ErrorCode`.
- Webhook.HeaderToken and Webhook.HeaderSignature: when no alias is truthy,
  JavaScript's `||` yields the last falsy operand (`""` or `undefined`). The
  model yields None, since only the truthiness of these values is ever used.
- Limit.ParseInt: the result is the exact integer. JavaScript rounds
  magnitudes above 2^53 and gives an infinity for numerals longer than about
  309 digits. For positive `n`, `Math.min(100, _)` makes no difference
  visible. For `n` below -2^53 it does: JavaScript passes the rounded value
  or `-Infinity` on to the query, while the model passes the exact integer.
  `-0` is read as 0.
- Signature.Crypto: `fromHex` is an abstract decoder. Node 18
  (api/webhook.js:7) decodes hex without throwing. It stops at the first
  non-hex character or at a trailing odd digit, so a correct digest followed
  by extra text (`sha256=<digest>zz`) is accepted. The model leaves that
  truncation to the abstract `fromHex`, and its None case covers a throw
  that Node never produces.
- Js.Json: an object is a map, so key order and duplicate keys in a body are
  not represented. Strings are sequences of Unicode scalar values, not
  UTF-16 code units. A number literal beyond the range of a double (`1e400`,
  `1e-400`) becomes whatever real the abstract parser maps it to.
- Exceptions inside the try block of api/webhook.js:108-145, other than the
  TypeError on a `null` payload, are not modelled: in this model the storage
  and forwarding calls never throw.
- `scripts/gen_hmac.js` is a command-line wrapper around one HMAC call. It
  reads argv, stdin or a file and calls `process.exit`, and has no logic of
  its own to model.
