/** `buildCompact`: the fixed-shape record the handler derives from an
    arbitrary payload before storing and forwarding it. */
module Normalize {
  import opened Js

  const Source := "tradingview"

  /** The compact signal; every signal field is JSON `null` or a truthy value
      copied from the payload. `recvAt` is the ISO-8601 receipt time. */
  datatype Compact = Compact(
    source: string,
    recvAt: string,
    action: Json,
    signal: Json,
    symbol: Json,
    interval: Json,
    price: Json,
    time: Json)

  /** `payload[k0] || payload[k1] || ... || null`. */
  function Pick(payload: Json, keys: seq<string>): (r: Json)
    ensures r == JNull || Truthy(r)
    ensures r != JNull ==> exists i :: 0 <= i < |keys| && Prop(payload, keys[i]) == Some(r)
    ensures r == JNull <==> forall i :: 0 <= i < |keys| ==> !TruthyOpt(Prop(payload, keys[i]))
  {
    FirstTruthy(Candidates(payload, keys), Truthy).GetOr(JNull)
  }

  /** The values read from the payload under each key, in key order. */
  function Candidates(payload: Json, keys: seq<string>): (c: seq<Option<Json>>)
    ensures |c| == |keys| && forall i :: 0 <= i < |keys| ==> c[i] == Prop(payload, keys[i])
  {
    seq(|keys|, i requires 0 <= i < |keys| => Prop(payload, keys[i]))
  }

  /** A field of the result is `null` or one of the payload's truthy values
      under the keys that feed it. */
  ghost predicate FedBy(f: Json, payload: Json, keys: seq<string>) {
    f == JNull || (Truthy(f) && exists i :: 0 <= i < |keys| && Prop(payload, keys[i]) == Some(f))
  }

  /** `buildCompact(payload)` with the clock reading passed in. Reading a key
      of `null` throws a TypeError in JavaScript: None models that throw, the
      only way this function fails. */
  function BuildCompact(payload: Json, recvAt: string): (r: Option<Compact>)
    ensures r.None? <==> payload == JNull
    ensures r.Some? ==> r.value.source == Source && r.value.recvAt == recvAt
    ensures r.Some? ==>
      && FedBy(r.value.action, payload, ["action", "signal", "type"])
      && FedBy(r.value.signal, payload, ["signal"])
      && FedBy(r.value.symbol, payload, ["ticker", "symbol"])
      && FedBy(r.value.interval, payload, ["interval"])
      && FedBy(r.value.price, payload, ["price", "close"])
      && FedBy(r.value.time, payload, ["time"])
  {
    if payload == JNull then None
    else
      Some(Compact(
        source := Source,
        recvAt := recvAt,
        action := Pick(payload, ["action", "signal", "type"]),
        signal := Pick(payload, ["signal"]),
        symbol := Pick(payload, ["ticker", "symbol"]),
        interval := Pick(payload, ["interval"]),
        price := Pick(payload, ["price", "close"]),
        time := Pick(payload, ["time"])))
  }

  /** Two-key precedence of `a || b || null`. */
  lemma PickTwo(payload: Json, a: string, b: string)
    ensures TruthyOpt(Prop(payload, a)) ==> Pick(payload, [a, b]) == Prop(payload, a).value
    ensures !TruthyOpt(Prop(payload, a)) && TruthyOpt(Prop(payload, b)) ==> Pick(payload, [a, b]) == Prop(payload, b).value
    ensures !TruthyOpt(Prop(payload, a)) && !TruthyOpt(Prop(payload, b)) ==> Pick(payload, [a, b]) == JNull
  {
    var cands := Candidates(payload, [a, b]);
    if TruthyOpt(Prop(payload, a)) {
      FirstTruthyAt(cands, Truthy, 0);
    } else if TruthyOpt(Prop(payload, b)) {
      FirstTruthyAt(cands, Truthy, 1);
    }
  }

  /** `action` is the first truthy of `action`, `signal`, `type`, else null:
      with both `action` and `signal` set, `action` wins. */
  lemma ActionPrecedence(payload: Json, recvAt: string)
    requires payload != JNull
    ensures TruthyOpt(Prop(payload, "action")) ==>
      BuildCompact(payload, recvAt).value.action == Prop(payload, "action").value
    ensures !TruthyOpt(Prop(payload, "action")) && TruthyOpt(Prop(payload, "signal")) ==>
      BuildCompact(payload, recvAt).value.action == Prop(payload, "signal").value
    ensures !TruthyOpt(Prop(payload, "action")) && !TruthyOpt(Prop(payload, "signal")) && TruthyOpt(Prop(payload, "type")) ==>
      BuildCompact(payload, recvAt).value.action == Prop(payload, "type").value
    ensures !TruthyOpt(Prop(payload, "action")) && !TruthyOpt(Prop(payload, "signal")) && !TruthyOpt(Prop(payload, "type")) ==>
      BuildCompact(payload, recvAt).value.action == JNull
  {
    var cands := Candidates(payload, ["action", "signal", "type"]);
    if TruthyOpt(cands[0]) {
      FirstTruthyAt(cands, Truthy, 0);
    } else if TruthyOpt(cands[1]) {
      FirstTruthyAt(cands, Truthy, 1);
    } else if TruthyOpt(cands[2]) {
      FirstTruthyAt(cands, Truthy, 2);
    }
  }

  /** `symbol` prefers `ticker` over `symbol`; `price` prefers `price` over
      `close`; a falsy value (`0`, `""`, `false`, `null`) counts as absent. */
  lemma SymbolAndPricePrecedence(payload: Json, recvAt: string)
    requires payload != JNull
    ensures BuildCompact(payload, recvAt).value.symbol ==
      if TruthyOpt(Prop(payload, "ticker")) then Prop(payload, "ticker").value
      else if TruthyOpt(Prop(payload, "symbol")) then Prop(payload, "symbol").value
      else JNull
    ensures BuildCompact(payload, recvAt).value.price ==
      if TruthyOpt(Prop(payload, "price")) then Prop(payload, "price").value
      else if TruthyOpt(Prop(payload, "close")) then Prop(payload, "close").value
      else JNull
  {
    PickTwo(payload, "ticker", "symbol");
    PickTwo(payload, "price", "close");
  }

  /** `signal`, `interval` and `time` pass through when truthy and are null
      otherwise. */
  lemma PassThrough(payload: Json, recvAt: string)
    requires payload != JNull
    ensures BuildCompact(payload, recvAt).value.signal ==
      if TruthyOpt(Prop(payload, "signal")) then Prop(payload, "signal").value else JNull
    ensures BuildCompact(payload, recvAt).value.interval ==
      if TruthyOpt(Prop(payload, "interval")) then Prop(payload, "interval").value else JNull
    ensures BuildCompact(payload, recvAt).value.time ==
      if TruthyOpt(Prop(payload, "time")) then Prop(payload, "time").value else JNull
  {
  }

  /** A key holding a falsy value normalises exactly as if the key were
      missing. */
  lemma {:induction false} FalsyIsAbsent(fields: map<string, Json>, key: string, v: Json, recvAt: string)
    requires !Truthy(v)
    ensures BuildCompact(JObject(fields[key := v]), recvAt) == BuildCompact(JObject(fields - {key}), recvAt)
  {
    var p, q := JObject(fields[key := v]), JObject(fields - {key});
    forall k ensures TruthyOpt(Prop(p, k)) <==> TruthyOpt(Prop(q, k))
      ensures TruthyOpt(Prop(p, k)) ==> Prop(p, k) == Prop(q, k)
    {
      if k != key {
        assert Prop(p, k) == Prop(q, k);
      }
    }
    PickAgrees(p, q, ["action", "signal", "type"]);
    PickAgrees(p, q, ["signal"]);
    PickAgrees(p, q, ["ticker", "symbol"]);
    PickAgrees(p, q, ["interval"]);
    PickAgrees(p, q, ["price", "close"]);
    PickAgrees(p, q, ["time"]);
  }

  /** Pick depends only on the truthy values under its keys. */
  lemma {:induction false} PickAgrees(p: Json, q: Json, keys: seq<string>)
    requires forall k :: TruthyOpt(Prop(p, k)) <==> TruthyOpt(Prop(q, k))
    requires forall k :: TruthyOpt(Prop(p, k)) ==> Prop(p, k) == Prop(q, k)
    ensures Pick(p, keys) == Pick(q, keys)
  {
    var cp, cq := Candidates(p, keys), Candidates(q, keys);
    var fp := FirstTruthy(cp, Truthy);
    if fp.Some? {
      var i :| 0 <= i < |cp| && cp[i] == fp && forall j :: 0 <= j < i ==> !(cp[j].Some? && Truthy(cp[j].value));
      FirstTruthyAt(cq, Truthy, i);
    }
  }
}
