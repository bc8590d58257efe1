/** JavaScript values as the webhook handler sees them: JSON documents, the
    truthiness that `if (x)` and `||` test, property reads that yield
    `undefined`, and the `a || b || c` fallback chain. */
module Js {

  datatype Option<+T> = None | Some(value: T) {
    function GetOr(default: T): T {
      match this
      case Some(v) => v
      case None => default
    }
  }

  /** A JSON document (what `JSON.parse` yields and what a framework puts in
      `req.body`). Numbers are reals. A literal out of range (`1e400`,
      `1e-400`) is for the parser to map to some real, and that real then
      decides truthiness; `-0` and `0` behave alike under every test made
      here. */
  datatype Json =
    | JNull
    | JBool(b: bool)
    | JNumber(n: real)
    | JString(s: string)
    | JArray(items: seq<Json>)
    | JObject(fields: map<string, Json>)

  const EmptyObject: Json := JObject(map[])

  /** JavaScript ToBoolean on a JSON value: `null`, `false`, `0` and `""` are
      falsy, every array and object (even an empty one) is truthy. */
  predicate Truthy(v: Json): (r: bool)
    ensures v.JArray? || v.JObject? ==> r
    ensures r <==> v != JNull && v != JBool(false) && v != JNumber(0.0) && v != JString("")
  {
    match v
    case JNull => false
    case JBool(b) => b
    case JNumber(n) => n != 0.0
    case JString(s) => s != ""
    case JArray(_) => true
    case JObject(_) => true
  }

  /** Truthiness of a value that may be `undefined` (None). */
  predicate TruthyOpt(v: Option<Json>) {
    v.Some? && Truthy(v.value)
  }

  /** Truthiness of a string that may be `undefined`: only "" is falsy. */
  predicate NonEmpty(s: string) {
    s != ""
  }

  predicate TruthyStr(s: Option<string>) {
    s.Some? && NonEmpty(s.value)
  }

  /** `v.key` for a value that is not `null`: an own key of an object, and
      `undefined` otherwise (none of the keys read by the handler is a
      property of a string, number, boolean or array). Reading a key of
      `null` throws instead; callers test for `null` first. */
  function Prop(v: Json, key: string): (r: Option<Json>)
    ensures r.Some? <==> v.JObject? && key in v.fields
    ensures r.Some? ==> r.value == v.fields[key]
  {
    if v.JObject? && key in v.fields then Some(v.fields[key]) else None
  }

  /** `c0 || c1 || ... || ck` read up to its last candidate: the first
      candidate that is defined and truthy, and None when there is none
      (callers supply the final `|| null` or use only the truthiness). */
  function FirstTruthy<T(==)>(cands: seq<Option<T>>, truthy: T -> bool): (r: Option<T>)
    ensures r.Some? ==> truthy(r.value)
    ensures r.Some? ==> exists i :: 0 <= i < |cands| && cands[i] == r &&
                                    forall j :: 0 <= j < i ==> !(cands[j].Some? && truthy(cands[j].value))
    ensures r.None? <==> forall i :: 0 <= i < |cands| ==> !(cands[i].Some? && truthy(cands[i].value))
  {
    if cands == [] then None
    else if cands[0].Some? && truthy(cands[0].value) then cands[0]
    else
      var rest := FirstTruthy(cands[1..], truthy);
      assert forall i :: 1 <= i < |cands| ==> cands[i] == cands[1..][i - 1];
      rest
  }

  /** The first truthy candidate decides the chain, whatever follows it. */
  lemma {:induction false} FirstTruthyAt<T>(cands: seq<Option<T>>, truthy: T -> bool, k: nat)
    requires k < |cands| && cands[k].Some? && truthy(cands[k].value)
    requires forall j :: 0 <= j < k ==> !(cands[j].Some? && truthy(cands[j].value))
    ensures FirstTruthy(cands, truthy) == cands[k]
  {
    if k > 0 {
      FirstTruthyAt(cands[1..], truthy, k - 1);
    }
  }

}
