/** The row count of `GET /webhook?n=...`:
    `Math.min(100, parseInt(req.query.n || '10', 10))`, as written: no lower
    bound, and NaN for input without leading digits. */
module Limit {

  /** A JavaScript number as `parseInt` and `Math.min` produce it here:
      NaN or an integer (`-0` is read as 0). */
  datatype Num = NaN | Finite(value: int)

  /** `req.query.n`: absent, one value, or several values when the key is
      repeated in the query string. */
  datatype QueryParam = Missing | One(s: string) | Many(items: seq<string>)

  /** The characters `parseInt` skips before the number: ECMAScript
      WhiteSpace (including every space separator) and LineTerminator. */
  predicate IsJsWhitespace(c: char) {
    || c == '\t' || c == '\n' || c == '\U{000B}' || c == '\U{000C}' || c == '\r'
    || c == ' ' || c == '\U{00A0}' || c == '\U{1680}'
    || ('\U{2000}' <= c <= '\U{200A}')
    || c == '\U{2028}' || c == '\U{2029}' || c == '\U{202F}' || c == '\U{205F}'
    || c == '\U{3000}' || c == '\U{FEFF}'
  }

  predicate IsDigit(c: char) {
    '0' as int <= c as int <= '9' as int
  }

  /** Leading whitespace removed. */
  function TrimStart(s: string): (r: string)
    ensures |r| <= |s| && r == s[|s| - |r|..]
    ensures forall i :: 0 <= i < |s| - |r| ==> IsJsWhitespace(s[i])
    ensures r != "" ==> !IsJsWhitespace(r[0])
  {
    if s != "" && IsJsWhitespace(s[0]) then TrimStart(s[1..]) else s
  }

  /** Length of the leading run of decimal digits. */
  function DigitRun(s: string): (r: nat)
    ensures r <= |s|
    ensures forall i :: 0 <= i < r ==> IsDigit(s[i])
    ensures r < |s| ==> !IsDigit(s[r])
  {
    if s != "" && IsDigit(s[0]) then 1 + DigitRun(s[1..]) else 0
  }

  /** The leading run of decimal digits itself. */
  function LeadingDigits(u: string): (z: string)
    ensures |z| == DigitRun(u) && z == u[..|z|]
    ensures forall i :: 0 <= i < |z| ==> IsDigit(z[i])
  {
    u[..DigitRun(u)]
  }

  /** Value of a string of decimal digits, most significant first. */
  function DigitsValue(d: string): nat
    requires forall i :: 0 <= i < |d| ==> IsDigit(d[i])
  {
    if d == "" then 0
    else
      assert IsDigit(d[|d| - 1]);
      DigitsValue(d[..|d| - 1]) * 10 + (d[|d| - 1] as int - '0' as int)
  }

  /** The text after one optional leading sign. */
  function Unsigned(t: string): (r: string)
    ensures r == t || (t != "" && (t[0] == '+' || t[0] == '-') && r == t[1..])
  {
    if t != "" && (t[0] == '+' || t[0] == '-') then t[1..] else t
  }

  /** `parseInt(s, 10)`: skip whitespace, take one optional sign, read the
      longest run of decimal digits; NaN when that run is empty. The value
      is exact: JavaScript rounds magnitudes beyond 2^53 and gives an
      infinity for very long numerals. `Math.min(100, _)` hides that for
      positive values, but not for values below -2^53. */
  function ParseInt(s: string): (r: Num)
    ensures r.NaN? <==> DigitRun(Unsigned(TrimStart(s))) == 0
    ensures r.Finite? && r.value < 0 ==> TrimStart(s) != "" && TrimStart(s)[0] == '-'
  {
    var t := TrimStart(s);
    var z := LeadingDigits(Unsigned(t));
    if z == "" then NaN
    else
      var magnitude: int := DigitsValue(z);
      Finite(if t != "" && t[0] == '-' then -magnitude else magnitude)
  }

  /** `String(v)` for the query value after `|| '10'`: an empty or missing
      value becomes "10", an array is joined with commas. */
  function QueryText(q: QueryParam): (r: string)
    ensures q.Missing? || q == One("") ==> r == "10"
    ensures q.One? && q.s != "" ==> r == q.s
    ensures q == Many([]) ==> r == ""
    ensures q.Many? && |q.items| == 1 ==> r == q.items[0]
    ensures q.Many? && |q.items| >= 2 ==> q.items[0] + "," <= r
  {
    match q
    case Missing => "10"
    case One(s) => if s == "" then "10" else s
    case Many(items) => JoinComma(items)
  }

  /** `Array.prototype.join(',')` on the values of a repeated parameter: the
      first value, then a comma before each further value. */
  function JoinComma(items: seq<string>): (r: string)
    ensures |items| == 0 ==> r == ""
    ensures |items| == 1 ==> r == items[0]
    ensures |items| >= 2 ==> items[0] + "," <= r
    ensures |items| >= 2 ==> r[|items[0]| + 1..] == JoinComma(items[1..])
  {
    if |items| == 0 then ""
    else if |items| == 1 then items[0]
    else items[0] + "," + JoinComma(items[1..])
  }

  /** `Math.min(100, x)`: NaN stays NaN. */
  function Min100(x: Num): (r: Num)
    ensures r.NaN? <==> x.NaN?
    ensures r.Finite? ==> r.value <= 100 && r.value <= x.value && (r.value == 100 || r.value == x.value)
  {
    match x
    case NaN => NaN
    case Finite(v) => Finite(if v < 100 then v else 100)
  }

  /** The `limit(n)` argument of the GET query. */
  function ListLimit(q: QueryParam): (r: Num)
    ensures r.Finite? ==> r.value <= 100
    ensures q.Missing? ==> r == Finite(10)
    ensures q == One("") ==> r == Finite(10)
    ensures r.NaN? <==> ParseInt(QueryText(q)).NaN?
  {
    DefaultParses();
    Min100(ParseInt(QueryText(q)))
  }

  lemma DefaultParses()
    ensures ParseInt("10") == Finite(10)
  {
    var d := "10";
    DigitStartsNumber(d);
    assert d[1..] == "0" && "0"[1..] == "";
    assert DigitRun(d) == 2;
    assert LeadingDigits(d) == d;
    assert d[..1] == "1";
    assert DigitsValue("1") == 1 by { assert "1"[..0] == ""; }
  }

  /** Decimal numeral of a natural number, no sign, no leading zeros. */
  function Numeral(k: nat): (r: string)
    ensures r != "" && forall i :: 0 <= i < |r| ==> IsDigit(r[i])
  {
    var last := ['0' + ((k % 10) as char)];
    if k < 10 then last else Numeral(k / 10) + last
  }

  lemma {:induction false} NumeralValue(k: nat)
    ensures DigitsValue(Numeral(k)) == k
  {
    var d := Numeral(k);
    if k >= 10 {
      assert d[..|d| - 1] == Numeral(k / 10);
      NumeralValue(k / 10);
    }
  }

  lemma {:induction false} DigitRunAll(s: string)
    requires forall i :: 0 <= i < |s| ==> IsDigit(s[i])
    ensures DigitRun(s) == |s|
  {
    if s != "" {
      DigitRunAll(s[1..]);
    }
  }

  /** `parseInt` reads back every numeral: `parseInt(String(k)) == k`. */
  lemma ParseNumeral(k: nat)
    ensures ParseInt(Numeral(k)) == Finite(k)
  {
    ParseDigitsThen(Numeral(k), "");
    assert Numeral(k) + "" == Numeral(k);
    NumeralValue(k);
  }

  /** `?n=k` lists `min(100, k)` rows: `?n=500` is capped to 100. */
  lemma NumericQueryCapped(k: nat)
    ensures ListLimit(One(Numeral(k))) == Finite(if k < 100 then k else 100)
  {
    ParseNumeral(k);
  }

  /** Text whose first character is neither whitespace, a sign nor a digit
      (`?n=abc`) gives NaN, not the default 10. */
  lemma NonNumericIsNaN(s: string)
    requires s != "" && !IsJsWhitespace(s[0]) && !IsDigit(s[0]) && s[0] != '+' && s[0] != '-'
    ensures ListLimit(One(s)) == NaN
  {
  }

  /** A negative count passes through unclamped: `?n=-k` gives `-k` (for
      every `k` JavaScript represents exactly). */
  lemma NegativeNotClamped(k: nat)
    requires k <= 9007199254740992
    ensures ListLimit(One("-" + Numeral(k))) == Finite(-(k as int))
  {
    var s := "-" + Numeral(k);
    assert TrimStart(s) == s;
    assert Unsigned(s) == Numeral(k);
    DigitRunAll(Numeral(k));
    assert Numeral(k)[..DigitRun(Numeral(k))] == Numeral(k);
    NumeralValue(k);
  }

  /** Whatever follows the leading digits is ignored: `?n=42rows` gives 42. */
  lemma TrailingTextIgnored(k: nat, rest: string)
    requires rest == "" || !IsDigit(rest[0])
    ensures ListLimit(One(Numeral(k) + rest)) == Finite(if k < 100 then k else 100)
  {
    ParseDigitsThen(Numeral(k), rest);
    NumeralValue(k);
  }

  lemma ParseDigitsThen(d: string, rest: string)
    requires d != "" && forall i :: 0 <= i < |d| ==> IsDigit(d[i])
    requires rest == "" || !IsDigit(rest[0])
    ensures ParseInt(d + rest) == Finite(DigitsValue(d))
  {
    var s := d + rest;
    assert s[0] == d[0];
    DigitStartsNumber(s);
    DigitRunPrefix(d, rest);
    assert s[..DigitRun(s)] == d;
  }

  /** A digit is neither whitespace nor a sign, so a text starting with one
      is read from its first character. */
  lemma DigitStartsNumber(s: string)
    requires s != "" && IsDigit(s[0])
    ensures TrimStart(s) == s && Unsigned(s) == s
  {
  }

  lemma {:induction false} DigitRunPrefix(d: string, rest: string)
    requires forall i :: 0 <= i < |d| ==> IsDigit(d[i])
    requires rest == "" || !IsDigit(rest[0])
    ensures DigitRun(d + rest) == |d|
  {
    if d != "" {
      assert (d + rest)[1..] == d[1..] + rest;
      DigitRunPrefix(d[1..], rest);
    } else {
      assert d + rest == rest;
    }
  }

  /** A repeated `n` is read up to the comma that joins its values: `?n=5&n=7`
      lists 5 rows, as `?n=5` does, while an empty first value gives NaN
      (the array itself is truthy, so the default does not apply). */
  lemma RepeatedQueryReadsFirst(items: seq<string>)
    requires |items| >= 2
    ensures items[0] != "" ==> ListLimit(Many(items)) == ListLimit(One(items[0]))
    ensures items[0] == "" ==> ListLimit(Many(items)) == NaN
  {
    var r := QueryText(Many(items));
    assert r == items[0] + "," + r[|items[0]| + 1..];
    ParseStopsAtComma(items[0], r[|items[0]| + 1..]);
  }

  /** `parseInt` never reads past a comma. */
  lemma ParseStopsAtComma(x: string, y: string)
    ensures ParseInt(x + "," + y) == ParseInt(x)
    ensures x == "" ==> ParseInt(x + "," + y) == NaN
  {
    var rest := "," + y;
    var s := x + "," + y;
    assert s == x + rest;
    var t := TrimStart(x);
    TrimStartThen(x, rest);
    assert TrimStart(s) == t + rest;
    UnsignedThen(t, rest);
    DigitRunThen(Unsigned(t), rest);
    LeadingDigitsThen(Unsigned(t), rest);
    assert LeadingDigits(Unsigned(TrimStart(s))) == LeadingDigits(Unsigned(t));
    if t != "" {
      assert (t + rest)[0] == t[0];
    }
    ParseIntAgrees(s, x);
  }

  /** `parseInt` depends only on the digits it reads and on the sign before
      them. */
  lemma ParseIntAgrees(s1: string, s2: string)
    requires LeadingDigits(Unsigned(TrimStart(s1))) == LeadingDigits(Unsigned(TrimStart(s2)))
    requires (TrimStart(s1) != "" && TrimStart(s1)[0] == '-') == (TrimStart(s2) != "" && TrimStart(s2)[0] == '-')
    ensures ParseInt(s1) == ParseInt(s2)
  {
  }

  lemma UnsignedThen(t: string, rest: string)
    requires rest != "" && rest[0] != '+' && rest[0] != '-'
    ensures Unsigned(t + rest) == Unsigned(t) + rest
  {
    if t == "" {
      assert t + rest == rest;
    } else {
      assert (t + rest)[0] == t[0];
      assert (t + rest)[1..] == t[1..] + rest;
    }
  }

  lemma LeadingDigitsThen(u: string, rest: string)
    requires DigitRun(u + rest) == DigitRun(u)
    ensures LeadingDigits(u + rest) == LeadingDigits(u)
  {
    assert (u + rest)[..DigitRun(u)] == u[..DigitRun(u)];
  }

  lemma {:induction false} TrimStartThen(x: string, rest: string)
    requires rest != "" && !IsJsWhitespace(rest[0])
    ensures TrimStart(x + rest) == TrimStart(x) + rest
  {
    if x == "" {
      assert x + rest == rest;
    } else {
      assert (x + rest)[0] == x[0];
      assert (x + rest)[1..] == x[1..] + rest;
      TrimStartThen(x[1..], rest);
    }
  }

  lemma {:induction false} DigitRunThen(u: string, rest: string)
    requires rest == "" || !IsDigit(rest[0])
    ensures DigitRun(u + rest) == DigitRun(u)
  {
    if u == "" {
      assert u + rest == rest;
    } else {
      assert (u + rest)[0] == u[0];
      assert (u + rest)[1..] == u[1..] + rest;
      DigitRunThen(u[1..], rest);
    }
  }
}
