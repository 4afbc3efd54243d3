/**
 * A value produced by `JSON.parse`, and the two JavaScript conversions the
 * board applies to such values: truthiness (`Boolean(v)`, `v || d`) and
 * `String(v)`. Numbers are integers here.
 */
module JsonValue {
  import opened Wrappers

  datatype Json =
    | JNull
    | JBool(b: bool)
    | JNumber(n: int)
    | JString(s: string)
    | JArray(items: seq<Json>)
    | JObject(fields: map<string, Json>)

  /** `v.name` for a parsed value; None stands for `undefined`. */
  function Field(v: Json, name: string): (r: Option<Json>)
    ensures r.Some? <==> v.JObject? && name in v.fields
  {
    if v.JObject? && name in v.fields then Some(v.fields[name]) else None
  }

  /**
   * `Boolean(v)`: the falsy values are `undefined`, null, false, 0 and the
   * empty string; every array and object is truthy.
   */
  predicate Truthy(v: Option<Json>)
    ensures Truthy(v) <==>
      v.Some? && v.value != JNull && v.value != JBool(false) && v.value != JNumber(0) && v.value != JString("")
  {
    match v
    case None => false
    case Some(JNull) => false
    case Some(JBool(b)) => b
    case Some(JNumber(n)) => n != 0
    case Some(JString(s)) => s != ""
    case Some(JArray(_)) => true
    case Some(JObject(_)) => true
  }

  function DigitChar(d: nat): (c: char)
    requires d < 10
    ensures '0' <= c <= '9' && c as int - '0' as int == d
  {
    ('0' as int + d) as char
  }

  /** The number a string of decimal digits spells, most significant digit first. */
  function DigitsValue(s: string): int {
    if s == [] then 0 else 10 * DigitsValue(s[..|s| - 1]) + (s[|s| - 1] as int - '0' as int)
  }

  /** The decimal spelling of a natural number, without leading zeros. */
  function NatToDecimal(n: nat): (r: string)
    ensures |r| > 0 && (r[0] == '0' <==> n == 0)
    ensures forall i :: 0 <= i < |r| ==> '0' <= r[i] <= '9'
    ensures DigitsValue(r) == n
  {
    if n < 10 then
      assert [DigitChar(n)][..0] == [];
      [DigitChar(n)]
    else
      var r := NatToDecimal(n / 10) + [DigitChar(n % 10)];
      assert r[..|r| - 1] == NatToDecimal(n / 10);
      r
  }

  /** The decimal spelling of an integer, with a minus sign when it is negative. */
  function IntToDecimal(n: int): string {
    if n < 0 then "-" + NatToDecimal(-n) else NatToDecimal(n)
  }

  /** `parts.join(",")`. */
  function JoinWithCommas(parts: seq<string>): string {
    if |parts| == 0 then ""
    else if |parts| == 1 then parts[0]
    else parts[0] + "," + JoinWithCommas(parts[1..])
  }

  /**
   * Whether `String(v)` throws a TypeError. A parsed object inherits
   * `toString` and `valueOf` from Object.prototype. An own "toString"
   * property, never callable in parsed JSON, hides the inherited one, and the
   * inherited `valueOf` returns the object itself, which is not a primitive.
   * An array converts each element that is not null the same way.
   */
  predicate StringThrows(v: Json) {
    match v
    case JObject(fields) => "toString" in fields
    case JArray(items) => exists i :: 0 <= i < |items| && StringThrows(items[i])
    case _ => false
  }

  /**
   * `String(v)` where it does not throw: an array joins its elements with
   * commas, writing a null element as the empty string, and an object is
   * "[object Object]".
   */
  function ToJsString(v: Json): (r: string)
    ensures v.JString? ==> r == v.s
    ensures v.JNumber? && v.n >= 0 ==> DigitsValue(r) == v.n
    ensures v.JNumber? && v.n < 0 ==> |r| > 1 && r[0] == '-' && DigitsValue(r[1..]) == -v.n
    ensures v.JObject? ==> r == "[object Object]"
  {
    match v
    case JNull => "null"
    case JBool(b) => if b then "true" else "false"
    case JNumber(n) =>
      var r := IntToDecimal(n);
      assert n < 0 ==> r[1..] == NatToDecimal(-n);
      r
    case JString(s) => s
    case JArray(items) =>
      JoinWithCommas(seq(|items|, i requires 0 <= i < |items| =>
        if items[i].JNull? then "" else ToJsString(items[i])))
    case JObject(_) => "[object Object]"
  }

  /** `String(v || "")` for a field that may be missing. */
  function TextOf(v: Option<Json>): (r: string)
    ensures v.Some? && v.value.JString? ==> r == v.value.s
    ensures !Truthy(v) ==> r == ""
  {
    if Truthy(v) then ToJsString(v.value) else ""
  }

  /** Whether `String(v || "")` throws. */
  predicate TextThrows(v: Option<Json>) {
    Truthy(v) && StringThrows(v.value)
  }
}
