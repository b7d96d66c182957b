/**
 * JSON values as `JSON.parse` produces them, with the JavaScript coercions the
 * interpretation route applies to them: property access through `?.`,
 * truthiness, `Array.isArray`, and `String(v)`.
 */
module Json {
  import opened Maybe
  import opened Text

  /** Numbers are integers here; floating point is not modelled. */
  datatype Json =
    | JNull
    | JBool(b: bool)
    | JNum(n: int)
    | JStr(s: string)
    | JArr(elems: seq<Json>)
    | JObj(fields: map<string, Json>)

  /** `v?.key`: the own property `key` of an object; absent for every other value. */
  function Get(v: Json, key: string): (r: Option<Json>)
    ensures r.Some? <==> v.JObj? && key in v.fields
    ensures r.Some? ==> r.value == v.fields[key]
  {
    if v.JObj? && key in v.fields then Some(v.fields[key]) else None
  }

  /** `v?.key ?? fallback`: a missing or `null` property gives `fallback`. */
  function GetOrDefault(v: Json, key: string, fallback: Json): (r: Json)
    ensures Get(v, key).None? || Get(v, key) == Some(JNull) ==> r == fallback
    ensures Get(v, key).Some? && Get(v, key) != Some(JNull) ==> r == v.fields[key]
  {
    match Get(v, key)
    case None => fallback
    case Some(JNull) => fallback
    case Some(x) => x
  }

  /** JavaScript truthiness of a JSON value. */
  predicate Truthy(v: Json) {
    match v
    case JNull => false
    case JBool(b) => b
    case JNum(n) => n != 0
    case JStr(s) => s != []
    case JArr(_) => true
    case JObj(_) => true
  }

  function DigitChar(d: nat): char
    requires d < 10
  {
    ('0' as int + d) as char
  }

  /** The decimal numeral of `n`, as `Number.prototype.toString` writes an integer. */
  function NatToDecimal(n: nat): (r: string)
    ensures |r| > 0
    ensures forall i :: 0 <= i < |r| ==> '0' <= r[i] <= '9'
  {
    if n < 10 then [DigitChar(n)] else NatToDecimal(n / 10) + [DigitChar(n % 10)]
  }

  /** The value a numeral denotes, read back digit by digit. */
  function DecimalValue(s: string): int
    requires forall i :: 0 <= i < |s| ==> '0' <= s[i] <= '9'
  {
    if s == [] then 0 else DecimalValue(s[..|s| - 1]) * 10 + (s[|s| - 1] as int - '0' as int)
  }

  /** Reading a numeral back gives the number written. */
  lemma {:induction false} DecimalRoundTrip(n: nat)
    ensures DecimalValue(NatToDecimal(n)) == n
  {
    if n >= 10 {
      DecimalRoundTrip(n / 10);
      var r := NatToDecimal(n);
      assert r[..|r| - 1] == NatToDecimal(n / 10);
    }
  }

  function IntToDecimal(n: int): string {
    if n < 0 then "-" + NatToDecimal(-n) else NatToDecimal(n)
  }

  /** All carried values, or none if any is missing. */
  function AllPresent(xs: seq<Option<string>>): (r: Option<seq<string>>)
    ensures r.Some? <==> forall i :: 0 <= i < |xs| ==> xs[i].Some?
    ensures r.Some? ==> |r.value| == |xs| && forall i :: 0 <= i < |xs| ==> r.value[i] == xs[i].value
  {
    if xs == [] then Some([])
    else if xs[0].None? then None
    else
      match AllPresent(xs[1..])
      case None => None
      case Some(rest) => Some([xs[0].value] + rest)
  }

  /**
   * `String(v)`, or `None` where JavaScript throws a TypeError: an object
   * with an own `toString` property (never callable in parsed JSON) has no
   * usable conversion to a primitive. An array converts through `join(",")`,
   * which writes `null` elements as the empty string.
   */
  function StringOf(v: Json): Option<string>
    decreases v
  {
    match v
    case JNull => Some("null")
    case JBool(b) => Some(if b then "true" else "false")
    case JNum(n) => Some(IntToDecimal(n))
    case JStr(s) => Some(s)
    case JObj(m) => if "toString" in m then None else Some("[object Object]")
    case JArr(es) =>
      var parts := seq(|es|, i requires 0 <= i < |es| => if es[i].JNull? then Some("") else StringOf(es[i]));
      match AllPresent(parts)
      case None => None
      case Some(ss) => Some(Join(ss, ","))
  }

  /** `xs.map(String)`: every element converted, failing if any conversion throws. */
  function StringsOf(xs: seq<Json>): (r: Option<seq<string>>)
    ensures r.Some? <==> forall i :: 0 <= i < |xs| ==> StringOf(xs[i]).Some?
    ensures r.Some? ==> |r.value| == |xs| && forall i :: 0 <= i < |xs| ==> r.value[i] == StringOf(xs[i]).value
  {
    var parts := seq(|xs|, i requires 0 <= i < |xs| => StringOf(xs[i]));
    assert forall i :: 0 <= i < |xs| ==> parts[i] == StringOf(xs[i]);
    AllPresent(parts)
  }
}
