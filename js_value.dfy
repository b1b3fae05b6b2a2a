/** JavaScript values as the library receives them: a deserialised delta,
    with the coercions (truthiness, `String(v)`, `Number(v)`) the library
    relies on. Numbers are integers in this model. */
module JsValue {

  datatype Option<+T> = None | Some(value: T)

  /** A JavaScript value. `JUndefined` is what reading an absent property yields. */
  datatype JValue =
    | JUndefined
    | JNull
    | JBool(b: bool)
    | JNum(n: int)
    | JStr(s: string)
    | JArr(elems: seq<JValue>)
    | JObj(props: map<string, JValue>)

  /** `!!v` */
  predicate Truthy(v: JValue) {
    match v
    case JUndefined => false
    case JNull => false
    case JBool(b) => b
    case JNum(n) => n != 0
    case JStr(s) => s != ""
    case JArr(_) => true
    case JObj(_) => true
  }

  /** `typeof v === 'object'` (which holds of `null` as well). */
  predicate IsTypeofObject(v: JValue) {
    v.JNull? || v.JArr? || v.JObj?
  }

  /** `key in v` for an object `v`. Arrays hold none of the non-numeric keys
      this library asks about. */
  predicate HasKey(v: JValue, key: string) {
    v.JObj? && key in v.props
  }

  /** `v[key]`, read from an object; an absent key reads as undefined. */
  function Get(v: JValue, key: string): (r: JValue)
    ensures !HasKey(v, key) ==> r == JUndefined
  {
    if v.JObj? && key in v.props then v.props[key] else JUndefined
  }

  // ---------------------------------------------------------------------
  // String(v), also written v + ''

  predicate IsDigit(c: char) { '0' <= c <= '9' }

  function DigitChar(d: nat): (c: char)
    requires d < 10
    ensures IsDigit(c) && c as int - '0' as int == d
  {
    (d + '0' as int) as char
  }

  function NatToString(n: nat): (r: string)
    decreases n
  {
    if n < 10 then [DigitChar(n)] else NatToString(n / 10) + [DigitChar(n % 10)]
  }

  /** The decimal form of an integer, as `String(n)` gives it. */
  function IntToString(n: int): string {
    if n < 0 then "-" + NatToString(-n) else NatToString(n)
  }

  /** `String(v)`. An array is joined with commas, with null and undefined
      elements written as the empty string. */
  function ToJsString(v: JValue): string
    decreases v, 1
  {
    match v
    case JUndefined => "undefined"
    case JNull => "null"
    case JBool(b) => if b then "true" else "false"
    case JNum(n) => IntToString(n)
    case JStr(s) => s
    case JObj(_) => "[object Object]"
    case JArr(a) => if |a| == 0 then "" else ElementString(v, 0) + JoinFrom(v, 1)
  }

  /** The string an array element contributes to the array's `String` form. */
  function ElementString(v: JValue, i: nat): string
    requires v.JArr? && i < |v.elems|
    decreases v, 0, 0
  {
    var e := v.elems[i];
    if e.JNull? || e.JUndefined? then "" else ToJsString(e)
  }

  /** The comma-prefixed string forms of the elements from index `i` on. */
  function JoinFrom(v: JValue, i: nat): string
    requires v.JArr? && i <= |v.elems|
    decreases v, 0, 1, |v.elems| - i
  {
    if i == |v.elems| then "" else "," + ElementString(v, i) + JoinFrom(v, i + 1)
  }

  // ---------------------------------------------------------------------
  // Number(v), restricted to integers: 0 stands for both 0 and NaN, which
  // are the two falsy numbers.

  predicate AllDigits(s: string) {
    forall i | 0 <= i < |s| :: IsDigit(s[i])
  }

  function DigitsValue(s: string): nat
    requires AllDigits(s)
  {
    if s == [] then 0 else DigitsValue(s[..|s| - 1]) * 10 + (s[|s| - 1] as int - '0' as int)
  }

  /** `Number(s)` for a string of an optional sign and decimal digits; any
      other string gives 0 or NaN, written 0. */
  function StrToNumber(s: string): int {
    if |s| > 1 && (s[0] == '-' || s[0] == '+') && AllDigits(s[1..]) then
      var m: int := DigitsValue(s[1..]);
      if s[0] == '-' then -m else m
    else if |s| > 0 && AllDigits(s) then DigitsValue(s)
    else 0
  }

  /** `Number(v)`. */
  function ToNumber(v: JValue): int {
    match v
    case JUndefined => 0
    case JNull => 0
    case JBool(b) => if b then 1 else 0
    case JNum(n) => n
    case JStr(s) => StrToNumber(s)
    case JArr(a) => if |a| == 1 then StrToNumber(ElementString(v, 0)) else 0
    case JObj(_) => 0
  }

  lemma {:induction false} NatToStringDigits(n: nat)
    ensures |NatToString(n)| > 0 && AllDigits(NatToString(n))
    ensures DigitsValue(NatToString(n)) == n
    decreases n
  {
    if n >= 10 {
      NatToStringDigits(n / 10);
      var p := NatToString(n / 10);
      var s := p + [DigitChar(n % 10)];
      assert s[..|s| - 1] == p;
    }
  }

  /** `Number(String(n)) === n` for every integer. */
  lemma NumberOfString(n: int)
    ensures StrToNumber(IntToString(n)) == n
  {
    if n < 0 {
      NatToStringDigits(-n);
      assert IntToString(n)[1..] == NatToString(-n);
    } else {
      NatToStringDigits(n);
    }
  }
}
