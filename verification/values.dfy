/**
 JavaScript values as the modelled TypeScript code handles them, the
 Option/Result wrappers the model uses for errors, and the small text
 routines the code relies on: JavaScript truthiness, rendering an integer
 with a template literal, `parseInt(s, 10)`, `startsWith` and
 `toUpperCase` on method names.
 */
module Values {

  datatype Option<+T> = None | Some(value: T) {
    /** The value, or `default` when absent (the `??` / `||` fallbacks of the source). */
    function GetOr(default: T): T {
      match this
      case Some(v) => v
      case None => default
    }
  }

  datatype Result<+T, +E> = Ok(value: T) | Err(error: E)

  /** A JavaScript value reachable from JSON, plus `Date` objects (which the
      domain schemas accept). A key that is absent from an `Obj` reads as
      `undefined`; JSON cannot carry `undefined` itself. */
  datatype Value =
    | Null
    | Bool(b: bool)
    | Num(n: real)
    | Str(s: string)
    | Arr(items: seq<Value>)
    | Obj(fields: map<string, Value>)
    | Date(ms: int)

  /** JavaScript truthiness of a defined value: `false`, `0`, `""` and
      `null` are falsy; arrays, objects and dates are truthy. */
  predicate Truthy(v: Value) {
    match v
    case Null => false
    case Bool(b) => b
    case Num(n) => n != 0.0
    case Str(s) => s != ""
    case _ => true
  }

  /** Truthiness of a property read that may be `undefined`. */
  predicate TruthyOpt(v: Option<Value>) {
    v.Some? && Truthy(v.value)
  }

  /** Property read `v.key` on a value other than `null`: objects look the
      key up; strings, numbers, booleans, arrays and dates have no own
      property under the names the modelled code reads. */
  function Get(v: Value, key: string): (r: Option<Value>)
    ensures r.Some? <==> v.Obj? && key in v.fields
    ensures r.Some? ==> r.value == v.fields[key]
  {
    if v.Obj? && key in v.fields then Some(v.fields[key]) else None
  }

  /** `a === b` where `a` is defined and `b` may be `undefined` (`None`).
      Primitives compare by value; arrays, objects and dates compare by
      identity, and two values that come from different sources (a local
      record and a parsed response) are never the same object. */
  predicate StrictEquals(a: Value, b: Option<Value>) {
    b.Some? &&
    match (a, b.value)
    case (Null, Null) => true
    case (Bool(x), Bool(y)) => x == y
    case (Num(x), Num(y)) => x == y
    case (Str(x), Str(y)) => x == y
    case _ => false
  }

  /** The body of an HTTP message: JSON text that parsed to a value, or text
      that `JSON.parse` rejects (including an empty body), with the message of
      the `SyntaxError` it throws. */
  datatype Body = Decoded(value: Value) | Malformed(message: string)

  /** The JavaScript built-ins the model treats as opaque: `JSON.stringify`,
      `String(v)` on a non-string, and `JSON.parse` (a `SyntaxError` message on
      failure). */
  datatype Runtime = Runtime(
    stringify: Value -> string,
    show: Value -> string,
    parse: string -> Result<Value, string>)

  /** Whether a number holds an integer (Zod's `.int()`). */
  predicate IsInteger(n: real) {
    n.Floor as real == n
  }

  // ---------------------------------------------------------------------
  // Decimal text
  // ---------------------------------------------------------------------

  predicate IsDigit(c: char) {
    '0' <= c <= '9'
  }

  function DigitChar(d: nat): (c: char)
    requires d < 10
    ensures IsDigit(c)
    ensures c as int - '0' as int == d
  {
    (d + '0' as int) as char
  }

  function DigitValue(c: char): (d: nat)
    requires IsDigit(c)
    ensures d < 10
  {
    c as int - '0' as int
  }

  /** The decimal value of a string of digits. */
  function DigitsValue(s: string): nat
    requires forall i | 0 <= i < |s| :: IsDigit(s[i])
  {
    if |s| == 0 then 0 else 10 * DigitsValue(s[..|s| - 1]) + DigitValue(s[|s| - 1])
  }

  /** The decimal rendering of a natural number, without leading zeros. */
  function NatToString(n: nat): (s: string)
    ensures |s| > 0
    ensures forall i | 0 <= i < |s| :: IsDigit(s[i])
    ensures |s| > 1 ==> s[0] != '0'
  {
    if n < 10 then [DigitChar(n)] else NatToString(n / 10) + [DigitChar(n % 10)]
  }

  /** `${n}` for an integer number: a minus sign, then the digits. */
  function IntToString(n: int): (s: string)
    ensures |s| > 0
    ensures n >= 0 ==> s == NatToString(n)
    ensures n < 0 ==> s == "-" + NatToString(-n)
  {
    if n < 0 then "-" + NatToString(-n) else NatToString(n)
  }

  lemma {:induction false} DigitsValueOfNatToString(n: nat)
    ensures DigitsValue(NatToString(n)) == n
  {
    var s := NatToString(n);
    if n >= 10 {
      DigitsValueOfNatToString(n / 10);
      assert s[..|s| - 1] == NatToString(n / 10);
    }
  }

  // ---------------------------------------------------------------------
  // parseInt(s, 10)
  // ---------------------------------------------------------------------

  /** The characters `parseInt` skips before the number (the ECMAScript
      WhiteSpace and LineTerminator characters). */
  predicate IsJsWhitespace(c: char) {
    c == '\t' || c == '\n' || c == '\U{000B}' || c == '\U{000C}' || c == '\r' || c == ' '
    || c == '\U{00A0}' || c == '\U{1680}' || ('\U{2000}' <= c <= '\U{200A}')
    || c == '\U{2028}' || c == '\U{2029}' || c == '\U{202F}' || c == '\U{205F}'
    || c == '\U{3000}' || c == '\U{FEFF}'
  }

  function TrimStart(s: string): (t: string)
    ensures |t| <= |s| && t == s[|s| - |t|..]
    ensures |t| > 0 ==> !IsJsWhitespace(t[0])
  {
    if |s| > 0 && IsJsWhitespace(s[0]) then TrimStart(s[1..]) else s
  }

  /** The longest prefix of `s` made of decimal digits. */
  function LeadingDigits(s: string): (d: string)
    ensures |d| <= |s| && d == s[..|d|]
    ensures forall i | 0 <= i < |d| :: IsDigit(d[i])
    ensures |d| < |s| ==> !IsDigit(s[|d|])
  {
    if |s| > 0 && IsDigit(s[0]) then [s[0]] + LeadingDigits(s[1..]) else []
  }

  /** The value of the digits after an optional sign, or `None` for NaN. */
  function ParseUnsigned(s: string): Option<nat> {
    var d := LeadingDigits(s);
    if |d| == 0 then None else Some(DigitsValue(d))
  }

  /** `parseInt(s, 10)`: leading white space is skipped, an optional sign is
      read, then the longest run of digits; no digits gives NaN (`None`).
      Trailing text after the digits is ignored. */
  function ParseInt(s: string): (r: Option<int>)
    ensures r.Some? ==> exists k | 0 <= k < |s| :: IsDigit(s[k])
  {
    var t := TrimStart(s);
    if |t| > 0 && (t[0] == '-' || t[0] == '+') then
      match ParseUnsigned(t[1..])
      case None => None
      case Some(v) => var k: int := v; if t[0] == '-' then Some(-k) else Some(k)
    else
      match ParseUnsigned(t)
      case None => None
      case Some(v) => Some(v)
  }

  lemma LeadingDigitsOfDigits(s: string)
    requires forall i | 0 <= i < |s| :: IsDigit(s[i])
    ensures LeadingDigits(s) == s
  {
  }

  lemma ParseUnsignedOfNatToString(m: nat)
    ensures ParseUnsigned(NatToString(m)) == Some(m)
  {
    LeadingDigitsOfDigits(NatToString(m));
    DigitsValueOfNatToString(m);
  }

  /** `parseInt` of text that starts with a digit or a sign reads the
      sign and then the digits. */
  lemma ParseIntNoWhitespace(s: string)
    requires |s| > 0 && (IsDigit(s[0]) || s[0] == '-')
    ensures s[0] == '-' ==> ParseInt(s) == (match ParseUnsigned(s[1..]) case None => None case Some(v) => Some(-(v as int)))
    ensures IsDigit(s[0]) ==> ParseInt(s) == (match ParseUnsigned(s) case None => None case Some(v) => Some(v as int))
  {
    assert !IsJsWhitespace(s[0]);
    assert TrimStart(s) == s;
  }

  /** Rendering an integer and reading it back with `parseInt` is the identity. */
  lemma {:induction false} ParseIntOfIntToString(n: int)
    ensures ParseInt(IntToString(n)) == Some(n)
  {
    if n < 0 {
      var m: nat := -n;
      var digits := NatToString(m);
      var s := "-" + digits;
      assert IntToString(n) == s;
      assert s[1..] == digits;
      ParseUnsignedOfNatToString(m);
      assert ParseUnsigned(s[1..]) == Some(m);
      ParseIntNoWhitespace(s);
      assert ParseInt(s) == Some(-(m as int));
    } else {
      var digits := NatToString(n);
      assert IntToString(n) == digits;
      ParseUnsignedOfNatToString(n);
      ParseIntNoWhitespace(digits);
    }
  }

  // ---------------------------------------------------------------------
  // Strings
  // ---------------------------------------------------------------------

  /** `s.startsWith(prefix)`. */
  predicate StartsWith(s: string, prefix: string) {
    |prefix| <= |s| && s[..|prefix|] == prefix
  }

  function UpperChar(c: char): char {
    if 'a' <= c <= 'z' then (c as int - 32) as char else c
  }

  /** `s.toUpperCase()` on ASCII text (HTTP method names). */
  function ToUpperAscii(s: string): (r: string)
    ensures |r| == |s|
    ensures forall i | 0 <= i < |s| :: r[i] == UpperChar(s[i])
  {
    if |s| == 0 then "" else [UpperChar(s[0])] + ToUpperAscii(s[1..])
  }

  /** Upper-casing twice is upper-casing once. */
  lemma ToUpperAsciiIdempotent(s: string)
    ensures ToUpperAscii(ToUpperAscii(s)) == ToUpperAscii(s)
  {
    var u := ToUpperAscii(s);
    assert forall i | 0 <= i < |u| :: ToUpperAscii(u)[i] == u[i];
  }
}
