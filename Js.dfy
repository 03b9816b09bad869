/** The JavaScript values and coercions that the browser and Node.js code of the model relies
    on: truthiness, `parseFloat`, `Number(...)`, loose equality, `toFixed(3)`, `slice`, and the
    serialisation of numbers into JSON bodies. */
module Js {
  import opened Wrappers
  import opened Text

  /** A value as it arrives in a JSON body, a query string or a parsed CSV cell. JSON numbers are
      finite, so `Num` never holds NaN or an infinity. */
  datatype JsValue = Undefined | Null | Bool(b: bool) | Num(n: real) | Str(s: string)

  /** ToBoolean, the test behind `if (x)`, `!x` and `x || y`. */
  predicate Truthy(v: JsValue) {
    match v
    case Undefined => false
    case Null => false
    case Bool(b) => b
    case Num(n) => n != 0.0
    case Str(s) => s != ""
  }

  /** The result of a numeric computation: NaN, or a finite value. Overflow to an infinity is
      not modelled. */
  datatype Number = NaN | Finite(r: real)

  function Mul(a: Number, b: Number): (c: Number)
    ensures c.Finite? <==> a.Finite? && b.Finite?
    ensures c.Finite? ==> c.r == a.r * b.r
  {
    if a.Finite? && b.Finite? then Finite(a.r * b.r) else NaN
  }

  function Add(a: Number, b: Number): (c: Number)
    ensures c.Finite? <==> a.Finite? && b.Finite?
    ensures c.Finite? ==> c.r == a.r + b.r
  {
    if a.Finite? && b.Finite? then Finite(a.r + b.r) else NaN
  }

  /** `x || 0` on a number: NaN and 0 both give 0. */
  function OrZero(x: Number): real {
    if x.Finite? then x.r else 0.0
  }

  /** How a number is written into a JSON request body: NaN becomes `null`. */
  function ToJson(x: Number): JsValue {
    if x.Finite? then Num(x.r) else Null
  }

  /** The StrWhiteSpaceChar set of ECMAScript (white space and line terminators). */
  predicate IsSpace(c: char) {
    c == ' ' || c == '\t' || c == '\n' || c == '\r' || c == '\U{000B}' || c == '\U{000C}'
    || c == '\U{00A0}' || c == '\U{FEFF}' || c == '\U{1680}' || ('\U{2000}' <= c <= '\U{200A}')
    || c == '\U{2028}' || c == '\U{2029}' || c == '\U{202F}' || c == '\U{205F}' || c == '\U{3000}'
  }

  /** `String.prototype.trim`. */
  function StrTrim(s: string): string {
    Trim(s, IsSpace)
  }

  /** The global `parseFloat`: skips leading white space and reads the longest decimal literal
      there, NaN when there is none. */
  function ParseFloat(s: string): (x: Number)
    ensures x.Finite? <==> ScanDecimal(TrimStart(s, IsSpace)).Some?
  {
    match ScanDecimal(TrimStart(s, IsSpace))
    case Some(sc) => Finite(sc.value)
    case None => NaN
  }

  /** `parseFloat(v)` on any value: the value is first turned into its string. A number's
      string parses back to the number; "undefined", "null", "true" and "false" give NaN. */
  function ParseFloatOf(v: JsValue): Number {
    match v
    case Num(n) => Finite(n)
    case Str(s) => ParseFloat(s)
    case _ => NaN
  }

  /** StringToNumber, the coercion behind `Number(s)`, `s * x` and `s == n`: the trimmed text
      must be empty (giving 0) or one whole decimal literal. */
  function StringToNumber(s: string): (x: Number)
    ensures StrTrim(s) == "" ==> x == Finite(0.0)
  {
    var t := StrTrim(s);
    if t == "" then Finite(0.0)
    else match ScanDecimal(t)
      case Some(sc) => if sc.length == |t| then Finite(sc.value) else NaN
      case None => NaN
  }

  /** ToNumber on any value. */
  function ToNumber(v: JsValue): Number {
    match v
    case Undefined => NaN
    case Null => Finite(0.0)
    case Bool(b) => Finite(if b then 1.0 else 0.0)
    case Num(n) => Finite(n)
    case Str(s) => StringToNumber(s)
  }

  function BoolRank(v: JsValue): nat { if v.Bool? then 1 else 0 }

  /** The abstract equality `a == b`. */
  function LooseEquals(a: JsValue, b: JsValue): bool
    decreases BoolRank(a) + BoolRank(b)
  {
    var aNullish := a.Undefined? || a.Null?;
    var bNullish := b.Undefined? || b.Null?;
    if aNullish || bNullish then aNullish && bNullish
    else if a.Bool? then LooseEquals(Num(if a.b then 1.0 else 0.0), b)
    else if b.Bool? then LooseEquals(a, Num(if b.b then 1.0 else 0.0))
    else if a.Num? && b.Num? then a.n == b.n
    else if a.Str? && b.Str? then a.s == b.s
    else if a.Num? then StringToNumber(b.s) == Finite(a.n)
    else StringToNumber(a.s) == Finite(b.n)
  }

  /** A number equals a string loosely exactly when the string's numeric value is that number;
      so a database id `3` equals the route parameter "3" and also " 3 " and "3.0". */
  lemma LooseEqualsNumStr(n: real, s: string)
    ensures LooseEquals(Num(n), Str(s)) <==> StringToNumber(s) == Finite(n)
    ensures LooseEquals(Str(s), Num(n)) <==> StringToNumber(s) == Finite(n)
  {
  }

  /** The nearest whole number of thousandths to `x`, halves away from zero. */
  function Thousandths(x: real): (k: int)
    ensures -0.5 <= k as real - x * 1000.0 <= 0.5
  {
    if x >= 0.0 then (x * 1000.0 + 0.5).Floor else -(((-x) * 1000.0 + 0.5).Floor)
  }

  /** `x.toFixed(3)` read back as a number: a whole number of thousandths within half a
      thousandth of `x`. */
  function Round3(x: real): (r: real)
    ensures -0.0005 <= r - x <= 0.0005
    ensures r * 1000.0 == Thousandths(x) as real
  {
    Thousandths(x) as real / 1000.0
  }

  /** `x.toFixed(3)` on a number known only as a `Number`: NaN stays NaN (the string "NaN"). */
  function ToFixed3(x: Number): (r: Number)
    ensures r.Finite? <==> x.Finite?
    ensures r.Finite? ==> -0.0005 <= r.r - x.r <= 0.0005
  {
    if x.Finite? then Finite(Round3(x.r)) else NaN
  }

  /** How the string that `toFixed` returned is sent in a JSON body: its numeric value as a
      number, and "NaN" as that string. */
  function FixedToJson(x: Number): JsValue {
    if x.Finite? then Num(x.r) else Str("NaN")
  }

  /** ToIntegerOrInfinity: NaN is 0, anything else is truncated toward zero. */
  function ToInteger(x: Number): int {
    if x.NaN? then 0
    else if x.r >= 0.0 then x.r.Floor
    else -((-x.r).Floor)
  }

  /** `s.slice(0, end)`: a negative end counts back from the length, and the end is clamped to
      `0..|s|`. */
  function SliceTo<T>(s: seq<T>, end: Number): (r: seq<T>)
    ensures |r| <= |s| && r == s[..|r|]
    ensures var k := ToInteger(end);
      |r| == if k < 0 then (if |s| + k < 0 then 0 else |s| + k) else (if k < |s| then k else |s|)
  {
    var k := ToInteger(end);
    var stop := if k < 0 then (if |s| + k < 0 then 0 else |s| + k) else (if k < |s| then k else |s|);
    s[..stop]
  }

  /** `String(n)` for a natural number: its decimal digits, most significant first, as a
      number is written into a query string. */
  function DecimalString(n: nat): (s: string)
    ensures s != [] && forall k :: 0 <= k < |s| ==> IsDigit(s[k])
  {
    var d := ['0' + (n % 10) as char];
    if n < 10 then d else DecimalString(n / 10) + d
  }

  /** The digits read back as the number. */
  lemma {:induction false} DecimalStringValue(n: nat)
    ensures DigitsValue(DecimalString(n)) == n
  {
    var s := DecimalString(n);
    if n >= 10 {
      DecimalStringValue(n / 10);
      assert s[..|s| - 1] == DecimalString(n / 10);
    }
  }

  /** `parseFloat(String(n))` is `n`. */
  lemma ParseDecimalString(n: nat)
    ensures ParseFloat(DecimalString(n)) == Finite(n as real)
  {
    var s := DecimalString(n);
    assert !IsSpace(s[0]);
    assert TrimStart(s, IsSpace) == s;
    ScanDigits(s);
    DecimalStringValue(n);
  }

  /** `Number(String(n))` is `n`; so is the loose comparison of `n` with its string. */
  lemma NumberDecimalString(n: nat)
    ensures StringToNumber(DecimalString(n)) == Finite(n as real)
    ensures LooseEquals(Num(n as real), Str(DecimalString(n)))
  {
    var s := DecimalString(n);
    assert !IsSpace(s[0]) && !IsSpace(s[|s| - 1]);
    assert TrimStart(s, IsSpace) == s;
    assert TrimEnd(s, IsSpace) == s;
    ScanDigits(s);
    DecimalStringValue(n);
  }
}
