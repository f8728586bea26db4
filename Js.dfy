/**
 * The JavaScript values that reach the intake server as a parsed JSON body, and
 * that the wizard keeps in its answer record, together with the coercions the
 * code applies to them: truthiness (`!v`, `a || b`), `String(v)`, `Number(v)`
 * with `Number.isFinite`, and property reads.
 *
 * Numbers are integers here; see the README for the spellings of `Number()`
 * that the model does not read.
 */
module Js {
  import opened Wrappers
  import opened Text

  datatype JsValue =
    | Undefined
    | Null
    | Bool(b: bool)
    | Num(n: int)
    | Str(s: string)
    | Arr(items: seq<JsValue>)
    | Obj(props: map<string, JsValue>)

  /** `!!v`: the falsy values are undefined, null, false, 0 and "". */
  predicate Truthy(v: JsValue)
  {
    match v
    case Undefined => false
    case Null => false
    case Bool(b) => b
    case Num(n) => n != 0
    case Str(s) => s != ""
    case Arr(_) => true
    case Obj(_) => true
  }

  /** `typeof v === 'object'` for a truthy `v`: objects and arrays. */
  predicate IsObjectLike(v: JsValue)
  {
    v.Arr? || v.Obj?
  }

  /** `v.key` on a value that is neither null nor undefined (reading a property
      of those throws a TypeError, which callers handle before calling this). */
  function Prop(v: JsValue, key: string): (r: JsValue)
    requires !v.Null? && !v.Undefined?
    ensures v.Obj? && key in v.props ==> r == v.props[key]
    ensures !v.Obj? || key !in v.props ==> r == Undefined
  {
    if v.Obj? && key in v.props then v.props[key] else Undefined
  }

  function DigitChar(d: int): (c: char)
    requires 0 <= d < 10
    ensures '0' <= c <= '9'
  {
    (('0' as int) + d) as char
  }

  predicate IsDigit(c: char)
  {
    '0' <= c <= '9'
  }

  predicate AllDigits(s: string)
  {
    forall i :: 0 <= i < |s| ==> IsDigit(s[i])
  }

  /** The decimal spelling of a natural number, most significant digit first. */
  function NatToDecimal(n: nat): (s: string)
    ensures |s| >= 1 && AllDigits(s)
  {
    if n < 10 then [DigitChar(n)]
    else NatToDecimal(n / 10) + [DigitChar(n % 10)]
  }

  /** `String(n)` for an integer `n`. */
  function IntToDecimal(n: int): string
  {
    if n < 0 then "-" + NatToDecimal(-n) else NatToDecimal(n)
  }

  /** The value of a run of decimal digits. */
  function DigitsValue(s: string): (n: nat)
    requires AllDigits(s)
  {
    if s == [] then 0
    else DigitsValue(s[..|s| - 1]) * 10 + ((s[|s| - 1] as int) - ('0' as int))
  }

  /** `Number(s)` for a string, with `Number.isFinite` folded in: `None` stands
      for NaN. Surrounding white space is ignored, the empty string is 0, and an
      optional sign may precede the digits. */
  function ParseNumber(s: string): Option<int>
  {
    ParseTrimmed(Trim(s))
  }

  /** `Number` on a string with no surrounding white space. */
  function ParseTrimmed(t: string): Option<int>
  {
    if t == "" then Some(0)
    else if t[0] == '-' && |t| > 1 && AllDigits(t[1..]) then Some(0 - DigitsValue(t[1..]))
    else if t[0] == '+' && |t| > 1 && AllDigits(t[1..]) then Some(DigitsValue(t[1..]))
    else if AllDigits(t) then Some(DigitsValue(t))
    else None
  }

  /** `String(v)`. Arrays join their elements with "," and write null and
      undefined elements as nothing. */
  function ToStr(v: JsValue): string
    decreases v, 0
  {
    match v
    case Undefined => "undefined"
    case Null => "null"
    case Bool(b) => if b then "true" else "false"
    case Num(n) => IntToDecimal(n)
    case Str(s) => s
    case Arr(xs) => JoinValues(xs, ",")
    case Obj(_) => "[object Object]"
  }

  /** `Array.prototype.join(sep)`. */
  function JoinValues(xs: seq<JsValue>, sep: string): string
    decreases xs, 1
  {
    if xs == [] then ""
    else if |xs| == 1 then ElementStr(xs[0])
    else ElementStr(xs[0]) + sep + JoinValues(xs[1..], sep)
  }

  function ElementStr(x: JsValue): string
    decreases x, 1
  {
    if x.Undefined? || x.Null? then "" else ToStr(x)
  }

  /** `Number(v)` followed by `Number.isFinite`: `Some(n)` when the result is a
      finite number `n`, `None` for NaN. */
  function ToNumber(v: JsValue): Option<int>
  {
    match v
    case Undefined => None
    case Null => Some(0)
    case Bool(b) => Some(if b then 1 else 0)
    case Num(n) => Some(n)
    case Str(s) => ParseNumber(s)
    case _ => ParseNumber(ToStr(v))
  }

  lemma {:induction false} DigitsOfDecimal(n: nat)
    ensures DigitsValue(NatToDecimal(n)) == n
  {
    if n >= 10 {
      var s := NatToDecimal(n);
      assert s[..|s| - 1] == NatToDecimal(n / 10);
      DigitsOfDecimal(n / 10);
    }
  }

  /** The decimal spelling of an integer has no space to trim. */
  lemma DecimalTrimmed(n: int)
    ensures IsTrimmed(IntToDecimal(n))
  {
    var m: nat := if n < 0 then -n else n;
    var d := NatToDecimal(m);
    var s := IntToDecimal(n);
    assert !IsSpace(d[|d| - 1]) && !IsSpace(d[0]) by {
      assert IsDigit(d[|d| - 1]) && IsDigit(d[0]);
    }
    assert s[|s| - 1] == d[|d| - 1];
  }

  /** A run of digits reads as its value ... */
  lemma ParseDigits(d: string)
    requires |d| >= 1 && AllDigits(d)
    ensures ParseTrimmed(d) == Some(DigitsValue(d))
  {
    assert IsDigit(d[0]);
  }

  /** ... and after a minus as its negation. */
  lemma ParseNegative(d: string)
    requires |d| >= 1 && AllDigits(d)
    ensures ParseTrimmed("-" + d) == Some(0 - DigitsValue(d))
  {
    assert ("-" + d)[1..] == d;
  }

  /** Reading back the decimal spelling of an integer gives the integer:
      `Number(String(n)) === n`. */
  lemma DecimalRoundTrip(n: int)
    ensures ParseNumber(IntToDecimal(n)) == Some(n)
  {
    var m: nat := if n < 0 then -n else n;
    DigitsOfDecimal(m);
    DecimalTrimmed(n);
    TrimOfTrimmed(IntToDecimal(n));
    if n < 0 {
      ParseNegative(NatToDecimal(m));
    } else {
      ParseDigits(NatToDecimal(m));
    }
  }
}
