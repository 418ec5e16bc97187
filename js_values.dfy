/** The JavaScript built-ins that the rule update handler and the rate limiter
    depend on: numbers that may be NaN, the values a JSON request body can carry,
    truthiness, the rendering of an integer as a string, and `parseInt`. */
module JsValues {

  /** A JavaScript number restricted to the integers, plus NaN
      (what `parseInt` returns when there is no digit to read). */
  datatype Num = NaN | Int(i: int)

  /** A field of a parsed JSON request body. Numbers are integers. */
  datatype JsonValue = Absent | Null | Bool(b: bool) | Number(n: int) | Text(s: string)

  /** JavaScript truthiness: `undefined`, `null`, `false`, `0` and `""` are falsy. */
  function Truthy(v: JsonValue): (b: bool)
    ensures b <==> v !in {Absent, Null, Bool(false), Number(0), Text("")}
  {
    match v
    case Absent => false
    case Null => false
    case Bool(b) => b
    case Number(n) => n != 0
    case Text(s) => s != ""
  }

  // ---------------------------------------------------------------------------
  // Integers as decimal strings (`String(n)`, and `${n}` inside a template)
  // ---------------------------------------------------------------------------

  predicate IsDecimalDigit(c: char)
  {
    '0' <= c <= '9'
  }

  function DigitChar(d: nat): (c: char)
    requires d < 10
    ensures IsDecimalDigit(c)
  {
    ('0' as int + d) as char
  }

  /** The decimal digits of `n`, most significant first, without leading zeros. */
  function NatDigits(n: nat): (s: string)
    ensures |s| > 0
    ensures forall k :: 0 <= k < |s| ==> IsDecimalDigit(s[k])
    ensures s[0] == '0' <==> n == 0
    decreases n
  {
    if n < 10 then [DigitChar(n)] else NatDigits(n / 10) + [DigitChar(n % 10)]
  }

  /** `String(n)` for an integer `n`. */
  function DecimalString(n: int): (s: string)
    ensures |s| > 0
    ensures n >= 0 ==> IsDecimalDigit(s[0])
    ensures n < 0 ==> s[0] == '-'
    ensures forall k :: (if n < 0 then 1 else 0) <= k < |s| ==> IsDecimalDigit(s[k])
    ensures n == 0 <==> s == "0"
    ensures n < 0 ==> |s| > 1
    ensures n != 0 ==> s[if n < 0 then 1 else 0] != '0'
  {
    if n < 0 then "-" + NatDigits(-n) else NatDigits(n)
  }

  /** The string JavaScript's `ToString` gives for a body field; `parseInt`
      reads its argument through it. */
  function ToJsString(v: JsonValue): string
  {
    match v
    case Absent => "undefined"
    case Null => "null"
    case Bool(b) => if b then "true" else "false"
    case Number(n) => DecimalString(n)
    case Text(s) => s
  }

  // ---------------------------------------------------------------------------
  // parseInt(x) with no radix
  // ---------------------------------------------------------------------------

  /** White space and line terminators, which `parseInt` skips at the start. */
  predicate IsJsWhiteSpace(c: char)
  {
    || c == '\t' || c == '\n' || c == '\U{B}' || c == '\U{C}' || c == '\r' || c == ' '
    || c == '\U{A0}' || c == '\U{1680}' || ('\U{2000}' <= c <= '\U{200A}')
    || c == '\U{2028}' || c == '\U{2029}' || c == '\U{202F}' || c == '\U{205F}'
    || c == '\U{3000}' || c == '\U{FEFF}'
  }

  function TrimStart(s: string): (t: string)
    ensures |t| <= |s| && t == s[|s| - |t|..]
    ensures |t| > 0 ==> !IsJsWhiteSpace(t[0])
  {
    if |s| > 0 && IsJsWhiteSpace(s[0]) then TrimStart(s[1..]) else s
  }

  /** The value of `c` as a digit in base `radix` (10 or 16), or -1. */
  function DigitValue(c: char, radix: nat): (d: int)
    requires radix == 10 || radix == 16
    ensures -1 <= d < radix
    ensures IsDecimalDigit(c) ==> d == c as int - '0' as int
  {
    if IsDecimalDigit(c) then c as int - '0' as int
    else if radix == 16 && 'a' <= c <= 'f' then c as int - 'a' as int + 10
    else if radix == 16 && 'A' <= c <= 'F' then c as int - 'A' as int + 10
    else -1
  }

  /** The length of the longest prefix of `s` made of base-`radix` digits. */
  function DigitRun(s: string, radix: nat): (n: nat)
    requires radix == 10 || radix == 16
    ensures n <= |s|
    ensures forall k :: 0 <= k < n ==> DigitValue(s[k], radix) >= 0
    ensures n < |s| ==> DigitValue(s[n], radix) < 0
  {
    if |s| > 0 && DigitValue(s[0], radix) >= 0 then 1 + DigitRun(s[1..], radix) else 0
  }

  /** The value of a string of base-`radix` digits. */
  function DigitsValue(s: string, radix: nat): nat
    requires radix == 10 || radix == 16
    requires forall k :: 0 <= k < |s| ==> DigitValue(s[k], radix) >= 0
  {
    if |s| == 0 then 0
    else DigitsValue(s[..|s| - 1], radix) * radix + DigitValue(s[|s| - 1], radix)
  }

  /** The digits at the start of `v` in base `radix`, or NaN when there are none. */
  function ReadDigits(v: string, radix: nat): (r: Num)
    requires radix == 10 || radix == 16
    ensures r == NaN <==> (|v| == 0 || DigitValue(v[0], radix) < 0)
  {
    var z := v[..DigitRun(v, radix)];
    if z == [] then NaN else Int(DigitsValue(z, radix))
  }

  /** `u` begins with a number `parseInt` can read: a decimal digit, and at
      least one hexadecimal digit after a `0x`/`0X` prefix. */
  predicate StartsNumber(u: string)
  {
    && |u| > 0 && IsDecimalDigit(u[0])
    && !(|u| >= 2 && u[0] == '0' && (u[1] == 'x' || u[1] == 'X') && (|u| == 2 || DigitValue(u[2], 16) < 0))
  }

  /** An unsigned number: a `0x`/`0X` prefix switches to base 16. */
  function ReadMagnitude(u: string): (r: Num)
    ensures r.Int? <==> StartsNumber(u)
    ensures r.Int? ==> r.i >= 0
  {
    if |u| >= 2 && u[0] == '0' && (u[1] == 'x' || u[1] == 'X') then ReadDigits(u[2..], 16)
    else ReadDigits(u, 10)
  }

  function Negate(r: Num): Num
  {
    match r
    case NaN => NaN
    case Int(i) => Int(-i)
  }

  /** `parseInt(s)` with no radix: skip leading white space, read an optional
      sign, then the magnitude; no digit at all gives NaN. */
  function ParseIntText(s: string): (r: Num)
    ensures var t := TrimStart(s);
      var u := if |t| > 0 && (t[0] == '-' || t[0] == '+') then t[1..] else t;
      r.Int? <==> StartsNumber(u)
    ensures var t := TrimStart(s);
      r.Int? ==> (if |t| > 0 && t[0] == '-' then r.i <= 0 else r.i >= 0)
  {
    var t := TrimStart(s);
    if |t| > 0 && t[0] == '-' then Negate(ReadMagnitude(t[1..]))
    else if |t| > 0 && t[0] == '+' then ReadMagnitude(t[1..])
    else ReadMagnitude(t)
  }

  /** `parseInt(v)` for a request-body field: the field is first converted to
      a string, so an integer reads back as itself and the literals `undefined`,
      `null`, `true` and `false` have no digit to read. */
  function ParseInt(v: JsonValue): (r: Num)
    ensures v.Number? ==> r == Int(v.n)
    ensures v.Absent? || v.Null? || v.Bool? ==> r == NaN
  {
    var s := ToJsString(v);
    if v.Number? then
      ParseIntDecimalString(v.n);
      ParseIntText(s)
    else if v.Text? then
      ParseIntText(s)
    else
      assert s[0] == 'u' || s[0] == 'n' || s[0] == 't' || s[0] == 'f';
      ParseIntNoDigit(s);
      ParseIntText(s)
  }

  // ---------------------------------------------------------------------------
  // Properties
  // ---------------------------------------------------------------------------

  lemma {:induction false} DigitsValueOfNatDigits(n: nat)
    ensures DigitsValue(NatDigits(n), 10) == n
    decreases n
  {
    var s := NatDigits(n);
    if n >= 10 {
      DigitsValueOfNatDigits(n / 10);
      assert s[..|s| - 1] == NatDigits(n / 10);
    }
  }

  lemma DigitRunOfDigits(s: string)
    requires forall k :: 0 <= k < |s| ==> IsDecimalDigit(s[k])
    ensures DigitRun(s, 10) == |s|
  {
  }

  /** Text that cannot continue a number: empty, or led by a character that is
      neither a decimal digit nor the `x` of a hexadecimal prefix. */
  predicate EndsNumber(rest: string)
  {
    rest == [] || (!IsDecimalDigit(rest[0]) && rest[0] != 'x' && rest[0] != 'X')
  }

  lemma {:induction false} DigitRunStops(d: string, rest: string)
    requires forall k :: 0 <= k < |d| ==> IsDecimalDigit(d[k])
    requires EndsNumber(rest)
    ensures DigitRun(d + rest, 10) == |d|
    decreases |d|
  {
    if |d| == 0 {
      assert d + rest == rest;
    } else {
      assert (d + rest)[1..] == d[1..] + rest;
      DigitRunStops(d[1..], rest);
    }
  }

  /** The digits of `n` followed by text that cannot continue them read back as `n`. */
  lemma ReadDecimalDigits(n: nat, rest: string)
    requires EndsNumber(rest)
    ensures ReadMagnitude(NatDigits(n) + rest) == Int(n)
  {
    var d := NatDigits(n);
    var u := d + rest;
    assert !(|u| >= 2 && u[0] == '0' && (u[1] == 'x' || u[1] == 'X')) by {
      if |u| >= 2 && |d| == 1 { assert u[1] == rest[0]; }
      if |u| >= 2 && |d| >= 2 { assert u[1] == d[1] && IsDecimalDigit(d[1]); }
    }
    DigitRunStops(d, rest);
    assert u[..|d|] == d;
    DigitsValueOfNatDigits(n);
  }

  lemma ParseIntUnsigned(t: string)
    requires |t| > 0 && IsDecimalDigit(t[0])
    ensures ParseIntText(t) == ReadMagnitude(t)
  {
    assert !IsJsWhiteSpace(t[0]);
    assert TrimStart(t) == t;
  }

  lemma ParseIntMinus(t: string)
    requires |t| > 0 && t[0] == '-'
    ensures ParseIntText(t) == Negate(ReadMagnitude(t[1..]))
  {
    assert !IsJsWhiteSpace(t[0]);
    assert TrimStart(t) == t;
  }

  lemma ParseIntNegativeDigits(m: nat, rest: string)
    requires EndsNumber(rest)
    ensures ParseIntText(['-'] + (NatDigits(m) + rest)) == Int(-(m as int))
  {
    var t := NatDigits(m) + rest;
    ParseIntMinus(['-'] + t);
    assert (['-'] + t)[1..] == t;
    ReadDecimalDigits(m, rest);
  }

  lemma ParseIntNonNegativeDigits(m: nat, rest: string)
    requires EndsNumber(rest)
    ensures ParseIntText(NatDigits(m) + rest) == Int(m)
  {
    var t := NatDigits(m) + rest;
    assert t[0] == NatDigits(m)[0];
    ParseIntUnsigned(t);
    ReadDecimalDigits(m, rest);
  }

  /** parseInt reads a rendered integer back, even when other text follows it:
      `parseInt(String(n) + rest) == n`. */
  lemma ParseIntDecimalPrefix(n: int, rest: string)
    requires EndsNumber(rest)
    ensures ParseIntText(DecimalString(n) + rest) == Int(n)
  {
    if n < 0 {
      var m: nat := -n;
      assert DecimalString(n) + rest == ['-'] + (NatDigits(m) + rest);
      ParseIntNegativeDigits(m, rest);
    } else {
      ParseIntNonNegativeDigits(n, rest);
    }
  }

  /** parseInt undoes the decimal rendering of an integer: `parseInt(String(n)) == n`. */
  lemma ParseIntDecimalString(n: int)
    ensures ParseIntText(DecimalString(n)) == Int(n)
  {
    ParseIntDecimalPrefix(n, []);
    assert DecimalString(n) + [] == DecimalString(n);
  }

  /** The form-field string "0" parses to 0. */
  lemma ParseIntZeroText()
    ensures ParseInt(Text("0")) == Int(0)
  {
    assert NatDigits(0) + [] == "0";
    ParseIntNonNegativeDigits(0, []);
  }

  /** Text that starts with neither white space, a sign nor a digit parses to NaN. */
  lemma ParseIntNoDigit(s: string)
    requires |s| > 0 && !IsJsWhiteSpace(s[0]) && !IsDecimalDigit(s[0]) && s[0] != '-' && s[0] != '+'
    ensures ParseIntText(s) == NaN
  {
    assert TrimStart(s) == s;
  }
}
