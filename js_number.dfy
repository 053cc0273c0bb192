/**
 * The two JavaScript conversions the pagination parameters go through:
 * `String(value)` of a query value and `parseInt(text, 10)`.
 */
module JsNumber {
  import opened Wrappers
  import opened JsonText

  /** `String(v)` of a query value: arrays are joined with commas, objects print as `[object Object]`. */
  function JsToString(v: QValue): string
    decreases v, 1
  {
    match v
    case Str(s) => s
    case Arr(items) => JoinItems(items)
    case Obj(_) => "[object Object]"
  }

  function JoinItems(items: seq<QValue>): string
    decreases items, 0
  {
    if items == [] then ""
    else if |items| == 1 then JsToString(items[0])
    else JsToString(items[0]) + "," + JoinItems(items[1..])
  }

  /** `String(x)` of a parameter that may be missing (`undefined`). */
  function ArgString(v: Option<QValue>): string {
    match v
    case None => "undefined"
    case Some(x) => JsToString(x)
  }

  /** The white space and line terminators `parseInt` skips before the number. */
  predicate IsJsWhitespace(c: char) {
    || c == '\t' || c == '\n' || c == 0x0B as char || c == 0x0C as char || c == '\r' || c == ' '
    || c == 0xA0 as char || c == 0x1680 as char || (0x2000 as char <= c <= 0x200A as char)
    || c == 0x2028 as char || c == 0x2029 as char || c == 0x202F as char || c == 0x205F as char
    || c == 0x3000 as char || c == 0xFEFF as char
  }

  predicate IsDigit(c: char) {
    '0' <= c <= '9'
  }

  predicate AllDigits(d: string) {
    forall i :: 0 <= i < |d| ==> IsDigit(d[i])
  }

  /** The text after the leading white space. */
  function TrimStart(s: string): (r: string)
    ensures |r| <= |s|
  {
    if s != [] && IsJsWhitespace(s[0]) then TrimStart(s[1..]) else s
  }

  /** The longest prefix of decimal digits. */
  function DigitRun(s: string): (d: string)
    ensures AllDigits(d)
  {
    if s == [] || !IsDigit(s[0]) then [] else [s[0]] + DigitRun(s[1..])
  }

  /** The value of a digit string read left to right. */
  function DigitsValue(d: string): nat
    requires AllDigits(d)
  {
    if d == [] then 0 else DigitsValue(d[..|d| - 1]) * 10 + (d[|d| - 1] as int - '0' as int)
  }

  /** The number after the sign, if any digit follows. */
  function SignedValue(negative: bool, d: string): Option<int>
    requires AllDigits(d)
  {
    if d == [] then None
    else if negative then Some(-(DigitsValue(d) as int))
    else Some(DigitsValue(d))
  }

  /** The sign `parseInt` reads, and the text after it. */
  function Sign(t: string): (bool, string) {
    if t != [] && t[0] == '-' then (true, t[1..])
    else if t != [] && t[0] == '+' then (false, t[1..])
    else (false, t)
  }

  /** `parseInt` of text that does not start with white space. */
  function ParseSigned(t: string): Option<int> {
    var (negative, u) := Sign(t);
    SignedValue(negative, DigitRun(u))
  }

  /**
   * `parseInt(s, 10)`: skip white space, read an optional sign and the longest
   * run of digits; no digit at all gives `NaN`, here None. The value is exact:
   * the rounding of a float beyond 2^53 is not modelled.
   */
  function ParseInt(s: string): Option<int> {
    ParseSigned(TrimStart(s))
  }

  /** What TrimStart removes is white space, and what it keeps does not start with white space. */
  lemma {:induction false} TrimStartSpec(s: string)
    ensures var r := TrimStart(s);
      && r == s[|s| - |r|..]
      && (r == [] || !IsJsWhitespace(r[0]))
      && (forall i :: 0 <= i < |s| - |r| ==> IsJsWhitespace(s[i]))
  {
    if s != [] && IsJsWhitespace(s[0]) {
      TrimStartSpec(s[1..]);
    }
  }

  /** DigitRun is the longest prefix of digits. */
  lemma {:induction false} DigitRunSpec(s: string)
    ensures var d := DigitRun(s);
      && |d| <= |s| && d == s[..|d|]
      && (|d| == |s| || !IsDigit(s[|d|]))
  {
    if s != [] && IsDigit(s[0]) {
      DigitRunSpec(s[1..]);
    }
  }

  /** `parseInt(x, 10) || d`: the parsed number unless it is `NaN` or zero. */
  function IntOr(v: Option<QValue>, d: int): (n: int)
    requires d != 0
    ensures n != 0
    ensures ParseInt(ArgString(v)).Some? && ParseInt(ArgString(v)).value != 0 ==> n == ParseInt(ArgString(v)).value
    ensures ParseInt(ArgString(v)) == None || ParseInt(ArgString(v)) == Some(0) ==> n == d
  {
    match ParseInt(ArgString(v))
    case None => d
    case Some(k) => if k == 0 then d else k
  }

  // ---------------------------------------------------------------------------
  // Decimal text

  function DigitChar(n: nat): (c: char)
    requires n < 10
    ensures IsDigit(c) && c as int - '0' as int == n
  {
    ('0' as int + n) as char
  }

  /** The decimal digits of n, without leading zeros. */
  function NatText(n: nat): (t: string)
    ensures t != [] && AllDigits(t)
  {
    if n < 10 then [DigitChar(n)] else NatText(n / 10) + [DigitChar(n % 10)]
  }

  /** The decimal text of an integer, as `String(n)` writes it. */
  function DecimalText(n: int): string {
    if n < 0 then "-" + NatText(-n) else NatText(n)
  }

  lemma {:induction false} NatTextValue(n: nat)
    ensures DigitsValue(NatText(n)) == n
  {
    var t := NatText(n);
    if n >= 10 {
      NatTextValue(n / 10);
      assert t[..|t| - 1] == NatText(n / 10);
    }
  }

  /** Reading digits stops exactly at the end of a digit string. */
  lemma {:induction false} DigitRunStops(d: string, rest: string)
    requires AllDigits(d) && (rest == [] || !IsDigit(rest[0]))
    ensures DigitRun(d + rest) == d
  {
    if d == [] {
      assert d + rest == rest;
    } else {
      assert (d + rest)[0] == d[0] && (d + rest)[1..] == d[1..] + rest;
      DigitRunStops(d[1..], rest);
      assert [d[0]] + d[1..] == d;
    }
  }

  /**
   * Digits after an optional minus sign, followed by anything that is not a
   * digit, parse to their value.
   */
  lemma ParseDigits(negative: bool, d: string, rest: string)
    requires d != [] && AllDigits(d) && (rest == [] || !IsDigit(rest[0]))
    ensures ParseInt((if negative then "-" else "") + d + rest) == SignedValue(negative, d)
  {
    var u := d + rest;
    var t := (if negative then "-" else "") + d + rest;
    DigitRunStops(d, rest);
    assert u[0] == d[0];
    if negative {
      assert t == ['-'] + u;
      assert t[0] == '-' && t[1..] == u;
    } else {
      assert t == u;
    }
    assert TrimStart(t) == t;
    assert Sign(t) == (negative, u);
  }

  /** `parseInt` reads back the decimal text of every integer. */
  lemma ParseDecimal(n: int)
    ensures ParseInt(DecimalText(n)) == Some(n)
  {
    var m: nat := if n < 0 then -n else n;
    var t := NatText(m);
    NatTextValue(m);
    ParseDigits(n < 0, t, []);
    assert (if n < 0 then "-" else "") + t + [] == DecimalText(n);
  }

  /** Reading stops at the first character that is not a digit, so `parseInt("2,3")` is 2. */
  lemma ParseStopsAtNonDigit(n: nat, rest: string)
    requires rest == [] || !IsDigit(rest[0])
    ensures ParseInt(NatText(n) + rest) == Some(n)
  {
    NatTextValue(n);
    ParseDigits(false, NatText(n), rest);
    assert "" + NatText(n) + rest == NatText(n) + rest;
  }

  /** Text that starts with neither a digit, a sign nor white space is `NaN`. */
  lemma ParseNoNumber(s: string)
    requires s == [] || !(IsDigit(s[0]) || s[0] == '-' || s[0] == '+' || IsJsWhitespace(s[0]))
    ensures ParseInt(s) == None
  {
    assert TrimStart(s) == s;
    assert Sign(s) == (false, s);
    assert DigitRun(s) == [];
  }

  /** A missing parameter and an object parameter both read as `NaN`. */
  lemma MissingOrObjectIsNaN(fields: seq<Field>)
    ensures ParseInt(ArgString(None)) == None
    ensures ParseInt(ArgString(Some(Obj(fields)))) == None
  {
    ParseNoNumber("undefined");
    ParseNoNumber("[object Object]");
  }
}
