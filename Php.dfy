// PHP scalar values as the plugin reads them back from post metadata, with the
// language's (int) cast, (string) rendering of an int, and empty().

module Php {

  const MaxInt64: int := 0x7FFF_FFFF_FFFF_FFFF
  const MinInt64: int := -0x8000_0000_0000_0000

  /** A PHP int on a 64-bit platform: PHP_INT_MIN .. PHP_INT_MAX. */
  type Int64 = x: int | MinInt64 <= x <= MaxInt64

  datatype Option<T> = None | Some(value: T)

  /** A scalar as stored in or read from post metadata. Floats are not modelled. */
  datatype Value = Int(i: Int64) | Str(s: string) | Bool(b: bool) | Null

  predicate IsDigit(c: char) { '0' <= c <= '9' }

  predicate AllDigits(d: string) {
    forall k :: 0 <= k < |d| ==> IsDigit(d[k])
  }

  function DigitValue(c: char): (n: nat)
    requires IsDigit(c)
    ensures n < 10
  {
    c as int - '0' as int
  }

  function DigitChar(n: nat): (c: char)
    requires n < 10
    ensures IsDigit(c) && DigitValue(c) == n
  {
    ('0' as int + n) as char
  }

  /** The whitespace PHP skips in front of a numeric string. */
  predicate IsSpace(c: char) {
    c == ' ' || c == '\t' || c == '\n' || c == '\r' || c as int == 11 || c as int == 12
  }

  function TrimLeft(s: string): string {
    if s != [] && IsSpace(s[0]) then TrimLeft(s[1..]) else s
  }

  /** The longest prefix of `s` made of decimal digits. */
  function DigitPrefix(s: string): (d: string)
    ensures AllDigits(d) && |d| <= |s| && d == s[..|d|]
  {
    if s != [] && IsDigit(s[0]) then [s[0]] + DigitPrefix(s[1..]) else []
  }

  /** The number a string of decimal digits denotes (most significant digit first). */
  function DigitsValue(d: string): nat
    requires AllDigits(d)
  {
    if d == [] then 0 else DigitsValue(d[..|d| - 1]) * 10 + DigitValue(d[|d| - 1])
  }

  /** Out-of-range numeric strings saturate when cast to int. */
  function Saturate(n: int): (r: Int64)
    ensures MinInt64 <= n <= MaxInt64 ==> r == n
    ensures n > MaxInt64 ==> r == MaxInt64
    ensures n < MinInt64 ==> r == MinInt64
  {
    if n > MaxInt64 then MaxInt64 else if n < MinInt64 then MinInt64 else n
  }

  /** PHP's (int) cast of a string: leading whitespace, an optional sign, then the leading digits. */
  function StringToInt(s: string): Int64 {
    var t := TrimLeft(s);
    if t != [] && t[0] == '-' then Saturate(-(DigitsValue(DigitPrefix(t[1..])) as int))
    else if t != [] && t[0] == '+' then Saturate(DigitsValue(DigitPrefix(t[1..])))
    else Saturate(DigitsValue(DigitPrefix(t)))
  }

  /** PHP's (int) cast. */
  function IntCast(v: Value): Int64 {
    match v
    case Int(i) => i
    case Str(s) => StringToInt(s)
    case Bool(b) => if b then 1 else 0
    case Null => 0
  }

  /** Decimal digits of a natural number, without leading zeros. */
  function NatDigits(n: nat): string
    decreases n
  {
    if n < 10 then [DigitChar(n)] else NatDigits(n / 10) + [DigitChar(n % 10)]
  }

  /** PHP's (string) cast of an int. */
  function Render(n: int): string {
    if n < 0 then "-" + NatDigits(-n) else NatDigits(n)
  }

  /** PHP's empty(): "", "0", 0, false and null are empty. */
  predicate Empty(v: Value) {
    match v
    case Int(i) => i == 0
    case Str(s) => s == "" || s == "0"
    case Bool(b) => !b
    case Null => true
  }

  /** PHP's truthiness in `if ($x)`. */
  predicate Truthy(v: Value) {
    !Empty(v)
  }
}
