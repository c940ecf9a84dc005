/**
 * PHP values as the modelled code sees them (message contents, registry data,
 * cursor items) and the few PHP conversions the code relies on: truthiness,
 * `isset` on an array key, string conversion, integer-string parsing and trim().
 */
module PhpValues {

  /** A PHP value; arrays are modelled with string keys only. */
  datatype Value =
    | Null
    | Bool(b: bool)
    | Int(i: int)
    | Str(s: string)
    | Arr(entries: map<string, Value>)

  /** PHP's conversion to boolean, as used by `if ($x)`. */
  predicate Truthy(v: Value) {
    match v
    case Null => false
    case Bool(b) => b
    case Int(i) => i != 0
    case Str(s) => s != "" && s != "0"
    case Arr(m) => |m| > 0
  }

  /** `isset($v[$key])`: $v is an array holding key with a non-null value. */
  predicate IsSet(v: Value, key: string) {
    v.Arr? && key in v.entries && v.entries[key] != Null
  }

  /** `$v[$key]`, which PHP reads as null for a missing key or a non-array. */
  function Index(v: Value, key: string): (r: Value)
    ensures r != Null ==> v.Arr? && key in v.entries && r == v.entries[key]
    ensures IsSet(v, key) ==> r == v.entries[key]
  {
    if v.Arr? && key in v.entries then v.entries[key] else Null
  }

  // ---- decimal digits -------------------------------------------------------

  predicate IsDigit(c: char) { '0' <= c <= '9' }

  function DigitValue(c: char): nat
    requires IsDigit(c)
  {
    c as int - '0' as int
  }

  function DigitChar(d: nat): (c: char)
    requires d < 10
    ensures IsDigit(c) && DigitValue(c) == d
  {
    ('0' as int + d) as char
  }

  predicate AllDigits(s: string) {
    forall k :: 0 <= k < |s| ==> IsDigit(s[k])
  }

  /** The value of a run of decimal digits (0 for the empty run). */
  function DigitsValue(s: string): nat
    requires AllDigits(s)
  {
    if s == [] then 0 else DigitsValue(s[..|s| - 1]) * 10 + DigitValue(s[|s| - 1])
  }

  /** Decimal notation of a natural number, without leading zeros. */
  function NatToString(n: nat): (s: string)
    ensures |s| > 0 && AllDigits(s)
    decreases n
  {
    if n < 10 then [DigitChar(n)] else NatToString(n / 10) + [DigitChar(n % 10)]
  }

  lemma {:induction false} NatToStringRoundTrip(n: nat)
    ensures DigitsValue(NatToString(n)) == n
  {
    if n >= 10 {
      NatToStringRoundTrip(n / 10);
      var s := NatToString(n);
      assert s[..|s| - 1] == NatToString(n / 10);
    }
  }

  /** PHP's string conversion of an integer. */
  function IntToString(i: int): (s: string)
    ensures |s| > 0
  {
    if i < 0 then "-" + NatToString(-i) else NatToString(i)
  }

  /**
   * The integer forms accepted by is_numeric: an optional sign, then at least
   * one digit.
   */
  predicate IsIntegerString(s: string) {
    if |s| > 0 && (s[0] == '-' || s[0] == '+') then |s| > 1 && AllDigits(s[1..])
    else |s| > 0 && AllDigits(s)
  }

  function IntegerValue(s: string): int
    requires IsIntegerString(s)
  {
    if s[0] == '-' then -(DigitsValue(s[1..]) as int)
    else if s[0] == '+' then DigitsValue(s[1..])
    else DigitsValue(s)
  }

  lemma IntToStringRoundTrip(i: int)
    ensures IsIntegerString(IntToString(i)) && IntegerValue(IntToString(i)) == i
  {
    if i < 0 {
      NatToStringRoundTrip(-i);
      assert IntToString(i)[1..] == NatToString(-i);
    } else {
      NatToStringRoundTrip(i);
    }
  }

  /** Distinct integers have distinct string forms. */
  lemma IntToStringInjective(a: int, b: int)
    requires IntToString(a) == IntToString(b)
    ensures a == b
  {
    IntToStringRoundTrip(a);
    IntToStringRoundTrip(b);
  }

  /** The longest run of digits at the start of s. */
  function DigitPrefix(s: string): (p: string)
    ensures AllDigits(p) && |p| <= |s| && p == s[..|p|]
    ensures |p| < |s| ==> !IsDigit(s[|p|])
  {
    if s != [] && IsDigit(s[0]) then [s[0]] + DigitPrefix(s[1..]) else []
  }

  lemma {:induction false} DigitPrefixOfDigits(d: string, rest: string)
    requires AllDigits(d)
    requires rest == [] || !IsDigit(rest[0])
    ensures DigitPrefix(d + rest) == d
  {
    if d != [] {
      assert (d + rest)[1..] == d[1..] + rest;
      DigitPrefixOfDigits(d[1..], rest);
    }
  }

  /**
   * PHP's conversion of a leading-numeric string to a number, for integer
   * prefixes: an optional sign and the longest run of digits after it; 0 when
   * the string does not start with a number.
   */
  function LeadingInteger(s: string): int {
    if |s| > 0 && s[0] == '-' then -(DigitsValue(DigitPrefix(s[1..])) as int)
    else if |s| > 0 && s[0] == '+' then DigitsValue(DigitPrefix(s[1..]))
    else DigitsValue(DigitPrefix(s))
  }

  /** Digits followed by a non-digit read back as their value. */
  lemma LeadingIntegerOfDigits(d: string, suffix: string)
    requires |d| > 0 && AllDigits(d)
    requires suffix == [] || !IsDigit(suffix[0])
    ensures LeadingInteger(d + suffix) == DigitsValue(d)
  {
    DigitPrefixOfDigits(d, suffix);
    assert (d + suffix)[0] == d[0];
  }

  /** A leading minus sign negates what follows it. */
  lemma LeadingIntegerOfMinus(t: string)
    ensures LeadingInteger(['-'] + t) == -(DigitsValue(DigitPrefix(t)) as int)
  {
    assert (['-'] + t)[1..] == t;
  }

  /** A minus sign, digits and a non-digit read back as the negated value of the digits. */
  lemma LeadingIntegerOfNegated(d: string, suffix: string)
    requires |d| > 0 && AllDigits(d)
    requires suffix == [] || !IsDigit(suffix[0])
    ensures LeadingInteger("-" + d + suffix) == -(DigitsValue(d) as int)
  {
    assert "-" + d + suffix == ['-'] + (d + suffix);
    LeadingIntegerOfMinus(d + suffix);
    DigitPrefixOfDigits(d, suffix);
  }

  /** An integer written out and followed by a non-digit reads back as itself. */
  lemma LeadingIntegerOfSuffixed(i: int, suffix: string)
    requires suffix == [] || !IsDigit(suffix[0])
    ensures LeadingInteger(IntToString(i) + suffix) == i
  {
    if i < 0 {
      LeadingIntegerOfNegated(NatToString(-i), suffix);
      NatToStringRoundTrip(-i);
    } else {
      LeadingIntegerOfDigits(NatToString(i), suffix);
      NatToStringRoundTrip(i);
    }
  }

  // ---- string conversion ------------------------------------------------------

  /** PHP's conversion of a value to string, as done by the `.` operator. */
  function StringOf(v: Value): string {
    match v
    case Null => ""
    case Bool(b) => if b then "1" else ""
    case Int(i) => IntToString(i)
    case Str(s) => s
    case Arr(_) => "Array"
  }

  // ---- trim() and strtolower() ------------------------------------------------

  /** The characters trim() strips by default: " \t\n\r\0\x0B". */
  predicate IsTrimChar(c: char) {
    c == ' ' || c == '\t' || c == '\n' || c == '\r' || c == '\0' || c == '\U{000B}'
  }

  function TrimLeft(s: string): (r: string)
    ensures |r| <= |s| && r == s[|s| - |r|..]
    ensures r != [] ==> !IsTrimChar(r[0])
    ensures forall k :: 0 <= k < |s| - |r| ==> IsTrimChar(s[k])
  {
    if s != [] && IsTrimChar(s[0]) then TrimLeft(s[1..]) else s
  }

  function TrimRight(s: string): (r: string)
    ensures |r| <= |s| && r == s[..|r|]
    ensures r != [] ==> !IsTrimChar(r[|r| - 1])
    ensures forall k :: |r| <= k < |s| ==> IsTrimChar(s[k])
  {
    if s != [] && IsTrimChar(s[|s| - 1]) then TrimRight(s[..|s| - 1]) else s
  }

  /** PHP's trim(): what remains once the default characters are stripped at both ends. */
  function Trim(s: string): (r: string)
    ensures r != [] ==> !IsTrimChar(r[0]) && !IsTrimChar(r[|r| - 1])
  {
    TrimRight(TrimLeft(s))
  }

  /** A string that neither starts nor ends with a trimmed character is its own trim. */
  lemma TrimKeeps(s: string)
    requires s != [] ==> !IsTrimChar(s[0]) && !IsTrimChar(s[|s| - 1])
    ensures Trim(s) == s
  {
  }

  /** strtolower() on one character (ASCII letters only). */
  function LowerChar(c: char): char {
    if 'A' <= c <= 'Z' then (c as int + 32) as char else c
  }
}
