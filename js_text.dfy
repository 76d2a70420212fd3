/**
 * The few JavaScript string and number built-ins the core relies on, over
 * Dafny strings: the decimal rendering of an integral number (template
 * literals, `toString()`), `String.prototype.startsWith`, `parseInt(s, 10)`
 * and the UTF-16 length that `string.length` reports.
 */
module JsText {
  import opened Wrappers

  predicate IsDigit(c: char) {
    '0' <= c <= '9'
  }

  predicate AllDigits(s: string) {
    forall i :: 0 <= i < |s| ==> IsDigit(s[i])
  }

  function DigitChar(d: int): (c: char)
    requires 0 <= d < 10
    ensures IsDigit(c)
  {
    ('0' as int + d) as char
  }

  function DigitValue(c: char): (d: int)
    requires IsDigit(c)
    ensures 0 <= d < 10 && DigitChar(d) == c
  {
    c as int - '0' as int
  }

  /** The value of a string of decimal digits, most significant first. */
  function DigitsValue(s: string): nat
    requires AllDigits(s)
  {
    if s == [] then 0 else DigitsValue(s[..|s| - 1]) * 10 + DigitValue(s[|s| - 1])
  }

  /** Decimal rendering of a non-negative integer, without leading zeros. */
  function NatToString(n: nat): (s: string)
    ensures |s| >= 1 && AllDigits(s)
    ensures s[0] == '0' ==> n == 0
  {
    if n < 10 then [DigitChar(n)] else NatToString(n / 10) + [DigitChar(n % 10)]
  }

  /** What JavaScript prints for an integral number (`${n}`, `n.toString()`). */
  function IntToString(n: int): (s: string)
    ensures |s| >= 1
    ensures s[0] == '-' <==> n < 0
  {
    if n < 0 then "-" + NatToString(-n) else NatToString(n)
  }

  predicate StartsWith(s: string, prefix: string) {
    |prefix| <= |s| && s[..|prefix|] == prefix
  }

  /** The first decimal digit of a non-negative integer. */
  function LeadingDigit(n: nat): (d: nat)
    ensures d < 10
  {
    if n < 10 then n else LeadingDigit(n / 10)
  }

  lemma {:induction false} NatToStringLeads(n: nat)
    ensures NatToString(n)[0] == DigitChar(LeadingDigit(n))
  {
    if n >= 10 {
      NatToStringLeads(n / 10);
    }
  }

  /** A three-digit number leads with its hundreds digit. */
  lemma LeadingDigitOfThreeDigits(n: nat)
    requires 100 <= n < 1000
    ensures LeadingDigit(n) == n / 100
  {
    var m := n / 10;
    assert 10 <= m < 100;
    assert LeadingDigit(n) == LeadingDigit(m);
    assert LeadingDigit(m) == LeadingDigit(m / 10);
    assert m / 10 == n / 100;
  }

  /** `${n}`.startsWith(d) for a digit d holds exactly for non-negative n led by d. */
  lemma {:induction false} IntToStringStartsWithDigit(n: int, d: nat)
    requires d < 10
    ensures StartsWith(IntToString(n), [DigitChar(d)]) <==> n >= 0 && LeadingDigit(n) == d
  {
    if n >= 0 {
      NatToStringLeads(n);
    }
  }

  lemma {:induction false} DigitsValueOfNatToString(n: nat)
    ensures DigitsValue(NatToString(n)) == n
  {
    if n >= 10 {
      var s := NatToString(n / 10) + [DigitChar(n % 10)];
      assert s[..|s| - 1] == NatToString(n / 10);
      DigitsValueOfNatToString(n / 10);
    }
  }

  // ----- parseInt(s, 10) -----

  /**
   * ECMAScript's StrWhiteSpaceChar: the WhiteSpace code points (tab, vertical
   * tab, form feed, space, no-break space, the byte order mark and the other
   * space separators) and the LineTerminator code points.
   */
  predicate IsJsWhitespace(c: char) {
    var k := c as int;
    if k <= 0x20 then
      k == 0x09 || k == 0x0A || k == 0x0B || k == 0x0C || k == 0x0D || k == 0x20
    else if k < 0xA0 then
      false
    else
      k == 0xA0 || k == 0x1680 || (0x2000 <= k <= 0x200A) || k == 0x2028 || k == 0x2029
      || k == 0x202F || k == 0x205F || k == 0x3000 || k == 0xFEFF
  }

  function TrimStart(s: string): (t: string)
    ensures |t| <= |s| && t == s[|s| - |t|..]
    ensures t == [] || !IsJsWhitespace(t[0])
  {
    if s != [] && IsJsWhitespace(s[0]) then TrimStart(s[1..]) else s
  }

  /** What TrimStart drops is white space only. */
  lemma {:induction false} TrimStartDropsWhitespace(s: string, i: nat)
    requires i < |s| - |TrimStart(s)|
    ensures IsJsWhitespace(s[i])
  {
    if i > 0 {
      TrimStartDropsWhitespace(s[1..], i - 1);
    }
  }

  /** The longest prefix of s made of decimal digits. */
  function LeadingDigits(s: string): (z: string)
    ensures |z| <= |s| && z == s[..|z|] && AllDigits(z)
    ensures |z| == |s| || !IsDigit(s[|z|])
  {
    if s != [] && IsDigit(s[0]) then [s[0]] + LeadingDigits(s[1..]) else []
  }

  /**
   * `parseInt(s, 10)`: skip leading white space, take an optional sign, then the
   * longest run of decimal digits; NaN (None) exactly when that run is empty.
   */
  function ParseInt(s: string): (r: Option<int>)
    ensures r.None? <==>
      var t := TrimStart(s);
      var u := if t != [] && (t[0] == '-' || t[0] == '+') then t[1..] else t;
      u == [] || !IsDigit(u[0])
  {
    var t := TrimStart(s);
    if t != [] && t[0] == '-' then
      (match ParseDigits(t[1..]) case None => None case Some(v) => Some(0 - v))
    else if t != [] && t[0] == '+' then ParseDigits(t[1..])
    else ParseDigits(t)
  }

  /** The value of the leading run of digits of u, or None when u does not start with one. */
  function ParseDigits(u: string): (r: Option<nat>)
    ensures r.None? <==> u == [] || !IsDigit(u[0])
  {
    var z := LeadingDigits(u);
    if z == [] then None else Some(DigitsValue(z))
  }

  lemma {:induction false} LeadingDigitsOfDigitsThenOther(z: string, tail: string)
    requires AllDigits(z)
    requires tail == [] || !IsDigit(tail[0])
    ensures LeadingDigits(z + tail) == z
  {
    if z != [] {
      assert (z + tail)[1..] == z[1..] + tail;
      LeadingDigitsOfDigitsThenOther(z[1..], tail);
    } else {
      assert z + tail == tail;
    }
  }

  /** The digits of a rendered number, followed by a non-digit, read back as that number. */
  lemma ParseDigitsOfNatToString(n: nat, tail: string)
    requires tail == [] || !IsDigit(tail[0])
    ensures ParseDigits(NatToString(n) + tail) == Some(n)
  {
    DigitsValueOfNatToString(n);
    LeadingDigitsOfDigitsThenOther(NatToString(n), tail);
  }

  /**
   * parseInt reads back what the decimal rendering of an integer printed,
   * whatever non-digit text follows it (`parseInt("12abc", 10) == 12`).
   */
  lemma ParseIntOfIntToString(n: int, tail: string)
    requires tail == [] || !IsDigit(tail[0])
    ensures ParseInt(IntToString(n) + tail) == Some(n)
  {
    if n < 0 {
      ParseIntOfNegative(n, tail);
    } else {
      ParseIntOfNatToString(n, tail);
    }
  }

  lemma ParseIntOfNatToString(n: nat, tail: string)
    requires tail == [] || !IsDigit(tail[0])
    ensures ParseInt(NatToString(n) + tail) == Some(n)
  {
    var s := NatToString(n) + tail;
    ParseDigitsOfNatToString(n, tail);
    assert s[0] == NatToString(n)[0];
    assert !IsJsWhitespace(s[0]);
    assert TrimStart(s) == s;
  }

  lemma ParseIntOfNegative(n: int, tail: string)
    requires n < 0
    requires tail == [] || !IsDigit(tail[0])
    ensures ParseInt("-" + NatToString(-n) + tail) == Some(n)
  {
    ParseDigitsOfNatToString(-n, tail);
    ParseIntMinus(NatToString(-n), tail, -n);
  }

  /** A minus sign in front negates what the digits after it read as. */
  lemma ParseIntMinus(digits: string, tail: string, m: nat)
    requires ParseDigits(digits + tail) == Some(m)
    ensures ParseInt("-" + digits + tail) == Some(0 - m)
  {
    var s := "-" + digits + tail;
    assert s[1..] == digits + tail;
    assert !IsJsWhitespace(s[0]);
    assert TrimStart(s) == s;
  }

  // ----- string.length -----

  /** The number of UTF-16 code units of s, which is what JavaScript's `length` counts. */
  function Utf16Length(s: string): (n: nat)
    ensures |s| <= n <= 2 * |s|
    ensures (forall i :: 0 <= i < |s| ==> s[i] as int < 0x10000) ==> n == |s|
  {
    if s == [] then 0 else (if s[0] as int < 0x10000 then 1 else 2) + Utf16Length(s[1..])
  }
}
