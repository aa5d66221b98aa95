/** Decimal text for integers as JavaScript writes and reads it:
    `String(n)`, `String.prototype.padStart` and the global `parseInt`
    without a radix argument. Numbers are unbounded here; the precision
    limits of IEEE doubles are not modelled. */
module Numerals {
  import opened Outcomes
  import opened Text

  predicate IsDigit(c: char) {
    '0' <= c <= '9'
  }

  predicate AllDigits(s: string) {
    forall k :: 0 <= k < |s| ==> IsDigit(s[k])
  }

  predicate IsHexDigit(c: char) {
    IsDigit(c) || 'a' <= c <= 'f' || 'A' <= c <= 'F'
  }

  predicate AllHexDigits(s: string) {
    forall k :: 0 <= k < |s| ==> IsHexDigit(s[k])
  }

  function DigitChar(d: nat): (c: char)
    requires d < 10
    ensures IsDigit(c)
  {
    ('0' as int + d) as char
  }

  function HexDigitValue(c: char): (v: nat)
    requires IsHexDigit(c)
    ensures v < 16
  {
    if IsDigit(c) then c as int - '0' as int
    else if 'a' <= c <= 'f' then c as int - 'a' as int + 10
    else c as int - 'A' as int + 10
  }

  /** The value of a string of decimal digits, most significant first. */
  function DigitsValue(s: string): nat
    requires AllDigits(s)
  {
    if |s| == 0 then 0
    else DigitsValue(s[..|s| - 1]) * 10 + (s[|s| - 1] as int - '0' as int)
  }

  /** The value of a string of hexadecimal digits, most significant first. */
  function HexValue(s: string): nat
    requires AllHexDigits(s)
  {
    if |s| == 0 then 0
    else HexValue(s[..|s| - 1]) * 16 + HexDigitValue(s[|s| - 1])
  }

  /** `String(n)` for a non-negative integer: the shortest decimal digits
      of `n`, read back by `DigitsValue`. */
  function Decimal(n: nat): (r: string)
    ensures |r| >= 1 && AllDigits(r)
    ensures |r| > 1 ==> r[0] != '0'
    ensures DigitsValue(r) == n
  {
    if n < 10 then [DigitChar(n)]
    else
      var hi := Decimal(n / 10);
      var r := hi + [DigitChar(n % 10)];
      assert r[..|r| - 1] == hi;
      r
  }

  /** `String(i)` for any integer. */
  function IntToString(i: int): (r: string)
    ensures |r| >= 1
    ensures ParseInt(r) == Some(i)
  {
    if i < 0 then ParseIntOfNegative(-i); "-" + Decimal(-i)
    else ParseIntOfDecimal(i); Decimal(i)
  }

  /** `n` copies of `c`. */
  function Repeat(c: char, n: nat): (r: string)
    ensures |r| == n
    ensures forall k :: 0 <= k < n ==> r[k] == c
  {
    seq(n, _ => c)
  }

  /** `s.padStart(width, c)`: `c` repeated in front of `s` up to `width`
      characters; a string already that long is left as it is. */
  function PadStart(s: string, width: nat, c: char): (r: string)
    ensures |r| == if |s| < width then width else |s|
    ensures r[|r| - |s|..] == s
    ensures forall k :: 0 <= k < |r| - |s| ==> r[k] == c
  {
    if |s| < width then Repeat(c, width - |s|) + s else s
  }

  /** The longest prefix of `s` made of decimal digits. */
  function DigitPrefix(s: string): (r: string)
    ensures r <= s && AllDigits(r)
    ensures |r| == |s| || !IsDigit(s[|r|])
  {
    if |s| > 0 && IsDigit(s[0]) then
      var rest := DigitPrefix(s[1..]);
      assert [s[0]] + rest <= s;
      [s[0]] + rest
    else []
  }

  /** The longest prefix of `s` made of hexadecimal digits. */
  function HexPrefix(s: string): (r: string)
    ensures r <= s && AllHexDigits(r)
    ensures |r| == |s| || !IsHexDigit(s[|r|])
  {
    if |s| > 0 && IsHexDigit(s[0]) then
      var rest := HexPrefix(s[1..]);
      assert [s[0]] + rest <= s;
      [s[0]] + rest
    else []
  }

  /** The global `parseInt(s)` with no radix: leading white space is
      skipped, one sign is read, and the rest is read by `ParseUnsigned`;
      `None` stands for `NaN`. */
  function ParseInt(s: string): Option<int> {
    var t := TrimStart(s);
    if |t| > 0 && t[0] == '-' then
      match ParseUnsigned(t[1..])
      case None => None
      case Some(v) => var n: int := v; Some(-n)
    else if |t| > 0 && t[0] == '+' then ParseUnsigned(t[1..])
    else ParseUnsigned(t)
  }

  /** The unsigned part of `parseInt`: a `0x`/`0X` prefix selects base 16,
      and the longest run of digits that follows is read; when that run is
      empty the result is `NaN` (`None`). */
  function ParseUnsigned(body: string): Option<nat> {
    if |body| >= 2 && body[0] == '0' && (body[1] == 'x' || body[1] == 'X') then
      var digits := HexPrefix(body[2..]);
      if digits == [] then None else Some(HexValue(digits))
    else
      var digits := DigitPrefix(body);
      if digits == [] then None else Some(DigitsValue(digits))
  }

  /** Leading zeros do not change the value of a digit string. */
  lemma {:induction false} LeadingZeros(z: nat, d: string)
    requires AllDigits(d)
    ensures AllDigits(Repeat('0', z) + d)
    ensures DigitsValue(Repeat('0', z) + d) == DigitsValue(d)
    decreases |d|, z
  {
    var p := Repeat('0', z) + d;
    assert AllDigits(p) by {
      forall k | 0 <= k < |p|
        ensures IsDigit(p[k])
      {
        if k >= z {
          assert p[k] == d[k - z];
        }
      }
    }
    if |d| == 0 {
      if z > 0 {
        assert p[..|p| - 1] == Repeat('0', z - 1) + [];
        LeadingZeros(z - 1, []);
      }
    } else {
      assert p[..|p| - 1] == Repeat('0', z) + d[..|d| - 1];
      LeadingZeros(z, d[..|d| - 1]);
    }
  }

  /** A run of digits that fills the whole string is its own digit prefix. */
  lemma {:induction false} DigitPrefixOfDigits(s: string)
    requires AllDigits(s)
    ensures DigitPrefix(s) == s
  {
    if |s| > 0 {
      DigitPrefixOfDigits(s[1..]);
      assert s == [s[0]] + s[1..];
    }
  }

  /** No digit is white space. */
  lemma DigitIsNotSpace(c: char)
    requires IsDigit(c)
    ensures !IsSpace(c)
  {
  }

  /** The unsigned reading of a non-empty run of decimal digits is its
      value: no hexadecimal prefix can start it. */
  lemma ParseUnsignedOfDigits(p: string)
    requires |p| >= 1 && AllDigits(p)
    ensures ParseUnsigned(p) == Some(DigitsValue(p))
  {
    assert |p| >= 2 ==> p[1] != 'x' && p[1] != 'X' by {
      if |p| >= 2 {
        assert IsDigit(p[1]);
      }
    }
    DigitPrefixOfDigits(p);
  }

  /** `parseInt` reads a non-empty run of decimal digits as its value. */
  lemma ParseIntOfDigits(p: string)
    requires |p| >= 1 && AllDigits(p)
    ensures ParseInt(p) == Some(DigitsValue(p))
  {
    assert TrimStart(p) == p by {
      DigitIsNotSpace(p[0]);
    }
    assert IsDigit(p[0]);
    ParseUnsignedOfDigits(p);
  }

  /** `parseInt` reads back what `String(n).padStart(width, "0")` wrote, for
      any width: the zero padding is harmless. */
  lemma ParseIntOfPadded(n: nat, width: nat)
    ensures ParseInt(PadStart(Decimal(n), width, '0')) == Some(n)
  {
    var d := Decimal(n);
    var p := PadStart(d, width, '0');
    var z := |p| - |d|;
    assert p == Repeat('0', z) + d;
    LeadingZeros(z, d);
    ParseIntOfDigits(p);
  }

  /** `parseInt` reads back `String(n)`. */
  lemma ParseIntOfDecimal(n: nat)
    ensures ParseInt(Decimal(n)) == Some(n)
  {
    ParseIntOfPadded(n, 0);
  }

  /** `parseInt` reads back a minus sign followed by `String(n)`. */
  lemma ParseIntOfNegative(n: nat)
    ensures ParseInt("-" + Decimal(n)) == Some(-(n as int))
  {
    var s := "-" + Decimal(n);
    var t := TrimStart(s);
    assert t == s;
    assert t[1..] == Decimal(n);
    ParseUnsignedOfDigits(Decimal(n));
  }
}
