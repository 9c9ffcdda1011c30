/** Integers as text the way JavaScript converts them: `Number.prototype.toString`
    for integral numbers (a decimal numeral, `-` for negatives) and the global
    `parseInt` without a radix (leading white space, an optional sign, a `0x`
    prefix that switches to base 16, then the longest run of digits). */
module Decimal {
  import opened Wrappers

  /** The value of `c` as a digit of a radix up to 36, letters of either case counting from 10. */
  function CharDigit(c: char): Option<nat>
  {
    if '0' <= c <= '9' then Some(c as int - '0' as int)
    else if 'a' <= c <= 'z' then Some(c as int - 'a' as int + 10)
    else if 'A' <= c <= 'Z' then Some(c as int - 'A' as int + 10)
    else None
  }

  predicate IsDigitIn(c: char, radix: nat)
  {
    CharDigit(c).Some? && CharDigit(c).value < radix
  }

  predicate IsDigit(c: char)
  {
    '0' <= c <= '9'
  }

  function DigitChar(d: nat): (c: char)
    requires d < 10
    ensures IsDigit(c) && CharDigit(c) == Some(d)
  {
    ('0' as int + d) as char
  }

  /** The decimal numeral of `n`, with no leading zero. */
  function NatToString(n: nat): (s: string)
    ensures |s| > 0
    ensures forall i :: 0 <= i < |s| ==> IsDigit(s[i])
    ensures s[0] == '0' <==> n == 0
  {
    if n < 10 then [DigitChar(n)] else NatToString(n / 10) + [DigitChar(n % 10)]
  }

  /** `String(i)` for an integral number `i`. */
  function IntToString(i: int): (s: string)
    ensures |s| > 0
    ensures IsDigit(s[0]) || s[0] == '-'
    ensures forall k :: 0 < k < |s| ==> IsDigit(s[k])
    ensures |s| > 1 ==> s[0] != '0' && (s[0] == '-' ==> s[1] != '0')
  {
    if i < 0 then "-" + NatToString(-i) else NatToString(i)
  }

  /** The white space and line terminators that `parseInt` skips before the number. */
  predicate IsJsSpace(c: char)
  {
    c == '\t' || c == '\n' || c == '\U{B}' || c == '\U{C}' || c == '\r' || c == ' '
    || c == '\U{A0}' || c == '\U{1680}' || ('\U{2000}' <= c <= '\U{200A}')
    || c == '\U{2028}' || c == '\U{2029}' || c == '\U{202F}' || c == '\U{205F}'
    || c == '\U{3000}' || c == '\U{FEFF}'
  }

  function TrimStart(s: string): string
  {
    if |s| > 0 && IsJsSpace(s[0]) then TrimStart(s[1..]) else s
  }

  /** The longest prefix of `s` made of digits of `radix`. */
  function RadixPrefix(s: string, radix: nat): (p: string)
    ensures p <= s
    ensures forall i :: 0 <= i < |p| ==> IsDigitIn(p[i], radix)
    ensures |p| < |s| ==> !IsDigitIn(s[|p|], radix)
  {
    if |s| > 0 && IsDigitIn(s[0], radix) then [s[0]] + RadixPrefix(s[1..], radix) else []
  }

  /** The number that a run of digits of `radix` denotes. */
  function RadixValue(digits: string, radix: nat): nat
    requires forall i :: 0 <= i < |digits| ==> IsDigitIn(digits[i], radix)
  {
    if digits == [] then 0
    else
      var init, last := digits[..|digits| - 1], digits[|digits| - 1];
      assert forall i :: 0 <= i < |init| ==> init[i] == digits[i];
      assert IsDigitIn(last, radix);
      var high := RadixValue(init, radix);
      NatProduct(high, radix);
      high * radix + CharDigit(last).value
  }

  lemma NatProduct(a: nat, b: nat)
    ensures a * b >= 0
  {
  }

  /** The digits after the sign: a `0x` or `0X` prefix selects base 16, otherwise base 10;
      `None` when no digit of that base comes first. */
  function ParseUnsigned(u: string): Option<nat>
  {
    var hex := |u| >= 2 && u[0] == '0' && (u[1] == 'x' || u[1] == 'X');
    var radix := if hex then 16 else 10;
    var digits := RadixPrefix(if hex then u[2..] else u, radix);
    if digits == [] then None else Some(RadixValue(digits, radix))
  }

  /** `parseInt(s)`; `None` stands for NaN, returned when no digit follows the sign. */
  function ParseInt(s: string): (r: Option<int>)
    ensures r.Some? ==> var t := TrimStart(s);
      |t| > 0 && (IsDigit(t[0]) || ((t[0] == '-' || t[0] == '+') && |t| > 1 && IsDigit(t[1])))
  {
    ParseSigned(TrimStart(s))
  }

  /** The number after the white space: an optional sign, then the digits. */
  function ParseSigned(t: string): Option<int>
  {
    if |t| > 0 && t[0] == '-' then Negate(ParseUnsigned(t[1..]))
    else if |t| > 0 && t[0] == '+' then ParseUnsigned(t[1..])
    else ParseUnsigned(t)
  }

  function Negate(m: Option<nat>): Option<int>
  {
    match m
    case None => None
    case Some(k) => Some(-(k as int))
  }

  lemma {:induction false} NatToStringValue(n: nat)
    ensures RadixValue(NatToString(n), 10) == n
  {
    var s := NatToString(n);
    if n < 10 {
      assert s[..|s| - 1] == [];
    } else {
      assert s[..|s| - 1] == NatToString(n / 10);
      NatToStringValue(n / 10);
    }
  }

  /** A run of digits followed by a non-digit (or nothing) is exactly what `RadixPrefix` takes. */
  lemma {:induction false} RadixPrefixOfDigits(p: string, rest: string, radix: nat)
    requires forall i :: 0 <= i < |p| ==> IsDigitIn(p[i], radix)
    requires rest == [] || !IsDigitIn(rest[0], radix)
    ensures RadixPrefix(p + rest, radix) == p
  {
    if p == [] {
      assert p + rest == rest;
    } else {
      assert (p + rest)[0] == p[0];
      assert (p + rest)[1..] == p[1..] + rest;
      RadixPrefixOfDigits(p[1..], rest, radix);
      assert [p[0]] + p[1..] == p;
    }
  }

  lemma ParseUnsignedNumeral(n: nat, rest: string)
    requires rest == [] || (!IsDigit(rest[0]) && rest[0] != 'x' && rest[0] != 'X')
    ensures ParseUnsigned(NatToString(n) + rest) == Some(n)
  {
    var digits := NatToString(n);
    var u := digits + rest;
    assert u[0] == digits[0];
    assert |u| >= 2 && u[0] == '0' ==> |digits| == 1 && u[1] == rest[0];
    assert forall k :: 0 <= k < |digits| ==> IsDigitIn(digits[k], 10);
    RadixPrefixOfDigits(digits, rest, 10);
    NatToStringValue(n);
  }

  /** A numeral after a minus sign reads back as the negated number. */
  lemma ParseIntNegative(n: nat, rest: string)
    requires rest == [] || (!IsDigit(rest[0]) && rest[0] != 'x' && rest[0] != 'X')
    ensures ParseInt("-" + (NatToString(n) + rest)) == Some(-(n as int))
  {
    var u := NatToString(n) + rest;
    var s := "-" + u;
    assert TrimStart(s) == s;
    assert s[0] == '-' && s[1..] == u;
    ParseUnsignedNumeral(n, rest);
    assert ParseSigned(s) == Negate(ParseUnsigned(u));
  }

  /** A numeral without a sign reads back as the number. */
  lemma ParseIntNonNegative(n: nat, rest: string)
    requires rest == [] || (!IsDigit(rest[0]) && rest[0] != 'x' && rest[0] != 'X')
    ensures ParseInt(NatToString(n) + rest) == Some(n)
  {
    var s := NatToString(n) + rest;
    assert s[0] == NatToString(n)[0] && IsDigit(s[0]);
    assert TrimStart(s) == s;
    assert ParseSigned(s) == ParseUnsigned(s);
    ParseUnsignedNumeral(n, rest);
  }

  /** `parseInt` reads back the numeral `String(i)` when what follows it cannot
      continue the number: the round trip behind every year the pages print and parse. */
  lemma ParseIntPrefix(i: int, rest: string)
    requires rest == [] || (!IsDigit(rest[0]) && rest[0] != 'x' && rest[0] != 'X')
    ensures ParseInt(IntToString(i) + rest) == Some(i)
  {
    if i < 0 {
      var n: nat := -i;
      var u := NatToString(n);
      assert IntToString(i) + rest == "-" + (u + rest) by {
        assert IntToString(i) == "-" + u;
      }
      ParseIntNegative(n, rest);
    } else {
      ParseIntNonNegative(i, rest);
    }
  }

  lemma ParseIntRoundTrip(i: int)
    ensures ParseInt(IntToString(i)) == Some(i)
  {
    ParseIntPrefix(i, []);
    assert IntToString(i) + [] == IntToString(i);
  }
}
