/** Character-level helpers the application relies on: ASCII lower-casing
    (`String.prototype.toLowerCase` restricted to ASCII), decimal rendering of
    integers (template-literal interpolation `${n}`), and the base-10 part of
    the global `parseInt`. */
module Text {
  import opened Common

  // ---------------------------------------------------------------------------
  // Lower-casing
  // ---------------------------------------------------------------------------

  predicate IsUpper(c: char) { 'A' <= c <= 'Z' }

  function LowerChar(c: char): (r: char)
    ensures !IsUpper(r)
    ensures IsUpper(c) ==> r as int == c as int + 32
    ensures !IsUpper(c) ==> r == c
  {
    if IsUpper(c) then (c as int + 32) as char else c
  }

  function ToLower(s: string): (r: string)
    ensures |r| == |s|
    ensures forall i :: 0 <= i < |s| ==> r[i] == LowerChar(s[i])
  {
    if |s| == 0 then [] else [LowerChar(s[0])] + ToLower(s[1..])
  }

  // ---------------------------------------------------------------------------
  // Whitespace (the ASCII members of ECMAScript's StrWhiteSpaceChar)
  // ---------------------------------------------------------------------------

  predicate IsSpace(c: char) {
    c == ' ' || c == '\t' || c == '\n' || c == '\r' || c == '\U{000B}' || c == '\U{000C}'
  }

  /** Drops leading whitespace. */
  function TrimStart(s: string): (r: string)
    ensures |r| <= |s| && r == s[|s| - |r|..]
    ensures |r| > 0 ==> !IsSpace(r[0])
    ensures forall i :: 0 <= i < |s| - |r| ==> IsSpace(s[i])
  {
    if |s| > 0 && IsSpace(s[0]) then TrimStart(s[1..]) else s
  }

  /** Drops trailing whitespace. */
  function TrimEnd(s: string): (r: string)
    ensures |r| <= |s| && r == s[..|r|]
    ensures |r| > 0 ==> !IsSpace(r[|r| - 1])
    ensures forall i :: |r| <= i < |s| ==> IsSpace(s[i])
  {
    if |s| > 0 && IsSpace(s[|s| - 1]) then TrimEnd(s[..|s| - 1]) else s
  }

  // ---------------------------------------------------------------------------
  // Decimal digits
  // ---------------------------------------------------------------------------

  predicate IsDigit(c: char) { '0' <= c <= '9' }

  predicate AllDigits(s: string) {
    forall i :: 0 <= i < |s| ==> IsDigit(s[i])
  }

  function DigitValue(c: char): (d: nat)
    requires IsDigit(c)
    ensures d < 10
  {
    c as int - '0' as int
  }

  function DigitChar(d: nat): (c: char)
    requires d < 10
    ensures IsDigit(c) && DigitValue(c) == d
  {
    ('0' as int + d) as char
  }

  /** The value of a string of decimal digits, most significant first. */
  function DigitsValue(s: string): nat
    requires AllDigits(s)
  {
    if |s| == 0 then 0 else 10 * DigitsValue(s[..|s| - 1]) + DigitValue(s[|s| - 1])
  }

  function Pow10(k: nat): (p: nat)
    ensures p >= 1
  {
    if k == 0 then 1 else 10 * Pow10(k - 1)
  }

  /** A digit string of length k denotes a number below 10^k. */
  lemma {:induction false} DigitsValueBound(s: string)
    requires AllDigits(s)
    ensures DigitsValue(s) < Pow10(|s|)
  {
    if |s| > 0 {
      DigitsValueBound(s[..|s| - 1]);
    }
  }

  /** The longest prefix made of digits. */
  function DigitPrefix(s: string): (r: string)
    ensures AllDigits(r) && |r| <= |s| && r == s[..|r|]
    ensures |r| < |s| ==> !IsDigit(s[|r|])
  {
    if |s| == 0 || !IsDigit(s[0]) then [] else [s[0]] + DigitPrefix(s[1..])
  }

  lemma {:induction false} DigitPrefixOfDigits(s: string, rest: string)
    requires AllDigits(s)
    requires |rest| == 0 || !IsDigit(rest[0])
    ensures DigitPrefix(s + rest) == s
  {
    if |s| == 0 {
      assert s + rest == rest;
    } else {
      assert (s + rest)[1..] == s[1..] + rest;
      DigitPrefixOfDigits(s[1..], rest);
    }
  }

  // ---------------------------------------------------------------------------
  // Rendering integers
  // ---------------------------------------------------------------------------

  /** Shortest decimal rendering of a natural number. */
  function NatToString(n: nat): (r: string)
    ensures |r| >= 1 && AllDigits(r)
    ensures |r| > 1 ==> r[0] != '0'
  {
    if n < 10 then [DigitChar(n)] else NatToString(n / 10) + [DigitChar(n % 10)]
  }

  /** `${n}` for an integer: a minus sign then the magnitude for negatives. */
  function IntToString(n: int): (r: string)
    ensures |r| >= 1
    ensures n < 0 <==> r[0] == '-'
  {
    if n < 0 then "-" + NatToString(-n) else NatToString(n)
  }

  lemma {:induction false} NatToStringValue(n: nat)
    ensures DigitsValue(NatToString(n)) == n
  {
    var s := NatToString(n);
    if n >= 10 {
      NatToStringValue(n / 10);
      assert s[..|s| - 1] == NatToString(n / 10);
    }
  }

  // ---------------------------------------------------------------------------
  // parseInt(s) with no radix argument, base-10 inputs
  // ---------------------------------------------------------------------------

  /** Skips leading whitespace, reads an optional sign and the longest run of
      digits after it; no digits at all is NaN (`None`). */
  function ParseInt(s: string): Option<int>
  {
    ParseSigned(TrimStart(s))
  }

  /** `parseInt` is NaN exactly when no digit follows the leading whitespace
      and an optional sign, and a negative result needs a minus sign. */
  lemma ParseIntNaN(s: string)
    ensures var t := TrimStart(s);
            var body := if |t| > 0 && (t[0] == '-' || t[0] == '+') then t[1..] else t;
            ParseInt(s).None? <==> |body| == 0 || !IsDigit(body[0])
    ensures ParseInt(s).Some? && ParseInt(s).value < 0 ==>
              |TrimStart(s)| > 0 && TrimStart(s)[0] == '-'
  {
  }

  function ParseSigned(t: string): Option<int>
  {
    if |t| > 0 && t[0] == '-' then
      match ParseUnsigned(t[1..])
      case None => None
      case Some(v) => Some(-v)
    else if |t| > 0 && t[0] == '+' then ParseUnsigned(t[1..])
    else ParseUnsigned(t)
  }

  function ParseUnsigned(t: string): Option<int>
  {
    var digits := DigitPrefix(t);
    if |digits| == 0 then None else Some(DigitsValue(digits))
  }

  lemma TrimStartNoSpace(s: string)
    requires |s| > 0 && !IsSpace(s[0])
    ensures TrimStart(s) == s
  {
  }

  lemma ParseUnsignedOfDigits(d: string)
    requires |d| > 0 && AllDigits(d)
    ensures ParseUnsigned(d) == Some(DigitsValue(d))
  {
    DigitPrefixOfDigits(d, []);
    assert d + [] == d;
  }

  /** A minus sign in front of digits negates their value. */
  lemma ParseSignedNegative(d: string)
    requires |d| > 0 && AllDigits(d)
    ensures var v: int := DigitsValue(d); ParseSigned("-" + d) == Some(-v)
  {
    var t := "-" + d;
    assert |t| > 0 && t[0] == '-';
    assert t[1..] == d;
    ParseUnsignedOfDigits(d);
    ParseSignedMinus(t, d);
  }

  lemma ParseSignedMinus(t: string, d: string)
    requires |t| > 0 && t[0] == '-' && t[1..] == d
    requires |d| > 0 && AllDigits(d) && ParseUnsigned(d) == Some(DigitsValue(d))
    ensures var v: int := DigitsValue(d); ParseSigned(t) == Some(-v)
  {
  }

  /** Digits with no sign are read as they are. */
  lemma ParseSignedDigits(d: string)
    requires |d| > 0 && AllDigits(d)
    ensures ParseSigned(d) == Some(DigitsValue(d))
  {
    assert IsDigit(d[0]);
    ParseUnsignedOfDigits(d);
  }

  /** parseInt reads back what `${n}` renders. */
  lemma ParseIntOfIntToString(n: int)
    ensures ParseInt(IntToString(n)) == Some(n)
  {
    var r := IntToString(n);
    TrimStartNoSpace(r);
    var m: nat := if n < 0 then -n else n;
    var d := NatToString(m);
    NatToStringValue(m);
    if n < 0 {
      ParseSignedNegative(d);
    } else {
      ParseSignedDigits(d);
    }
  }
}
