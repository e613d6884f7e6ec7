/** Decimal output of integers and the library's reading of one at the start of a string. */
module Decimal {
  import opened KernelTypes

  const INT_MIN := -0x8000_0000

  predicate IsDigit(c: char) {
    '0' <= c <= '9'
  }

  function DigitChar(d: int): (c: char)
    requires 0 <= d < 10
    ensures IsDigit(c)
  {
    (d + 48) as char
  }

  function DigitValue(c: char): int {
    c as int - 48
  }

  function NatText(n: nat): (s: string)
    ensures s != "" && forall k :: 0 <= k < |s| ==> IsDigit(s[k])
  {
    if n < 10 then [DigitChar(n)] else NatText(n / 10) + [DigitChar(n % 10)]
  }

  /** What the stream prints for an int. */
  function IntText(n: int): (s: string)
    ensures s != "" && forall k :: 0 <= k < |s| ==> IsDigit(s[k]) || s[k] == '-'
    ensures IsDigit(s[|s| - 1])
  {
    if n < 0 then "-" + NatText(-n) else NatText(n)
  }

  function NatValue(s: string): int {
    if s == "" then 0 else NatValue(s[..|s| - 1]) * 10 + DigitValue(s[|s| - 1])
  }

  function DigitPrefix(s: string): string {
    if s == "" || !IsDigit(s[0]) then "" else [s[0]] + DigitPrefix(s[1..])
  }

  predicate IsWhite(c: char) {
    c == ' ' || '\t' <= c <= '\r'
  }

  function SkipWhite(s: string): string {
    if s != "" && IsWhite(s[0]) then SkipWhite(s[1..]) else s
  }

  /** The integer at the start of a string: None when there is none or it does not fit an int. */
  function Stoi(s: string): Option<int> {
    var t := SkipWhite(s);
    var signed := t != "" && (t[0] == '-' || t[0] == '+');
    var digits := DigitPrefix(if signed then t[1..] else t);
    var value := if signed && t[0] == '-' then -NatValue(digits) else NatValue(digits);
    if digits == "" || !(INT_MIN <= value <= INT_MAX) then None else Some(value)
  }

  lemma {:induction false} NatTextValue(n: nat)
    ensures NatValue(NatText(n)) == n
  {
    if n >= 10 {
      NatTextValue(n / 10);
      assert NatText(n)[..|NatText(n)| - 1] == NatText(n / 10);
    }
  }

  lemma {:induction false} DigitPrefixAll(s: string)
    requires forall k :: 0 <= k < |s| ==> IsDigit(s[k])
    ensures DigitPrefix(s) == s
  {
    if s != "" {
      assert forall k :: 0 <= k < |s| - 1 ==> s[1..][k] == s[k + 1];
      DigitPrefixAll(s[1..]);
    }
  }

  /** Reading back a printed int. */
  lemma StoiReadsIntText(n: int)
    requires INT_MIN <= n <= INT_MAX
    ensures Stoi(IntText(n)) == Some(n)
  {
    var size := if n < 0 then -n else n;
    var digits := NatText(size);
    NatTextValue(size);
    DigitPrefixAll(digits);
    hide NatText, NatValue, DigitPrefix;
    assert SkipWhite(IntText(n)) == IntText(n);
    if n < 0 { assert IntText(n)[1..] == digits; }
  }

  // The decimal notation itself.

  function Pow10(k: nat): (p: nat)
    ensures p >= 1
  {
    if k == 0 then 1 else 10 * Pow10(k - 1)
  }

  lemma QuotientIs(x: int, b: int, q: int, r: int)
    requires b > 0 && x == b * q + r && 0 <= r < b
    ensures x / b == q
  {
    var d := q - x / b;
    assert b * d == x % b - r;
    MultipleIsFar(b, d);
  }

  lemma MultipleIsFar(b: int, d: int)
    requires b > 0
    ensures (d >= 1 ==> b * d >= b) && (d <= -1 ==> b * d <= -b)
  {
  }

  lemma DropDigit(n: nat, b: int)
    requires b > 0
    ensures n / (10 * b) == n / 10 / b
  {
    var t := n / 10;
    var q, s := t / b, t % b;
    assert t == b * q + s;
    assert 10 * (b * q) == (10 * b) * q;
    QuotientIs(n, 10 * b, q, 10 * s + n % 10);
  }

  /** Counted from the right, the k-th character printed is the k-th decimal digit. */
  lemma {:induction false} NatTextDigits(n: nat, k: nat)
    requires k < |NatText(n)|
    ensures NatText(n)[|NatText(n)| - 1 - k] == "0123456789"[(n / Pow10(k)) % 10]
  {
    if n < 10 || k == 0 {
      LastDigit(n);
    } else {
      NatTextDigits(n / 10, k - 1);
      DropDigit(n, Pow10(k - 1));
      assert Pow10(k) == 10 * Pow10(k - 1);
      assert NatText(n) == NatText(n / 10) + [DigitChar(n % 10)];
      hide NatText, Pow10;
    }
  }

  lemma LastDigit(n: nat)
    ensures NatText(n)[|NatText(n)| - 1] == "0123456789"[(n / Pow10(0)) % 10]
  {
    assert Pow10(0) == 1 && n / 1 == n;
    DigitIs(n % 10);
    hide Pow10;
  }

  lemma DigitIs(d: int)
    requires 0 <= d < 10
    ensures DigitChar(d) == "0123456789"[d]
  {
  }

  /** All digits are printed, and none of them is a leading zero. */
  lemma {:induction false} NatTextLength(n: nat)
    ensures n < Pow10(|NatText(n)|)
    ensures |NatText(n)| > 1 ==> Pow10(|NatText(n)| - 1) <= n
    ensures n > 0 ==> NatText(n)[0] != '0'
  {
    if n >= 10 {
      NatTextLength(n / 10);
      var l := |NatText(n / 10)|;
      assert |NatText(n)| == l + 1 && Pow10(l + 1) == 10 * Pow10(l);
      if l > 1 { assert Pow10(l) == 10 * Pow10(l - 1); } else { assert Pow10(1) == 10 * Pow10(0); }
    } else {
      assert Pow10(1) == 10 * Pow10(0);
    }
  }

  // What the reading of an integer accepts.

  predicate AllDigits(s: string) {
    forall k :: 0 <= k < |s| ==> '0' <= s[k] <= '9'
  }

  lemma {:induction false} DigitPrefixIs(digits: string, rest: string)
    requires AllDigits(digits) && (rest == "" || !('0' <= rest[0] <= '9'))
    ensures DigitPrefix(digits + rest) == digits
  {
    if digits == "" {
      assert digits + rest == rest;
    } else {
      assert (digits + rest)[1..] == digits[1..] + rest;
      DigitPrefixIs(digits[1..], rest);
    }
  }

  /** The characters that count as blanks: space, tab, newline, return, vertical tab and form feed. */
  predicate Blank(c: char) {
    c in " \t\n\r" || c as int == 11 || c as int == 12
  }

  lemma {:induction false} SkipWhiteIs(white: string, rest: string)
    requires (forall k :: 0 <= k < |white| ==> Blank(white[k])) && (rest == "" || !Blank(rest[0]))
    ensures SkipWhite(white + rest) == rest
  {
    if white == "" {
      assert white + rest == rest;
    } else {
      assert (white + rest)[1..] == white[1..] + rest;
      SkipWhiteIs(white[1..], rest);
    }
  }

  /** What follows the blanks: a sign or none, and then the digits. */
  lemma StartOf(sign: string, digits: string, rest: string)
    requires sign in ["", "+", "-"] && AllDigits(digits)
    requires sign == "" && digits == "" && rest != "" ==> !Blank(rest[0]) && rest[0] !in "+-"
    ensures var t := sign + (digits + rest);
            && (t == "" || !Blank(t[0]))
            && (t != "" && (t[0] == '-' || t[0] == '+') <==> sign != "")
            && (if sign == "" then t == digits + rest else t != "" && t[1..] == digits + rest && t[0] == sign[0])
  {
    var t := sign + (digits + rest);
    if sign == "" && digits != "" { assert t[0] == digits[0]; }
  }

  lemma StoiOf(text: string, t: string, signed: bool, digits: string)
    requires SkipWhite(text) == t && (signed <==> t != "" && (t[0] == '-' || t[0] == '+'))
    requires DigitPrefix(if signed then t[1..] else t) == digits
    ensures var value := if signed && t[0] == '-' then -NatValue(digits) else NatValue(digits);
            Stoi(text) == if digits == "" || !(-2147483648 <= value <= 2147483647) then None else Some(value)
  {
    hide DigitPrefix, SkipWhite, NatValue;
  }

  /**
   Reading an integer: blanks, at most one sign, then digits up to the first other character. It
   fails exactly when there are no digits or the value does not fit 32 bits.
  */
  lemma StoiReads(white: string, sign: string, digits: string, rest: string)
    requires forall k :: 0 <= k < |white| ==> Blank(white[k])
    requires sign in ["", "+", "-"] && AllDigits(digits) && (rest == "" || !('0' <= rest[0] <= '9'))
    requires sign == "" && digits == "" && rest != "" ==> !Blank(rest[0]) && rest[0] !in "+-"
    ensures var value := if sign == "-" then -NatValue(digits) else NatValue(digits);
            Stoi(white + sign + digits + rest) ==
              if digits == "" || !(-2147483648 <= value <= 2147483647) then None else Some(value)
  {
    hide DigitPrefix, SkipWhite, NatValue, AllDigits, Stoi, Blank;
    var t := sign + (digits + rest);
    assert white + sign + digits + rest == white + t;
    StartOf(sign, digits, rest);
    SkipWhiteIs(white, t);
    DigitPrefixIs(digits, rest);
    StoiOf(white + t, t, sign != "", digits);
  }
}
