/** Decimal text of the ledger's numbers. Java's `Double.toString` and
    `Double.parseDouble` on amounts, `Integer.toString`/`Long.toString` on ids,
    and `LocalDateTime.toString`/`parse` on timestamps are replaced here by exact
    codecs: amounts are whole cents written `[-]units.cc`, timestamps are clock
    ticks written as a decimal numeral. */
module Numerals {
  import opened Wrappers
  import opened JavaText

  predicate IsDigit(c: char)
  {
    '0' <= c <= '9'
  }

  predicate AllDigits(s: string)
  {
    forall k :: 0 <= k < |s| ==> IsDigit(s[k])
  }

  /** The characters a number's text can contain. */
  predicate NumeralChars(s: string)
  {
    forall k :: 0 <= k < |s| ==> IsDigit(s[k]) || s[k] == '-' || s[k] == '.'
  }

  function DigitChar(d: nat): (c: char)
    requires d < 10
    ensures IsDigit(c)
  {
    ('0' as int + d) as char
  }

  function DigitValue(c: char): (d: nat)
    requires IsDigit(c)
    ensures d < 10
  {
    c as int - '0' as int
  }

  /** Decimal numeral of `n` without leading zeros (`Long.toString` for n >= 0). */
  function NatToString(n: nat): (s: string)
    ensures s != [] && AllDigits(s)
  {
    if n < 10 then [DigitChar(n)] else NatToString(n / 10) + [DigitChar(n % 10)]
  }

  /** The value of a string of decimal digits (the empty string is 0). */
  function DigitsValue(s: string): nat
    requires AllDigits(s)
  {
    if s == [] then 0 else 10 * DigitsValue(s[..|s| - 1]) + DigitValue(s[|s| - 1])
  }

  lemma {:induction false} NatToStringValue(n: nat)
    ensures DigitsValue(NatToString(n)) == n
  {
    if n >= 10 {
      NatToStringValue(n / 10);
      var s := NatToString(n);
      assert s[..|s| - 1] == NatToString(n / 10);
    }
  }

  function Pow10(k: nat): nat
  {
    if k == 0 then 1 else 10 * Pow10(k - 1)
  }

  /** A number with k digits is written with exactly k characters. */
  lemma {:induction false} NatToStringLength(n: nat, k: nat)
    requires 1 <= k && Pow10(k - 1) <= n < Pow10(k)
    ensures |NatToString(n)| == k
  {
    if k > 1 {
      assert Pow10(k - 1) == 10 * Pow10(k - 2);
      NatToStringLength(n / 10, k - 1);
    }
  }

  /** Every number from 100000 to 999999 is written with six digits. */
  lemma SixDigits(n: nat)
    requires 100000 <= n <= 999999
    ensures |NatToString(n)| == 6
  {
    assert Pow10(5) == 100000 && Pow10(6) == 1000000;
    NatToStringLength(n, 6);
  }

  /** The grammar of the amount pattern `\d+(\.\d{1,2})?`: one or more digits,
      optionally a point and one or two more digits. */
  predicate DecimalSyntax(s: string)
  {
    if '.' in s then
      var i := IndexOf(s, '.');
      0 < i && AllDigits(s[..i]) && 2 <= |s| - i <= 3 && AllDigits(s[i + 1..])
    else
      s != [] && AllDigits(s)
  }

  /** The value in cents of a string in the amount grammar. */
  function DecimalCents(s: string): nat
    requires DecimalSyntax(s)
  {
    if '.' in s then
      var i := IndexOf(s, '.');
      var f := s[i + 1..];
      100 * DigitsValue(s[..i]) + 10 * DigitValue(f[0]) + (if |f| == 2 then DigitValue(f[1]) else 0)
    else
      100 * DigitsValue(s)
  }

  /** The model's `Double.parseDouble` on a stored amount: an optional minus
      sign followed by the amount grammar; anything else fails to parse. */
  function ParseCents(s: string): Option<int>
  {
    if s != [] && s[0] == '-' && DecimalSyntax(s[1..]) then Some(-(DecimalCents(s[1..]) as int))
    else if DecimalSyntax(s) then Some(DecimalCents(s))
    else None
  }

  /** The unsigned part of an amount's text: units, a point, two digits. */
  function FormatUnsignedCents(m: nat): string
  {
    NatToString(m / 100) + "." + [DigitChar(m % 100 / 10), DigitChar(m % 10)]
  }

  /** The stored text of an amount in cents. */
  function FormatCents(c: int): string
  {
    if c < 0 then "-" + FormatUnsignedCents(-c) else FormatUnsignedCents(c)
  }

  lemma UnsignedCentsRoundTrip(m: nat)
    ensures DecimalSyntax(FormatUnsignedCents(m)) && DecimalCents(FormatUnsignedCents(m)) == m
    ensures IsDigit(FormatUnsignedCents(m)[0]) && NumeralChars(FormatUnsignedCents(m))
  {
    var u := NatToString(m / 100);
    var f := [DigitChar(m % 100 / 10), DigitChar(m % 10)];
    var s := u + "." + f;
    assert '.' !in u;
    IndexOfAfter(u, '.', f);
    assert s[..|u|] == u && s[|u| + 1..] == f;
    NatToStringValue(m / 100);
  }

  /** Reading back a written amount gives the same number of cents. */
  lemma CentsRoundTrip(c: int)
    ensures ParseCents(FormatCents(c)) == Some(c)
    ensures NumeralChars(FormatCents(c)) && FormatCents(c) != ""
  {
    if c < 0 {
      var u := FormatUnsignedCents(-c);
      UnsignedCentsRoundTrip(-c);
      var s := "-" + u;
      assert s[0] == '-' && s[1..] == u;
      assert forall k :: 1 <= k < |s| ==> s[k] == u[k - 1];
    } else {
      var u := FormatUnsignedCents(c);
      UnsignedCentsRoundTrip(c);
      assert u[0] != '-';
    }
  }

  /** A stored amount with a single fraction digit, such as `50.0`, is read
      as that many units and tenths. */
  lemma OneFractionDigit(u: nat, d: char)
    requires IsDigit(d)
    ensures ParseCents(NatToString(u) + "." + [d]) == Some(100 * u + 10 * DigitValue(d))
  {
    var units := NatToString(u);
    var s := units + "." + [d];
    assert '.' !in units by {
      assert forall k :: 0 <= k < |units| ==> IsDigit(units[k]);
    }
    IndexOfAfter(units, '.', [d]);
    assert s[0] == units[0];
    NatToStringValue(u);
  }

  /** The stored text of a timestamp. */
  function FormatTimestamp(t: nat): string
  {
    NatToString(t)
  }

  /** The model's `LocalDateTime.parse`: a non-empty decimal numeral. */
  function ParseTimestamp(s: string): Option<nat>
  {
    if s != [] && AllDigits(s) then Some(DigitsValue(s)) else None
  }

  lemma TimestampRoundTrip(t: nat)
    ensures ParseTimestamp(FormatTimestamp(t)) == Some(t)
    ensures NumeralChars(FormatTimestamp(t)) && FormatTimestamp(t) != ""
  {
    NatToStringValue(t);
  }

  /** Digits, the minus sign and the point are not commas. */
  lemma NumeralHasNoComma(s: string)
    requires NumeralChars(s)
    ensures ',' !in s
  {
  }
}
