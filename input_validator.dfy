/** The validators and the sanitiser of banking/security/InputValidator.java.
    Java's nullable strings are `Option<string>`; each regular expression is
    stated directly over characters. */
module InputValidator {
  import opened Wrappers
  import opened Numerals
  import JavaText

  /** A character of the class `[a-zA-Z0-9_]`. */
  predicate IsUsernameChar(c: char)
  {
    'a' <= c <= 'z' || 'A' <= c <= 'Z' || IsDigit(c) || c == '_'
  }

  /** USERNAME_PATTERN `^[a-zA-Z0-9_]{3,20}$`. Every character of the class is
      ASCII, so Java's length and the model's agree on a valid name, and a
      valid name has none of the characters a record or the sanitiser treats
      specially. */
  predicate IsValidUsername(username: Option<string>)
    ensures IsValidUsername(username) ==>
      && username.Some?
      && JavaText.Utf16Length(username.value) == |username.value|
      && ',' !in username.value && IsClean(username.value)
  {
    && username.Some?
    && 3 <= |username.value| <= 20
    && forall k :: 0 <= k < |username.value| ==> IsUsernameChar(username.value[k])
  }

  /** `password.length() >= 8`, counted in UTF-16 code units: eight characters
      always suffice, fewer than four never do. */
  predicate IsValidPassword(password: Option<string>)
    ensures password.Some? && |password.value| >= 8 ==> IsValidPassword(password)
    ensures IsValidPassword(password) ==> password.Some? && |password.value| >= 4
  {
    password.Some? && JavaText.Utf16Length(password.value) >= 8
  }

  /** ACCOUNT_NUMBER_PATTERN `^ACC\d{6}$`. A valid number can be stored in a
      record: it has no comma and nothing the sanitiser removes. */
  predicate IsValidAccountNumber(accountNumber: Option<string>)
    ensures IsValidAccountNumber(accountNumber) ==> accountNumber.Some? && ',' !in accountNumber.value && IsClean(accountNumber.value)
  {
    && accountNumber.Some?
    && |accountNumber.value| == 9
    && accountNumber.value[..3] == "ACC"
    && AllDigits(accountNumber.value[3..])
  }

  /** AMOUNT_PATTERN `^\d+(\.\d{1,2})?$`, then a value above 0 and at most
      1,000,000 (100,000,000 cents). An accepted amount is read by the amount
      parser as a positive number of cents. */
  predicate IsValidAmount(amount: Option<string>)
    ensures IsValidAmount(amount) ==>
      amount.Some? && ParseCents(amount.value).Some? && 0 < ParseCents(amount.value).value <= 100000000
  {
    && amount.Some?
    && DecimalSyntax(amount.value)
    && 0 < DecimalCents(amount.value) <= 100000000
  }

  /** The characters of the class `[<>"']` that the sanitiser removes. */
  predicate IsDangerous(c: char)
  {
    c == '<' || c == '>' || c == '"' || c == '\''
  }

  predicate IsClean(s: string)
  {
    forall k :: 0 <= k < |s| ==> !IsDangerous(s[k])
  }

  /** `s.replaceAll("[<>\"']", "")`: the result is clean and no longer than `s`. */
  function Strip(s: string): (r: string)
    ensures IsClean(r) && |r| <= |s|
  {
    if s == [] then []
    else Strip(s[..|s| - 1]) + (if IsDangerous(s[|s| - 1]) then [] else [s[|s| - 1]])
  }

  /** `sanitizeInput`: null stays null, and any text comes out clean. */
  function SanitizeInput(input: Option<string>): (r: Option<string>)
    ensures r.Some? <==> input.Some?
    ensures r.Some? ==> IsClean(r.value) && |r.value| <= |input.value|
  {
    match input
    case None => None
    case Some(s) => Some(Strip(s))
  }

  /** Stripping works character by character: it keeps the order of what it keeps. */
  lemma {:induction false} StripAppend(a: string, b: string)
    ensures Strip(a + b) == Strip(a) + Strip(b)
    decreases |b|
  {
    if b == [] {
      assert a + b == a;
    } else {
      var b' := b[..|b| - 1];
      assert (a + b)[..|a + b| - 1] == a + b';
      StripAppend(a, b');
    }
  }

  /** A character survives exactly when it occurred and is not one of the four. */
  lemma {:induction false} StripMembers(s: string, c: char)
    ensures c in Strip(s) <==> c in s && !IsDangerous(c)
  {
    if s != [] {
      StripMembers(s[..|s| - 1], c);
      assert s == s[..|s| - 1] + [s[|s| - 1]];
    }
  }

  /** Clean text passes unchanged. */
  lemma {:induction false} StripKeepsClean(s: string)
    requires IsClean(s)
    ensures Strip(s) == s
  {
    if s != [] {
      StripKeepsClean(s[..|s| - 1]);
    }
  }

  /** `sanitizeInput` is null exactly on null, removes all four characters,
      never lengthens its input and is idempotent. */
  lemma SanitizeProperties(input: Option<string>)
    ensures SanitizeInput(input).None? <==> input.None?
    ensures input.Some? ==> IsClean(SanitizeInput(input).value) && |SanitizeInput(input).value| <= |input.value|
    ensures SanitizeInput(SanitizeInput(input)) == SanitizeInput(input)
  {
    if input.Some? {
      StripKeepsClean(Strip(input.value));
    }
  }

  lemma ValidatorsRejectNull()
    ensures !IsValidUsername(None) && !IsValidPassword(None)
    ensures !IsValidAccountNumber(None) && !IsValidAmount(None)
  {
  }

  /** A valid username can be written into a comma-separated record and read
      back: it is non-empty, has no comma and is untouched by the sanitiser. */
  lemma ValidUsernameIsStorable(u: string)
    requires IsValidUsername(Some(u))
    ensures u != "" && ',' !in u && IsClean(u) && Strip(u) == u
  {
    assert forall k :: 0 <= k < |u| ==> IsUsernameChar(u[k]);
    StripKeepsClean(u);
  }

  lemma CleanAppend(a: string, b: string)
    ensures IsClean(a + b) <==> IsClean(a) && IsClean(b)
  {
    assert forall k :: 0 <= k < |a| ==> (a + b)[k] == a[k];
    assert forall k :: 0 <= k < |b| ==> (a + b)[|a| + k] == b[k];
  }

  /** Comma-joining clean parts gives clean text. */
  lemma {:induction false} JoinIsClean(parts: seq<string>)
    requires |parts| >= 1 && forall k :: 0 <= k < |parts| ==> IsClean(parts[k])
    ensures IsClean(JavaText.Join(parts))
  {
    if |parts| > 1 {
      JoinIsClean(parts[1..]);
      CleanAppend(parts[0], ",");
      CleanAppend(parts[0] + ",", JavaText.Join(parts[1..]));
    }
  }

  /** Number text is never touched by the sanitiser. */
  lemma NumeralIsClean(s: string)
    requires NumeralChars(s)
    ensures IsClean(s) && Strip(s) == s
  {
    StripKeepsClean(s);
  }

  /** Money and timestamps as the records write them are clean. */
  lemma FormattedCentsIsClean(c: int)
    ensures IsClean(FormatCents(c))
  {
    CentsRoundTrip(c);
    NumeralIsClean(FormatCents(c));
  }

  lemma FormattedTimestampIsClean(t: nat)
    ensures IsClean(FormatTimestamp(t))
  {
    TimestampRoundTrip(t);
    NumeralIsClean(FormatTimestamp(t));
  }

  /** A valid amount is read by the amount parser as a positive number of
      cents up to 100,000,000. */
  lemma ValidAmountParses(s: string)
    requires IsValidAmount(Some(s))
    ensures ParseCents(s) == Some(DecimalCents(s) as int)
    ensures 0 < DecimalCents(s) <= 100000000
  {
    DecimalStartsWithDigit(s);
  }

  lemma DecimalStartsWithDigit(s: string)
    requires DecimalSyntax(s)
    ensures s != [] && IsDigit(s[0])
  {
  }

  /** The written form of an amount passes the amount check exactly when the
      amount is above zero and at most 1,000,000.00. */
  lemma FormattedAmountValidity(c: int)
    ensures IsValidAmount(Some(FormatCents(c))) <==> 0 < c <= 100000000
  {
    if c < 0 {
      var s := FormatCents(c);
      assert s[0] == '-';
      if DecimalSyntax(s) {
        DecimalStartsWithDigit(s);
      }
    } else {
      UnsignedCentsRoundTrip(c);
    }
  }

  /** Three fraction digits are one too many. */
  lemma AmountTooManyFractionDigits()
    ensures !IsValidAmount(Some("100.123"))
  {
    assert "100.123" == "100" + "." + "123";
    JavaText.IndexOfAfter("100", '.', "123");
  }

  /** 1,000,001 is above the limit. */
  lemma AmountAboveLimit()
    ensures !IsValidAmount(Some("1000001"))
  {
    assert "1000001" == NatToString(1000001);
    NatToStringValue(1000001);
  }

  /** Zero is not positive. */
  lemma AmountZero()
    ensures !IsValidAmount(Some("0"))
  {
    assert "0" == NatToString(0);
  }

  /** "100.00" is accepted as 10,000 cents. */
  lemma AmountHundred()
    ensures IsValidAmount(Some("100.00")) && DecimalCents("100.00") == 10000
  {
    assert "100.00" == "100" + "." + "00";
    JavaText.IndexOfAfter("100", '.', "00");
    assert "100" == NatToString(100);
    NatToStringValue(100);
  }

  /** The password length is Java's `length()`: four characters outside the
      Basic Multilingual Plane count eight code units and pass, three count
      six and fail. */
  lemma SupplementaryPassword()
    ensures IsValidPassword(Some("\U{1F600}\U{1F600}\U{1F600}\U{1F600}"))
    ensures !IsValidPassword(Some("\U{1F600}\U{1F600}\U{1F600}"))
  {
    var e := "\U{1F600}";
    assert "\U{1F600}\U{1F600}\U{1F600}" == e + e + e;
    assert "\U{1F600}\U{1F600}\U{1F600}\U{1F600}" == e + e + e + e;
    assert JavaText.Utf16Length(e) == 2;
    assert JavaText.Utf16Length(e + e) == 4 by {
      assert (e + e)[..1] == e;
    }
    assert JavaText.Utf16Length(e + e + e) == 6 by {
      assert (e + e + e)[..2] == e + e;
    }
    assert JavaText.Utf16Length(e + e + e + e) == 8 by {
      assert (e + e + e + e)[..3] == e + e + e;
    }
  }
}
