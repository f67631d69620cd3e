/** The pieces of `java.lang.String` that the ledger's record codecs rely on:
    `indexOf`, the two forms of `split` on a comma, `trim().isEmpty()` and
    `Boolean.parseBoolean`. */
module JavaText {

  /** Number of occurrences of `c` in `s`. */
  function Count(s: string, c: char): nat
  {
    if s == [] then 0 else (if s[0] == c then 1 else 0) + Count(s[1..], c)
  }

  lemma {:induction false} CountAppend(a: string, b: string, c: char)
    ensures Count(a + b, c) == Count(a, c) + Count(b, c)
  {
    if a == [] {
      assert a + b == b;
    } else {
      assert (a + b)[1..] == a[1..] + b;
      CountAppend(a[1..], b, c);
    }
  }

  lemma {:induction false} CountZero(s: string, c: char)
    ensures Count(s, c) == 0 <==> c !in s
  {
    if s != [] {
      CountZero(s[1..], c);
      assert s == [s[0]] + s[1..];
    }
  }

  /** `s.indexOf(c)` for a character that occurs in `s`. */
  function IndexOf(s: string, c: char): (i: nat)
    requires c in s
    ensures i < |s| && s[i] == c && c !in s[..i]
  {
    if s[0] == c then 0
    else
      var j := IndexOf(s[1..], c);
      assert s[..j + 1] == [s[0]] + s[1..][..j];
      j + 1
  }

  /** The first occurrence of `c` in `a + [c] + b` is right after `a` when `a` has none. */
  lemma IndexOfAfter(a: string, c: char, b: string)
    requires c !in a
    ensures IndexOf(a + [c] + b, c) == |a|
    ensures (a + [c] + b)[..|a|] == a && (a + [c] + b)[|a| + 1..] == b
  {
    var s := a + [c] + b;
    assert s[|a|] == c;
    assert forall k :: 0 <= k < |a| ==> s[k] == a[k];
  }

  /** `s.split(",")` before its trailing empty strings are removed: the pieces
      between consecutive commas, one more than there are commas. */
  function SplitAll(s: string): (parts: seq<string>)
    ensures |parts| >= 1
    decreases |s|
  {
    if ',' !in s then [s]
    else
      var i := IndexOf(s, ',');
      [s[..i]] + SplitAll(s[i + 1..])
  }

  /** Java's `split` with limit 0 removes every trailing empty string. */
  function DropTrailingEmpty(parts: seq<string>): (r: seq<string>)
    ensures |r| <= |parts|
    ensures r == parts[..|r|]
    ensures r != [] ==> r[|r| - 1] != ""
    ensures forall k :: |r| <= k < |parts| ==> parts[k] == ""
  {
    if parts != [] && parts[|parts| - 1] == "" then DropTrailingEmpty(parts[..|parts| - 1])
    else parts
  }

  /** `s.split(",")`: when no comma occurs the result is `[s]` itself (so the
      empty string gives one empty part); otherwise the pieces with trailing
      empty ones removed. */
  function Split(s: string): seq<string>
  {
    if ',' !in s then [s] else DropTrailingEmpty(SplitAll(s))
  }

  /** `s.split(",", limit)` for a positive limit: at most `limit` parts, the
      last of which keeps the rest of `s`, commas included; empty parts are kept. */
  function SplitLimit(s: string, limit: nat): (parts: seq<string>)
    requires limit >= 1
    ensures 1 <= |parts| <= limit
    decreases limit
  {
    if limit == 1 || ',' !in s then [s]
    else
      var i := IndexOf(s, ',');
      [s[..i]] + SplitLimit(s[i + 1..], limit - 1)
  }

  lemma SplitAllCons(a: string, b: string)
    requires ',' !in a
    ensures SplitAll(a + "," + b) == [a] + SplitAll(b)
  {
    IndexOfAfter(a, ',', b);
  }

  lemma SplitLimitCons(a: string, b: string, limit: nat)
    requires ',' !in a && limit >= 2
    ensures SplitLimit(a + "," + b, limit) == [a] + SplitLimit(b, limit - 1)
  {
    IndexOfAfter(a, ',', b);
  }

  /** The parts joined by commas, as the `toString` methods concatenate their fields. */
  function Join(parts: seq<string>): string
    requires |parts| >= 1
  {
    if |parts| == 1 then parts[0] else parts[0] + "," + Join(parts[1..])
  }

  predicate AllCommaFree(parts: seq<string>)
  {
    forall k :: 0 <= k < |parts| ==> ',' !in parts[k]
  }

  lemma {:induction false} JoinSnoc(parts: seq<string>, x: string)
    requires |parts| >= 1
    ensures Join(parts) + "," + x == Join(parts + [x])
  {
    if |parts| > 1 {
      JoinSnoc(parts[1..], x);
      assert (parts + [x])[1..] == parts[1..] + [x];
    }
  }

  /** Splitting comma-joined comma-free parts on every comma gives the parts back. */
  lemma {:induction false} SplitAllJoin(parts: seq<string>)
    requires |parts| >= 1 && AllCommaFree(parts)
    ensures SplitAll(Join(parts)) == parts
  {
    if |parts| > 1 {
      assert Join(parts) == parts[0] + "," + Join(parts[1..]);
      assert ',' !in parts[0];
      SplitAllCons(parts[0], Join(parts[1..]));
      assert AllCommaFree(parts[1..]) by {
        forall k | 0 <= k < |parts| - 1
          ensures ',' !in parts[1..][k]
        {
          assert parts[1..][k] == parts[k + 1];
        }
      }
      SplitAllJoin(parts[1..]);
    }
  }

  /** With a limit equal to the number of parts, only the parts before the
      last need be comma-free: the last one is kept whole. */
  lemma {:induction false} SplitLimitJoin(parts: seq<string>)
    requires |parts| >= 1 && AllCommaFree(parts[..|parts| - 1])
    ensures SplitLimit(Join(parts), |parts|) == parts
  {
    if |parts| > 1 {
      assert ',' !in parts[..|parts| - 1][0];
      SplitLimitCons(parts[0], Join(parts[1..]), |parts|);
      assert parts[1..][..|parts| - 2] == parts[..|parts| - 1][1..];
      SplitLimitJoin(parts[1..]);
    }
  }

  /** A comma-joined text contains a comma once there are two parts. */
  lemma JoinHasComma(parts: seq<string>)
    requires |parts| >= 2
    ensures ',' in Join(parts)
  {
    assert Join(parts)[|parts[0]|] == ',';
  }

  /** A split with a positive limit yields one part per comma plus one, capped at the limit. */
  lemma {:induction false} SplitLimitLength(s: string, limit: nat)
    requires limit >= 1
    ensures |SplitLimit(s, limit)| == if Count(s, ',') + 1 < limit then Count(s, ',') + 1 else limit
    decreases limit
  {
    CountZero(s, ',');
    if limit > 1 && ',' in s {
      var i := IndexOf(s, ',');
      assert SplitLimit(s, limit) == [s[..i]] + SplitLimit(s[i + 1..], limit - 1);
      CountAround(s, i, ',');
      SplitLimitLength(s[i + 1..], limit - 1);
    }
  }

  lemma CountAround(s: string, i: nat, c: char)
    requires i < |s| && s[i] == c && c !in s[..i]
    ensures Count(s, c) == Count(s[i + 1..], c) + 1
  {
    assert s == s[..i] + ([c] + s[i + 1..]);
    CountAppend(s[..i], [c] + s[i + 1..], c);
    CountZero(s[..i], c);
    assert ([c] + s[i + 1..])[1..] == s[i + 1..];
  }

  /** Java's `trim()`: strips every leading and trailing character up to U+0020. */
  function TrimStart(s: string): (r: string)
    ensures |r| <= |s| && r == s[|s| - |r|..]
    ensures r != [] ==> r[0] > ' '
    ensures forall k :: 0 <= k < |s| - |r| ==> s[k] <= ' '
  {
    if s != [] && s[0] <= ' ' then TrimStart(s[1..]) else s
  }

  function TrimEnd(s: string): (r: string)
    ensures |r| <= |s| && r == s[..|r|]
    ensures r != [] ==> r[|r| - 1] > ' '
    ensures forall k :: |r| <= k < |s| ==> s[k] <= ' '
  {
    if s != [] && s[|s| - 1] <= ' ' then TrimEnd(s[..|s| - 1]) else s
  }

  function Trim(s: string): string
  {
    TrimEnd(TrimStart(s))
  }

  /** `line.trim().isEmpty()`, stated directly: every character is at most
      U+0020 (`TrimEmptyIffBlank` shows the two agree). */
  predicate IsBlank(s: string)
  {
    forall k :: 0 <= k < |s| ==> s[k] <= ' '
  }

  /** Trimming leaves nothing exactly when the line is blank. */
  lemma TrimEmptyIffBlank(s: string)
    ensures Trim(s) == "" <==> IsBlank(s)
  {
    var t := TrimStart(s);
    var r := TrimEnd(t);
    assert r == "" <==> forall k :: 0 <= k < |t| ==> t[k] <= ' ' by {
      if r != "" {
        assert t[|r| - 1] == r[|r| - 1];
      }
    }
    if t != [] {
      assert s[|s| - |t|] == t[0];
    }
    assert forall k :: |s| - |t| <= k < |s| ==> s[k] == t[k - (|s| - |t|)];
  }

  /** `s.length()`: the number of UTF-16 code units, where a character outside
      the Basic Multilingual Plane (a surrogate pair) takes two. */
  function Utf16Length(s: string): (n: nat)
    ensures |s| <= n <= 2 * |s|
    ensures (forall k :: 0 <= k < |s| ==> (s[k] as int) < 0x10000) ==> n == |s|
  {
    if s == [] then 0
    else Utf16Length(s[..|s| - 1]) + (if (s[|s| - 1] as int) < 0x10000 then 1 else 2)
  }

  function ToLowerAscii(c: char): char
  {
    if 'A' <= c <= 'Z' then (c as int - 'A' as int + 'a' as int) as char else c
  }

  /** `a.equalsIgnoreCase(b)`, with case folding restricted to ASCII letters. */
  predicate EqualsIgnoreCase(a: string, b: string)
  {
    |a| == |b| && forall k :: 0 <= k < |a| ==> ToLowerAscii(a[k]) == ToLowerAscii(b[k])
  }

  /** `Boolean.parseBoolean(s)`: true exactly for "true" in any letter case. */
  predicate ParseBoolean(s: string)
  {
    EqualsIgnoreCase(s, "true")
  }

  /** `Boolean.toString(b)`. */
  function BooleanToString(b: bool): string
  {
    if b then "true" else "false"
  }

  lemma ParseBooleanToString(b: bool)
    ensures ParseBoolean(BooleanToString(b)) == b
    ensures ',' !in BooleanToString(b) && BooleanToString(b) != ""
  {
    if !b {
      assert |"false"| != |"true"|;
    }
  }
}
