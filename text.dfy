/** String helpers with the meaning Python gives them: str.isspace, str.strip,
    str.lower on ASCII letters, the `in` substring test and decimal rendering. */
module Text {

  /** The characters for which Python's str.isspace() is true. */
  predicate IsSpace(c: char) {
    ('\t' <= c <= '\r') || ('\U{1C}' <= c <= ' ')
    || c == '\U{85}' || c == '\U{A0}' || c == '\U{1680}'
    || ('\U{2000}' <= c <= '\U{200A}')
    || c == '\U{2028}' || c == '\U{2029}' || c == '\U{202F}'
    || c == '\U{205F}' || c == '\U{3000}'
  }

  /** s[k] is whitespace for every k in [lo, hi). */
  predicate SpaceBetween(s: string, lo: int, hi: int)
    requires 0 <= lo <= hi <= |s|
  {
    forall k :: lo <= k < hi ==> IsSpace(s[k])
  }

  /** Drops the leading whitespace of s: what remains is a suffix of s that is empty
      or starts with a non-space character. */
  function TrimStart(s: string): (r: string)
    ensures |r| <= |s| && r == s[|s| - |r|..]
    ensures SpaceBetween(s, 0, |s| - |r|)
    ensures r == [] || !IsSpace(r[0])
  {
    if s != [] && IsSpace(s[0]) then TrimStart(s[1..]) else s
  }

  /** Drops the trailing whitespace of s: what remains is a prefix of s that is empty
      or ends with a non-space character. */
  function TrimEnd(s: string): (r: string)
    ensures |r| <= |s| && r == s[..|r|]
    ensures SpaceBetween(s, |r|, |s|)
    ensures r == [] || !IsSpace(r[|r| - 1])
  {
    if s != [] && IsSpace(s[|s| - 1]) then TrimEnd(s[..|s| - 1]) else s
  }

  /** r is s with its surrounding whitespace removed: a middle slice of s, everything
      around it whitespace, and no whitespace at either of its ends. */
  ghost predicate StrippedFrom(s: string, r: string) {
    exists i, j :: StrippedAt(s, r, i, j)
  }

  /** r is s[i..j], everything outside it is whitespace, and r has none at its ends. */
  predicate StrippedAt(s: string, r: string, i: int, j: int) {
    && 0 <= i <= j <= |s| && r == s[i..j]
    && SpaceBetween(s, 0, i) && SpaceBetween(s, j, |s|)
    && (i < j ==> !IsSpace(s[i]) && !IsSpace(s[j - 1]))
  }

  /** Python's str.strip() with no argument. */
  function Strip(s: string): (r: string)
    ensures StrippedFrom(s, r)
  {
    var t := TrimStart(s);
    var r := TrimEnd(t);
    StripAt(s, t, r);
    r
  }

  /** A prefix r of a suffix t of s, as the two trims leave them, is the slice of s
      between them, with whitespace on both sides. */
  lemma StripAt(s: string, t: string, r: string)
    requires |t| <= |s| && t == s[|s| - |t|..] && SpaceBetween(s, 0, |s| - |t|)
    requires |r| <= |t| && r == t[..|r|] && SpaceBetween(t, |r|, |t|)
    requires r == [] || (!IsSpace(r[0]) && !IsSpace(r[|r| - 1]))
    ensures StrippedFrom(s, r)
  {
    var i := |s| - |t|;
    var j := i + |r|;
    assert r == s[i..j];
    forall k | j <= k < |s|
      ensures IsSpace(s[k])
    {
      assert s[k] == t[k - i];
    }
    assert StrippedAt(s, r, i, j);
  }

  /** s[i] is the first non-space character of s. */
  lemma {:induction false} TrimStartAt(s: string, i: nat)
    requires i < |s| && SpaceBetween(s, 0, i) && !IsSpace(s[i])
    ensures TrimStart(s) == s[i..]
  {
    if i > 0 {
      TrimStartAt(s[1..], i - 1);
      assert s[1..][i - 1..] == s[i..];
    }
  }

  /** s[j - 1] is the last non-space character of s. */
  lemma {:induction false} TrimEndAt(s: string, j: nat)
    requires 0 < j <= |s| && SpaceBetween(s, j, |s|) && !IsSpace(s[j - 1])
    ensures TrimEnd(s) == s[..j]
  {
    if j < |s| {
      var p := s[..|s| - 1];
      TrimEndAt(p, j);
      assert p[..j] == s[..j];
    }
  }

  /** An all-whitespace text strips to nothing. */
  lemma StripAllSpace(s: string)
    requires SpaceBetween(s, 0, |s|)
    ensures Strip(s) == []
  {
  }

  /** Whitespace after position j of s is whitespace after j - i of its suffix t = s[i..]. */
  lemma SpaceBetweenOfSuffix(s: string, t: string, i: nat, j: nat)
    requires i <= j <= |s| && t == s[i..] && SpaceBetween(s, j, |s|)
    ensures SpaceBetween(t, j - i, |t|)
  {
    forall k | j - i <= k < |t|
      ensures IsSpace(t[k])
    {
      assert t[k] == s[k + i];
    }
  }

  /** The slice s[i..j] strips to itself when only whitespace surrounds it and it has
      none at its ends. */
  lemma StripSlice(s: string, i: nat, j: nat)
    requires i < j <= |s| && SpaceBetween(s, 0, i) && SpaceBetween(s, j, |s|)
    requires !IsSpace(s[i]) && !IsSpace(s[j - 1])
    ensures Strip(s) == s[i..j]
  {
    var t := s[i..];
    assert t[..j - i] == s[i..j];
    assert !IsSpace(t[j - i - 1]) by {
      assert t[j - i - 1] == s[j - 1];
    }
    SpaceBetweenOfSuffix(s, t, i, j);
    TrimEndAt(t, j - i);
    TrimStartAt(s, i);
  }

  /** Whatever satisfies the stripping description is exactly what Strip returns. */
  lemma StripUnique(s: string, r: string)
    requires StrippedFrom(s, r)
    ensures r == Strip(s)
  {
    var i, j :| StrippedAt(s, r, i, j);
    if i == j {
      assert SpaceBetween(s, 0, |s|) by {
        forall k | 0 <= k < |s|
          ensures IsSpace(s[k])
        {
          if k >= i {
            assert j <= k;
          }
        }
      }
      StripAllSpace(s);
    } else {
      StripSlice(s, i, j);
    }
  }

  /** Stripping twice is the same as stripping once. */
  lemma StripIdempotent(s: string)
    ensures Strip(Strip(s)) == Strip(s)
  {
    var r := Strip(s);
    assert r[0..|r|] == r;
    assert StrippedAt(r, r, 0, |r|);
    StripUnique(r, r);
  }

  /** Python's str.lower() on one character, restricted to ASCII letters. */
  function LowerChar(c: char): char {
    if 'A' <= c <= 'Z' then (c as int + 32) as char else c
  }

  function Lower(s: string): (r: string)
    ensures |r| == |s| && forall i :: 0 <= i < |s| ==> r[i] == LowerChar(s[i])
  {
    seq(|s|, i requires 0 <= i < |s| => LowerChar(s[i]))
  }

  /** Lower-casing leaves no upper-case ASCII letter behind, and doing it again changes
      nothing. */
  lemma LowerIdempotent(s: string)
    ensures forall i :: 0 <= i < |s| ==> !('A' <= Lower(s)[i] <= 'Z')
    ensures Lower(Lower(s)) == Lower(s)
  {
  }

  predicate StartsWith(s: string, p: string) {
    |p| <= |s| && s[..|p|] == p
  }

  /** Python's `w in s` for strings: s has a contiguous block equal to w. */
  predicate Contains(s: string, w: string)
    decreases |s|
  {
    StartsWith(s, w) || (s != [] && Contains(s[1..], w))
  }

  /** w occurs in s starting at position i. */
  predicate OccursAt(s: string, w: string, i: int) {
    0 <= i <= |s| - |w| && s[i..i + |w|] == w
  }

  /** The recursive substring test agrees with "w occurs at some position". */
  lemma {:induction false} ContainsAt(s: string, w: string)
    ensures Contains(s, w) <==> exists i :: OccursAt(s, w, i)
  {
    if s == [] {
      if |w| == 0 {
        assert OccursAt(s, w, 0);
      }
    } else {
      ContainsAt(s[1..], w);
      if Contains(s[1..], w) {
        var i :| OccursAt(s[1..], w, i);
        assert s[i + 1..i + 1 + |w|] == s[1..][i..i + |w|];
        assert OccursAt(s, w, i + 1);
      }
      if StartsWith(s, w) {
        assert OccursAt(s, w, 0);
      }
      if i :| OccursAt(s, w, i) {
        if i > 0 {
          assert s[1..][i - 1..i - 1 + |w|] == s[i..i + |w|];
          assert OccursAt(s[1..], w, i - 1);
        } else {
          assert StartsWith(s, w);
        }
      }
    }
  }

  /** w occurs in s at position i when upper-case ASCII letters of s are read as
      lower-case ones. */
  ghost predicate MatchesIgnoringCaseAt(s: string, w: string, i: int) {
    0 <= i <= |s| - |w| && forall k :: 0 <= k < |w| ==> LowerChar(s[i + k]) == w[k]
  }

  ghost predicate ContainsIgnoringCase(s: string, w: string) {
    exists i :: MatchesIgnoringCaseAt(s, w, i)
  }

  /** Searching the lower-cased text is a case-insensitive search of the original. */
  lemma LowerContains(s: string, w: string)
    ensures Contains(Lower(s), w) <==> ContainsIgnoringCase(s, w)
  {
    var low := Lower(s);
    ContainsAt(low, w);
    if Contains(low, w) {
      var i :| OccursAt(low, w, i);
      forall k | 0 <= k < |w| ensures LowerChar(s[i + k]) == w[k] {
        assert low[i..i + |w|][k] == low[i + k];
      }
      assert MatchesIgnoringCaseAt(s, w, i);
    }
    if ContainsIgnoringCase(s, w) {
      var i :| MatchesIgnoringCaseAt(s, w, i);
      assert low[i..i + |w|] == w;
      assert OccursAt(low, w, i);
    }
  }

  /** A text that contains w1 + w2 contains w1. */
  lemma ContainsPrefixOfWord(s: string, w1: string, w2: string)
    requires Contains(s, w1 + w2)
    ensures Contains(s, w1)
  {
    ContainsAt(s, w1 + w2);
    ContainsAt(s, w1);
    var i :| OccursAt(s, w1 + w2, i);
    assert s[i..i + |w1|] == (w1 + w2)[..|w1|];
    assert OccursAt(s, w1, i);
  }

  predicate IsDigit(c: char) {
    '0' <= c <= '9'
  }

  predicate AllDigits(s: string) {
    forall i :: 0 <= i < |s| ==> IsDigit(s[i])
  }

  function DigitChar(d: nat): (c: char)
    requires d < 10
    ensures IsDigit(c) && c as int - '0' as int == d
  {
    (d + '0' as int) as char
  }

  /** Python's str() of a non-negative int: decimal digits, no leading zero. */
  function NatText(n: nat): (r: string)
    ensures |r| >= 1 && AllDigits(r)
    ensures r[0] == '0' ==> n == 0 && r == "0"
  {
    if n < 10 then [DigitChar(n)] else NatText(n / 10) + [DigitChar(n % 10)]
  }

  /** Python's str() of an int. */
  function IntText(i: int): string {
    if i < 0 then "-" + NatText(-i) else NatText(i)
  }

  /** The value of a string of decimal digits. */
  function ParseDigits(s: string): nat
    requires AllDigits(s)
  {
    if s == [] then 0 else ParseDigits(s[..|s| - 1]) * 10 + (s[|s| - 1] as int - '0' as int)
  }

  lemma {:induction false} NatTextRoundTrip(n: nat)
    ensures ParseDigits(NatText(n)) == n
  {
    if n >= 10 {
      NatTextRoundTrip(n / 10);
      var r := NatText(n);
      assert r[..|r| - 1] == NatText(n / 10);
    }
  }

  /** The number of decimal digits at the front of s. */
  function LeadingDigits(s: string): (n: nat)
    ensures n <= |s| && AllDigits(s[..n]) && (n == |s| || !IsDigit(s[n]))
  {
    if s != [] && IsDigit(s[0]) then
      var n := 1 + LeadingDigits(s[1..]);
      assert s[..n] == [s[0]] + s[1..][..n - 1];
      n
    else 0
  }

  lemma {:induction false} LeadingDigitsOf(d: string, t: string)
    requires AllDigits(d) && (t == [] || !IsDigit(t[0]))
    ensures LeadingDigits(d + t) == |d|
  {
    if d != [] {
      assert (d + t)[1..] == d[1..] + t;
      LeadingDigitsOf(d[1..], t);
    } else {
      assert d + t == t;
    }
  }
}
