/** String helpers with Python's semantics: `str.isspace`/`str.strip`,
    `sep.join(parts)`, decimal rendering of `int` in f-strings, `in` on
    strings, and `str.replace`. */
module Text {

  /** The code-point ranges of the characters Python's `str.isspace()`
      accepts: those whose bidirectional class is WS, B or S, or whose
      category is Zs. */
  const SpaceRanges: seq<(int, int)> := [
    (0x09, 0x0D), (0x1C, 0x20), (0x85, 0x85), (0xA0, 0xA0), (0x1680, 0x1680),
    (0x2000, 0x200A), (0x2028, 0x2029), (0x202F, 0x202F), (0x205F, 0x205F), (0x3000, 0x3000)]

  predicate InRanges(n: int, ranges: seq<(int, int)>) {
    ranges != [] && ((ranges[0].0 <= n <= ranges[0].1) || InRanges(n, ranges[1..]))
  }

  /** `c.isspace()`. */
  predicate IsSpace(c: char) {
    InRanges(c as int, SpaceRanges)
  }

  predicate AllSpace(s: string) {
    forall i :: 0 <= i < |s| ==> IsSpace(s[i])
  }

  /** Whether `s` has a character that is not whitespace. */
  predicate HasText(s: string) {
    s != [] && (!IsSpace(s[0]) || HasText(s[1..]))
  }

  lemma {:induction false} HasTextIffNotAllSpace(s: string)
    ensures HasText(s) <==> !AllSpace(s)
  {
    if s != [] {
      HasTextIffNotAllSpace(s[1..]);
      if !IsSpace(s[0]) {
        assert !AllSpace(s);
      } else if !AllSpace(s) {
        var i :| 0 <= i < |s| && !IsSpace(s[i]);
        assert s[1..][i - 1] == s[i];
      } else {
        assert forall i :: 0 <= i < |s| - 1 ==> s[1..][i] == s[i + 1];
      }
    }
  }

  /** `s.lstrip()`: drops the leading whitespace. */
  function TrimLeft(s: string): (r: string)
    ensures |r| <= |s| && r == s[|s| - |r|..]
    ensures AllSpace(s[..|s| - |r|])
    ensures r == [] || !IsSpace(r[0])
  {
    if s != [] && IsSpace(s[0]) then TrimLeft(s[1..]) else s
  }

  /** `s.rstrip()`: drops the trailing whitespace. */
  function TrimRight(s: string): (r: string)
    ensures |r| <= |s| && r == s[..|r|]
    ensures AllSpace(s[|r|..])
    ensures r == [] || !IsSpace(r[|r| - 1])
  {
    if s != [] && IsSpace(s[|s| - 1]) then TrimRight(s[..|s| - 1]) else s
  }

  /** `s.strip()`: what is left once both the leading and the trailing
      whitespace are dropped; it neither starts nor ends with whitespace. */
  function Strip(s: string): (r: string)
    ensures |r| <= |s|
    ensures r == [] || (!IsSpace(r[0]) && !IsSpace(r[|r| - 1]))
  {
    TrimRight(TrimLeft(s))
  }

  /** How many whitespace characters `s.strip()` drops from the front. */
  function LeadingSpace(s: string): nat {
    |s| - |TrimLeft(s)|
  }

  /** `s.strip()` is a slice of `s` with only whitespace before and after it. */
  lemma StripIsSlice(s: string)
    ensures LeadingSpace(s) + |Strip(s)| <= |s|
    ensures Strip(s) == s[LeadingSpace(s)..LeadingSpace(s) + |Strip(s)|]
    ensures AllSpace(s[..LeadingSpace(s)]) && AllSpace(s[LeadingSpace(s) + |Strip(s)|..])
  {
    var t := TrimLeft(s);
    var k, r := |s| - |t|, TrimRight(t);
    assert k == LeadingSpace(s) && r == Strip(s);
    SpaceAround(s, k, t, r);
  }

  /** A prefix `r` of a suffix `t` of `s`, with whitespace after `r`, is a
      slice of `s` with whitespace after it. */
  lemma SpaceAround(s: string, k: nat, t: string, r: string)
    requires k <= |s| && t == s[k..] && |r| <= |t| && r == t[..|r|] && AllSpace(t[|r|..])
    ensures k + |r| <= |s| && r == s[k..k + |r|] && AllSpace(s[k + |r|..])
  {
    assert s[k + |r|..] == t[|r|..];
  }

  /** `len(s.strip()) > 0` holds exactly when `s` has a non-whitespace
      character: the blank-code test of the code-context scan. */
  lemma StripNonEmptyIffHasText(s: string)
    ensures |Strip(s)| > 0 <==> HasText(s)
  {
    HasTextIffNotAllSpace(s);
    StripEmptyIffAllSpace(s);
  }

  lemma StripEmptyIffAllSpace(s: string)
    ensures |Strip(s)| == 0 <==> AllSpace(s)
  {
    var t := TrimLeft(s);
    var k := |s| - |t|;
    if |Strip(s)| == 0 {
      assert AllSpace(t[0..]);
      assert t == [];
      forall i | 0 <= i < |s| ensures IsSpace(s[i]) {
        assert s[..k][i] == s[i];
      }
    } else {
      assert t[0] == s[k];
    }
  }

  /** `sep.join(parts)`. */
  function Join(parts: seq<string>, sep: string): (r: string)
    ensures parts == [] ==> r == []
    ensures |parts| == 1 ==> r == parts[0]
  {
    if parts == [] then []
    else if |parts| == 1 then parts[0]
    else parts[0] + sep + Join(parts[1..], sep)
  }

  /** Joining one more part appends the separator and that part. */
  lemma {:induction false} JoinSnoc(parts: seq<string>, x: string, sep: string)
    ensures Join(parts + [x], sep) == if parts == [] then x else Join(parts, sep) + sep + x
  {
    if |parts| >= 2 {
      assert (parts + [x])[1..] == parts[1..] + [x];
      JoinSnoc(parts[1..], x, sep);
    }
  }

  /** A join starts with its first part. */
  lemma JoinHead(parts: seq<string>, sep: string)
    requires parts != []
    ensures |parts[0]| <= |Join(parts, sep)| && Join(parts, sep)[..|parts[0]|] == parts[0]
  {
    if |parts| >= 2 {
      var r := Join(parts, sep);
      assert r == parts[0] + (sep + Join(parts[1..], sep));
    }
  }

  /** Text in a prefix is text in the whole. */
  lemma {:induction false} HasTextPrefix(a: string, b: string)
    requires HasText(a)
    ensures HasText(a + b)
  {
    if IsSpace(a[0]) {
      assert (a + b)[1..] == a[1..] + b;
      HasTextPrefix(a[1..], b);
    }
  }

  function DigitChar(d: nat): (c: char)
    requires d < 10
    ensures '0' <= c <= '9' && (c as int) - ('0' as int) == d
  {
    ['0', '1', '2', '3', '4', '5', '6', '7', '8', '9'][d]
  }

  /** The decimal digits Python prints for a natural number in an f-string. */
  function Decimal(n: nat): (r: string)
    ensures r != []
    ensures forall i :: 0 <= i < |r| ==> '0' <= r[i] <= '9'
    ensures |r| > 1 ==> r[0] != '0'
  {
    if n < 10 then [DigitChar(n)] else Decimal(n / 10) + [DigitChar(n % 10)]
  }

  /** Reads a string of decimal digits back as a number. */
  function DecimalValue(s: string): nat
    requires forall i :: 0 <= i < |s| ==> '0' <= s[i] <= '9'
  {
    if s == [] then 0
    else DecimalValue(s[..|s| - 1]) * 10 + ((s[|s| - 1] as int) - ('0' as int))
  }

  /** Decimal rendering is injective: reading it back gives the number. */
  lemma {:induction false} DecimalRoundTrip(n: nat)
    ensures DecimalValue(Decimal(n)) == n
  {
    if n >= 10 {
      var s := Decimal(n);
      assert s[..|s| - 1] == Decimal(n / 10);
      DecimalRoundTrip(n / 10);
    }
  }

  /** `pat in s` for a non-empty `pat`. */
  predicate OccursAt(s: string, pat: string, i: int) {
    0 <= i && i + |pat| <= |s| && s[i..i + |pat|] == pat
  }

  /** The parts of a concatenation sit where they were put. */
  lemma ConcatParts(a: string, b: string, c: string)
    ensures OccursAt(a + b + c, a, 0) && OccursAt(a + b + c, b, |a|) && EndsWith(a + b + c, c)
  {
    assert (a + b + c)[..|a|] == a;
    assert (a + b + c)[|a|..|a| + |b|] == b;
    assert (a + b + c)[|a| + |b|..] == c;
  }

  /** An occurrence of `a + b` is an occurrence of `a`. */
  lemma OccursAtPrefix(s: string, a: string, b: string, i: int)
    requires OccursAt(s, a + b, i)
    ensures OccursAt(s, a, i)
  {
    assert s[i..i + |a|] == (a + b)[..|a|];
  }

  /** An occurrence inside an occurrence is an occurrence. */
  lemma OccursAtWithin(s: string, a: string, b: string, i: int, j: int)
    requires OccursAt(s, a, i) && OccursAt(a, b, j)
    ensures OccursAt(s, b, i + j)
  {
    var t := s[i..i + |a|];
    assert t == a;
    forall k | 0 <= k < |b| ensures s[i + j..i + j + |b|][k] == b[k] {
      assert s[i + j + k] == t[j + k] == a[j + k] == a[j..j + |b|][k];
    }
  }

  predicate Occurs(s: string, pat: string) {
    exists i :: 0 <= i <= |s| - |pat| && OccursAt(s, pat, i)
  }

  predicate EndsWith(s: string, suffix: string) {
    |suffix| <= |s| && s[|s| - |suffix|..] == suffix
  }

  /** A suffix of a suffix is a suffix. */
  lemma EndsWithPart(s: string, a: string, b: string)
    requires EndsWith(s, a + b)
    ensures EndsWith(s, b)
  {
    var t := s[|s| - |a + b|..];
    assert t[|a|..] == (a + b)[|a|..] == b;
    assert s[|s| - |b|..] == t[|a|..];
  }

  /** `s.replace(pat, rep)` for a non-empty `pat`: scans left to right and
      replaces non-overlapping occurrences. */
  function ReplaceAll(s: string, pat: string, rep: string): string
    requires pat != []
  {
    if |s| < |pat| then s
    else if s[..|pat|] == pat then rep + ReplaceAll(s[|pat|..], pat, rep)
    else [s[0]] + ReplaceAll(s[1..], pat, rep)
  }

  /** A text without the pattern comes back unchanged. */
  lemma {:induction false} ReplaceAllWithoutPattern(s: string, pat: string, rep: string)
    requires pat != []
    ensures !Occurs(s, pat) ==> ReplaceAll(s, pat, rep) == s
    decreases |s|
  {
    if |s| >= |pat| && !Occurs(s, pat) {
      assert !OccursAt(s, pat, 0);
      OccursInTail(s, pat);
      ReplaceAllWithoutPattern(s[1..], pat, rep);
      assert [s[0]] + s[1..] == s;
    }
  }

  /** An occurrence in the tail is an occurrence in the whole. */
  lemma OccursInTail(s: string, pat: string)
    requires s != []
    ensures Occurs(s[1..], pat) ==> Occurs(s, pat)
  {
    if Occurs(s[1..], pat) {
      var i :| 0 <= i <= |s| - 1 - |pat| && OccursAt(s[1..], pat, i);
      assert s[i + 1..i + 1 + |pat|] == s[1..][i..i + |pat|];
      assert OccursAt(s, pat, i + 1);
    }
  }

  /** An occurrence of the pattern always leaves an occurrence of the
      replacement behind. */
  lemma {:induction false} ReplaceAllKeepsReplacement(s: string, pat: string, rep: string)
    requires pat != [] && Occurs(s, pat)
    ensures Occurs(ReplaceAll(s, pat, rep), rep)
  {
    var i :| 0 <= i <= |s| - |pat| && OccursAt(s, pat, i);
    if s[..|pat|] == pat {
      assert OccursAt(ReplaceAll(s, pat, rep), rep, 0);
    } else {
      assert i != 0;
      var k := i - 1;
      assert s[1..][k..k + |pat|] == s[i..i + |pat|];
      assert OccursAt(s[1..], pat, k);
      ReplaceAllKeepsReplacement(s[1..], pat, rep);
      var r := ReplaceAll(s[1..], pat, rep);
      var j :| 0 <= j <= |r| - |rep| && OccursAt(r, rep, j);
      assert ([s[0]] + r)[j + 1..j + 1 + |rep|] == r[j..j + |rep|];
      assert OccursAt([s[0]] + r, rep, j + 1);
    }
  }

  /** Where the replacement has no copy of the pattern's first character in
      its first `n` characters, those characters are the input's own. */
  lemma {:induction false} ReplaceAllKeepsPlainPrefix(s: string, pat: string, rep: string, n: nat)
    requires pat != [] && rep != [] && rep[0] == pat[0]
    ensures n <= |ReplaceAll(s, pat, rep)| && (forall i :: 0 <= i < n ==> ReplaceAll(s, pat, rep)[i] != pat[0])
      ==> n <= |s| && s[..n] == ReplaceAll(s, pat, rep)[..n]
    decreases |s|
  {
    var r := ReplaceAll(s, pat, rep);
    if n > 0 && |s| >= |pat| && s[..|pat|] != pat {
      var rt := ReplaceAll(s[1..], pat, rep);
      assert r == [s[0]] + rt;
      ReplaceAllKeepsPlainPrefix(s[1..], pat, rep, n - 1);
      if n <= |r| && forall i :: 0 <= i < n ==> r[i] != pat[0] {
        assert forall i :: 0 <= i < n - 1 ==> rt[i] == r[i + 1];
        assert s[..n] == [s[0]] + s[1..][..n - 1];
      }
    } else if n > 0 && |s| >= |pat| {
      assert r == rep + ReplaceAll(s[|pat|..], pat, rep);
      assert r[0] == pat[0];
    }
  }

  /** `s.replace(pat, rep)` leaves no occurrence of `pat` when the
      replacement starts like the pattern but differs from it, and the
      pattern's first character occurs nowhere else in either. */
  lemma {:induction false} ReplaceAllRemovesPattern(s: string, pat: string, rep: string)
    requires pat != [] && |rep| >= |pat| && rep[..|pat|] != pat && rep[0] == pat[0]
    requires forall i :: 1 <= i < |pat| ==> pat[i] != pat[0]
    requires forall i :: 1 <= i < |rep| ==> rep[i] != pat[0]
    ensures !Occurs(ReplaceAll(s, pat, rep), pat)
    decreases |s|
  {
    if |s| >= |pat| {
      if s[..|pat|] == pat {
        ReplaceAllRemovesPattern(s[|pat|..], pat, rep);
        NoPatternAfterReplacement(pat, rep, ReplaceAll(s[|pat|..], pat, rep));
      } else {
        ReplaceAllRemovesPattern(s[1..], pat, rep);
        NoPatternAfterKeptChar(s, pat, rep);
      }
    }
  }

  lemma NoPatternAfterReplacement(pat: string, rep: string, rt: string)
    requires pat != [] && |rep| >= |pat| && rep[..|pat|] != pat
    requires forall i :: 1 <= i < |rep| ==> rep[i] != pat[0]
    requires !Occurs(rt, pat)
    ensures !Occurs(rep + rt, pat)
  {
    var r := rep + rt;
    forall i | 0 <= i <= |r| - |pat| ensures !OccursAt(r, pat, i) {
      if i == 0 {
        assert r[0..|pat|] == rep[..|pat|];
      } else if i < |rep| {
        assert r[i..i + |pat|][0] == rep[i] != pat[0];
      } else {
        assert r[i..i + |pat|] == rt[i - |rep|..i - |rep| + |pat|];
        assert !OccursAt(rt, pat, i - |rep|);
      }
    }
  }

  lemma NoPatternAfterKeptChar(s: string, pat: string, rep: string)
    requires pat != [] && rep != [] && rep[0] == pat[0] && |s| >= |pat| && s[..|pat|] != pat
    requires forall i :: 1 <= i < |pat| ==> pat[i] != pat[0]
    requires !Occurs(ReplaceAll(s[1..], pat, rep), pat)
    ensures !Occurs(ReplaceAll(s, pat, rep), pat)
  {
    var rt := ReplaceAll(s[1..], pat, rep);
    assert ReplaceAll(s, pat, rep) == [s[0]] + rt;
    KeptCharStartsNoPattern(s, pat, rep);
    NoPatternAfterChar(s[0], rt, pat);
  }

  lemma KeptCharStartsNoPattern(s: string, pat: string, rep: string)
    requires pat != [] && rep != [] && rep[0] == pat[0] && |s| >= |pat| && s[..|pat|] != pat
    requires forall i :: 1 <= i < |pat| ==> pat[i] != pat[0]
    ensures !OccursAt([s[0]] + ReplaceAll(s[1..], pat, rep), pat, 0)
  {
    var rt := ReplaceAll(s[1..], pat, rep);
    if OccursAt([s[0]] + rt, pat, 0) {
      assert forall k :: 0 <= k < |pat| - 1 ==> rt[k] == pat[k + 1];
    }
    ReplaceAllKeepsPlainPrefix(s[1..], pat, rep, |pat| - 1);
    assert s[..|pat|] == [s[0]] + s[1..][..|pat| - 1];
  }

  lemma NoPatternAfterChar(c: char, rt: string, pat: string)
    requires pat != [] && !Occurs(rt, pat) && !OccursAt([c] + rt, pat, 0)
    ensures !Occurs([c] + rt, pat)
  {
    var r := [c] + rt;
    forall i | 1 <= i <= |r| - |pat| ensures !OccursAt(r, pat, i) {
      assert r[i..i + |pat|] == rt[i - 1..i - 1 + |pat|];
      assert !OccursAt(rt, pat, i - 1);
    }
  }
}
