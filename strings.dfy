/** The string operations of Python's `str` that the back end relies on
    (`strip`, `split`, `splitlines`, `join`, `find`, `rfind`, `replace`,
    `startswith`, `endswith`, `lower`, `in`) and the decimal rendering of a
    natural number that f-strings perform.  Strings are sequences of Unicode
    code points, as Python's `str` is. */
module Strings {

  /** Python's `str.isspace()` on one code point: exactly the characters that
      `str.strip()` with no argument removes. */
  predicate IsSpace(c: char) {
    var n := c as int;
    (9 <= n <= 13) || (28 <= n <= 32) || n == 0x85 || n == 0xA0 || n == 0x1680
    || (0x2000 <= n <= 0x200A) || n == 0x2028 || n == 0x2029 || n == 0x202F
    || n == 0x205F || n == 0x3000
  }

  /** The line boundaries of Python's `str.splitlines()` (`"\r\n"` counts as one). */
  predicate IsLineBreak(c: char) {
    var n := c as int;
    (10 <= n <= 13) || (28 <= n <= 30) || n == 0x85 || n == 0x2028 || n == 0x2029
  }

  /** Neither the first nor the last character is whitespace. */
  predicate NoEdgeSpace(s: string) {
    |s| == 0 || (!IsSpace(s[0]) && !IsSpace(s[|s| - 1]))
  }

  predicate AllSpace(s: string) {
    forall k :: 0 <= k < |s| ==> IsSpace(s[k])
  }

  /** `s.lstrip()`: drops the leading whitespace and nothing else. */
  function LStrip(s: string): (r: string)
    ensures |r| <= |s| && r == s[|s| - |r|..]
    ensures |r| == 0 || !IsSpace(r[0])
    ensures AllSpace(s[..|s| - |r|])
  {
    if |s| > 0 && IsSpace(s[0]) then LStrip(s[1..]) else s
  }

  /** `s.rstrip()`: drops the trailing whitespace and nothing else. */
  function RStrip(s: string): (r: string)
    ensures |r| <= |s| && r == s[..|r|]
    ensures |r| == 0 || !IsSpace(r[|r| - 1])
    ensures AllSpace(s[|r|..])
  {
    if |s| > 0 && IsSpace(s[|s| - 1]) then RStrip(s[..|s| - 1]) else s
  }

  /** `s.strip()`: the result has no whitespace at either end, is empty exactly
      when `s` is all whitespace, and leaves a string without edge whitespace
      as it is. */
  function Strip(s: string): (r: string)
    ensures NoEdgeSpace(r) && |r| <= |s|
    ensures |r| == 0 <==> AllSpace(s)
    ensures NoEdgeSpace(s) ==> r == s
  {
    var l := LStrip(s);
    assert |l| != 0 ==> l[0] == s[|s| - |l|];
    assert |l| == 0 ==> AllSpace(s) by {
      if |l| == 0 { assert s[..|s|] == s; }
    }
    var r := RStrip(l);
    assert |r| == 0 ==> AllSpace(l) by {
      if |r| == 0 { assert l[0..] == l; }
    }
    assert |r| != 0 ==> r[0] == l[0];
    r
  }

  /** Stripping never introduces a character. */
  lemma StripOmits(s: string, c: char)
    requires c !in s
    ensures c !in Strip(s)
  {
    var l := LStrip(s);
    assert c !in l by {
      forall k | 0 <= k < |l|
        ensures l[k] != c
      {
        assert l[k] == s[|s| - |l| + k];
      }
    }
    var r := RStrip(l);
    assert c !in r by {
      forall k | 0 <= k < |r|
        ensures r[k] != c
      {
        assert r[k] == l[k];
      }
    }
    assert Strip(s) == r;
  }

  /** Leading whitespace makes no difference to `lstrip`. */
  lemma {:induction false} LStripSpacePrefix(sp: string, t: string)
    requires AllSpace(sp)
    ensures LStrip(sp + t) == LStrip(t)
    decreases |sp|
  {
    if |sp| == 0 {
      assert sp + t == t;
    } else {
      assert (sp + t)[0] == sp[0];
      assert (sp + t)[1..] == sp[1..] + t;
      LStripSpacePrefix(sp[1..], t);
    }
  }

  /** Leading whitespace makes no difference to `strip`. */
  lemma StripSpacePrefix(sp: string, t: string)
    requires AllSpace(sp)
    ensures Strip(sp + t) == Strip(t)
  {
    LStripSpacePrefix(sp, t);
  }

  /** Trailing whitespace makes no difference to `rstrip`. */
  lemma {:induction false} RStripSpaceSuffix(t: string, sp: string)
    requires AllSpace(sp)
    ensures RStrip(t + sp) == RStrip(t)
    decreases |sp|
  {
    if |sp| == 0 {
      assert t + sp == t;
    } else {
      var n := |sp| - 1;
      assert (t + sp)[|t + sp| - 1] == sp[n];
      assert (t + sp)[..|t + sp| - 1] == t + sp[..n];
      RStripSpaceSuffix(t, sp[..n]);
    }
  }

  /** Stripping a text padded with whitespace on both sides gives the text
      back when it has no whitespace at its ends. */
  lemma StripPadding(sp1: string, t: string, sp2: string)
    requires AllSpace(sp1) && AllSpace(sp2) && |t| != 0 && NoEdgeSpace(t)
    ensures Strip(sp1 + t + sp2) == t
  {
    assert sp1 + t + sp2 == sp1 + (t + sp2);
    StripSpacePrefix(sp1, t + sp2);
    assert (t + sp2)[0] == t[0];
    assert LStrip(t + sp2) == t + sp2;
    RStripSpaceSuffix(t, sp2);
  }

  predicate StartsWith(s: string, prefix: string) {
    |prefix| <= |s| && s[..|prefix|] == prefix
  }

  predicate EndsWith(s: string, suffix: string) {
    |suffix| <= |s| && s[|s| - |suffix|..] == suffix
  }

  /** `pat in s` for strings. */
  predicate Contains(s: string, pat: string)
    decreases |s|
  {
    StartsWith(s, pat) || (|s| > 0 && Contains(s[1..], pat))
  }

  /** `s.find(c)`: the first index of `c`, or -1. */
  function Find(s: string, c: char): (r: int)
    ensures -1 <= r < |s|
    ensures r == -1 <==> c !in s
    ensures r >= 0 ==> s[r] == c && c !in s[..r]
  {
    if |s| == 0 then -1
    else if s[0] == c then 0
    else
      var k := Find(s[1..], c);
      assert s[1..][..if k < 0 then 0 else k] == s[1..1 + (if k < 0 then 0 else k)];
      if k < 0 then -1 else k + 1
  }

  /** `s.rfind(c)`: the last index of `c`, or -1. */
  function RFind(s: string, c: char): (r: int)
    ensures -1 <= r < |s|
    ensures r == -1 <==> c !in s
    ensures r >= 0 ==> s[r] == c && c !in s[r + 1..]
  {
    if |s| == 0 then -1
    else if s[|s| - 1] == c then |s| - 1
    else
      var k := RFind(s[..|s| - 1], c);
      assert s == s[..|s| - 1] + [s[|s| - 1]];
      k
  }

  /** `s.split(sep)` for a one-character separator: as many pieces as there
      are separators plus one (so `"".split(sep) == [""]`), none holding `sep`. */
  function Split(s: string, sep: char): (r: seq<string>)
    ensures |r| >= 1
    ensures forall i :: 0 <= i < |r| ==> sep !in r[i]
    decreases |s|
  {
    var i := Find(s, sep);
    if i < 0 then [s] else [s[..i]] + Split(s[i + 1..], sep)
  }

  /** `sep.join(xs)`. */
  function Join(xs: seq<string>, sep: string): string
  {
    if |xs| == 0 then "" else if |xs| == 1 then xs[0] else xs[0] + sep + Join(xs[1..], sep)
  }

  /** Slicing a suffix is slicing the text further along. */
  lemma SliceOfSuffix<T>(s: seq<T>, i: nat, h: nat, p: nat)
    requires i + h + p <= |s|
    ensures s[i..][..h] == s[i..i + h]
    ensures s[i..][h..][..p] == s[i + h..i + h + p]
    ensures s[i..][h..][p..] == s[i + h + p..]
  {
  }

  /** A prefix of a prefix is a prefix. */
  lemma StartsWithPrefix(s: string, p: string, q: string)
    requires StartsWith(s, p) && StartsWith(p, q)
    ensures StartsWith(s, q)
  {
    assert s[..|q|] == s[..|p|][..|q|];
  }

  /** A join starts with its first piece. */
  lemma JoinStartsWithFirst(xs: seq<string>, sep: string)
    requires |xs| > 0
    ensures StartsWith(Join(xs, sep), xs[0])
  {
    if |xs| > 1 {
      assert Join(xs, sep) == xs[0] + (sep + Join(xs[1..], sep));
    }
  }

  /** Joining with an extra empty last piece appends one separator. */
  lemma {:induction false} JoinAppendEmpty(xs: seq<string>, sep: string)
    requires |xs| > 0
    ensures Join(xs + [""], sep) == Join(xs, sep) + sep
  {
    if |xs| == 1 {
      assert (xs + [""])[1..] == [""];
    } else {
      assert (xs + [""])[1..] == xs[1..] + [""];
      JoinAppendEmpty(xs[1..], sep);
    }
  }

  lemma FindAfterPrefix(a: string, c: char, b: string)
    requires c !in a
    ensures Find(a + [c] + b, c) == |a|
  {
    var s := a + [c] + b;
    var i := Find(s, c);
    assert s[|a|] == c;
    assert forall j :: 0 <= j < i ==> s[..i][j] == s[j];
    assert forall j :: 0 <= j < |a| ==> s[j] == a[j];
  }

  /** Behind a common prefix, the first separator splits two equal strings
      at the same place. */
  lemma SeparatedUnique(p: string, a: string, c: string, b: string, d: string, sep: char)
    requires sep !in a && sep !in b
    requires p + a + [sep] + c == p + b + [sep] + d
    ensures a == b && c == d
  {
    var s := a + [sep] + c;
    var t := b + [sep] + d;
    assert (p + a + [sep] + c)[|p|..] == s;
    assert (p + b + [sep] + d)[|p|..] == t;
    FindAfterPrefix(a, sep, c);
    FindAfterPrefix(b, sep, d);
    assert a == s[..|a|] && b == t[..|b|];
    assert c == s[|a| + 1..] && d == t[|b| + 1..];
  }

  /** Splitting a joined sequence gives the pieces back when none holds the separator. */
  lemma {:induction false} SplitJoin(xs: seq<string>, sep: char)
    requires |xs| >= 1
    requires forall i :: 0 <= i < |xs| ==> sep !in xs[i]
    ensures Split(Join(xs, [sep]), sep) == xs
  {
    if |xs| > 1 {
      var rest := Join(xs[1..], [sep]);
      var s := xs[0] + [sep] + rest;
      FindAfterPrefix(xs[0], sep, rest);
      assert s[..|xs[0]|] == xs[0];
      assert s[|xs[0]| + 1..] == rest;
      SplitJoin(xs[1..], sep);
    }
  }

  /** A join wrapped in one separator on each side splits into an empty
      piece, the pieces and another empty piece. */
  lemma SplitFramed(xs: seq<string>, sep: char)
    requires |xs| >= 1
    requires forall i :: 0 <= i < |xs| ==> sep !in xs[i]
    ensures Split([sep] + Join(xs, [sep]) + [sep], sep) == [""] + xs + [""]
  {
    var ys := [""] + xs + [""];
    assert forall i :: 0 <= i < |ys| ==> sep !in ys[i] by {
      forall i | 0 <= i < |ys|
        ensures sep !in ys[i]
      {
        if 1 <= i <= |xs| {
          assert ys[i] == xs[i - 1];
        }
      }
    }
    assert ys[1..] == xs + [""];
    JoinAppendEmpty(xs, [sep]);
    assert Join(ys, [sep]) == [sep] + Join(xs, [sep]) + [sep];
    SplitJoin(ys, sep);
  }

  /** Joining the pieces of a split gives the string back. */
  lemma {:induction false} JoinSplit(s: string, sep: char)
    ensures Join(Split(s, sep), [sep]) == s
    decreases |s|
  {
    var i := Find(s, sep);
    if i >= 0 {
      var rest := Split(s[i + 1..], sep);
      JoinSplit(s[i + 1..], sep);
      assert ([s[..i]] + rest)[1..] == rest;
      assert Join([s[..i]] + rest, [sep]) == s[..i] + [sep] + Join(rest, [sep]);
      assert s == s[..i] + [sep] + s[i + 1..];
    }
  }

  /** The index of the first line boundary, or `|s|`. */
  function FindLineBreak(s: string): (r: nat)
    ensures r <= |s|
    ensures r < |s| ==> IsLineBreak(s[r])
    ensures forall k :: 0 <= k < r ==> !IsLineBreak(s[k])
  {
    if |s| == 0 || IsLineBreak(s[0]) then 0 else 1 + FindLineBreak(s[1..])
  }

  predicate NoLineBreak(s: string) {
    forall k :: 0 <= k < |s| ==> !IsLineBreak(s[k])
  }

  /** `s.splitlines()`: the lines without their terminators; a final
      terminator does not open an empty last line, and `""` has no lines. */
  function SplitLines(s: string): (r: seq<string>)
    ensures |s| == 0 <==> |r| == 0
    ensures forall i :: 0 <= i < |r| ==> NoLineBreak(r[i])
    ensures NoLineBreak(s) && |s| != 0 ==> r == [s]
    decreases |s|
  {
    if |s| == 0 then []
    else
      var i := FindLineBreak(s);
      if i == |s| then [s]
      else
        var next := if s[i] == '\r' && i + 1 < |s| && s[i + 1] == '\n' then i + 2 else i + 1;
        [s[..i]] + SplitLines(s[next..])
  }

  lemma FindLineBreakAfter(a: string, c: char, b: string)
    requires NoLineBreak(a) && IsLineBreak(c)
    ensures FindLineBreak(a + [c] + b) == |a|
  {
    var s := a + [c] + b;
    assert s[|a|] == c;
    assert forall j :: 0 <= j < |a| ==> s[j] == a[j];
  }

  /** Splitting lines joined with `"\n"` gives them back, provided none holds
      a line boundary and the last is not empty (a final empty line leaves no
      trace in `splitlines()`). */
  lemma {:induction false} SplitLinesJoin(xs: seq<string>)
    requires |xs| > 0 && xs[|xs| - 1] != ""
    requires forall i :: 0 <= i < |xs| ==> NoLineBreak(xs[i])
    ensures SplitLines(Join(xs, "\n")) == xs
  {
    if |xs| > 1 {
      var rest := Join(xs[1..], "\n");
      var s := xs[0] + "\n" + rest;
      assert s == xs[0] + ['\n'] + rest;
      FindLineBreakAfter(xs[0], '\n', rest);
      assert s[..|xs[0]|] == xs[0];
      assert s[|xs[0]| + 1..] == rest;
      SplitLinesJoin(xs[1..]);
    }
  }

  /** `s.replace(pat, sub)` for a non-empty pattern: every occurrence, scanning
      left to right without overlaps, is replaced. */
  function Replace(s: string, pat: string, sub: string): string
    requires |pat| != 0
    decreases |s|
  {
    if |s| < |pat| then s
    else if s[..|pat|] == pat then sub + Replace(s[|pat|..], pat, sub)
    else [s[0]] + Replace(s[1..], pat, sub)
  }

  /** Where the pattern does not start, `replace` keeps the first character. */
  lemma ReplaceStepsOver(s: string, pat: string, sub: string)
    requires |pat| != 0 && |s| >= |pat| && s[..|pat|] != pat
    ensures Replace(s, pat, sub) == [s[0]] + Replace(s[1..], pat, sub)
  {
  }

  /** Text without an occurrence of the pattern is left as it is. */
  lemma {:induction false} ReplaceAbsent(s: string, pat: string, sub: string)
    requires |pat| != 0 && !Contains(s, pat)
    ensures Replace(s, pat, sub) == s
    decreases |s|
  {
    if |s| >= |pat| {
      assert s[..|pat|] != pat;
      ReplaceAbsent(s[1..], pat, sub);
      assert s == [s[0]] + s[1..];
    }
  }

  /** ASCII lower-casing of one character. */
  function LowerChar(c: char): char {
    if 'A' <= c <= 'Z' then (c as int + 32) as char else c
  }

  /** `s.lower()` on ASCII letters; other characters are kept. */
  function Lower(s: string): (r: string)
    ensures |r| == |s|
    ensures forall i :: 0 <= i < |s| ==> r[i] == LowerChar(s[i])
  {
    seq(|s|, i requires 0 <= i < |s| => LowerChar(s[i]))
  }

  predicate IsDigit(c: char) {
    '0' <= c <= '9'
  }

  function DigitChar(d: nat): (c: char)
    requires d < 10
    ensures IsDigit(c) && c as int - '0' as int == d
  {
    (d + '0' as int) as char
  }

  /** `str(n)` for a natural number: its decimal digits, without leading zeros. */
  function NatToString(n: nat): (r: string)
    ensures |r| >= 1 && forall i :: 0 <= i < |r| ==> IsDigit(r[i])
    ensures r[0] == '0' ==> n == 0
  {
    if n < 10 then [DigitChar(n)] else NatToString(n / 10) + [DigitChar(n % 10)]
  }

  /** The value of a string of decimal digits. */
  function DigitsValue(s: string): nat
    requires forall i :: 0 <= i < |s| ==> IsDigit(s[i])
  {
    if |s| == 0 then 0
    else
      assert IsDigit(s[|s| - 1]);
      DigitsValue(s[..|s| - 1]) * 10 + (s[|s| - 1] as int - '0' as int)
  }

  /** Rendering a number and reading it back gives the number. */
  lemma {:induction false} NatToStringRoundTrip(n: nat)
    ensures DigitsValue(NatToString(n)) == n
  {
    if n >= 10 {
      var s := NatToString(n);
      assert s[..|s| - 1] == NatToString(n / 10);
      NatToStringRoundTrip(n / 10);
    }
  }

  /** Digits, with an optional leading minus sign. */
  predicate IsSignedNumeral(s: string) {
    if |s| > 0 && s[0] == '-' then forall i :: 1 <= i < |s| ==> IsDigit(s[i])
    else forall i :: 0 <= i < |s| ==> IsDigit(s[i])
  }

  /** `str(n)` for any integer: a minus sign before the digits of a negative one. */
  function IntToString(n: int): (r: string)
    ensures |r| >= 1 && IsSignedNumeral(r)
    ensures forall i :: 0 <= i < |r| ==> IsDigit(r[i]) || r[i] == '-'
    ensures r[0] == '-' <==> n < 0
  {
    if n < 0 then "-" + NatToString(-n) else NatToString(n)
  }

  /** The value of a signed numeral. */
  function SignedValue(s: string): int
    requires IsSignedNumeral(s)
  {
    if |s| > 0 && s[0] == '-' then
      assert forall i :: 0 <= i < |s[1..]| ==> IsDigit(s[1..][i]) by {
        forall i | 0 <= i < |s[1..]|
          ensures IsDigit(s[1..][i])
        {
          assert s[1..][i] == s[i + 1];
        }
      }
      -(DigitsValue(s[1..]) as int)
    else DigitsValue(s)
  }

  /** Rendering an integer and reading it back gives the integer. */
  lemma IntToStringRoundTrip(n: int)
    ensures SignedValue(IntToString(n)) == n
  {
    if n < 0 {
      assert IntToString(n)[1..] == NatToString(-n);
      NatToStringRoundTrip(-n);
    } else {
      NatToStringRoundTrip(n);
    }
  }

  /** Different numbers render differently. */
  lemma NatToStringInjective(m: nat, n: nat)
    requires NatToString(m) == NatToString(n)
    ensures m == n
  {
    NatToStringRoundTrip(m);
    NatToStringRoundTrip(n);
  }
}
