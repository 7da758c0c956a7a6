/** The argument checks of the web scraping tool
    (backend/app/agent/web_scraper_tool.py): `run` rejects a missing or empty
    `url` and one that `_is_valid_url` refuses before any model call.
    `_is_valid_url` is the case-insensitive regular expression

      ^https?://(host)(:digits)?(/?|[/?]\S+)$

    whose host is a domain name (labels of letters, digits and inner
    hyphens, each followed by a dot, then a top-level name of 2 to 6
    letters and an optional dot), `localhost`, or four dot-separated groups
    of 1 to 3 digits.  It is modelled twice: `UrlBody` reads the URL from
    left to right the way a match must go, and `PatternBody` states the
    pattern as a choice of split points, the way the regular expression
    does; `RecogniserIsPattern` proves them equal.  Python's `$` also
    matches before a final newline. */
module WebScraper {
  import opened Wrappers
  import opened Strings

  predicate IsLetter(c: char) {
    'a' <= c <= 'z' || 'A' <= c <= 'Z'
  }

  /** `[A-Z0-9]` under `re.IGNORECASE`. */
  predicate IsAlnum(c: char) {
    IsLetter(c) || IsDigit(c)
  }

  /** `[A-Z0-9](?:[A-Z0-9-]{0,61}[A-Z0-9])?`: 1 to 63 letters, digits and
      hyphens, not starting or ending with a hyphen. */
  predicate IsLabel(x: string) {
    && 1 <= |x| <= 63
    && IsAlnum(x[0]) && IsAlnum(x[|x| - 1])
    && forall k :: 0 <= k < |x| ==> IsAlnum(x[k]) || x[k] == '-'
  }

  /** `[A-Z]{2,6}`. */
  predicate IsTopLevel(x: string) {
    2 <= |x| <= 6 && forall k :: 0 <= k < |x| ==> IsLetter(x[k])
  }

  /** `(?:label\.)+[A-Z]{2,6}\.?`: without its optional final dot, the host
      splits on dots into at least one label and a top-level name. */
  predicate IsDomain(h: string) {
    var core := if |h| > 0 && h[|h| - 1] == '.' then h[..|h| - 1] else h;
    var parts := Split(core, '.');
    && |parts| >= 2
    && IsTopLevel(parts[|parts| - 1])
    && forall k :: 0 <= k < |parts| - 1 ==> IsLabel(parts[k])
  }

  /** `localhost`, in any letter case. */
  predicate IsLocalhost(h: string) {
    Lower(h) == "localhost"
  }

  /** `\d{1,3}`. */
  predicate IsDigitGroup(x: string) {
    1 <= |x| <= 3 && forall k :: 0 <= k < |x| ==> IsDigit(x[k])
  }

  /** `\d{1,3}\.\d{1,3}\.\d{1,3}\.\d{1,3}`: no range check on the groups. */
  predicate IsIPv4(h: string) {
    var parts := Split(h, '.');
    |parts| == 4 && forall k :: 0 <= k < 4 ==> IsDigitGroup(parts[k])
  }

  predicate IsHost(h: string) {
    IsDomain(h) || IsLocalhost(h) || IsIPv4(h)
  }

  /** `https?://` in any letter case. */
  predicate IsScheme(x: string) {
    Lower(x) == "http://" || Lower(x) == "https://"
  }

  /** `(?::\d+)?`. */
  predicate IsPortPart(p: string) {
    |p| == 0 || (|p| >= 2 && p[0] == ':' && forall k :: 1 <= k < |p| ==> IsDigit(p[k]))
  }

  /** `(?:/?|[/?]\S+)`. */
  predicate IsRest(r: string) {
    || |r| == 0
    || r == "/"
    || (|r| >= 2 && (r[0] == '/' || r[0] == '?') && forall k :: 1 <= k < |r| ==> !IsSpace(r[k]))
  }

  /** The pattern without its end anchor, as the regular expression states
      it: some split of the text into scheme, host, port and rest. */
  predicate PatternBody(s: string) {
    exists i, j, k :: 0 <= i <= j <= k <= |s|
      && IsScheme(s[..i]) && IsHost(s[i..j]) && IsPortPart(s[j..k]) && IsRest(s[k..])
  }

  // ---------------------------------------------------------------------------
  // The left-to-right recogniser
  // ---------------------------------------------------------------------------

  /** The characters a host can hold. */
  predicate IsHostChar(c: char) {
    IsAlnum(c) || c == '-' || c == '.'
  }

  /** The length of the longest prefix of host characters. */
  function HostRun(s: string): (n: nat)
    ensures n <= |s| && (n == |s| || !IsHostChar(s[n]))
    ensures forall k :: 0 <= k < n ==> IsHostChar(s[k])
  {
    if |s| == 0 || !IsHostChar(s[0]) then 0 else 1 + HostRun(s[1..])
  }

  /** The length of the longest prefix of digits. */
  function DigitRun(s: string): (n: nat)
    ensures n <= |s| && (n == |s| || !IsDigit(s[n]))
    ensures forall k :: 0 <= k < n ==> IsDigit(s[k])
  {
    if |s| == 0 || !IsDigit(s[0]) then 0 else 1 + DigitRun(s[1..])
  }

  predicate StartsWithNoCase(s: string, p: string) {
    |p| <= |s| && Lower(s[..|p|]) == p
  }

  /** The length of the scheme the text starts with, or 0. */
  function SchemeLength(s: string): nat {
    if StartsWithNoCase(s, "https://") then 8 else if StartsWithNoCase(s, "http://") then 7 else 0
  }

  /** The port and the rest after the host. */
  predicate PortAndRest(u: string) {
    if |u| > 0 && u[0] == ':' then
      var d := DigitRun(u[1..]);
      d > 0 && IsRest(u[1 + d..])
    else IsRest(u)
  }

  /** The pattern without its end anchor, read from left to right: the
      scheme, then the longest run of host characters as the host, then the
      port and the rest. */
  predicate UrlBody(s: string) {
    var n := SchemeLength(s);
    n > 0 &&
    var t := s[n..];
    var h := HostRun(t);
    IsHost(t[..h]) && PortAndRest(t[h..])
  }

  /** `_is_valid_url(url)`: `re.match` of the pattern, whose `$` matches at
      the end or before a final newline. */
  predicate IsValidUrl(url: string) {
    UrlBody(url) || (|url| > 0 && url[|url| - 1] == '\n' && UrlBody(url[..|url| - 1]))
  }

  // ---------------------------------------------------------------------------
  // The recogniser is the pattern
  // ---------------------------------------------------------------------------

  predicate AllChars(x: string, p: char -> bool) {
    forall k :: 0 <= k < |x| ==> p(x[k])
  }

  /** When every piece of a split, and the separator, hold only characters
      satisfying `p`, so does the text. */
  lemma {:induction false} SplitChars(s: string, sep: char, p: char -> bool)
    requires p(sep)
    requires forall i :: 0 <= i < |Split(s, sep)| ==> AllChars(Split(s, sep)[i], p)
    ensures AllChars(s, p)
    decreases |s|
  {
    var i := Find(s, sep);
    var parts := Split(s, sep);
    if i < 0 {
      assert AllChars(parts[0], p);
    } else {
      var rest := Split(s[i + 1..], sep);
      assert parts == [s[..i]] + rest;
      assert AllChars(parts[0], p);
      assert forall j :: 0 <= j < |rest| ==> rest[j] == parts[j + 1];
      SplitChars(s[i + 1..], sep, p);
      assert s == s[..i] + [sep] + s[i + 1..];
    }
  }

  lemma DomainChars(h: string)
    requires IsDomain(h)
    ensures |h| > 0 && forall k :: 0 <= k < |h| ==> IsHostChar(h[k])
  {
    var core := if |h| > 0 && h[|h| - 1] == '.' then h[..|h| - 1] else h;
    var parts := Split(core, '.');
    forall i | 0 <= i < |parts|
      ensures AllChars(parts[i], IsHostChar)
    {
      if i < |parts| - 1 {
        assert IsLabel(parts[i]);
      } else {
        assert IsTopLevel(parts[i]);
      }
    }
    SplitChars(core, '.', IsHostChar);
    if core != h {
      assert h == core + ['.'];
    }
  }

  lemma IPv4Chars(h: string)
    requires IsIPv4(h)
    ensures |h| > 0 && forall k :: 0 <= k < |h| ==> IsHostChar(h[k])
  {
    var parts := Split(h, '.');
    forall i | 0 <= i < |parts|
      ensures AllChars(parts[i], IsHostChar)
    {
      assert IsDigitGroup(parts[i]);
    }
    SplitChars(h, '.', IsHostChar);
  }

  lemma LocalhostChars(h: string)
    requires IsLocalhost(h)
    ensures |h| > 0 && forall k :: 0 <= k < |h| ==> IsHostChar(h[k])
  {
    forall k | 0 <= k < |h|
      ensures IsHostChar(h[k])
    {
      assert IsLetter(Lower(h)[k]);
    }
  }

  /** A host is a non-empty run of host characters. */
  lemma HostChars(h: string)
    requires IsHost(h)
    ensures |h| > 0 && forall k :: 0 <= k < |h| ==> IsHostChar(h[k])
  {
    if IsDomain(h) {
      DomainChars(h);
    } else if IsLocalhost(h) {
      LocalhostChars(h);
    } else {
      IPv4Chars(h);
    }
  }

  /** A text whose first seven characters read `http://` does not start with
      `https://`: the fifth character is a colon, not an `s`. */
  lemma HttpIsNotHttps(s: string)
    requires 7 <= |s| && Lower(s[..7]) == "http://"
    ensures !StartsWithNoCase(s, "https://")
  {
    if 8 <= |s| {
      assert Lower(s[..7])[4] == LowerChar(s[4]) == ':';
      assert Lower(s[..8])[4] == LowerChar(s[4]);
    }
  }

  /** The scheme of a match is the one `SchemeLength` finds. */
  lemma SchemeIsFound(s: string, i: int)
    requires 0 <= i <= |s| && IsScheme(s[..i])
    ensures SchemeLength(s) == i
  {
    if Lower(s[..i]) == "http://" {
      assert i == 7;
      HttpIsNotHttps(s);
    } else {
      assert i == 8;
    }
  }

  /** Neither a port nor a rest starts with a host character. */
  lemma AfterHostNoHostChar(s: string, j: int, k: int)
    requires 0 <= j <= k <= |s| && IsPortPart(s[j..k]) && IsRest(s[k..])
    ensures j == |s| || !IsHostChar(s[j])
  {
    if j < k {
      assert s[j..k][0] == s[j];
    } else if k < |s| {
      assert s[k..][0] == s[k];
      if s[k..] == "/" {
        assert s[k..][0] == '/';
      }
    }
  }

  /** A rest never starts with a digit or a colon. */
  lemma RestStart(r: string)
    requires IsRest(r) && |r| > 0
    ensures r[0] == '/' || r[0] == '?'
  {
    if r == "/" {
      assert r[0] == '/';
    }
  }

  /** A run of host characters ended by a non-host character or the end is
      the longest one. */
  lemma {:induction false} HostRunIs(t: string, n: nat)
    requires n <= |t| && (n == |t| || !IsHostChar(t[n]))
    requires forall m :: 0 <= m < n ==> IsHostChar(t[m])
    ensures HostRun(t) == n
  {
    if n > 0 {
      HostRunIs(t[1..], n - 1);
    }
  }

  /** A run of digits ended by a non-digit or the end is the longest one. */
  lemma {:induction false} DigitRunIs(t: string, n: nat)
    requires n <= |t| && (n == |t| || !IsDigit(t[n]))
    requires forall m :: 0 <= m < n ==> IsDigit(t[m])
    ensures DigitRun(t) == n
  {
    if n > 0 {
      DigitRunIs(t[1..], n - 1);
    }
  }

  /** A port and a rest that match the pattern are what `PortAndRest` reads. */
  lemma PortAndRestOfSplit(u: string, p: nat)
    requires p <= |u| && IsPortPart(u[..p]) && IsRest(u[p..])
    ensures PortAndRest(u)
  {
    if p > 0 {
      assert u[0] == u[..p][0];
      assert forall m :: 1 <= m < p ==> u[1..][m - 1] == u[..p][m];
      if p < |u| {
        RestStart(u[p..]);
        assert u[1..][p - 1] == u[p..][0];
      }
      DigitRunIs(u[1..], p - 1);
      assert u[1 + (p - 1)..] == u[p..];
    } else {
      assert u[p..] == u;
      if |u| > 0 {
        RestStart(u);
      }
    }
  }

  /** The host of a matching split is the longest run of host characters. */
  lemma HostOfSplit(s: string, i: int, j: int, k: int)
    requires 0 <= i <= j <= k <= |s|
    requires IsHost(s[i..j]) && IsPortPart(s[j..k]) && IsRest(s[k..])
    ensures HostRun(s[i..]) == j - i
  {
    var t := s[i..];
    HostChars(s[i..j]);
    AfterHostNoHostChar(s, j, k);
    assert forall m :: 0 <= m < j - i ==> t[m] == s[i..j][m];
    assert j - i == |t| || t[j - i] == s[j];
    HostRunIs(t, j - i);
  }

  /** The port and rest of a matching split are what follows the host. */
  lemma TailOfSplit(s: string, i: int, j: int, k: int)
    requires 0 <= i <= j <= k <= |s|
    requires IsPortPart(s[j..k]) && IsRest(s[k..])
    ensures PortAndRest(s[i..][j - i..])
  {
    var u := s[i..][j - i..];
    assert u[..k - j] == s[j..k];
    assert u[k - j..] == s[k..];
    PortAndRestOfSplit(u, k - j);
  }

  /** Past the scheme, the recogniser reads the host and the tail of the split. */
  lemma AfterSchemeOfSplit(s: string, i: int, j: int, k: int)
    requires 0 <= i <= j <= k <= |s|
    requires IsHost(s[i..j]) && IsPortPart(s[j..k]) && IsRest(s[k..])
    ensures var t := s[i..]; var h := HostRun(t); IsHost(t[..h]) && PortAndRest(t[h..])
  {
    HostOfSplit(s, i, j, k);
    TailOfSplit(s, i, j, k);
    SliceOfSuffix(s, i, j - i, 0);
    HoldsOfEqual(IsHost, s[i..j], s[i..][..j - i]);
  }

  /** Every split that matches the pattern is the one the recogniser reads. */
  lemma PatternIsRecognised(s: string, i: int, j: int, k: int)
    requires 0 <= i <= j <= k <= |s|
    requires IsScheme(s[..i]) && IsHost(s[i..j]) && IsPortPart(s[j..k]) && IsRest(s[k..])
    ensures UrlBody(s)
  {
    SchemeIsFound(s, i);
    AfterSchemeOfSplit(s, i, j, k);
  }

  /** The scheme `SchemeLength` finds matches `https?://`. */
  lemma FoundSchemeMatches(s: string)
    requires SchemeLength(s) > 0
    ensures IsScheme(s[..SchemeLength(s)])
  {
    if !StartsWithNoCase(s, "https://") {
      assert SchemeLength(s) == 7;
    }
  }

  /** What `PortAndRest` accepts splits into a port and a rest. */
  lemma PortSplit(u: string) returns (p: nat)
    requires PortAndRest(u)
    ensures p <= |u| && IsPortPart(u[..p]) && IsRest(u[p..])
  {
    if |u| > 0 && u[0] == ':' {
      var d := DigitRun(u[1..]);
      p := 1 + d;
      assert forall m :: 1 <= m < p ==> u[..p][m] == u[1..][m - 1];
      assert u[p..] == u[1 + d..];
    } else {
      p := 0;
      assert u[..0] == [] && u[0..] == u;
    }
  }

  lemma HoldsOfEqual(P: string -> bool, x: string, y: string)
    requires P(x) && x == y
    ensures P(y)
  {
  }

  /** A scheme, host, port and rest read one after the other form a match. */
  lemma PatternWitness(s: string, i: nat, h: nat, p: nat)
    requires i + h + p <= |s|
    requires IsScheme(s[..i]) && IsHost(s[i..][..h])
    requires IsPortPart(s[i..][h..][..p]) && IsRest(s[i..][h..][p..])
    ensures PatternBody(s)
  {
    SliceOfSuffix(s, i, h, p);
    var j, k := i + h, i + h + p;
    HoldsOfEqual(IsHost, s[i..][..h], s[i..j]);
    HoldsOfEqual(IsPortPart, s[i..][h..][..p], s[j..k]);
    HoldsOfEqual(IsRest, s[i..][h..][p..], s[k..]);
    assert IsScheme(s[..i]) && IsHost(s[i..j]) && IsPortPart(s[j..k]) && IsRest(s[k..]);
  }

  /** What the recogniser reads is a split matching the pattern. */
  lemma RecognisedIsPattern(s: string)
    requires UrlBody(s)
    ensures PatternBody(s)
  {
    var i := SchemeLength(s);
    var h := HostRun(s[i..]);
    FoundSchemeMatches(s);
    var p := PortSplit(s[i..][h..]);
    PatternWitness(s, i, h, p);
  }

  /** The left-to-right recogniser accepts exactly what the pattern matches. */
  lemma RecogniserIsPattern(s: string)
    ensures UrlBody(s) <==> PatternBody(s)
  {
    if UrlBody(s) {
      RecognisedIsPattern(s);
    }
    if PatternBody(s) {
      var i, j, k :| 0 <= i <= j <= k <= |s|
        && IsScheme(s[..i]) && IsHost(s[i..j]) && IsPortPart(s[j..k]) && IsRest(s[k..]);
      PatternIsRecognised(s, i, j, k);
    }
  }

  // ---------------------------------------------------------------------------
  // run's argument checks
  // ---------------------------------------------------------------------------

  const URL_REQUIRED := "URL is required"
  const INVALID_URL_PREFIX := "Invalid URL format: "

  /** The checks at the start of `run`: `Err` is the failure dict's error,
      `Ok` hands the URL on to the summarising model call. */
  function CheckUrlArgument(url: Option<string>): (r: Result<string, string>)
    ensures r.Ok? <==> url.Some? && |url.value| != 0 && IsValidUrl(url.value)
    ensures r.Ok? ==> r.value == url.value
    ensures url.None? || (url.Some? && |url.value| == 0) ==> r == Err(URL_REQUIRED)
  {
    if url.None? || |url.value| == 0 then Err(URL_REQUIRED)
    else if !IsValidUrl(url.value) then Err(INVALID_URL_PREFIX + url.value)
    else Ok(url.value)
  }

  /** A rejected non-empty URL is echoed after the fixed prefix, so the two
      errors never coincide. */
  lemma InvalidUrlEchoed(url: string)
    requires |url| != 0 && !IsValidUrl(url)
    ensures CheckUrlArgument(Some(url)) == Err(INVALID_URL_PREFIX + url)
    ensures CheckUrlArgument(Some(url)) != Err(URL_REQUIRED)
  {
    assert |INVALID_URL_PREFIX + url| > |URL_REQUIRED|;
  }

  // ---------------------------------------------------------------------------
  // Consequences
  // ---------------------------------------------------------------------------

  /** An accepted URL starts with `http://` or `https://` in some letter case. */
  lemma ValidStartsWithScheme(url: string)
    requires IsValidUrl(url)
    ensures StartsWithNoCase(url, "http://") || StartsWithNoCase(url, "https://")
  {
    var s := if UrlBody(url) then url else url[..|url| - 1];
    assert SchemeLength(s) > 0;
    if StartsWithNoCase(s, "https://") {
      assert url[..8] == s[..8];
    } else {
      assert url[..7] == s[..7];
    }
  }

  /** Four digit groups joined by dots form an IPv4 host. */
  lemma IPv4OfGroups(a: string, b: string, c: string, d: string)
    requires IsDigitGroup(a) && IsDigitGroup(b) && IsDigitGroup(c) && IsDigitGroup(d)
    ensures IsIPv4(a + "." + b + "." + c + "." + d)
  {
    var gs := [a, b, c, d];
    assert gs[1..] == [b, c, d] && gs[1..][1..] == [c, d] && gs[1..][1..][1..] == [d];
    assert Join([c, d], ".") == c + "." + d;
    assert Join([b, c, d], ".") == b + "." + (c + "." + d);
    assert Join(gs, ".") == a + "." + (b + "." + (c + "." + d));
    assert a + "." + b + "." + c + "." + d == a + "." + (b + "." + (c + "." + d));
    forall x | x in gs
      ensures '.' !in x
    {
      assert IsDigitGroup(x);
    }
    SplitJoin(gs, '.');
  }

  /** The IPv4 form does not check the range of its groups. */
  lemma NoRangeCheck()
    ensures IsIPv4("999.999.999.999")
  {
    var g := "999";
    assert IsDigitGroup(g);
    IPv4OfGroups(g, g, g, g);
    assert g + "." + g + "." + g + "." + g == "999.999.999.999";
  }

  /** A label cannot start with a hyphen. */
  lemma HyphenLabelRejected(x: string)
    requires |x| > 0 && x[0] == '-'
    ensures !IsLabel(x)
  {
  }
}
