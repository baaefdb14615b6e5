/**
 * Server-side validators (src/api/lib/validation.ts): alias format, IP-literal
 * detection, the domain policy and URL acceptance. The WHATWG URL parser
 * (`new URL(s)`) is an oracle: it yields the protocol and hostname of `s`, or
 * None where the constructor throws.
 */
module Validation {
  import opened Wrappers
  import opened Text
  import opened Constants

  /** The two fields of a parsed URL that the validators read. */
  datatype UrlParts = UrlParts(protocol: string, hostname: string)

  /** `new URL(s)`: the parts of `s`, or None where the constructor throws. */
  type UrlParser = string -> Option<UrlParts>

  // ---------------------------------------------------------------- alias

  /** The regular expression `^[A-Za-z0-9]+$`. */
  predicate MatchesAlnumPlus(s: string) {
    |s| >= 1 && AllAlnum(s)
  }

  predicate IsValidAlias(alias: string) {
    ALIAS_MIN_LENGTH <= |alias| <= ALIAS_MAX_LENGTH && MatchesAlnumPlus(alias)
  }

  lemma AliasExamples()
    ensures IsValidAlias("abc123")
    ensures !IsValidAlias("")
    ensures !IsValidAlias("aaaaaaaaaaaaaaaaa")
    ensures !IsValidAlias("ab-12")
  {
    assert !IsAlnum("ab-12"[2]);
  }

  /** Every string of 1 to 16 symbols of the base-62 alphabet is a valid alias. */
  lemma Base62StringIsAlias(s: string)
    requires ALIAS_MIN_LENGTH <= |s| <= ALIAS_MAX_LENGTH
    requires forall k :: 0 <= k < |s| ==> s[k] in BASE62_CHARS
    ensures IsValidAlias(s)
  {
    forall k | 0 <= k < |s| ensures IsAlnum(s[k]) {
      Base62Alphabet(s[k]);
    }
  }

  /** A valid alias has no ':' — so it never collides with an "og:" or "rate:" key. */
  lemma AliasHasNoColon(alias: string)
    requires IsValidAlias(alias)
    ensures ':' !in alias
  {
  }

  // ---------------------------------------------------------------- IP literals

  predicate IsDigitGroup(p: string) {
    1 <= |p| <= 3 && forall k :: 0 <= k < |p| ==> IsDigit(p[k])
  }

  /** The regular expression `^(\d{1,3}\.){3}\d{1,3}$`: exactly four dot-separated groups of 1-3 digits. */
  predicate IsDottedQuad(h: string) {
    var parts := Split(h, '.');
    |parts| == 4 && forall k :: 0 <= k < 4 ==> IsDigitGroup(parts[k])
  }

  predicate IsIpAddress(hostname: string) {
    IsDottedQuad(hostname) || ':' in hostname || StartsWith(hostname, "[")
  }

  /** A digit group holds no dot, so splitting it on dots leaves it whole. */
  lemma DigitGroupSplit(g: string)
    requires IsDigitGroup(g)
    ensures Split(g, '.') == [g]
  {
    assert '.' !in g by { assert forall k :: 0 <= k < |g| ==> g[k] != '.'; }
    SplitNoSep(g, '.');
  }

  /** Any four groups of 1-3 digits form an IP literal; there is no 0-255 range check. */
  lemma DottedQuadIsIp(a: string, b: string, c: string, d: string)
    requires IsDigitGroup(a) && IsDigitGroup(b) && IsDigitGroup(c) && IsDigitGroup(d)
    ensures IsIpAddress(a + "." + b + "." + c + "." + d)
  {
    DigitGroupSplit(a);
    DigitGroupSplit(b);
    DigitGroupSplit(c);
    DigitGroupSplit(d);
    var ab := a + "." + b;
    assert ab == a + ['.'] + b;
    SplitConcat(a, b, '.');
    assert Split(ab, '.') == [a, b];
    var abc := ab + "." + c;
    assert abc == ab + ['.'] + c;
    SplitConcat(ab, c, '.');
    assert Split(abc, '.') == [a, b, c];
    var h := abc + "." + d;
    assert h == abc + ['.'] + d;
    SplitConcat(abc, d, '.');
    assert Split(h, '.') == [a, b, c, d];
    assert IsDottedQuad(h);
  }

  lemma IpExamples()
    ensures IsIpAddress("999.999.999.999")
    ensures IsIpAddress("::1")
    ensures IsIpAddress("[::1]")
  {
    DottedQuadIsIp("999", "999", "999", "999");
    assert "999.999.999.999" == "999" + "." + "999" + "." + "999" + "." + "999";
    assert "::1"[0] == ':';
  }

  /** Every character of a split string is a separator or lies in one of the parts. */
  lemma {:induction false} SplitCovers(s: string, sep: char, i: nat)
    requires i < |s| && s[i] != sep
    ensures exists k, j :: 0 <= k < |Split(s, sep)| && 0 <= j < |Split(s, sep)[k]| && Split(s, sep)[k][j] == s[i]
    decreases |s|
  {
    var parts := Split(s, sep);
    var rest := Split(s[1..], sep);
    if i == 0 {
      assert parts[0][0] == s[0];
    } else {
      SplitCovers(s[1..], sep, i - 1);
      var k, j :| 0 <= k < |rest| && 0 <= j < |rest[k]| && rest[k][j] == s[i];
      if s[0] == sep {
        assert parts[k + 1] == rest[k];
      } else if k == 0 {
        assert parts[0][j + 1] == s[i];
      } else {
        assert parts[k] == rest[k];
      }
    }
  }

  predicate DigitsAndDots(s: string) {
    forall i :: 0 <= i < |s| ==> IsDigit(s[i]) || s[i] == '.'
  }

  lemma DottedQuadChars(h: string)
    requires IsDottedQuad(h)
    ensures DigitsAndDots(h)
  {
    forall i | 0 <= i < |h| && h[i] != '.' ensures IsDigit(h[i]) {
      SplitCovers(h, '.', i);
    }
  }

  lemma DigitsAndDotsLower(h: string)
    ensures DigitsAndDots(Lower(h)) <==> DigitsAndDots(h)
    ensures DigitsAndDots(h) ==> Lower(h) == h
  {
  }

  /** Lower-casing a host name does not change whether it is an IP literal. */
  lemma IpAddressLowerInvariant(h: string)
    ensures IsIpAddress(Lower(h)) == IsIpAddress(h)
  {
    if IsDottedQuad(h) {
      DottedQuadChars(h);
      DigitsAndDotsLower(h);
    }
    if IsDottedQuad(Lower(h)) {
      DottedQuadChars(Lower(h));
      DigitsAndDotsLower(h);
    }
    LowerKeeps(h, ':');
    if |h| > 0 {
      assert StartsWith(h, "[") <==> h[0] == '[';
      assert StartsWith(Lower(h), "[") <==> Lower(h)[0] == '[';
    }
  }

  // ---------------------------------------------------------------- domains

  /** The top-level label: the last element of `split(".")`. */
  function TopLabel(lower: string): string {
    Last(Split(lower, '.'))
  }

  predicate IsValidDomain(hostname: string) {
    var lower := Lower(hostname);
    && !IsIpAddress(lower)
    && lower != "localhost" && lower != "localhost.localdomain"
    && !EndsWith(lower, ".local") && !EndsWith(lower, ".internal")
    && '.' in lower
    && |TopLabel(lower)| >= 2
  }

  /** The domain rule ignores letter case. */
  lemma DomainCaseInsensitive(h: string)
    ensures IsValidDomain(h) == IsValidDomain(Lower(h))
  {
    LowerIdempotent(h);
  }

  /** The last element of a split is the text after the last separator. */
  lemma {:induction false} SplitLastIsSuffix(s: string, sep: char)
    ensures |Last(Split(s, sep))| <= |s|
    ensures Last(Split(s, sep)) == s[|s| - |Last(Split(s, sep))|..]
    ensures sep !in Last(Split(s, sep))
    decreases |s|
  {
    if s != [] {
      SplitLastIsSuffix(s[1..], sep);
      SplitPartsFree(s, sep);
      var rest := Split(s[1..], sep);
      if s[0] != sep && |rest| == 1 {
        SplitJoin(s[1..], sep);
        assert Split(s, sep) == [[s[0]] + rest[0]];
        assert [s[0]] + s[1..] == s;
      } else {
        assert Last(Split(s, sep)) == Last(rest);
        assert s[1..][|s| - 1 - |Last(rest)|..] == s[|s| - |Last(rest)|..];
      }
    }
  }

  /**
   * What an accepted host name looks like: not an IP literal, a dot inside, and
   * a top-level label of at least two characters after its last dot.
   */
  lemma ValidDomainShape(h: string)
    requires IsValidDomain(h)
    ensures !IsIpAddress(h)
    ensures '.' in h
    ensures |h| >= 3 && h[|h| - 1] != '.' && h[|h| - 2] != '.'
  {
    var lower := Lower(h);
    IpAddressLowerInvariant(h);
    LowerKeeps(h, '.');
    SplitLastIsSuffix(lower, '.');
    var tld := TopLabel(lower);
    assert lower[|lower| - 1] == tld[|tld| - 1] && lower[|lower| - 2] == tld[|tld| - 2];
    assert '.' !in tld;
    var k :| 0 <= k < |lower| && lower[k] == '.';
    assert k < |lower| - |tld|;
    assert |lower| - |tld| >= 1;
    assert h[|h| - 1] != '.' by { assert lower[|lower| - 1] == LowerChar(h[|h| - 1]); }
    assert h[|h| - 2] != '.' by { assert lower[|lower| - 2] == LowerChar(h[|h| - 2]); }
  }

  /**
   * When "x.y" ends with ".z" the two dots line up unless one label holds a dot:
   * a longer y holds the dot of ".z", a shorter y leaves z holding the dot before y.
   */
  lemma {:induction false} EndsWithDotAligned(x: string, y: string, z: string)
    requires EndsWith(x + "." + y, "." + z)
    ensures |y| > |z| ==> '.' in y
    ensures |y| < |z| ==> '.' in z
    ensures |y| == |z| ==> y == z
  {
    var h := x + "." + y;
    var t := "." + z;
    assert h[|h| - |t|..] == t;
    if |y| > |z| {
      assert y[|y| - |t|] == h[|h| - |t|] == t[0];
    } else if |y| < |z| {
      assert z[|z| - |y| - 1] == t[|t| - |y| - 1] == h[|h| - |y| - 1];
    } else {
      assert y == h[|h| - |y|..];
      assert z == t[1..];
    }
  }

  lemma EndsWithLabel(x: string, y: string, z: string)
    requires '.' !in y && '.' !in z
    requires EndsWith(x + "." + y, "." + z)
    ensures y == z
  {
    EndsWithDotAligned(x, y, z);
  }

  lemma LowerOfTwoLabels(x: string, y: string)
    requires forall k :: 0 <= k < |x| ==> IsAsciiLower(x[k])
    requires forall k :: 0 <= k < |y| ==> IsAsciiLower(y[k])
    ensures Lower(x + "." + y) == x + "." + y
  {
    var h := x + "." + y;
    forall k | 0 <= k < |h| ensures !IsAsciiUpper(h[k]) {
      if k < |x| {
        assert h[k] == x[k];
      } else if k > |x| {
        assert h[k] == y[k - |x| - 1];
      }
    }
    LowerOfLower(h);
  }

  /** A dot-free top label other than "local" and "internal" escapes the suffix rules. */
  lemma NotReservedSuffix(x: string, y: string)
    requires '.' !in y && y != "local" && y != "internal"
    ensures !EndsWith(x + "." + y, ".local")
    ensures !EndsWith(x + "." + y, ".internal")
  {
    var h := x + "." + y;
    if EndsWith(h, ".local") {
      EndsWithLabel(x, y, "local");
    }
    if EndsWith(h, ".internal") {
      EndsWithLabel(x, y, "internal");
    }
  }

  /** The only way to spell "localhost.localdomain" as a name and a dot-free top label. */
  lemma LocalhostDomainLabels(x: string, y: string)
    requires '.' !in y && x + "." + y == "localhost.localdomain"
    ensures x == "localhost" && y == "localdomain"
  {
    var h := x + "." + y;
    assert h == "localhost" + "." + "localdomain";
    assert EndsWith(h, "." + "localdomain");
    EndsWithLabel(x, y, "localdomain");
    assert x == h[..|h| - |y| - 1];
  }

  lemma NotLocalhostDomain(x: string, y: string)
    requires '.' !in y && (x != "localhost" || y != "localdomain")
    ensures x + "." + y != "localhost.localdomain"
  {
    if x + "." + y == "localhost.localdomain" {
      LocalhostDomainLabels(x, y);
    }
  }

  /**
   * Two lower-case labels joined by a dot pass, unless the top label is
   * reserved or shorter than two, or the name is "localhost.localdomain".
   */
  lemma TwoLabelDomain(x: string, y: string)
    requires |x| > 0 && |y| >= 2 && y != "local" && y != "internal"
    requires x != "localhost" || y != "localdomain"
    requires forall k :: 0 <= k < |x| ==> IsAsciiLower(x[k])
    requires forall k :: 0 <= k < |y| ==> IsAsciiLower(y[k])
    ensures IsValidDomain(x + "." + y)
  {
    var h := x + "." + y;
    TwoLabels(x, y);
    LowerOfTwoLabels(x, y);
    assert '.' !in y by { assert forall k :: 0 <= k < |y| ==> y[k] != '.'; }
    NotReservedSuffix(x, y);
    NotLocalhostDomain(x, y);
    assert h != "localhost" by { assert '.' !in "localhost"; }
  }

  lemma DomainAccepted()
    ensures IsValidDomain("example.com")
    ensures IsValidDomain("a.io")
    ensures IsValidDomain("foo.localdomain")
  {
    TwoLabelDomain("foo", "localdomain");
    assert "foo" + "." + "localdomain" == "foo.localdomain";
    TwoLabelDomain("example", "com");
    assert "example" + "." + "com" == "example.com";
    TwoLabelDomain("a", "io");
    assert "a" + "." + "io" == "a.io";
  }

  /** "localhost" in any spelling of its case, and names under a reserved suffix, are refused. */
  lemma DomainRejectedNames()
    ensures forall h :: Lower(h) == "localhost" ==> !IsValidDomain(h)
    ensures !IsValidDomain("localhost")
    ensures !IsValidDomain("LocalHost")
    ensures !IsValidDomain("printer.local")
    ensures !IsValidDomain("db.internal")
  {
    LowerOfLower("localhost");
    assert Lower("LocalHost") == "localhost";
    forall h | Lower(h) == "localhost" ensures !IsValidDomain(h) {
      DomainCaseInsensitive(h);
    }
    LowerOfLower("printer.local");
    LowerOfLower("db.internal");
    assert EndsWith("printer.local", ".local");
    assert EndsWith("db.internal", ".internal");
  }

  /** A host name without a dot is refused. */
  lemma DottedOnly(h: string)
    requires '.' !in h
    ensures !IsValidDomain(h)
  {
    LowerKeeps(h, '.');
  }

  /** A one-character top label is refused. */
  lemma ShortTopLabel(x: string, c: char)
    requires |x| > 0 && x[0] != '[' && IsAsciiLower(c)
    requires forall k :: 0 <= k < |x| ==> IsAsciiLower(x[k])
    ensures !IsValidDomain(x + "." + [c])
  {
    TwoLabels(x, [c]);
    LowerOfTwoLabels(x, [c]);
  }

  lemma DomainRejectedShapes()
    ensures !IsValidDomain("intranet")
    ensures !IsValidDomain("example.c")
  {
    var h := "intranet";
    assert forall k :: 0 <= k < |h| ==> h[k] != '.';
    DottedOnly(h);
    ShortTopLabel("example", 'c');
    assert "example" + "." + ['c'] == "example.c";
  }

  lemma DomainRejectedIp()
    ensures !IsValidDomain("192.168.1.1")
  {
    LowerOfLower("192.168.1.1");
    DottedQuadIsIp("192", "168", "1", "1");
    assert "192.168.1.1" == "192" + "." + "168" + "." + "1" + "." + "1";
  }

  /** A string with no upper-case letter is its own lower-case form. */
  lemma LowerOfLower(s: string)
    requires forall k :: 0 <= k < |s| ==> !IsAsciiUpper(s[k])
    ensures Lower(s) == s
  {
  }

  /** "x.y" with dot-free labels splits into exactly those two labels and is no IP literal. */
  lemma TwoLabels(x: string, y: string)
    requires |x| > 0 && x[0] != '[' && forall k :: 0 <= k < |x| ==> IsAsciiLower(x[k])
    requires forall k :: 0 <= k < |y| ==> IsAsciiLower(y[k])
    ensures Split(x + "." + y, '.') == [x, y]
    ensures TopLabel(x + "." + y) == y
    ensures '.' in x + "." + y
    ensures !IsIpAddress(x + "." + y)
  {
    var h := x + "." + y;
    assert h == x + ['.'] + y;
    assert '.' !in x by { assert forall k :: 0 <= k < |x| ==> x[k] != '.'; }
    assert '.' !in y by { assert forall k :: 0 <= k < |y| ==> y[k] != '.'; }
    SplitNoSep(x, '.');
    SplitNoSep(y, '.');
    SplitConcat(x, y, '.');
    assert h[|x|] == '.';
    assert ':' !in h by { assert forall k :: 0 <= k < |h| ==> h[k] != ':'; }
    assert h[0] == x[0];
  }

  // ---------------------------------------------------------------- URLs

  predicate IsValidUrl(url: string, parse: UrlParser) {
    && |url| <= MAX_URL_LENGTH
    && match parse(url)
       case None => false
       case Some(parts) => parts.protocol == "https:" && IsValidDomain(parts.hostname)
  }

  /** An over-long URL is refused whatever the parser would say: the length test comes first. */
  lemma LongUrlRejected(url: string, parse: UrlParser, other: UrlParser)
    requires |url| > MAX_URL_LENGTH
    ensures !IsValidUrl(url, parse)
    ensures IsValidUrl(url, parse) == IsValidUrl(url, other)
  {
  }

  /** A URL whose host is an IP literal is refused, in any letter case. */
  lemma IpHostRefused(url: string, parse: UrlParser)
    requires parse(url).Some? && IsIpAddress(parse(url).value.hostname)
    ensures !IsValidUrl(url, parse)
  {
    IpAddressLowerInvariant(parse(url).value.hostname);
  }

  /** What an accepted URL is made of: at most 2048 characters, https, and a dotted, non-IP host. */
  lemma AcceptedUrlShape(url: string, parse: UrlParser)
    requires IsValidUrl(url, parse)
    ensures |url| <= MAX_URL_LENGTH
    ensures parse(url).Some? && parse(url).value.protocol == "https:"
    ensures var h := parse(url).value.hostname; '.' in h && !IsIpAddress(h) && h[|h| - 1] != '.'
  {
    ValidDomainShape(parse(url).value.hostname);
  }
}
