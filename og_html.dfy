/**
 * The crawler page (src/api/lib/ogHtml.ts): HTML escaping, truncation and the
 * choice of each preview field. The page template text itself is not modelled;
 * `BotPage` holds the values it interpolates.
 */
module OgHtml {
  import opened Wrappers
  import opened Text
  import opened Store
  import V = Validation

  // ---------------------------------------------------------------- escaping

  /** `escapeHtml`: five global replacements, '&' first. */
  function EscapeHtml(s: string): string {
    ReplaceAll(ReplaceAll(ReplaceAll(ReplaceAll(ReplaceAll(s, "&", "&amp;"), "<", "&lt;"), ">", "&gt;"), "\"", "&quot;"), "'", "&#039;")
  }

  /** The entity one character escapes to, or the character itself. */
  function EscapeChar(c: char): string {
    if c == '&' then "&amp;"
    else if c == '<' then "&lt;"
    else if c == '>' then "&gt;"
    else if c == '"' then "&quot;"
    else if c == '\'' then "&#039;"
    else [c]
  }

  /** Escaping character by character. */
  function EscapeEach(s: string): string
    decreases |s|
  {
    if s == [] then [] else EscapeChar(s[0]) + EscapeEach(s[1..])
  }

  lemma EscapeAppend(a: string, b: string)
    ensures EscapeHtml(a + b) == EscapeHtml(a) + EscapeHtml(b)
  {
    ReplaceCharAppend(a, b, '&', "&amp;");
    ReplaceCharAppend(ReplaceAll(a, "&", "&amp;"), ReplaceAll(b, "&", "&amp;"), '<', "&lt;");
    var a2 := ReplaceAll(ReplaceAll(a, "&", "&amp;"), "<", "&lt;");
    var b2 := ReplaceAll(ReplaceAll(b, "&", "&amp;"), "<", "&lt;");
    ReplaceCharAppend(a2, b2, '>', "&gt;");
    var a3 := ReplaceAll(a2, ">", "&gt;");
    var b3 := ReplaceAll(b2, ">", "&gt;");
    ReplaceCharAppend(a3, b3, '"', "&quot;");
    ReplaceCharAppend(ReplaceAll(a3, "\"", "&quot;"), ReplaceAll(b3, "\"", "&quot;"), '\'', "&#039;");
  }

  /** An entity holds none of the characters the later replacements look for. */
  lemma EntityIsPlain(e: string)
    requires |e| > 0
    requires forall i :: 0 <= i < |e| ==> e[i] != '<' && e[i] != '>' && e[i] != '"' && e[i] != '\''
    ensures ReplaceAll(e, "<", "&lt;") == e && ReplaceAll(e, ">", "&gt;") == e
    ensures ReplaceAll(e, "\"", "&quot;") == e && ReplaceAll(e, "'", "&#039;") == e
  {
    ReplaceAllAbsent(e, "<", "&lt;");
    ReplaceAllAbsent(e, ">", "&gt;");
    ReplaceAllAbsent(e, "\"", "&quot;");
    ReplaceAllAbsent(e, "'", "&#039;");
  }

  /** After `&amp;`, an entity ends as itself through the remaining replacements. */
  lemma EscapeSingle(c: char)
    ensures EscapeHtml([c]) == EscapeChar(c)
  {
    ReplaceCharSingle(c, '&', "&amp;");
    var s1 := ReplaceAll([c], "&", "&amp;");
    if c == '&' {
      EntityIsPlain("&amp;");
    } else {
      assert s1 == [c];
      ReplaceCharSingle(c, '<', "&lt;");
      if c == '<' {
        EntityIsPlain("&lt;");
      } else {
        ReplaceCharSingle(c, '>', "&gt;");
        if c == '>' {
          EntityIsPlain("&gt;");
        } else {
          ReplaceCharSingle(c, '"', "&quot;");
          if c == '"' {
            EntityIsPlain("&quot;");
          } else {
            ReplaceCharSingle(c, '\'', "&#039;");
          }
        }
      }
    }
  }

  /** The chain of replacements is a per-character escape: no replacement undoes or re-escapes another. */
  lemma {:induction false} EscapeHtmlPerChar(s: string)
    ensures EscapeHtml(s) == EscapeEach(s)
    decreases |s|
  {
    if s == [] {
      assert EscapeHtml(s) == [];
    } else {
      assert s == [s[0]] + s[1..];
      EscapeAppend([s[0]], s[1..]);
      EscapeSingle(s[0]);
      EscapeHtmlPerChar(s[1..]);
    }
  }

  /** No escaped character holds '<', '>', '"' or '\''. */
  predicate NoMarkup(out: string) {
    '<' !in out && '>' !in out && '"' !in out && '\'' !in out
  }

  lemma {:induction false} EscapeEachNoMarkup(s: string)
    ensures NoMarkup(EscapeEach(s))
    decreases |s|
  {
    if s != [] {
      var head := EscapeChar(s[0]);
      assert NoMarkup(head);
      EscapeEachNoMarkup(s[1..]);
      assert EscapeEach(s) == head + EscapeEach(s[1..]);
    }
  }

  /** Escaped text never holds '<', '>', '"' or '\'' — it cannot close a tag or an attribute. */
  lemma EscapedHasNoMarkup(s: string)
    ensures var out := EscapeHtml(s);
      '<' !in out && '>' !in out && '"' !in out && '\'' !in out
  {
    EscapeHtmlPerChar(s);
    EscapeEachNoMarkup(s);
  }

  /** Text with none of the five special characters is left as it is. */
  lemma {:induction false} EscapeIdentityOnPlain(s: string)
    requires '&' !in s && '<' !in s && '>' !in s && '"' !in s && '\'' !in s
    ensures EscapeHtml(s) == s
    decreases |s|
  {
    EscapeHtmlPerChar(s);
    if s != [] {
      assert s[0] in s;
      assert s == [s[0]] + s[1..];
      EscapeIdentityOnPlain(s[1..]);
      EscapeHtmlPerChar(s[1..]);
    }
  }

  predicate IsEntityAt(out: string, i: int) {
    OccursAt(out, "&amp;", i) || OccursAt(out, "&lt;", i) || OccursAt(out, "&gt;", i)
    || OccursAt(out, "&quot;", i) || OccursAt(out, "&#039;", i)
  }

  /** Every '&' of the string opens one of the five entities. */
  predicate AmpersandsOpenEntities(out: string) {
    forall i :: 0 <= i < |out| && out[i] == '&' ==> IsEntityAt(out, i)
  }

  lemma OccursAtShift(a: string, b: string, e: string, i: int)
    requires OccursAt(b, e, i)
    ensures OccursAt(a + b, e, |a| + i)
  {
    assert (a + b)[|a| + i..|a| + i + |e|] == b[i..i + |e|];
  }

  lemma EntityAtShift(a: string, b: string, i: int)
    requires IsEntityAt(b, i)
    ensures IsEntityAt(a + b, |a| + i)
  {
    if OccursAt(b, "&amp;", i) { OccursAtShift(a, b, "&amp;", i); }
    if OccursAt(b, "&lt;", i) { OccursAtShift(a, b, "&lt;", i); }
    if OccursAt(b, "&gt;", i) { OccursAtShift(a, b, "&gt;", i); }
    if OccursAt(b, "&quot;", i) { OccursAtShift(a, b, "&quot;", i); }
    if OccursAt(b, "&#039;", i) { OccursAtShift(a, b, "&#039;", i); }
  }

  lemma EscapeCharEntities(c: char)
    ensures AmpersandsOpenEntities(EscapeChar(c))
  {
    var out := EscapeChar(c);
    forall i | 0 <= i < |out| && out[i] == '&' ensures IsEntityAt(out, i) {
      assert i == 0;
      assert out[0..|out|] == out;
    }
  }

  /** '&' is escaped first, so every '&' of the output starts an entity: nothing is left half-escaped. */
  lemma {:induction false} EscapedAmpersandsOpenEntities(s: string)
    ensures AmpersandsOpenEntities(EscapeHtml(s))
    decreases |s|
  {
    EscapeHtmlPerChar(s);
    if s != [] {
      EscapedAmpersandsOpenEntities(s[1..]);
      EscapeHtmlPerChar(s[1..]);
      var a := EscapeChar(s[0]);
      var b := EscapeEach(s[1..]);
      EscapeCharEntities(s[0]);
      forall i | 0 <= i < |a + b| && (a + b)[i] == '&' ensures IsEntityAt(a + b, i) {
        if i < |a| {
          assert IsEntityAt(a, i);
          PrefixEntity(a, b, i);
        } else {
          assert b[i - |a|] == '&';
          EntityAtShift(a, b, i - |a|);
        }
      }
    }
  }

  lemma PrefixEntity(a: string, b: string, i: int)
    requires IsEntityAt(a, i)
    ensures IsEntityAt(a + b, i)
  {
    assert forall e: string :: OccursAt(a, e, i) ==> (a + b)[i..i + |e|] == a[i..i + |e|];
  }

  // ---------------------------------------------------------------- truncation

  /** `truncate(s, m)`: s itself when it fits, else its first m characters and "...". */
  function Truncate(s: string, maxLength: nat): (r: string)
    ensures |s| <= maxLength ==> r == s
    ensures |s| > maxLength ==> |r| == maxLength + 3 && r[..maxLength] == s[..maxLength] && r[maxLength..] == "..."
  {
    if |s| <= maxLength then s else s[..maxLength] + "..."
  }

  /** A truncated text is at most three characters longer than the limit and starts like the original. */
  lemma TruncateBounds(s: string, maxLength: nat)
    ensures |Truncate(s, maxLength)| <= maxLength + 3
    ensures |Truncate(s, maxLength)| <= |s| + 3
    ensures StartsWith(Truncate(s, maxLength), if |s| <= maxLength then s else s[..maxLength])
  {
  }

  // ---------------------------------------------------------------- the page

  const DEFAULT_BASE_URL: string := "https://satset.io"

  /** The values `generateBotHtml` puts into the page, before escaping. */
  datatype BotPage = BotPage(shortUrl: string, title: string, description: string, imageUrl: string, siteName: string)

  /** `a || b` on an optional string: the value when present and non-empty, else the fallback. */
  function OrElse(v: Option<string>, fallback: string): string {
    if v.Some? && v.value != "" then v.value else fallback
  }

  /**
   * `generateBotHtml`'s fields: each target field when present and non-empty,
   * else its fallback. The site name falls back to the URL's hostname, and
   * the call throws (None) when that URL does not parse.
   */
  function BotPageFor(alias: string, originalUrl: string, baseUrl: Option<string>, targetOg: Option<OgMetadata>, parse: V.UrlParser): Option<BotPage> {
    var base := baseUrl.GetOr(DEFAULT_BASE_URL);
    var shortUrl := base + "/" + alias;
    var og := targetOg.GetOr(OgMetadata(None, None, None, None));
    var title := OrElse(og.title, Truncate(originalUrl, 60));
    var description := OrElse(og.description, "Shared via " + shortUrl);
    var imageUrl := OrElse(og.image, base + "/og-image.png");
    if og.siteName.Some? && og.siteName.value != "" then
      Some(BotPage(shortUrl, title, description, imageUrl, og.siteName.value))
    else if parse(originalUrl).Some? then
      Some(BotPage(shortUrl, title, description, imageUrl, parse(originalUrl).value.hostname))
    else None
  }

  /**
   * Without target metadata the page uses the defaults: the URL cut to 60
   * characters, "Shared via" the short link, the site's own image and the
   * URL's hostname; the short link is on satset.io unless another base is given.
   */
  lemma BotPageDefaults(alias: string, originalUrl: string, parse: V.UrlParser, host: string)
    requires parse(originalUrl) == Some(V.UrlParts("https:", host))
    ensures BotPageFor(alias, originalUrl, None, None, parse) == Some(BotPage(
      "https://satset.io/" + alias,
      Truncate(originalUrl, 60),
      "Shared via https://satset.io/" + alias,
      "https://satset.io/og-image.png",
      host))
  {
    var shortUrl := DEFAULT_BASE_URL + "/" + alias;
    assert shortUrl == "https://satset.io/" + alias;
    assert "Shared via " + shortUrl == "Shared via https://satset.io/" + alias;
    assert DEFAULT_BASE_URL + "/og-image.png" == "https://satset.io/og-image.png";
  }

  /** Present, non-empty target fields win over every default, and then no parse is needed. */
  lemma BotPageUsesTarget(alias: string, originalUrl: string, baseUrl: Option<string>, og: OgMetadata, parse: V.UrlParser)
    requires og.title.Some? && og.title.value != "" && og.description.Some? && og.description.value != ""
    requires og.image.Some? && og.image.value != "" && og.siteName.Some? && og.siteName.value != ""
    ensures var p := BotPageFor(alias, originalUrl, baseUrl, Some(og), parse);
      p.Some? && p.value.title == og.title.value && p.value.description == og.description.value
      && p.value.imageUrl == og.image.value && p.value.siteName == og.siteName.value
  {
  }

  /** An empty target title counts as missing, as `||` treats "" as false. */
  lemma EmptyTitleFallsBack(alias: string, originalUrl: string, og: OgMetadata, parse: V.UrlParser)
    requires og.title == Some("") && og.siteName.Some? && og.siteName.value != ""
    ensures var p := BotPageFor(alias, originalUrl, None, Some(og), parse);
      p.Some? && p.value.title == Truncate(originalUrl, 60)
  {
  }
}
