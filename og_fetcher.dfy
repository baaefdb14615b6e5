/**
 * Open Graph extraction (src/api/lib/ogFetcher.ts): entity decoding, image
 * URL resolution, meta extraction and the length caps on the result.
 *
 * Each regular expression of `OG_PATTERNS` is an abstract matcher yielding
 * its first capture group, or None when it does not match; `new URL(u, base)`
 * is the resolver parameter. The fetch and the streaming read are not
 * modelled: `html` is the text read up to `</head>`.
 */
module OgFetcher {
  import opened Wrappers
  import opened Text
  import opened Store

  // ---------------------------------------------------------------- entities

  /** `decodeHtmlEntities`: seven global replacements, `&amp;` first. */
  function DecodeHtmlEntities(s: string): string {
    var s1 := ReplaceAll(s, "&amp;", "&");
    var s2 := ReplaceAll(s1, "&lt;", "<");
    var s3 := ReplaceAll(s2, "&gt;", ">");
    var s4 := ReplaceAll(s3, "&quot;", "\"");
    var s5 := ReplaceAll(s4, "&#039;", "'");
    var s6 := ReplaceAll(s5, "&#x27;", "'");
    ReplaceAll(s6, "&#x2F;", "/")
  }

  /** Text without '&' holds no entity and is returned as it is. */
  lemma DecodeIdentityWithoutAmpersand(s: string)
    requires '&' !in s
    ensures DecodeHtmlEntities(s) == s
  {
    ReplaceAllAbsent(s, "&amp;", "&");
    ReplaceAllAbsent(s, "&lt;", "<");
    ReplaceAllAbsent(s, "&gt;", ">");
    ReplaceAllAbsent(s, "&quot;", "\"");
    ReplaceAllAbsent(s, "&#039;", "'");
    ReplaceAllAbsent(s, "&#x27;", "'");
    ReplaceAllAbsent(s, "&#x2F;", "/");
  }

  lemma ReplaceAtFront(pat: string, rep: string, rest: string)
    requires |pat| > 0
    ensures ReplaceAll(pat + rest, pat, rep) == rep + ReplaceAll(rest, pat, rep)
  {
    assert (pat + rest)[..|pat|] == pat;
    assert (pat + rest)[|pat|..] == rest;
  }

  /**
   * `&amp;` is decoded first and the result is decoded again, so an escaped
   * entity is decoded twice: "&amp;lt;" comes out as "<", not "&lt;".
   */
  lemma DoubleDecoding()
    ensures DecodeHtmlEntities("&amp;lt;") == "<"
  {
    ReplaceAtFront("&amp;", "&", "lt;");
    ReplaceAllAbsent("lt;", "&amp;", "&");
    assert "&amp;lt;" == "&amp;" + "lt;";
    assert "&" + "lt;" == "&lt;";
    ReplaceAtFront("&lt;", "<", "");
    assert "&lt;" == "&lt;" + "";
    assert ReplaceAll("", "&lt;", "<") == "";
    var s2 := "<";
    ReplaceAllAbsent(s2, "&gt;", ">");
    ReplaceAllAbsent(s2, "&quot;", "\"");
    ReplaceAllAbsent(s2, "&#039;", "'");
    ReplaceAllAbsent(s2, "&#x27;", "'");
    ReplaceAllAbsent(s2, "&#x2F;", "/");
  }

  // ---------------------------------------------------------------- image URLs

  /** `new URL(url, base).href`, or None where the constructor throws. */
  type UrlResolver = (string, string) -> Option<string>

  /** `resolveUrl`: absolute http(s) URLs as they are, "//host" under https, the rest through the resolver. */
  function ResolveUrl(url: Option<string>, baseUrl: string, resolve: UrlResolver): (r: Option<string>)
    ensures url.None? || url == Some("") ==> r.None?
  {
    if url.None? || url.value == "" then None
    else if StartsWith(url.value, "http://") || StartsWith(url.value, "https://") then url
    else if StartsWith(url.value, "//") then Some("https:" + url.value)
    else resolve(url.value, baseUrl)
  }

  /**
   * Absolute http(s) URLs come back unchanged, a protocol-relative URL gets
   * the https scheme, and neither calls the resolver.
   */
  lemma ResolveWithoutResolver(url: string, baseUrl: string, resolve: UrlResolver)
    requires StartsWith(url, "http://") || StartsWith(url, "https://") || StartsWith(url, "//")
    ensures var r := ResolveUrl(Some(url), baseUrl, resolve);
      && r.Some?
      && (StartsWith(url, "http://") || StartsWith(url, "https://") ==> r.value == url)
      && (!StartsWith(url, "http://") && !StartsWith(url, "https://") ==> r.value == "https:" + url && StartsWith(r.value, "https://"))
  {
    if !StartsWith(url, "http://") && !StartsWith(url, "https://") {
      var r := "https:" + url;
      assert r[..6] == "https:";
      assert r[6..8] == url[..2] == "//";
      assert r[..8] == "https://";
    }
  }

  // ---------------------------------------------------------------- extraction

  /** A regular expression applied to the page: its first capture, or None. */
  type Matcher = string -> Option<string>

  /** `extractMeta`: the primary pattern's capture, else the alternative's, trimmed and decoded when non-empty. */
  function ExtractMeta(html: string, primary: Matcher, alt: Matcher): (r: Option<string>)
    ensures primary(html).None? && alt(html).None? ==> r.None?
    ensures primary(html).Some? && primary(html).value != "" ==> r == Some(DecodeHtmlEntities(Trim(primary(html).value)))
    ensures primary(html).None? && alt(html).Some? && alt(html).value != "" ==> r == Some(DecodeHtmlEntities(Trim(alt(html).value)))
  {
    var m := if primary(html).Some? then primary(html) else alt(html);
    if m.Some? && m.value != "" then Some(DecodeHtmlEntities(Trim(m.value))) else None
  }

  /**
   * A primary match wins even when its capture is empty: the alternative is
   * then not consulted. This is a property of `extractMeta`'s fall-through for
   * an arbitrary pattern; the site's own patterns capture `[^"']+`, which is
   * never empty, so with them this case does not arise.
   */
  lemma EmptyPrimaryCaptureHidesAlternative(html: string, primary: Matcher, alt: Matcher)
    requires primary(html) == Some("")
    ensures ExtractMeta(html, primary, alt).None?
  {
  }

  /** The eleven patterns of `OG_PATTERNS`. */
  datatype OgPatterns = OgPatterns(
    title: Matcher, titleAlt: Matcher,
    description: Matcher, descriptionAlt: Matcher,
    image: Matcher, imageAlt: Matcher,
    siteName: Matcher, siteNameAlt: Matcher,
    titleTag: Matcher,
    metaDescription: Matcher, metaDescriptionAlt: Matcher)

  const TITLE_CAP: nat := 200
  const DESCRIPTION_CAP: nat := 500
  const SITE_NAME_CAP: nat := 100

  /** `s ? s.substring(0, cap) : null`. */
  function Capped(s: Option<string>, cap: nat): (r: Option<string>)
    requires cap > 0
    ensures r.None? <==> s.None? || s.value == ""
    ensures r.Some? ==> 0 < |r.value| <= cap && StartsWith(s.value, r.value)
    ensures r.Some? && |s.value| <= cap ==> r == s
    ensures r.Some? && |s.value| > cap ==> r.value == s.value[..cap]
  {
    if s.Some? && s.value != "" then Some(if |s.value| <= cap then s.value else s.value[..cap]) else None
  }

  /** `a || b` on optional strings: the first when present and non-empty. */
  function Or(a: Option<string>, b: Option<string>): Option<string> {
    if a.Some? && a.value != "" then a else b
  }

  /** The `<title>` text, trimmed but not decoded. */
  function TitleTag(html: string, p: OgPatterns): Option<string> {
    if p.titleTag(html).Some? then Some(Trim(p.titleTag(html).value)) else None
  }

  /** The metadata `fetchOgMetadata` builds from the page text (lines 112-139). */
  function OgFromHtml(html: string, url: string, p: OgPatterns, resolve: UrlResolver): OgMetadata {
    var title := Or(ExtractMeta(html, p.title, p.titleAlt), TitleTag(html, p));
    var description := Or(ExtractMeta(html, p.description, p.descriptionAlt), ExtractMeta(html, p.metaDescription, p.metaDescriptionAlt));
    var image := ResolveUrl(ExtractMeta(html, p.image, p.imageAlt), url, resolve);
    var siteName := ExtractMeta(html, p.siteName, p.siteNameAlt);
    OgMetadata(Capped(title, TITLE_CAP), Capped(description, DESCRIPTION_CAP), image, Capped(siteName, SITE_NAME_CAP))
  }

  /**
   * The title is at most 200 characters, the description 500 and the site
   * name 100; each present one is non-empty and a prefix of what was found.
   */
  lemma FieldCaps(html: string, url: string, p: OgPatterns, resolve: UrlResolver)
    ensures var m := OgFromHtml(html, url, p, resolve);
      && (m.title.Some? ==> 0 < |m.title.value| <= TITLE_CAP)
      && (m.description.Some? ==> 0 < |m.description.value| <= DESCRIPTION_CAP)
      && (m.siteName.Some? ==> 0 < |m.siteName.value| <= SITE_NAME_CAP)
      && (m.siteName.Some? ==> StartsWith(ExtractMeta(html, p.siteName, p.siteNameAlt).value, m.siteName.value))
  {
    var siteName := ExtractMeta(html, p.siteName, p.siteNameAlt);
    var m := OgFromHtml(html, url, p, resolve);
    assert m.siteName == Capped(siteName, SITE_NAME_CAP);
  }

  /** The Open Graph title wins over the `<title>` tag; the tag is used only when it is missing or empty. */
  lemma TitlePreference(html: string, url: string, p: OgPatterns, resolve: UrlResolver)
    ensures var og := ExtractMeta(html, p.title, p.titleAlt);
      var m := OgFromHtml(html, url, p, resolve);
      && (og.Some? && og.value != "" ==> m.title == Capped(og, TITLE_CAP))
      && ((og.None? || og == Some("")) ==> m.title == Capped(TitleTag(html, p), TITLE_CAP))
  {
  }

  /** Without any matching pattern every field is null. */
  lemma NothingFound(html: string, url: string, p: OgPatterns, resolve: UrlResolver)
    requires p.title(html).None? && p.titleAlt(html).None? && p.titleTag(html).None?
    requires p.description(html).None? && p.descriptionAlt(html).None?
    requires p.metaDescription(html).None? && p.metaDescriptionAlt(html).None?
    requires p.image(html).None? && p.imageAlt(html).None?
    requires p.siteName(html).None? && p.siteNameAlt(html).None?
    ensures OgFromHtml(html, url, p, resolve) == OgMetadata(None, None, None, None)
  {
  }
}
