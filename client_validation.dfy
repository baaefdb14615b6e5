/**
 * The browser's own validators (src/client/lib/validation.ts): the alias
 * format, the IP-literal test and the two refinements of `urlSchema`. Zod's
 * `.url()` check is an oracle `zodUrl`; `new URL` is the same parser oracle the
 * server uses.
 */
module ClientValidation {
  import opened Wrappers
  import opened Text
  import V = Validation

  /** ALIAS_MAX_LENGTH of src/client/lib/constants.ts. */
  const CLIENT_ALIAS_MAX_LENGTH: nat := 16

  predicate IsIpAddress(hostname: string) {
    V.IsDottedQuad(hostname) || ':' in hostname || StartsWith(hostname, "[")
  }

  predicate IsValidAlias(alias: string) {
    1 <= |alias| <= CLIENT_ALIAS_MAX_LENGTH && V.MatchesAlnumPlus(alias)
  }

  /** The second refinement: the host parses, is no IP literal and holds a dot; a parse failure refuses. */
  predicate HostRefinement(url: string, parse: V.UrlParser) {
    match parse(url)
    case None => false
    case Some(parts) => !IsIpAddress(parts.hostname) && '.' in parts.hostname
  }

  /** `urlSchema.shape.url`: zod's URL check, the "https://" prefix and the host refinement. */
  predicate UrlSchemaAccepts(url: string, zodUrl: string -> bool, parse: V.UrlParser) {
    zodUrl(url) && StartsWith(url, "https://") && HostRefinement(url, parse)
  }

  /** The client alias rule is the server's. */
  lemma AliasAgreesWithServer(s: string)
    ensures IsValidAlias(s) <==> V.IsValidAlias(s)
  {
  }

  /** The client IP-literal test is the server's. */
  lemma IpAgreesWithServer(h: string)
    ensures IsIpAddress(h) <==> V.IsIpAddress(h)
  {
  }

  lemma SchemaRequiresHttps(url: string, zodUrl: string -> bool, parse: V.UrlParser)
    requires UrlSchemaAccepts(url, zodUrl, parse)
    ensures StartsWith(url, "https://") && |url| >= 8 && url[..8] == "https://"
  {
  }

  lemma SchemaRejectsHosts(url: string, zodUrl: string -> bool, parse: V.UrlParser)
    requires parse(url).None? || IsIpAddress(parse(url).value.hostname) || '.' !in parse(url).value.hostname
    ensures !UrlSchemaAccepts(url, zodUrl, parse)
  {
  }

  /** Every host the server's domain rule accepts passes the client's host refinement. */
  lemma ServerDomainPassesClient(h: string)
    requires V.IsValidDomain(h)
    ensures !IsIpAddress(h) && '.' in h
  {
    V.ValidDomainShape(h);
  }

  /** A URL the server accepts passes the client's host refinement. */
  lemma ServerUrlPassesHostRefinement(url: string, parse: V.UrlParser)
    requires V.IsValidUrl(url, parse)
    ensures HostRefinement(url, parse)
  {
    ServerDomainPassesClient(parse(url).value.hostname);
  }

  /** The client rule is laxer: "example.local" passes it and fails the server's domain rule. */
  lemma LocalHostnameOnlyClient()
    ensures !IsIpAddress("example.local") && '.' in "example.local"
    ensures !V.IsValidDomain("example.local")
  {
    var h := "example.local";
    V.TwoLabels("example", "local");
    assert "example" + "." + "local" == h;
    V.LowerOfTwoLabels("example", "local");
    assert EndsWith(h, ".local");
  }
}
