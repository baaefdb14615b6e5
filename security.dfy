/**
 * Client address extraction (src/api/lib/security.ts, `getClientIp`). The two
 * request headers are parameters: their values, or None when absent.
 */
module Security {
  import opened Wrappers
  import opened Text

  /** The first comma-separated element of `x-forwarded-for`, trimmed. */
  function FirstForwarded(forwardedFor: string): string {
    Trim(Split(forwardedFor, ',')[0])
  }

  /** `getClientIp`: `cf-connecting-ip` when non-empty, else the first forwarded address when non-empty, else null. */
  function GetClientIp(cfConnectingIp: Option<string>, forwardedFor: Option<string>): (r: Option<string>)
    ensures r.Some? ==> r.value != ""
    ensures cfConnectingIp.Some? && cfConnectingIp.value != "" ==> r == cfConnectingIp
  {
    if cfConnectingIp.Some? && cfConnectingIp.value != "" then cfConnectingIp
    else if forwardedFor.Some? && forwardedFor.value != "" && FirstForwarded(forwardedFor.value) != "" then
      Some(FirstForwarded(forwardedFor.value))
    else None
  }

  /**
   * Without a Cloudflare address the result comes from `x-forwarded-for`: it
   * is a piece of that header with no comma and no white space at either end,
   * and there is a result exactly when that piece is non-empty.
   */
  lemma ForwardedAddressClean(forwardedFor: Option<string>)
    ensures var r := GetClientIp(None, forwardedFor);
      && (r.Some? <==> forwardedFor.Some? && FirstForwarded(forwardedFor.value) != "")
      && (r.Some? ==>
        && r.value == FirstForwarded(forwardedFor.value)
        && Contains(forwardedFor.value, r.value)
        && ',' !in r.value
        && !IsJsSpace(r.value[0]) && !IsJsSpace(r.value[|r.value| - 1]))
  {
    var r := GetClientIp(None, forwardedFor);
    if r.Some? {
      var s := forwardedFor.value;
      var parts := Split(s, ',');
      SplitPartsFree(s, ',');
      SplitJoin(s, ',');
      FirstPartIsPrefix(parts, ',');
      var first := parts[0];
      assert Contains(first, r.value);
      ContainsTransitive(s, first, r.value);
      if ',' in r.value {
        InfixChars(first, r.value, ',');
      }
    }
  }

  /** The first part of a split is a prefix of its join. */
  lemma FirstPartIsPrefix(parts: seq<string>, sep: char)
    requires |parts| >= 1
    ensures Contains(Join(parts, sep), parts[0])
  {
    var j := Join(parts, sep);
    JoinStartsWithFirst(parts, sep);
    assert OccursAt(j, parts[0], 0);
  }

  lemma {:induction false} JoinStartsWithFirst(parts: seq<string>, sep: char)
    requires |parts| >= 1
    ensures |parts[0]| <= |Join(parts, sep)| && Join(parts, sep)[..|parts[0]|] == parts[0]
  {
    if |parts| > 1 {
      assert Join(parts, sep) == parts[0] + [sep] + Join(parts[1..], sep);
    }
  }

  /** A Cloudflare address wins over any forwarded list. */
  lemma CloudflareFirst(cf: string, forwardedFor: Option<string>)
    requires cf != ""
    ensures GetClientIp(Some(cf), forwardedFor) == Some(cf)
  {
  }
}
