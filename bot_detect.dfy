/**
 * Link-preview crawler detection (src/api/lib/botDetect.ts): a user agent is
 * a bot when, lower-cased, it contains one of the lower-cased patterns.
 */
module BotDetect {
  import opened Wrappers
  import opened Text

  const BOT_PATTERNS: seq<string> := [
    "facebookexternalhit", "Facebot", "Twitterbot", "LinkedInBot", "TelegramBot",
    "WhatsApp", "Discordbot", "Slackbot", "SkypeUriPreview", "Pinterest",
    "TikTok", "Snapchat", "Googlebot", "bingbot", "bot", "crawler", "spider", "preview"]

  /** The index of the generic "bot" pattern. */
  const GENERIC_BOT: nat := 14

  predicate MatchesPattern(ua: string, i: nat)
    requires i < |BOT_PATTERNS|
  {
    Contains(Lower(ua), Lower(BOT_PATTERNS[i]))
  }

  /** `isSocialMediaBot`: null and "" are not bots; otherwise some pattern occurs, ignoring case. */
  predicate IsSocialMediaBot(userAgent: Option<string>) {
    userAgent.Some? && userAgent.value != ""
    && exists i: nat :: i < |BOT_PATTERNS| && MatchesPattern(userAgent.value, i)
  }

  /** Classification ignores case: a user agent and its lower-case form are classified alike. */
  lemma BotCaseInsensitive(ua: string)
    ensures IsSocialMediaBot(Some(ua)) == IsSocialMediaBot(Some(Lower(ua)))
  {
    LowerIdempotent(ua);
    assert forall i: nat :: i < |BOT_PATTERNS| ==> (MatchesPattern(ua, i) <==> MatchesPattern(Lower(ua), i));
  }

  /** Any user agent containing "bot" in any letter case is a bot. */
  lemma ContainsBotIsBot(ua: string)
    requires Contains(Lower(ua), "bot")
    ensures IsSocialMediaBot(Some(ua))
  {
    assert BOT_PATTERNS[GENERIC_BOT] == "bot";
    assert Lower("bot") == "bot";
    assert MatchesPattern(ua, GENERIC_BOT);
  }

  /** Classification is monotone: a string containing a bot's user agent is a bot too. */
  lemma BotMonotone(ua: string, longer: string)
    requires Contains(longer, ua) && IsSocialMediaBot(Some(ua))
    ensures IsSocialMediaBot(Some(longer))
  {
    var i: nat :| i < |BOT_PATTERNS| && MatchesPattern(ua, i);
    ContainsLower(longer, ua);
    ContainsTransitive(Lower(longer), Lower(ua), Lower(BOT_PATTERNS[i]));
    assert MatchesPattern(longer, i);
  }

  /** A missing or empty user agent is never a bot. */
  lemma NoAgentNoBot()
    ensures !IsSocialMediaBot(None) && !IsSocialMediaBot(Some(""))
  {
  }
}
