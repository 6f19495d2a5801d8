/** The throttling configuration: the bot registry, the window length and the enable flag. */
module BotConfig {
  import opened Wrappers

  /** A registry entry: a user-agent pattern and its quota of requests per window. The
      classifier returns the matching entry itself as the detected bot. */
  datatype Bot = Bot(name: string, limit: nat)

  /** The registry's patterns in source order. The classifier's first-match rule depends on
      this order, which is the insertion order of the object literal's (non-index) keys. */
  const DefaultPatterns: seq<string> := [
    "Googlebot",
    "Googlebot-Image",
    "Googlebot-News",
    "Googlebot-Video",
    "Google-InspectionTool",
    "AdsBot-Google",
    "Mediapartners-Google",
    "APIs-Google",
    "bingbot",
    "msnbot",
    "adidxbot",
    "BingPreview",
    "Baiduspider",
    "YandexBot",
    "DuckDuckBot",
    "Slurp",
    "facebookexternalhit",
    "Twitterbot",
    "LinkedInBot",
    "Pinterest",
    "ChatGPT-User",
    "GPTBot",
    "OAI-SearchBot",
    "anthropic-ai",
    "Claude-Web",
    "ClaudeBot",
    "Google-Extended",
    "PerplexityBot",
    "YouBot",
    "cohere-ai",
    "Applebot",
    "Amazonbot",
    "archive.org_bot",
    "ia_archiver"
  ]

  /** The default limit of each pattern, position by position. */
  const DefaultLimits: seq<nat> := [
    60, 30, 30, 30, 10, 20, 20, 60, 60, 30,
    20, 10, 30, 30, 30, 30, 60, 60, 30, 30,
    30, 30, 30, 30, 30, 30, 20, 30, 30, 20,
    30, 30, 10, 10
  ]

  /** The environment variable that overrides each pattern's limit, position by position. */
  const LimitVariables: seq<string> := [
    "NEXT_PUBLIC_BOT_LIMIT_GOOGLEBOT",
    "NEXT_PUBLIC_BOT_LIMIT_GOOGLEBOT_IMAGE",
    "NEXT_PUBLIC_BOT_LIMIT_GOOGLEBOT_NEWS",
    "NEXT_PUBLIC_BOT_LIMIT_GOOGLEBOT_VIDEO",
    "NEXT_PUBLIC_BOT_LIMIT_GOOGLE_INSPECTION",
    "NEXT_PUBLIC_BOT_LIMIT_ADSBOT_GOOGLE",
    "NEXT_PUBLIC_BOT_LIMIT_MEDIAPARTNERS",
    "NEXT_PUBLIC_BOT_LIMIT_APIS_GOOGLE",
    "NEXT_PUBLIC_BOT_LIMIT_BINGBOT",
    "NEXT_PUBLIC_BOT_LIMIT_MSNBOT",
    "NEXT_PUBLIC_BOT_LIMIT_ADIDXBOT",
    "NEXT_PUBLIC_BOT_LIMIT_BING_PREVIEW",
    "NEXT_PUBLIC_BOT_LIMIT_BAIDU",
    "NEXT_PUBLIC_BOT_LIMIT_YANDEX",
    "NEXT_PUBLIC_BOT_LIMIT_DUCKDUCKGO",
    "NEXT_PUBLIC_BOT_LIMIT_YAHOO",
    "NEXT_PUBLIC_BOT_LIMIT_FACEBOOK",
    "NEXT_PUBLIC_BOT_LIMIT_TWITTER",
    "NEXT_PUBLIC_BOT_LIMIT_LINKEDIN",
    "NEXT_PUBLIC_BOT_LIMIT_PINTEREST",
    "NEXT_PUBLIC_BOT_LIMIT_CHATGPT",
    "NEXT_PUBLIC_BOT_LIMIT_GPTBOT",
    "NEXT_PUBLIC_BOT_LIMIT_OAI_SEARCH",
    "NEXT_PUBLIC_BOT_LIMIT_ANTHROPIC",
    "NEXT_PUBLIC_BOT_LIMIT_CLAUDE_WEB",
    "NEXT_PUBLIC_BOT_LIMIT_CLAUDEBOT",
    "NEXT_PUBLIC_BOT_LIMIT_GOOGLE_EXTENDED",
    "NEXT_PUBLIC_BOT_LIMIT_PERPLEXITY",
    "NEXT_PUBLIC_BOT_LIMIT_YOUBOT",
    "NEXT_PUBLIC_BOT_LIMIT_COHERE",
    "NEXT_PUBLIC_BOT_LIMIT_APPLEBOT",
    "NEXT_PUBLIC_BOT_LIMIT_AMAZONBOT",
    "NEXT_PUBLIC_BOT_LIMIT_ARCHIVE",
    "NEXT_PUBLIC_BOT_LIMIT_IA_ARCHIVER"
  ]

  /** The environment, with every value already parsed to a natural number. */
  type Env = map<string, nat>

  /** The limit of entry `i`: the environment's value when its variable is set, else the default. */
  function LimitAt(i: nat, env: Env): (r: nat)
    requires i < |DefaultPatterns|
    ensures LimitVariables[i] !in env ==> r == DefaultLimits[i]
    ensures LimitVariables[i] in env ==> r == env[LimitVariables[i]]
  {
    if LimitVariables[i] in env then env[LimitVariables[i]] else DefaultLimits[i]
  }

  /** The registry under a given environment: the default patterns in the default order, each
      limit overridden by its own variable. */
  function Registry(env: Env): (r: seq<Bot>)
    ensures |r| == |DefaultPatterns|
    ensures forall i :: 0 <= i < |r| ==> r[i].name == DefaultPatterns[i]
    ensures forall i :: 0 <= i < |r| ==> r[i].limit == LimitAt(i, env)
  {
    seq(|DefaultPatterns|, i requires 0 <= i < |DefaultPatterns| => Bot(DefaultPatterns[i], LimitAt(i, env)))
  }

  /** The registry when no variable is set: every entry has its default limit. */
  function DefaultRegistry(): (r: seq<Bot>)
    ensures |r| == |DefaultPatterns|
    ensures forall i :: 0 <= i < |r| ==> r[i] == Bot(DefaultPatterns[i], DefaultLimits[i])
  {
    Registry(map[])
  }

  /** Window length in seconds used when the window variable is unset. */
  const DefaultWindowSeconds: nat := 60

  /** The window length in seconds: the parsed environment value, or one minute. */
  function WindowSeconds(env: Option<nat>): (r: nat)
    ensures env.None? ==> r == 60
    ensures env.Some? ==> r == env.value
  {
    env.GetOr(DefaultWindowSeconds)
  }

  /** Throttling is on unless the variable holds exactly the string "false"; unset means on,
      and the test is case-sensitive ("False" and "0" leave it on). */
  function ThrottleEnabled(env: Option<string>): (r: bool)
    ensures env.None? ==> r
    ensures !r <==> env == Some("false")
  {
    env != Some("false")
  }
}
