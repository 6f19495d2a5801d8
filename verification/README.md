# Bot throttling middleware, modelled in Dafny

This project models the request-admission engine of a Next.js middleware that throttles
self-identified crawlers. A request's user-agent is matched against an ordered registry of
bot patterns. A recognised bot is rate-limited per (bot, client address) with a fixed-window
counter kept in an in-memory store. The request then passes through untouched, passes
through with `X-RateLimit-*` headers, or is answered with HTTP 429.

The model is functional. The store is a `map<string, Record>` that is passed in and returned.
The clock reading `now` (milliseconds) and the window length are parameters. The per-bot limit
variables form a map from variable name to an already-parsed natural number (`BotConfig.Env`).
The enable flag and the window variable sit outside that map: `Middleware.ConfigFrom` takes the
flag as an optional string and the window as an optional natural number.

Modules, one file each:

- `Wrappers` (`wrappers.dfy`): `Option`, standing in for `null`/`undefined`.
- `Substring` (`substring.dfy`): `String.prototype.includes`, proved equal to "occurs at some offset".
- `BotConfig` (`bot_config.dfy`): the bot table in source order, with default limits and the
  variable that overrides each limit. Also the window length and the enable flag.
- `Classifier` (`classifier.dfy`): `detectBot`, a first-match scan.
- `RateKey` (`rate_key.dfy`): `getRateLimitKey`, plus a parser that inverts it.
- `Limiter` (`limiter.dfy`): `checkRateLimit` and the periodic sweep.
- `Quota` (`quota.dfy`): repeated checks of one key, and the quota sequence inside a window.
- `Middleware` (`middleware.dfy`): the per-request decision and the client-address fallback chain.
- `Defaults` (`defaults.dfy`): facts about the shipped table: distinct names, no colons,
  positive limits, and the Googlebot variants that can never be detected.
- `Scenarios` (`scenarios.dfy`): worked request sequences through the whole middleware.

Edge cases of the code that the model keeps as written:

- A new window starts only when `now > resetTime`, strictly (middleware.js:40). At
  `now == resetTime` the old window still applies, so a request at that instant is denied
  when the quota is used up.
- With a limit of 0, the first request of a window is admitted with `remaining = -1`, and the
  stored count of 1 exceeds the limit (middleware.js:43, 48). Later requests in that window are
  denied. `Limiter.ZeroLimitAdmitsOnce` states this behaviour. `Defaults.DefaultDetectedLimitPositive`
  shows that it cannot happen with the default limits.
- The address fallback at middleware.js:82 uses JavaScript `||`. An empty string is falsy,
  so a present but empty `request.ip` or header is skipped, the same as an absent one.

## Model

| member | source | states |
|---|---|---|
| Substring.OccursStep | middleware.js:23 | a pattern occurs in a string exactly when it is a prefix of it, or the string is non-empty and the pattern occurs in its tail |
| Substring.Includes | middleware.js:23 | `includes` answers true exactly when the pattern occurs in the user-agent at some offset |
| Substring.IncludesTransitive | middleware.js:23 | a pattern contained in a pattern found in the user-agent is itself found in it |
| Substring.PrefixIncluded | middleware.js:23 | a prefix of a string is found in it |
| Substring.LongerNotIncluded | middleware.js:23 | a pattern longer than the user-agent is never found |
| BotConfig.LimitAt | lib/bot-config.js:6-48 | an entry's limit is its variable's parsed value when set, otherwise the literal default |
| BotConfig.Registry | lib/bot-config.js:4-49 | under any environment the registry keeps the default patterns in source order, and only the limits vary |
| BotConfig.DefaultRegistry | lib/bot-config.js:4-49 | with no variable set, every entry carries its default limit |
| BotConfig.WindowSeconds | lib/bot-config.js:52 | the window is the configured value, or 60 seconds when unset |
| BotConfig.ThrottleEnabled | lib/bot-config.js:55 | throttling is off exactly when the variable is the string "false"; when unset it is on |
| Classifier.FirstMatchFrom | middleware.js:22-26 | the scan returns the first index from its start whose pattern is included, and no earlier index is included; none means no index is |
| Classifier.FirstMatch | middleware.js:19-29 | an empty user-agent matches nothing; otherwise the result is the first included entry |
| Classifier.DetectBot | middleware.js:19-29 | the detected bot is the registry entry at the first matching index, name and limit together |
| Classifier.FirstMatchIffOccurs | middleware.js:22-26 | for a non-empty user-agent, entry i is chosen exactly when its pattern occurs and no earlier pattern occurs |
| Classifier.NoMatchIffNoOccurrence | middleware.js:20-28 | nothing is detected exactly when the user-agent is empty or no pattern occurs in it |
| Classifier.Shadowed | middleware.js:22-26 | an entry whose pattern contains an earlier entry's pattern is never chosen |
| RateKey.RateLimitKey | middleware.js:31-33 | `getRateLimitKey`: the key starts with "bot:" and ends with the address; the name follows the prefix and is followed by a colon; for a colon-free name that colon is the first after the prefix |
| RateKey.ParseKey | middleware.js:32 | a parsed key gives a colon-free name and an address that rebuild the same key |
| RateKey.ParseRateLimitKey | middleware.js:31-33 | round trip: for a colon-free name and any address, the key parses back to that name and address |
| RateKey.RateLimitKeyInjective | middleware.js:31-33 | keys built from colon-free names are equal only for equal names and equal addresses |
| RateKey.ColonInNameCollides | middleware.js:32 | names containing colons can collide: ("a:b", "c") and ("a", "b:c") give one key |
| Limiter.CeilSeconds | middleware.js:59 | the retry-after is the least whole number of seconds covering the remaining milliseconds, and it is non-negative for a non-negative span |
| Limiter.FloorSeconds | middleware.js:109 | the reset header is the whole number of seconds at or below the reset instant |
| Limiter.CheckRateLimit | middleware.js:35-72 | admits exactly when a new window starts (strictly after the old end) or quota is left. A new window counts 1 and ends one window after now. An open window keeps its end and counts an admitted request once. The remaining count is limit minus the stored count. A denial leaves the store unchanged, reports 0 remaining, and gives a retry-after covering the rest of the window. No other key changes |
| Limiter.Sweep | middleware.js:11-14 | the sweep keeps exactly the records whose window ended no more than one window length ago, with their values unchanged |
| Limiter.SweepKeepsOpenWindows | middleware.js:11-14 | a record whose window is still open at sweep time is never removed |
| Limiter.SweptRecordsStartWindows | middleware.js:11-14 | every removed record would have started a new window on its next request anyway |
| Limiter.SweepTransparent | middleware.js:11-14 | for any later check, sweeping first gives the same decision, and the same store as sweeping afterwards |
| Limiter.CheckKeepsCountsWithin | middleware.js:40-71 | with a positive limit, every stored count stays between 1 and its key's limit |
| Limiter.CheckKeepsWindowsWithin | middleware.js:40-50 | with non-decreasing request times, no window ends more than one window length after the latest request |
| Limiter.SweepKeepsInvariants | middleware.js:11-14 | the sweep preserves both store invariants |
| Limiter.ZeroLimitAdmitsOnce | middleware.js:40-61 | with limit 0, a window's first request is admitted with remaining -1 and a stored count of 1, and later requests in that window are denied |
| Quota.Run | middleware.js:35-72 | successive checks of one key yield one decision per request and leave every other key untouched |
| Quota.OpenWindowStep | middleware.js:53-71 | inside an open window, a check is admitted exactly while count is below the limit; the count rises by one up to the limit and the end stays fixed |
| Quota.RunInOpenWindow | middleware.js:53-71 | in an open window that has already served c requests, the i-th further request is decided as if c+i had been served; the record ends at min(c+n, limit) |
| Quota.QuotaSequence | middleware.js:40-71 | with limit N >= 1, a window-opening request, and later requests no later than the window end: request i is admitted exactly when i < N, with N-1-i remaining; the rest are denied with 0; the count stays within 1..N |
| Quota.AdmittedInWindow | middleware.js:40-71 | of M requests in one window with limit N >= 1, exactly min(M, N) are admitted |
| Middleware.ConfigFrom | lib/bot-config.js:4-55 | the loaded configuration: throttling is off exactly when the flag is the string "false"; the window is the configured seconds or 60; the registry is the default patterns in order, each with its variable's limit or the default |
| Middleware.WindowMs | middleware.js:37 | the window in milliseconds is a whole number of seconds that converts back to the configured seconds |
| Middleware.UserAgent | middleware.js:81 | an absent user-agent header reads as the empty string; a present one is used as is |
| Middleware.DefaultConfiguration | lib/bot-config.js:52-55 | with no variable set, throttling is on, the window is 60000 ms and the registry is the default table |
| Middleware.FirstTruthy | middleware.js:82 | the chosen candidate is the first present non-empty one, or "unknown" when there is none; never empty |
| Middleware.ClientIp | middleware.js:82 | the address is request.ip, else x-forwarded-for, else x-real-ip, skipping absent and empty values, else "unknown" |
| Middleware.HandleRequest | middleware.js:74-128 | the request passes through, with the store unchanged, exactly when throttling is off or no bot is detected. Otherwise the limiter decides on the key of the bot and the client address. A denial gives 429 with Retry-After, Remaining 0, the reset second, the bot name and the limit, and a body with error "Too Many Requests", message "Rate limit exceeded for " and the bot name, the bot, the limit and the retry-after. An admission adds the same headers with the decision's remaining count |
| Middleware.HandleRequestFrame | middleware.js:85-90 | a request changes at most the record of its own bot and address |
| Middleware.RejectionMetadata | middleware.js:92-113 | a 429 carries a non-negative retry-after, Remaining 0, and a reset second no earlier than the current second |
| Defaults.DefaultPatternsDistinct | lib/bot-config.js:4-49 | the 34 patterns are pairwise distinct |
| Defaults.DefaultPatternsColonFree | lib/bot-config.js:6-48 | no pattern contains ':' |
| Defaults.DefaultLimitsPositive | lib/bot-config.js:6-48 | every default limit is at least 1 |
| Defaults.RegistryNamesDistinct | lib/bot-config.js:4-49 | registry names are distinct under any environment |
| Defaults.DefaultDetectedLimitPositive | lib/bot-config.js:6-48 | with default limits, every detected bot has a positive quota |
| Defaults.RegistryKeysInjective | middleware.js:31-33 | under any environment, two requests share a store key only for the same detected bot (name and limit) and the same address, colons in the address included |
| Defaults.GooglebotVariantsShadowed | lib/bot-config.js:6-9 | under any environment "Googlebot-Image", "Googlebot-News" and "Googlebot-Video" are never detected |
| Defaults.GooglebotVariantsFollowGooglebot | lib/bot-config.js:6-9 | the table lists "Googlebot" first, followed by its three variants |
| Scenarios.TestBotOpensWindow | middleware.js:40-50 | for any store where the TestBot key has no open window, a TestBot request is admitted with 1 remaining and its key holds count 1 ending one minute later |
| Scenarios.TestBotSecond | middleware.js:53-71 | in an open window that has counted one request, the next is admitted with 0 remaining and the count becomes 2 with the same end |
| Scenarios.TestBotRejected | middleware.js:53-61 | in an open window that has counted 2 requests, the next is rejected with a retry-after covering the rest of the window, and the store is unchanged |
| Scenarios.QuotaOfTwo | middleware.js:74-128 | quota 2 with a 60 s window: requests at 0, 1 and 2 s get remaining 1, then 0, then a 429 with retry-after 58; a request at 61 s opens a new window with remaining 1 |
| Scenarios.UnknownClientPassesThrough | middleware.js:126-127 | under any configuration, a request whose user-agent matches no pattern passes through and creates no record |
| Scenarios.CurlPassesThrough | middleware.js:19-29 | example: "curl/7.0" matches nothing in a registry holding only "TestBot", so it passes through with the store unchanged |
| Scenarios.DisabledPassesEverything | middleware.js:77-79 | with throttling disabled, every request passes through and the store is unchanged |

## Left out

- Response construction (`NextResponse`), `JSON.stringify` of the 429 body, the `Content-Type`
  header and `String(...)` formatting: the response is a datatype with integer fields.
- `setInterval` scheduling and `Date.now()`: time is a parameter. Only one pass of the sweep is
  modelled, not when it runs.
- `process.env` lookups and `parseInt`: each variable is modelled as absent or an already-parsed
  natural. NaN, partial parses, negative values and the empty string falling back to the default
  are not modelled.
- Limiter.CeilSeconds: models `Math.ceil` of an exact quotient; floating-point rounding of
  very large millisecond values is not modelled.
- Limiter.FloorSeconds: models `Math.floor(resetTime / 1000)` (middleware.js:109, 121) as exact
  integer division; floating-point rounding of very large millisecond values is not modelled.
- The `config.matcher` route pattern (middleware.js:131-142): framework routing, not admission logic.
- Concurrency: JavaScript runs the handler to completion on one thread, and the store is
  process-local, so the model is sequential.
- The `rateLimitStore.set(key, data)` after the in-place increment (middleware.js:65) adds
  nothing in a functional model, where the incremented record is simply the new map entry.
