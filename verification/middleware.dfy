/** The per-request decision: classify, pick the client address, consult the limiter, and
    answer with a pass-through, an annotated pass-through, or a 429 rejection. */
module Middleware {
  import opened Wrappers
  import opened BotConfig
  import opened Classifier
  import opened RateKey
  import opened Limiter

  /** The parts of an incoming request the middleware reads. Each header is absent or a string. */
  datatype Request = Request(
    userAgent: Option<string>,
    ip: Option<string>,            // the connection-level address, `request.ip`
    forwardedFor: Option<string>,  // `x-forwarded-for`
    realIp: Option<string>         // `x-real-ip`
  )

  /** The configuration as loaded: enable flag, registry, window length in seconds. */
  datatype Config = Config(enabled: bool, registry: seq<Bot>, windowSeconds: nat)

  /** `X-Bot-Detected`, `X-RateLimit-Limit`, `X-RateLimit-Remaining`, `X-RateLimit-Reset`. */
  datatype RateHeaders = RateHeaders(botDetected: string, limit: nat, remaining: int, reset: int)

  /** The fields of the JSON body of a rejection. */
  datatype Body = Body(error: string, message: string, bot: string, limit: nat, retryAfter: int)

  datatype Response =
    | PassThrough                                   // the request continues untouched
    | Annotated(headers: RateHeaders)               // continues, with rate-limit headers
    | Rejected(status: int, retryAfter: int, headers: RateHeaders, body: Body)

  datatype Handled = Handled(response: Response, store: Store)

  const TooManyRequests: int := 429

  /** JavaScript truthiness of an optional string: present and non-empty. */
  predicate Truthy(o: Option<string>) {
    o.Some? && o.value != ""
  }

  /** The address candidates in priority order. */
  function Candidates(req: Request): (r: seq<Option<string>>) {
    [req.ip, req.forwardedFor, req.realIp]
  }

  /** The first truthy candidate from index `from` on, or "unknown". */
  function FirstTruthy(cs: seq<Option<string>>, from: nat): (r: string)
    requires from <= |cs|
    ensures r != ""
    ensures (exists i :: from <= i < |cs| && Truthy(cs[i])) ==>
      exists i :: from <= i < |cs| && Truthy(cs[i]) && r == cs[i].value &&
        forall j :: from <= j < i ==> !Truthy(cs[j])
    ensures (forall i :: from <= i < |cs| ==> !Truthy(cs[i])) ==> r == "unknown"
    decreases |cs| - from
  {
    if from == |cs| then "unknown"
    else if Truthy(cs[from]) then cs[from].value
    else FirstTruthy(cs, from + 1)
  }

  /** The `||` chain on the address: the first of `request.ip`, `x-forwarded-for` and
      `x-real-ip` that is present and non-empty, else "unknown"; never empty. */
  function ClientIp(req: Request): (r: string)
    ensures r != ""
    ensures Truthy(req.ip) ==> r == req.ip.value
    ensures !Truthy(req.ip) && Truthy(req.forwardedFor) ==> r == req.forwardedFor.value
    ensures !Truthy(req.ip) && !Truthy(req.forwardedFor) && Truthy(req.realIp) ==> r == req.realIp.value
    ensures !Truthy(req.ip) && !Truthy(req.forwardedFor) && !Truthy(req.realIp) ==> r == "unknown"
  {
    var cs := Candidates(req);
    var r := FirstTruthy(cs, 0);
    assert cs[0] == req.ip && cs[1] == req.forwardedFor && cs[2] == req.realIp;
    r
  }

  /** The user-agent header, with an absent header read as the empty string. */
  function UserAgent(req: Request): (r: string)
    ensures req.userAgent.None? ==> r == ""
    ensures req.userAgent.Some? ==> r == req.userAgent.value
  {
    req.userAgent.GetOr("")
  }

  /** The window in milliseconds: a whole number of seconds, converting back to the configured
      seconds. */
  function WindowMs(cfg: Config): (r: nat)
    ensures r % 1000 == 0 && FloorSeconds(r) == cfg.windowSeconds
  {
    cfg.windowSeconds * 1000
  }

  /** The configuration as the module loads it from the enable flag, the window variable and
      the per-bot limit variables. */
  function ConfigFrom(flag: Option<string>, window: Option<nat>, env: Env): (r: Config)
    ensures r.enabled <==> flag != Some("false")
    ensures window.None? ==> r.windowSeconds == DefaultWindowSeconds
    ensures window.Some? ==> r.windowSeconds == window.value
    ensures |r.registry| == |DefaultPatterns|
    ensures forall i :: 0 <= i < |r.registry| ==> r.registry[i] == Bot(DefaultPatterns[i], LimitAt(i, env))
  {
    Config(ThrottleEnabled(flag), Registry(env), WindowSeconds(window))
  }

  /** With nothing set, throttling is on, the window is 60000 ms and the registry is the
      default table. */
  lemma DefaultConfiguration()
    ensures ConfigFrom(None, None, map[]).enabled
    ensures WindowMs(ConfigFrom(None, None, map[])) == 60000
    ensures ConfigFrom(None, None, map[]).registry == DefaultRegistry()
  {
  }

  /** `middleware`: the response to one request at time `now`, and the store after it. */
  function HandleRequest(cfg: Config, store: Store, req: Request, now: int): (h: Handled)
    // untouched, with no state change, exactly when disabled or no bot is recognised
    ensures h.response.PassThrough? <==> !cfg.enabled || DetectBot(cfg.registry, UserAgent(req)).None?
    ensures h.response.PassThrough? ==> h.store == store
    // otherwise the limiter decides on the key of the detected bot and the client address
    ensures !h.response.PassThrough? ==>
      var bot := DetectBot(cfg.registry, UserAgent(req)).value;
      var c := CheckRateLimit(store, RateLimitKey(bot.name, ClientIp(req)), bot.limit, now, WindowMs(cfg));
      && h.store == c.store
      && (h.response.Rejected? <==> !c.decision.allowed)
      && (h.response.Rejected? ==>
            && h.response.status == TooManyRequests
            && h.response.retryAfter == c.decision.retryAfter.value
            && h.response.headers == RateHeaders(bot.name, bot.limit, 0, FloorSeconds(c.decision.resetTime))
            && h.response.body == Body("Too Many Requests", "Rate limit exceeded for " + bot.name,
                                       bot.name, bot.limit, h.response.retryAfter))
      && (h.response.Annotated? ==>
            h.response.headers == RateHeaders(bot.name, bot.limit, c.decision.remaining, FloorSeconds(c.decision.resetTime)))
  {
    if !cfg.enabled then Handled(PassThrough, store)
    else
      var ua := UserAgent(req);
      var ip := ClientIp(req);
      match DetectBot(cfg.registry, ua)
      case None => Handled(PassThrough, store)
      case Some(bot) =>
        var key := RateLimitKey(bot.name, ip);
        var c := CheckRateLimit(store, key, bot.limit, now, WindowMs(cfg));
        var reset := FloorSeconds(c.decision.resetTime);
        if !c.decision.allowed then
          var retryAfter := c.decision.retryAfter.value;
          Handled(Rejected(TooManyRequests, retryAfter,
                           RateHeaders(bot.name, bot.limit, 0, reset),
                           Body("Too Many Requests", "Rate limit exceeded for " + bot.name,
                                bot.name, bot.limit, retryAfter)),
                  c.store)
        else
          Handled(Annotated(RateHeaders(bot.name, bot.limit, c.decision.remaining, reset)), c.store)
  }

  /** A request touches at most the record of its own bot and address. */
  lemma HandleRequestFrame(cfg: Config, store: Store, req: Request, now: int, k: string)
    requires DetectBot(cfg.registry, UserAgent(req)).None?
          || k != RateLimitKey(DetectBot(cfg.registry, UserAgent(req)).value.name, ClientIp(req))
    ensures k in HandleRequest(cfg, store, req, now).store <==> k in store
    ensures k in store ==> HandleRequest(cfg, store, req, now).store[k] == store[k]
  {
  }

  /** Rejection metadata: the retry-after is never negative, the remaining header is 0, and the
      reset header (whole seconds) is not before the current second. */
  lemma RejectionMetadata(cfg: Config, store: Store, req: Request, now: int)
    requires HandleRequest(cfg, store, req, now).response.Rejected?
    ensures var r := HandleRequest(cfg, store, req, now).response;
      && r.retryAfter >= 0
      && r.headers.remaining == 0
      && now < 1000 * (r.headers.reset + 1)
  {
  }
}
