/** Worked request sequences through the middleware: a bot with quota 2 and a one-minute
    window, an unrecognised client, and a disabled filter. */
module Scenarios {
  import opened Wrappers
  import opened BotConfig
  import opened Classifier
  import opened Limiter
  import opened Middleware
  import RateKey
  import Substring

  const TestConfig: Config := Config(true, [Bot("TestBot", 2)], 60)

  function BotRequest(ua: string): (r: Request) {
    Request(Some(ua), Some("1.2.3.4"), None, None)
  }

  const TestKey: string := "bot:TestBot:1.2.3.4"

  /** A "TestBot/1.0" request from 1.2.3.4 is decided by the limiter on its own key with
      quota 2 and a 60000 ms window. */
  lemma TestBotRoute(store: Store, now: int)
    ensures var h := HandleRequest(TestConfig, store, BotRequest("TestBot/1.0"), now);
            var c := CheckRateLimit(store, TestKey, 2, now, 60000);
            && h.store == c.store
            && (c.decision.allowed ==>
                  h.response == Annotated(RateHeaders("TestBot", 2, c.decision.remaining, FloorSeconds(c.decision.resetTime))))
            && (!c.decision.allowed ==>
                  && h.response.Rejected?
                  && h.response.retryAfter == c.decision.retryAfter.value
                  && h.response.headers == RateHeaders("TestBot", 2, 0, FloorSeconds(c.decision.resetTime)))
  {
    TestBotDetected();
    TestBotAddress();
    TestBotKey();
  }

  lemma TestBotDetected()
    ensures DetectBot(TestConfig.registry, "TestBot/1.0") == Some(Bot("TestBot", 2))
  {
    var ua := "TestBot/1.0";
    assert ua[..7] == "TestBot";
    assert Substring.Includes(ua, "TestBot");
    assert FirstMatchFrom(TestConfig.registry, ua, 0) == Some(0);
  }

  lemma TestBotAddress()
    ensures ClientIp(BotRequest("TestBot/1.0")) == "1.2.3.4"
  {
  }

  lemma TestBotKey()
    ensures RateKey.RateLimitKey("TestBot", "1.2.3.4") == TestKey
  {
  }

  /** A TestBot request with no open window for its key opens one: 1 remaining, count 1. */
  lemma TestBotOpensWindow(store: Store, now: int)
    requires TestKey !in store || now > store[TestKey].resetTime
    ensures var h := HandleRequest(TestConfig, store, BotRequest("TestBot/1.0"), now);
            && h.response == Annotated(RateHeaders("TestBot", 2, 1, FloorSeconds(now + 60000)))
            && TestKey in h.store && h.store[TestKey] == Record(1, now + 60000)
  {
    TestBotRoute(store, now);
  }

  /** The second TestBot request in an open window is admitted with 0 remaining. */
  lemma TestBotSecond(store: Store, now: int)
    requires TestKey in store && store[TestKey].count == 1 && now <= store[TestKey].resetTime
    ensures var h := HandleRequest(TestConfig, store, BotRequest("TestBot/1.0"), now);
            && h.response == Annotated(RateHeaders("TestBot", 2, 0, FloorSeconds(store[TestKey].resetTime)))
            && TestKey in h.store && h.store[TestKey] == Record(2, store[TestKey].resetTime)
  {
    TestBotRoute(store, now);
  }

  /** A TestBot request in a window that has served its quota of 2 is rejected, and the store
      is unchanged. */
  lemma TestBotRejected(store: Store, now: int)
    requires TestKey in store && store[TestKey].count == 2 && now <= store[TestKey].resetTime
    ensures var h := HandleRequest(TestConfig, store, BotRequest("TestBot/1.0"), now);
            && h.response.Rejected?
            && h.response.retryAfter == CeilSeconds(store[TestKey].resetTime - now)
            && h.response.headers == RateHeaders("TestBot", 2, 0, FloorSeconds(store[TestKey].resetTime))
            && h.store == store
  {
    TestBotRoute(store, now);
  }

  /** Three requests at 0 s, 1 s and 2 s: admitted with 1 and 0 remaining, then rejected with a
      retry-after of 58 s; a fourth at 61 s opens a new window with 1 remaining. */
  lemma QuotaOfTwo()
    ensures var h1 := HandleRequest(TestConfig, map[], BotRequest("TestBot/1.0"), 0);
            var h2 := HandleRequest(TestConfig, h1.store, BotRequest("TestBot/1.0"), 1000);
            var h3 := HandleRequest(TestConfig, h2.store, BotRequest("TestBot/1.0"), 2000);
            var h4 := HandleRequest(TestConfig, h3.store, BotRequest("TestBot/1.0"), 61000);
            && h1.response == Annotated(RateHeaders("TestBot", 2, 1, 60))
            && h2.response == Annotated(RateHeaders("TestBot", 2, 0, 60))
            && h3.response.Rejected? && h3.response.retryAfter == 58
            && h3.response.headers == RateHeaders("TestBot", 2, 0, 60)
            && h4.response == Annotated(RateHeaders("TestBot", 2, 1, 121))
  {
    var req := BotRequest("TestBot/1.0");
    TestBotOpensWindow(map[], 0);
    var s1 := HandleRequest(TestConfig, map[], req, 0).store;
    TestBotSecond(s1, 1000);
    var s2 := HandleRequest(TestConfig, s1, req, 1000).store;
    TestBotRejected(s2, 2000);
    assert CeilSeconds(58000) == 58 && FloorSeconds(60000) == 60;
    TestBotOpensWindow(s2, 61000);
    assert FloorSeconds(121000) == 121;
  }

  /** Under any configuration, a request whose user-agent matches no pattern passes through
      and creates no record. */
  lemma UnknownClientPassesThrough(cfg: Config, store: Store, req: Request, now: int)
    requires DetectBot(cfg.registry, UserAgent(req)).None?
    ensures HandleRequest(cfg, store, req, now) == Handled(PassThrough, store)
  {
  }

  /** For example, "curl/7.0" matches nothing in the TestBot registry, so it passes through. */
  lemma CurlPassesThrough(store: Store, now: int)
    ensures HandleRequest(TestConfig, store, BotRequest("curl/7.0"), now) == Handled(PassThrough, store)
  {
    var ua := "curl/7.0";
    assert ua[..7][0] != "TestBot"[0] && ua[1..][..7][0] != "TestBot"[0];
    Substring.LongerNotIncluded(ua[2..], "TestBot");
    assert ua[1..][1..] == ua[2..];
    assert DetectBot([Bot("TestBot", 2)], ua) == None;
    UnknownClientPassesThrough(TestConfig, store, BotRequest(ua), now);
  }

  /** With the filter disabled every request passes through and no record is created. */
  lemma DisabledPassesEverything(cfg: Config, store: Store, req: Request, now: int)
    requires !cfg.enabled
    ensures HandleRequest(cfg, store, req, now) == Handled(PassThrough, store)
  {
  }
}
