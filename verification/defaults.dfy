/** Facts about the shipped bot table and what they imply for classification and keys. */
module Defaults {
  import opened Substring
  import opened BotConfig
  import opened Classifier
  import opened RateKey

  // The table is checked in two halves, to keep each proof obligation small.
  const Half: nat := 17

  lemma FirstHalfDistinct()
    ensures forall i, j :: 0 <= i < j < Half ==> DefaultPatterns[i] != DefaultPatterns[j]
  {
  }

  lemma SecondHalfDistinct()
    ensures forall i, j :: Half <= i < j < |DefaultPatterns| ==> DefaultPatterns[i] != DefaultPatterns[j]
  {
  }

  lemma HalvesDistinct()
    ensures forall i, j :: 0 <= i < Half <= j < |DefaultPatterns| ==> DefaultPatterns[i] != DefaultPatterns[j]
  {
  }

  /** The patterns are pairwise distinct (they are keys of one object literal). */
  lemma DefaultPatternsDistinct()
    ensures forall i, j :: 0 <= i < j < |DefaultPatterns| ==> DefaultPatterns[i] != DefaultPatterns[j]
  {
    FirstHalfDistinct();
    SecondHalfDistinct();
    HalvesDistinct();
  }

  lemma FirstHalfColonFree()
    ensures forall i :: 0 <= i < Half ==> ':' !in DefaultPatterns[i]
  {
  }

  lemma SecondHalfColonFree()
    ensures forall i :: Half <= i < |DefaultPatterns| ==> ':' !in DefaultPatterns[i]
  {
  }

  /** No pattern contains a colon. */
  lemma DefaultPatternsColonFree()
    ensures forall i :: 0 <= i < |DefaultPatterns| ==> ':' !in DefaultPatterns[i]
  {
    FirstHalfColonFree();
    SecondHalfColonFree();
  }

  /** Every default limit is positive. */
  lemma DefaultLimitsPositive()
    ensures forall i :: 0 <= i < |DefaultLimits| ==> DefaultLimits[i] >= 1
  {
  }

  /** Pattern names are pairwise distinct under any environment. */
  lemma RegistryNamesDistinct(env: Env)
    ensures forall i, j :: 0 <= i < j < |Registry(env)| ==> Registry(env)[i].name != Registry(env)[j].name
  {
    DefaultPatternsDistinct();
  }

  /** With no overrides every detected bot has a positive quota, so the limit-0 behaviour of
      the limiter cannot arise. */
  lemma DefaultDetectedLimitPositive(ua: string)
    ensures DetectBot(DefaultRegistry(), ua).Some? ==> DetectBot(DefaultRegistry(), ua).value.limit >= 1
  {
    DefaultLimitsPositive();
  }

  /** Under any environment, two requests share a store key only when the same bot was detected
      for the same address, even for addresses containing colons such as IPv6. */
  lemma RegistryKeysInjective(env: Env, ua1: string, ip1: string, ua2: string, ip2: string)
    requires DetectBot(Registry(env), ua1).Some? && DetectBot(Registry(env), ua2).Some?
    requires RateLimitKey(DetectBot(Registry(env), ua1).value.name, ip1)
          == RateLimitKey(DetectBot(Registry(env), ua2).value.name, ip2)
    ensures DetectBot(Registry(env), ua1).value == DetectBot(Registry(env), ua2).value
    ensures ip1 == ip2
  {
    DefaultPatternsColonFree();
    RegistryNamesDistinct(env);
    RateLimitKeyInjective(DetectBot(Registry(env), ua1).value.name, ip1,
                          DetectBot(Registry(env), ua2).value.name, ip2);
  }

  /** "Googlebot" comes first and is contained in "Googlebot-Image", "Googlebot-News" and
      "Googlebot-Video", so under any environment those three are never detected. */
  lemma GooglebotVariantsShadowed(env: Env, ua: string)
    ensures DetectBot(Registry(env), ua).Some? ==>
      DetectBot(Registry(env), ua).value.name !in {"Googlebot-Image", "Googlebot-News", "Googlebot-Video"}
  {
    var r := Registry(env);
    assert r[0].name == "Googlebot";
    var m := FirstMatch(r, ua);
    if m.Some? && r[m.value].name in {"Googlebot-Image", "Googlebot-News", "Googlebot-Video"} {
      PrefixIncluded(r[0].name, r[m.value].name);
      IncludesTransitive(ua, r[m.value].name, r[0].name);
      assert false;
    }
  }

  /** The three shadowed entries do sit after "Googlebot" in the table. */
  lemma GooglebotVariantsFollowGooglebot()
    ensures DefaultPatterns[0] == "Googlebot"
    ensures DefaultPatterns[1] == "Googlebot-Image"
    ensures DefaultPatterns[2] == "Googlebot-News"
    ensures DefaultPatterns[3] == "Googlebot-Video"
  {
  }
}
