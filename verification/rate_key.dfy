/** Store keys of the form `bot:<name>:<ip>`, with the parser that inverts them. */
module RateKey {
  import opened Wrappers

  const Prefix: string := "bot:"

  /** `getRateLimitKey`: the store key for one bot name and one client address. */
  function RateLimitKey(name: string, ip: string): (r: string)
    // the key opens with the prefix and closes with the address; a colon-free name sits between
    // the prefix and the first colon after it
    ensures |r| == |Prefix| + |name| + 1 + |ip|
    ensures r[..|Prefix|] == Prefix && r[|r| - |ip|..] == ip
    ensures r[|Prefix|..|Prefix| + |name|] == name && r[|Prefix| + |name|] == ':'
    ensures ':' !in name ==> IndexOf(r[|Prefix|..], ':') == Some(|name|)
  {
    KeyLayout(name, ip);
    Prefix + name + ":" + ip
  }

  /** Where the parts of a key sit. */
  lemma KeyLayout(name: string, ip: string)
    ensures (Prefix + name + ":" + ip)[|Prefix|..] == name + ":" + ip
    ensures (name + ":" + ip)[..|name|] == name && (name + ":" + ip)[|name|] == ':'
  {
  }

  /** Position of the first occurrence of `c` in `s`. */
  function IndexOf(s: string, c: char): (r: Option<nat>)
    ensures r.Some? ==> r.value < |s| && s[r.value] == c && c !in s[..r.value]
    ensures r.None? ==> c !in s
  {
    if |s| == 0 then None
    else if s[0] == c then Some(0)
    else match IndexOf(s[1..], c)
      case None => None
      case Some(i) =>
        assert s[1..][..i] == s[1..i + 1];
        Some(i + 1)
  }

  /** Reads a key back: strips the prefix and splits at the first colon after it. */
  function ParseKey(k: string): (r: Option<(string, string)>)
    ensures r.Some? ==> ':' !in r.value.0 && k == RateLimitKey(r.value.0, r.value.1)
  {
    if |k| < |Prefix| || k[..|Prefix|] != Prefix then None
    else
      var rest := k[|Prefix|..];
      match IndexOf(rest, ':')
      case None => None
      case Some(j) =>
        assert k == Prefix + rest;
        assert rest == rest[..j] + ":" + rest[j + 1..];
        Some((rest[..j], rest[j + 1..]))
  }

  /** Round trip: a colon-free name and any address (IPv6 included) are read back intact. */
  lemma ParseRateLimitKey(name: string, ip: string)
    requires ':' !in name
    ensures ParseKey(RateLimitKey(name, ip)) == Some((name, ip))
  {
    var k := RateLimitKey(name, ip);
    var rest := k[|Prefix|..];
    assert rest == name + ":" + ip;
    var j := IndexOf(rest, ':');
    assert rest[|name|] == ':';
    assert rest[..|name|] == name;
    assert rest[|name| + 1..] == ip;
  }

  /** Keys built from colon-free names never collide. */
  lemma RateLimitKeyInjective(n1: string, ip1: string, n2: string, ip2: string)
    requires ':' !in n1 && ':' !in n2
    requires RateLimitKey(n1, ip1) == RateLimitKey(n2, ip2)
    ensures n1 == n2 && ip1 == ip2
  {
    ParseRateLimitKey(n1, ip1);
    ParseRateLimitKey(n2, ip2);
  }

  /** Without the colon condition keys can collide: the name "a:b" with address "c" and the
      name "a" with address "b:c" share one key. */
  lemma ColonInNameCollides()
    ensures RateLimitKey("a:b", "c") == RateLimitKey("a", "b:c")
  {
  }
}
