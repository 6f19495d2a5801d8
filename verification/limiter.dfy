/** The fixed-window limiter over an explicit key -> record store, and the periodic sweep.
    Times are milliseconds; the clock reading `now` and the window length are parameters. */
module Limiter {
  import opened Wrappers

  /** Requests counted in the current window, and the instant the window ends. */
  datatype Record = Record(count: nat, resetTime: int)

  type Store = map<string, Record>

  /** One admission decision; `retryAfter` (seconds) is present only on a denial. */
  datatype Decision = Decision(allowed: bool, remaining: int, resetTime: int, retryAfter: Option<int>)

  /** A decision together with the store after it. */
  datatype Checked = Checked(decision: Decision, store: Store)

  /** `Math.ceil(d / 1000)` for an integer number of milliseconds `d`. */
  function CeilSeconds(d: int): (r: int)
    ensures 1000 * (r - 1) < d <= 1000 * r
    ensures d >= 0 ==> r >= 0
  {
    -((-d) / 1000)
  }

  /** `Math.floor(t / 1000)` for an integer number of milliseconds `t`. */
  function FloorSeconds(t: int): (r: int)
    ensures 1000 * r <= t < 1000 * (r + 1)
  {
    t / 1000
  }

  /** A request at `now` starts a new window: no record yet, or the record's window ended
      strictly before `now`. At `now == resetTime` the old window still applies. */
  predicate StartsWindow(store: Store, key: string, now: int) {
    key !in store || now > store[key].resetTime
  }

  /** `checkRateLimit`: fresh window, deny, or increment. */
  function CheckRateLimit(store: Store, key: string, limit: nat, now: int, windowMs: nat): (c: Checked)
    // the reported reset time is the stored window end, and that window covers now
    ensures key in c.store && c.decision.resetTime == c.store[key].resetTime && now <= c.decision.resetTime
    // admission: a new window, or an open window with quota left
    ensures c.decision.allowed <==> StartsWindow(store, key, now) || store[key].count < limit
    // a new window counts this request alone and ends one window length from now
    ensures StartsWindow(store, key, now) ==>
      c.store[key] == Record(1, now + windowMs) && c.decision.remaining == limit - 1
    // inside an open window the window end never moves
    ensures !StartsWindow(store, key, now) ==> c.store[key].resetTime == store[key].resetTime
    // an admitted request in an open window is counted exactly once
    ensures !StartsWindow(store, key, now) && c.decision.allowed ==>
      c.store[key].count == store[key].count + 1
    // an admitted request reports the quota left after counting it
    ensures c.decision.allowed ==> c.decision.remaining == limit - c.store[key].count
    ensures c.decision.allowed ==> c.decision.retryAfter.None?
    // a denial changes nothing and says how many seconds remain in the window
    ensures !c.decision.allowed ==> c.store == store && c.decision.remaining == 0
    ensures !c.decision.allowed ==> c.decision.retryAfter.Some? && c.decision.retryAfter.value >= 0
    ensures !c.decision.allowed ==>
      1000 * (c.decision.retryAfter.value - 1) < c.decision.resetTime - now <= 1000 * c.decision.retryAfter.value
    // nothing else changes
    ensures forall k :: k != key ==> (k in c.store <==> k in store)
    ensures forall k :: k != key && k in store ==> c.store[k] == store[k]
  {
    if StartsWindow(store, key, now) then
      Checked(Decision(true, limit - 1, now + windowMs, None),
              store[key := Record(1, now + windowMs)])
    else
      var data := store[key];
      if data.count >= limit then
        Checked(Decision(false, 0, data.resetTime, Some(CeilSeconds(data.resetTime - now))), store)
      else
        var data' := data.(count := data.count + 1);
        Checked(Decision(true, limit - data'.count, data'.resetTime, None), store[key := data'])
  }

  /** The sweep's test: the record's window ended more than one window length ago. */
  predicate Stale(r: Record, now: int, windowMs: nat) {
    now - r.resetTime > windowMs
  }

  /** One pass of the periodic sweep at time `now`: drop exactly the stale records. */
  function Sweep(store: Store, now: int, windowMs: nat): (s: Store)
    ensures forall k :: k in s <==> k in store && !Stale(store[k], now, windowMs)
    ensures forall k :: k in s ==> s[k] == store[k]
  {
    map k | k in store && !Stale(store[k], now, windowMs) :: store[k]
  }

  /** The sweep never drops a record whose window is still open at the sweep time. */
  lemma SweepKeepsOpenWindows(store: Store, now: int, windowMs: nat, k: string)
    requires k in store && now <= store[k].resetTime
    ensures k in Sweep(store, now, windowMs) && Sweep(store, now, windowMs)[k] == store[k]
  {
  }

  /** Every record the sweep drops would start a new window on its next request. */
  lemma SweptRecordsStartWindows(store: Store, sweepTime: int, windowMs: nat, k: string, now: int)
    requires k in store && k !in Sweep(store, sweepTime, windowMs) && sweepTime <= now
    ensures StartsWindow(store, k, now)
  {
  }

  /** The sweep is invisible to the limiter: checking after a sweep gives the same decision as
      checking without it, and the same store as sweeping afterwards. */
  lemma SweepTransparent(store: Store, sweepTime: int, sweepWindow: nat,
                         key: string, limit: nat, now: int, windowMs: nat)
    requires sweepTime <= now
    ensures CheckRateLimit(Sweep(store, sweepTime, sweepWindow), key, limit, now, windowMs).decision
         == CheckRateLimit(store, key, limit, now, windowMs).decision
    ensures CheckRateLimit(Sweep(store, sweepTime, sweepWindow), key, limit, now, windowMs).store
         == Sweep(CheckRateLimit(store, key, limit, now, windowMs).store, sweepTime, sweepWindow)
  {
    var swept := Sweep(store, sweepTime, sweepWindow);
    if key in store && key !in swept {
      assert StartsWindow(swept, key, now) && StartsWindow(store, key, now);
    }
    var after := CheckRateLimit(swept, key, limit, now, windowMs).store;
    var later := Sweep(CheckRateLimit(store, key, limit, now, windowMs).store, sweepTime, sweepWindow);
    assert forall k :: k in after <==> k in later;
    assert after == later;
  }

  /** Quota consistency of a store: every record has counted at least one request and at most
      its key's limit. */
  ghost predicate CountsWithin(store: Store, limitOf: string -> nat) {
    forall k :: k in store ==> 1 <= store[k].count <= limitOf(k)
  }

  /** Window horizon of a store: no window ends later than one window length after `now`. */
  ghost predicate WindowsWithin(store: Store, now: int, windowMs: nat) {
    forall k :: k in store ==> store[k].resetTime <= now + windowMs
  }

  /** With a positive limit a check keeps every count between 1 and its key's limit. */
  lemma CheckKeepsCountsWithin(store: Store, limitOf: string -> nat, key: string, now: int, windowMs: nat)
    requires CountsWithin(store, limitOf) && limitOf(key) >= 1
    ensures CountsWithin(CheckRateLimit(store, key, limitOf(key), now, windowMs).store, limitOf)
  {
  }

  /** Requests arriving at non-decreasing times keep every window within one window length. */
  lemma CheckKeepsWindowsWithin(store: Store, limit: nat, key: string, before: int, now: int, windowMs: nat)
    requires WindowsWithin(store, before, windowMs) && before <= now
    ensures WindowsWithin(CheckRateLimit(store, key, limit, now, windowMs).store, now, windowMs)
  {
  }

  /** Sweeping only removes records, so it keeps both store invariants. */
  lemma SweepKeepsInvariants(store: Store, limitOf: string -> nat, now: int, sweepTime: int, windowMs: nat, sweepWindow: nat)
    requires CountsWithin(store, limitOf) && WindowsWithin(store, now, windowMs)
    ensures CountsWithin(Sweep(store, sweepTime, sweepWindow), limitOf)
    ensures WindowsWithin(Sweep(store, sweepTime, sweepWindow), now, windowMs)
  {
  }

  /** With limit 0 the first request of a window is still admitted, reporting remaining -1 and
      storing a count above the limit; every later request in that window is denied. */
  lemma ZeroLimitAdmitsOnce(store: Store, key: string, now: int, later: int, windowMs: nat)
    requires StartsWindow(store, key, now) && now <= later <= now + windowMs
    ensures CheckRateLimit(store, key, 0, now, windowMs).decision.allowed
    ensures CheckRateLimit(store, key, 0, now, windowMs).decision.remaining == -1
    ensures CheckRateLimit(store, key, 0, now, windowMs).store[key].count == 1
    ensures !CheckRateLimit(CheckRateLimit(store, key, 0, now, windowMs).store, key, 0, later, windowMs).decision.allowed
  {
  }
}
