/** Consecutive checks of one key: the quota sequence within a single window. */
module Quota {
  import opened Wrappers
  import opened Limiter

  /** Decisions of successive checks of one key, and the store after the last one. */
  datatype Trace = Trace(decisions: seq<Decision>, store: Store)

  /** Checks `key` once per entry of `times`, in order, threading the store. */
  function Run(store: Store, key: string, limit: nat, times: seq<int>, windowMs: nat): (t: Trace)
    ensures |t.decisions| == |times|
    ensures forall k :: k != key ==> (k in t.store <==> k in store)
    ensures forall k :: k != key && k in store ==> t.store[k] == store[k]
    decreases |times|
  {
    if |times| == 0 then Trace([], store)
    else
      var c := CheckRateLimit(store, key, limit, times[0], windowMs);
      var rest := Run(c.store, key, limit, times[1..], windowMs);
      Trace([c.decision] + rest.decisions, rest.store)
  }

  function Min(a: int, b: int): (r: int)
    ensures r <= a && r <= b && (r == a || r == b)
  {
    if a <= b then a else b
  }

  /** What a check inside the open window ending at `reset` decides when `served` requests
      have already been counted in it. */
  ghost predicate InWindow(d: Decision, served: nat, limit: nat, reset: int, now: int) {
    && d.resetTime == reset
    && d.allowed == (served < limit)
    && (served < limit ==> d.remaining == limit - served - 1)
    && (served >= limit ==> d == Decision(false, 0, reset, Some(CeilSeconds(reset - now))))
  }

  /** One check inside an open window: decided as above, counted at most up to the limit,
      window end unchanged. */
  lemma OpenWindowStep(store: Store, key: string, limit: nat, now: int, windowMs: nat, count: nat, reset: int)
    requires key in store && store[key] == Record(count, reset) && count <= limit && now <= reset
    ensures InWindow(CheckRateLimit(store, key, limit, now, windowMs).decision, count, limit, reset, now)
    ensures CheckRateLimit(store, key, limit, now, windowMs).store[key] == Record(Min(count + 1, limit), reset)
  {
  }

  /** Inside an open window ending at `reset` that has already counted `count <= limit`
      requests, the i-th further request is decided as one with `count + i` already served,
      and the record ends up counting `min(count + |times|, limit)`. */
  lemma {:induction false} RunInOpenWindow(store: Store, key: string, limit: nat, times: seq<int>,
                                           windowMs: nat, count: nat, reset: int)
    requires key in store && store[key] == Record(count, reset) && count <= limit
    requires forall i :: 0 <= i < |times| ==> times[i] <= reset
    ensures forall i :: 0 <= i < |times| ==>
      InWindow(Run(store, key, limit, times, windowMs).decisions[i], count + i, limit, reset, times[i])
    ensures key in Run(store, key, limit, times, windowMs).store
    ensures Run(store, key, limit, times, windowMs).store[key] == Record(Min(count + |times|, limit), reset)
    decreases |times|
  {
    if |times| > 0 {
      var c := CheckRateLimit(store, key, limit, times[0], windowMs);
      OpenWindowStep(store, key, limit, times[0], windowMs, count, reset);
      var count' := Min(count + 1, limit);
      var rest := Run(c.store, key, limit, times[1..], windowMs);
      RunInOpenWindow(c.store, key, limit, times[1..], windowMs, count', reset);
      var t := Run(store, key, limit, times, windowMs);
      assert t.decisions == [c.decision] + rest.decisions;
      forall i | 0 < i < |times|
        ensures InWindow(t.decisions[i], count + i, limit, reset, times[i])
      {
        assert t.decisions[i] == rest.decisions[i - 1] && times[i] == times[1..][i - 1];
        assert InWindow(rest.decisions[i - 1], count' + (i - 1), limit, reset, times[1..][i - 1]);
      }
    }
  }

  /** The quota sequence: with limit N >= 1, a request that starts a window followed by
      requests no later than that window's end, the i-th request is admitted exactly when
      i < N, with N - 1 - i remaining; every later one is denied with nothing remaining. */
  lemma QuotaSequence(store: Store, key: string, limit: nat, times: seq<int>, windowMs: nat)
    requires limit >= 1 && |times| >= 1 && StartsWindow(store, key, times[0])
    requires forall i :: 0 <= i < |times| ==> times[i] <= times[0] + windowMs
    ensures forall i :: 0 <= i < |times| ==>
      Run(store, key, limit, times, windowMs).decisions[i].allowed == (i < limit)
    ensures forall i :: 0 <= i < |times| && i < limit ==>
      Run(store, key, limit, times, windowMs).decisions[i].remaining == limit - 1 - i
    ensures forall i :: 0 <= i < |times| && i >= limit ==>
      Run(store, key, limit, times, windowMs).decisions[i].remaining == 0
    ensures forall i :: 0 <= i < |times| ==>
      Run(store, key, limit, times, windowMs).decisions[i].resetTime == times[0] + windowMs
    ensures key in Run(store, key, limit, times, windowMs).store
    ensures 1 <= Run(store, key, limit, times, windowMs).store[key].count <= limit
  {
    var reset := times[0] + windowMs;
    var c := CheckRateLimit(store, key, limit, times[0], windowMs);
    assert c.store[key] == Record(1, reset);
    RunInOpenWindow(c.store, key, limit, times[1..], windowMs, 1, reset);
    var t := Run(store, key, limit, times, windowMs);
    var rest := Run(c.store, key, limit, times[1..], windowMs);
    assert t.decisions == [c.decision] + rest.decisions;
    forall i | 0 < i < |times|
      ensures t.decisions[i] == rest.decisions[i - 1] && times[i] == times[1..][i - 1]
    {
    }
  }

  /** Number of admitted decisions. */
  function Admitted(ds: seq<Decision>): (n: nat)
    ensures n <= |ds|
  {
    if |ds| == 0 then 0 else (if ds[0].allowed then 1 else 0) + Admitted(ds[1..])
  }

  /** Decisions admitted exactly at the first `n` positions number `min(|ds|, n)`. */
  lemma {:induction false} AdmittedPrefix(ds: seq<Decision>, n: int)
    requires forall i :: 0 <= i < |ds| ==> ds[i].allowed == (i < n)
    ensures Admitted(ds) == if n <= 0 then 0 else Min(|ds|, n)
    decreases |ds|
  {
    if |ds| > 0 {
      forall i | 0 <= i < |ds| - 1
        ensures ds[1..][i].allowed == (i < n - 1)
      {
        assert ds[1..][i] == ds[i + 1];
      }
      AdmittedPrefix(ds[1..], n - 1);
    }
  }

  /** Of M requests in one window with limit N >= 1, exactly min(M, N) are admitted. */
  lemma AdmittedInWindow(store: Store, key: string, limit: nat, times: seq<int>, windowMs: nat)
    requires limit >= 1 && |times| >= 1 && StartsWindow(store, key, times[0])
    requires forall i :: 0 <= i < |times| ==> times[i] <= times[0] + windowMs
    ensures Admitted(Run(store, key, limit, times, windowMs).decisions) == Min(|times|, limit)
  {
    QuotaSequence(store, key, limit, times, windowMs);
    AdmittedPrefix(Run(store, key, limit, times, windowMs).decisions, limit);
  }
}
