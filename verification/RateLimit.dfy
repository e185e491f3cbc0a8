/** The fixed-window rate limiter (apps/core/rate_limits.py): a cache counter with a time to live
    that starts at the first check and is not extended by later ones. */
module RateLimit {
  import opened Counters
  import opened Wrappers

  /** Keys are hashed from these parts. */
  datatype CacheKey = CacheKey(scope: string, windowSeconds: nat, identifier: string)

  datatype RateLimitResult = RateLimitResult(allowed: bool, count: nat, limit: nat, retryAfterSeconds: nat)

  datatype CheckOutcome = Checked(result: RateLimitResult) | ValueError

  /** How long the caller is told to wait: the key's remaining time, or the window when the cache cannot
      tell it or the key has expired meanwhile. */
  function RetryAfter(c: Counter, window: nat, hasTtl: bool, readAt: nat): nat {
    if hasTtl && readAt < c.expiresAt then c.expiresAt - readAt else window
  }

  // ---------- the code ----------

  class RateLimitCache {
    var entries: map<CacheKey, Counter>

    function Entry(key: CacheKey): Option<Counter>
      reads this
    {
      if key in entries then Some(entries[key]) else None
    }

    method Add(key: CacheKey, timeout: nat, now: nat) returns (added: bool)
      modifies this
      ensures added == !Live(old(Entry(key)), now)
      ensures entries == if added then old(entries)[key := Counter(1, now + timeout)] else old(entries)
    {
      added := !Live(Entry(key), now);
      if added {
        entries := entries[key := Counter(1, now + timeout)];
      }
    }

    /** Incrementing a key that has expired raises ValueError. */
    method Incr(key: CacheKey, now: nat) returns (count: Option<nat>)
      modifies this
      ensures count.Some? <==> Live(old(Entry(key)), now)
      ensures count.Some? ==> count.value == old(entries)[key].count + 1
      ensures entries == if count.Some? then old(entries)[key := old(entries)[key].(count := count.value)]
        else old(entries)
    {
      if !Live(Entry(key), now) {
        return None;
      }
      count := Some(entries[key].count + 1);
      entries := entries[key := entries[key].(count := count.value)];
    }

    /** check_rate_limit: the key is added at addedAt, incremented at incrementedAt and its remaining
        time is read at readAt; hasTtl says whether the cache can report it. */
    method Check(scope: string, identifier: string, blank: bool, limit: int, window: int, hasTtl: bool,
                 addedAt: nat, incrementedAt: nat, readAt: nat)
      returns (outcome: CheckOutcome)
      requires addedAt <= incrementedAt <= readAt
      modifies this
      ensures outcome.ValueError? <==> limit <= 0 || window <= 0 || blank
      ensures outcome.ValueError? ==> entries == old(entries)
      ensures outcome.Checked? ==>
        var key := CacheKey(scope, window, identifier);
        && Entry(key) == Some(Counted(old(Entry(key)), window, if Live(old(Entry(key)), addedAt) then incrementedAt
          else addedAt))
        && outcome.result.count == Entry(key).value.count
        && outcome.result.count == (if key in old(entries) && incrementedAt < old(entries)[key].expiresAt
          then old(entries)[key].count + 1 else 1)
        && outcome.result.allowed == (outcome.result.count <= limit) && outcome.result.limit == limit
        && outcome.result.retryAfterSeconds == RetryAfter(Entry(key).value, window, hasTtl, readAt)
        && (hasTtl && readAt < Entry(key).value.expiresAt ==>
          outcome.result.retryAfterSeconds == Entry(key).value.expiresAt - readAt)
        && (!hasTtl || Entry(key).value.expiresAt <= readAt ==> outcome.result.retryAfterSeconds == window)
        && forall other :: other != key ==> Entry(other) == old(Entry(other))
    {
      if limit <= 0 {
        return ValueError;
      }
      if window <= 0 {
        return ValueError;
      }
      if blank {
        return ValueError;
      }
      var key := CacheKey(scope, window, identifier);
      var count: nat;
      var added := Add(key, window, addedAt);
      if added {
        count := 1;
      } else {
        var incremented := Incr(key, incrementedAt);
        if incremented.Some? {
          count := incremented.value;
        } else {
          var _ := Add(key, window, incrementedAt);
          count := 1;
        }
      }
      var retryAfter := window;
      if hasTtl {
        var ttl := entries[key].expiresAt - readAt;
        if ttl > 0 {
          retryAfter := ttl;
        }
      }
      outcome := Checked(RateLimitResult(count <= limit, count, limit, retryAfter));
    }
  }

  // ---------- runs of checks on one key ----------

  ghost predicate Ordered(times: seq<nat>) {
    forall i, j :: 0 <= i <= j < |times| ==> times[i] <= times[j]
  }

  /** The counter after checks at these times. */
  function After(window: nat, times: seq<nat>): Option<Counter> {
    if times == [] then None else Some(Counted(After(window, times[..|times| - 1]), window, times[|times| - 1]))
  }

  /** The last check of the run is allowed. */
  predicate LastAllowed(limit: nat, window: nat, times: seq<nat>)
    requires times != []
  {
    After(window, times).value.count <= limit
  }

  /** How many checks of the run between the two times, inclusive, are allowed. */
  function AllowedIn(limit: nat, window: nat, times: seq<nat>, from: nat, to: nat): nat {
    if times == [] then 0
    else
      AllowedIn(limit, window, times[..|times| - 1], from, to) +
      if from <= times[|times| - 1] <= to && LastAllowed(limit, window, times) then 1 else 0
  }

  function ChecksIn(times: seq<nat>, from: nat, to: nat): nat {
    if times == [] then 0
    else ChecksIn(times[..|times| - 1], from, to) + if from <= times[|times| - 1] <= to then 1 else 0
  }

  function Min(a: nat, b: nat): nat {
    if a <= b then a else b
  }

  /** Checks so far lie before the counter's expiry and are not older than the run's last time. */
  lemma {:induction false} CounterShape(window: nat, times: seq<nat>)
    requires Ordered(times) && window > 0 && times != []
    ensures var c := After(window, times).value;
      c.count >= 1 && window <= c.expiresAt && c.expiresAt - window <= times[|times| - 1] < c.expiresAt
  {
    if |times| > 1 {
      var before := times[..|times| - 1];
      CounterShape(window, before);
      assert before[|before| - 1] == times[|times| - 2];
    }
  }

  lemma {:induction false} NothingBefore(limit: nat, window: nat, times: seq<nat>, from: nat, to: nat)
    requires Ordered(times) && (times == [] || times[|times| - 1] < from)
    ensures AllowedIn(limit, window, times, from, to) == 0 && ChecksIn(times, from, to) == 0
  {
    if times != [] { NothingBefore(limit, window, times[..|times| - 1], from, to); }
  }

  /** Each counter lifetime allows exactly the first `limit` of its checks. */
  lemma {:induction false} LifetimeAllowsExactly(limit: nat, window: nat, times: seq<nat>)
    requires Ordered(times) && window > 0 && limit > 0 && times != []
    ensures var c := After(window, times).value; var start := c.expiresAt - window;
      && start >= 0 && ChecksIn(times, start, c.expiresAt - 1) == c.count
      && AllowedIn(limit, window, times, start, c.expiresAt - 1) == Min(c.count, limit)
  {
    var n := |times| - 1;
    var before := times[..n];
    CounterShape(window, times);
    if n > 0 {
      CounterShape(window, before);
      LifetimeAllowsExactly(limit, window, before);
    }
    if !Live(After(window, before), times[n]) {
      NothingBefore(limit, window, before, times[n], times[n] + window - 1);
    }
  }

  /** How many allowed checks in [from, to] a counter that started at `start` leaves room for. */
  function Room(limit: nat, window: nat, from: nat, to: nat, start: int, count: nat): int {
    if start < from then Min(count, limit) - 1
    else if start == from then Min(count, limit)
    else if start <= to && start < from + window then limit - 1 + Min(count, limit)
    else if start <= to then limit + Min(count, limit)
    else if to == from + window then 2 * limit else 2 * limit - 1
  }

  lemma {:induction false} AllowedFitsRoom(limit: nat, window: nat, times: seq<nat>, from: nat, to: nat)
    requires Ordered(times) && window > 0 && limit > 0 && from <= to <= from + window && times != []
    ensures var c := After(window, times).value;
      AllowedIn(limit, window, times, from, to) <= Room(limit, window, from, to, c.expiresAt - window, c.count)
  {
    var n := |times| - 1;
    var before := times[..n];
    CounterShape(window, times);
    if n > 0 {
      CounterShape(window, before);
      AllowedFitsRoom(limit, window, before, from, to);
      assert before[n - 1] <= times[n];
      if before[n - 1] < from {
        NothingBefore(limit, window, before, from, to);
      }
    }
  }

  /** Any interval as long as the window sees at most 2 * limit allowed checks, and any shorter one
      at most 2 * limit - 1. */
  lemma WindowBound(limit: nat, window: nat, times: seq<nat>, from: nat, to: nat)
    requires Ordered(times) && window > 0 && limit > 0 && from <= to <= from + window
    ensures AllowedIn(limit, window, times, from, to) <= if to == from + window then 2 * limit else 2 * limit - 1
  {
    if times != [] {
      AllowedFitsRoom(limit, window, times, from, to);
    }
  }

  function Burst(n: nat, at: nat): seq<nat> {
    seq(n, _ => at)
  }

  lemma BurstSnoc(n: nat, at: nat)
    requires n > 0
    ensures Burst(n, at) == Burst(n - 1, at) + [at]
  {}

  lemma OneMoreCheck(limit: nat, window: nat, times: seq<nat>, at: nat, from: nat, to: nat)
    ensures After(window, times + [at]) == Some(Counted(After(window, times), window, at))
    ensures AllowedIn(limit, window, times + [at], from, to) ==
      AllowedIn(limit, window, times, from, to) +
      if from <= at <= to && Counted(After(window, times), window, at).count <= limit then 1 else 0
  {
    assert (times + [at])[..|times|] == times;
  }

  lemma {:induction false} FirstBurst(limit: nat, window: nat, n: nat)
    requires window > 0 && n <= limit
    ensures AllowedIn(limit, window, Burst(n, 0), 0, window) == n
    ensures n > 0 ==> After(window, Burst(n, 0)) == Some(Counter(n, window))
  {
    if n > 0 {
      FirstBurst(limit, window, n - 1);
      BurstSnoc(n, 0);
      OneMoreCheck(limit, window, Burst(n - 1, 0), 0, 0, window);
    }
  }

  /** A full burst when the counter starts, and n checks when it expires. */
  function TwoBursts(limit: nat, window: nat, n: nat): seq<nat> {
    Burst(limit, 0) + Burst(n, window)
  }

  lemma TwoBurstsSnoc(limit: nat, window: nat, n: nat)
    ensures TwoBursts(limit, window, 0) == Burst(limit, 0)
    ensures n > 0 ==> TwoBursts(limit, window, n) == TwoBursts(limit, window, n - 1) + [window]
    ensures Ordered(TwoBursts(limit, window, n))
  {}

  /** The bound is reached: the second burst is allowed as well. */
  lemma {:induction false} WindowBoundIsReached(limit: nat, window: nat, n: nat)
    requires window > 0 && n <= limit && limit > 0
    ensures Ordered(TwoBursts(limit, window, n))
    ensures AllowedIn(limit, window, TwoBursts(limit, window, n), 0, window) == limit + n
    ensures After(window, TwoBursts(limit, window, n)) ==
      Some(if n > 0 then Counter(n, 2 * window) else Counter(limit, window))
  {
    TwoBurstsSnoc(limit, window, n);
    if n > 0 {
      WindowBoundIsReached(limit, window, n - 1);
      OneMoreCheck(limit, window, TwoBursts(limit, window, n - 1), window, 0, window);
    } else {
      FirstBurst(limit, window, limit);
    }
  }

  lemma {:induction false} ExpiryFixed(window: nat, times: seq<nat>, others: seq<nat>)
    requires times != [] && forall t :: t in others ==> t < After(window, times).value.expiresAt
    ensures After(window, times + others).value.expiresAt == After(window, times).value.expiresAt
    decreases |others|
  {
    if others == [] {
      assert times + others == times;
    } else {
      var n := |others| - 1;
      assert (times + others)[..|times + others| - 1] == times + others[..n];
      assert others[n] in others && forall t :: t in others[..n] ==> t in others;
      ExpiryFixed(window, times, others[..n]);
    }
  }

  /** After a check at the end of `times`, refused or not, a caller who waits as long as the check told
      it at readAt is allowed, whatever other checks are made while the counter lives. */
  lemma RetryAfterIsEnough(limit: nat, window: nat, times: seq<nat>, hasTtl: bool, readAt: nat, others: seq<nat>,
                           next: nat)
    requires window > 0 && limit > 0 && times != [] && Ordered(times + others + [next])
    requires times[|times| - 1] <= readAt &&
      readAt + RetryAfter(After(window, times).value, window, hasTtl, readAt) <= next
    requires forall t :: t in others ==> t < After(window, times).value.expiresAt
    ensures LastAllowed(limit, window, times + others + [next])
  {
    var all := times + others + [next];
    assert forall i :: 0 <= i < |times| ==> times[i] == all[i];
    CounterShape(window, times);
    ExpiryFixed(window, times, others);
    assert all[..|times + others|] == times + others;
  }

  /** And no shorter wait is enough while the cache can tell: whoever comes back earlier, when the limit
      has been used up, is refused. */
  lemma RetryAfterIsNeeded(limit: nat, window: nat, times: seq<nat>, readAt: nat, others: seq<nat>, next: nat)
    requires window > 0 && times != [] && Ordered(times + others + [next])
    requires After(window, times).value.count >= limit
    requires readAt < After(window, times).value.expiresAt
    requires readAt <= next < readAt + RetryAfter(After(window, times).value, window, true, readAt)
    ensures !LastAllowed(limit, window, times + others + [next])
  {
    var all := times + others + [next];
    var expiry := After(window, times).value.expiresAt;
    forall t | t in others ensures t < expiry {
      var i :| 0 <= i < |others| && others[i] == t;
      assert all[|times| + i] == t && all[|times + others|] == next;
    }
    ExpiryFixed(window, times, others);
    CountGrows(window, times, others);
    assert all[..|times + others|] == times + others;
  }

  lemma {:induction false} CountGrows(window: nat, times: seq<nat>, others: seq<nat>)
    requires times != [] && forall t :: t in others ==> t < After(window, times).value.expiresAt
    ensures After(window, times + others).value.count >= After(window, times).value.count
    decreases |others|
  {
    if others == [] {
      assert times + others == times;
    } else {
      var n := |others| - 1;
      assert (times + others)[..|times + others| - 1] == times + others[..n];
      assert others[n] in others && forall t :: t in others[..n] ==> t in others;
      CountGrows(window, times, others[..n]);
      ExpiryFixed(window, times, others[..n]);
    }
  }
}
