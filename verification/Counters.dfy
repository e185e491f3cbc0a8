/** Cache counters with a time to live that starts at the first count and is not extended. */
module Counters {
  import opened Wrappers

  datatype Counter = Counter(count: nat, expiresAt: nat)

  predicate Live(c: Option<Counter>, now: nat) {
    c.Some? && now < c.value.expiresAt
  }

  /** One more count that nothing interleaves with. */
  function Counted(c: Option<Counter>, window: nat, now: nat): Counter {
    if Live(c, now) then c.value.(count := c.value.count + 1) else Counter(1, now + window)
  }
}
