/** Redis counters: INCR and EXPIRE on a key that lapses at its deadline. */
module Redis {
  import opened Rooms

  /** A counter without a deadline never lapses. */
  datatype Counter = Counter(count: nat, deadline: Option<Time>)

  function Find<K>(counters: map<K, Counter>, key: K): Option<Counter> {
    if key in counters then Some(counters[key]) else None
  }

  predicate Alive(c: Option<Counter>, now: Time) {
    c.Some? && (c.value.deadline.Some? ==> now < c.value.deadline.value)
  }

  /** INCR: a lapsed or missing counter starts at one, without a deadline. */
  function Incremented(c: Option<Counter>, now: Time): Counter {
    if Alive(c, now) then c.value.(count := c.value.count + 1) else Counter(1, None)
  }

  /** EXPIRE. */
  function Expiring(c: Counter, now: Time, ttl: Time): Counter {
    c.(deadline := Some(now + ttl))
  }
}
