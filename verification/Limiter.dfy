/** The fixed-window rate limiter: a counter per key that lapses one window after its expiry is set.

    The counter's INCR and EXPIRE are separate requests, so other arrivals come in between, the
    EXPIRE may be late, and it may never happen.
 */
module Limiter {
  import opened Rooms
  import opened Redis

  type ClientKey = string

  // ---------- the class ----------

  class CounterStore {
    var counters: map<ClientKey, Counter>

    ghost function Get(key: ClientKey): Option<Counter>
      reads this
    {
      Find(counters, key)
    }

    constructor ()
      ensures counters == map[]
    {
      counters := map[];
    }

    /** `None` is a failed INCR. */
    method Incr(key: ClientKey, now: Time, out: Outcome) returns (n: Option<nat>)
      modifies this
      ensures counters == if out == Failed(false) then old(counters) else old(counters)[key := Incremented(old(Get(key)), now)]
      ensures n == if out.Done? then Some(counters[key].count) else None
    {
      if out != Failed(false) {
        counters := counters[key := Incremented(Find(counters, key), now)];
      }
      if out.Failed? {
        return None;
      }
      return Some(counters[key].count);
    }

    method Expire(key: ClientKey, now: Time, ttl: Time, out: Outcome)
      modifies this
      ensures counters == if out != Failed(false) && Alive(old(Get(key)), now)
                          then old(counters)[key := Expiring(old(counters)[key], now, ttl)] else old(counters)
    {
      if out != Failed(false) && Alive(Find(counters, key), now) {
        counters := counters[key := Expiring(counters[key], now, ttl)];
      }
    }
  }

  class Limiter {
    const store: CounterStore
    const max: nat
    const window: Time

    constructor (store: CounterStore, max: nat, window: Time)
      ensures this.store == store && this.max == max && this.window == window
    {
      this.store, this.max, this.window := store, max, window;
    }

    /** Allow: refused exactly if the live counter had already reached the limit; open on errors, also
        if the INCR was applied. */
    method Allow(key: ClientKey, now: Time, incr: Outcome, expire: Outcome) returns (allowed: bool)
      modifies store
      ensures allowed <==> incr.Failed? || (if Alive(old(store.Get(key)), now) then old(store.Get(key)).value.count < max else max >= 1)
      ensures store.counters - {key} == old(store.counters) - {key}
      ensures var alive := key in old(store.counters)
                           && (old(store.counters)[key].deadline.Some? ==> now < old(store.counters)[key].deadline.value);
              && (allowed <==> incr.Failed? || (if alive then old(store.counters)[key].count + 1 else 1) <= max)
              && (incr != Failed(false) && alive && old(store.counters)[key].count >= 1 ==>
                    key in store.counters
                    && store.counters[key] == Counter(old(store.counters)[key].count + 1, old(store.counters)[key].deadline))
              && (incr != Failed(false) && !alive ==>
                    key in store.counters
                    && store.counters[key] == Counter(1, if incr.Done? && expire != Failed(false) then Some(now + window) else None))
      ensures incr == Failed(false) ==> store.counters == old(store.counters)
      ensures incr != Failed(false) ==>
                var c := Incremented(old(store.Get(key)), now);
                store.counters == old(store.counters)[key :=
                  if incr.Done? && c.count == 1 && expire != Failed(false) then Expiring(c, now, window) else c]
    {
      var n := store.Incr(key, now, incr);
      if n.None? {
        return true;
      }
      if n.value == 1 {
        store.Expire(key, now, window, expire);
      }
      allowed := n.value <= max;
    }
  }

  // ---------- any arrival sequence, one key ----------

  /** An arrival raises the counter; the EXPIRE of the arrival that started it follows at any later
      time, or never. */
  datatype Event = Arrive(at: Time) | SetExpiry(at: Time)

  /** `admitted` are the times of the admissions; `epoch` is how many came before the present counter
      was started, and `start` when that was. */
  datatype State = State(counter: Option<Counter>, admitted: seq<Time>, epoch: nat, start: Time)

  const EMPTY := State(None, [], 0, 0.0)

  function Step(s: State, e: Event, max: nat, window: Time): State {
    match e
    case Arrive(at) =>
      var c := Incremented(s.counter, at);
      var admitted := if c.count <= max then s.admitted + [at] else s.admitted;
      if Alive(s.counter, at) then s.(counter := Some(c), admitted := admitted)
      else State(Some(c), admitted, |s.admitted|, at)
    case SetExpiry(at) =>
      if s.counter.Some? && s.counter.value.deadline.None?
      then s.(counter := Some(Expiring(s.counter.value, at, window))) else s
  }

  function Run(es: seq<Event>, max: nat, window: Time): State {
    if es == [] then EMPTY else Step(Run(es[..|es| - 1], max, window), es[|es| - 1], max, window)
  }

  predicate InOrder(es: seq<Event>) {
    (forall i | 0 <= i < |es| :: 0.0 <= es[i].at) && forall i, j | 0 <= i < j < |es| :: es[i].at <= es[j].at
  }

  /** Two admissions at least 2*max apart in number are more than one window apart in time. */
  ghost predicate Spread(admitted: seq<Time>, max: nat, window: Time) {
    forall i, j | 0 <= i < j < |admitted| && j - i >= 2 * max :: admitted[j] - admitted[i] > window
  }

  /** Every epoch admits at most max, and began more than a window after the admissions that are
      max and more before it. */
  ghost predicate Epochs(admitted: seq<Time>, epoch: nat, start: Time, max: nat, window: Time) {
    && epoch <= |admitted| <= epoch + max
    && (max == 0 ==> admitted == [])
    && (forall i | 0 <= i < epoch :: admitted[i] < start)
    && forall i | 0 <= i && i + max < epoch :: start - admitted[i] > window
  }

  ghost predicate UpTo(admitted: seq<Time>, now: Time) {
    forall i | 0 <= i < |admitted| :: admitted[i] <= now
  }

  /** The counter counts the admissions of its epoch up to max, and lapses after all of them and at
      least a window after its start. */
  ghost predicate Counts(s: State, max: nat, window: Time) {
    match s.counter
    case None => s.admitted == []
    case Some(c) =>
      && c.count >= 1
      && |s.admitted| - s.epoch == (if c.count <= max then c.count else max)
      && (c.deadline.Some? ==> c.deadline.value >= s.start + window && forall i | 0 <= i < |s.admitted| :: s.admitted[i] < c.deadline.value)
  }

  ghost predicate Inv(s: State, now: Time, max: nat, window: Time) {
    && Spread(s.admitted, max, window) && Epochs(s.admitted, s.epoch, s.start, max, window)
    && UpTo(s.admitted, now) && s.start <= now && Counts(s, max, window)
  }

  /** An admission at `at`, in the epoch that began at `start` with the epoch-th admission. */
  lemma AdmitSpread(admitted: seq<Time>, epoch: nat, start: Time, at: Time, max: nat, window: Time)
    requires Spread(admitted, max, window) && epoch <= |admitted| < epoch + max && start <= at
    requires forall i | 0 <= i && i + max < epoch :: start - admitted[i] > window
    ensures Spread(admitted + [at], max, window)
  {
    var more := admitted + [at];
    forall i, j | 0 <= i < j < |more| && j - i >= 2 * max
      ensures more[j] - more[i] > window
    {
      if j == |admitted| {
        assert i + max < epoch;
      }
    }
  }

  lemma AdmitCounts(s: State, at: Time, max: nat, window: Time)
    requires Counts(s, max, window) && Alive(s.counter, at)
    ensures Counts(Step(s, Arrive(at), max, window), max, window)
  {
  }

  lemma ArriveAlive(s: State, now: Time, at: Time, max: nat, window: Time)
    requires Inv(s, now, max, window) && now <= at && window > 0.0 && Alive(s.counter, at)
    ensures Inv(Step(s, Arrive(at), max, window), at, max, window)
  {
    AdmitCounts(s, at, max, window);
    if s.counter.value.count < max {
      AdmitSpread(s.admitted, s.epoch, s.start, at, max, window);
    }
  }

  lemma NewEpoch(s: State, at: Time, max: nat, window: Time)
    requires Epochs(s.admitted, s.epoch, s.start, max, window) && Counts(s, max, window) && window > 0.0 && !Alive(s.counter, at)
    ensures Epochs(s.admitted, |s.admitted|, at, max, window)
  {
    forall i | 0 <= i && i + max < |s.admitted|
      ensures at - s.admitted[i] > window
    {
      assert i < s.epoch && s.admitted[i] < s.start;
    }
  }

  lemma ArriveLapsed(s: State, now: Time, at: Time, max: nat, window: Time)
    requires Inv(s, now, max, window) && now <= at && window > 0.0 && !Alive(s.counter, at)
    ensures Inv(Step(s, Arrive(at), max, window), at, max, window)
  {
    NewEpoch(s, at, max, window);
    if max >= 1 {
      AdmitSpread(s.admitted, |s.admitted|, at, at, max, window);
    }
  }

  lemma StepInv(s: State, now: Time, e: Event, max: nat, window: Time)
    requires Inv(s, now, max, window) && now <= e.at && window > 0.0
    ensures Inv(Step(s, e, max, window), e.at, max, window)
  {
    if e.Arrive? {
      if Alive(s.counter, e.at) {
        ArriveAlive(s, now, e.at, max, window);
      } else {
        ArriveLapsed(s, now, e.at, max, window);
      }
    }
  }

  lemma {:induction false} RunInv(es: seq<Event>, max: nat, window: Time)
    requires InOrder(es) && window > 0.0
    ensures Inv(Run(es, max, window), if es == [] then 0.0 else es[|es| - 1].at, max, window)
  {
    if es != [] {
      RunInv(es[..|es| - 1], max, window);
      StepInv(Run(es[..|es| - 1], max, window), if |es| == 1 then 0.0 else es[|es| - 2].at, es[|es| - 1], max, window);
    }
  }

  /** The admissions in a closed span of time, by their numbers. */
  function Within(admitted: seq<Time>, from: Time, to: Time): set<nat> {
    set i: nat | i < |admitted| && from <= admitted[i] <= to
  }

  /** An arrival is refused only if max were admitted since the counter began. */
  lemma RefusedOnlyAtTheLimit(es: seq<Event>, max: nat, window: Time)
    requires es != [] && InOrder(es) && window > 0.0 && es[|es| - 1].Arrive?
    requires var before := Run(es[..|es| - 1], max, window); Run(es, max, window).admitted == before.admitted
    ensures var s := Run(es, max, window); |s.admitted| - s.epoch == max
  {
    RunInv(es, max, window);
  }

  lemma {:induction false} IntervalSize(a: set<nat>, lo: nat, hi: nat)
    requires lo <= hi && forall i | i in a :: lo <= i < hi
    ensures |a| <= hi - lo
    decreases hi
  {
    if lo < hi {
      IntervalSize(a - {hi - 1}, lo, hi - 1);
      if hi - 1 in a {
        assert a == (a - {hi - 1}) + {hi - 1};
      } else {
        assert a == a - {hi - 1};
      }
    } else {
      assert a == {};
    }
  }

  /** Any span of time as long as the window holds at most 2*max admissions, however late the
      expiries are set and even if they never are. */
  lemma WindowHoldsTwiceTheLimit(es: seq<Event>, max: nat, window: Time, from: Time)
    requires InOrder(es) && window > 0.0
    ensures |Within(Run(es, max, window).admitted, from, from + window)| <= 2 * max
  {
    RunInv(es, max, window);
    var admitted := Run(es, max, window).admitted;
    var w := Within(admitted, from, from + window);
    if w != {} {
      var first := Least(w);
      forall i | i in w ensures first <= i < first + 2 * max {}
      IntervalSize(w, first, first + 2 * max);
    }
  }

  lemma {:induction false} Least(w: set<nat>) returns (first: nat)
    requires w != {}
    ensures first in w && forall i | i in w :: first <= i
    decreases |w|
  {
    first :| first in w;
    var rest := w - {first};
    if rest != {} {
      var other := Least(rest);
      forall i | i in w ensures i == first || i in rest {}
      first := if other < first then other else first;
    } else {
      assert w == {first};
    }
  }

  /** What Allow leaves behind is what an arrival and, when it started the counter and the request got
      through, its expiry leave behind; and Allow admits what the arrival admits. */
  lemma AllowIsArrival(s: State, now: Time, max: nat, window: Time, expireFails: bool)
    requires s.counter.Some? ==> s.counter.value.count >= 1
    ensures var c := Incremented(s.counter, now);
            var arrived := Step(s, Arrive(now), max, window);
            && (if c.count == 1 && !expireFails then Step(arrived, SetExpiry(now), max, window) else arrived).counter
               == Some(if c.count == 1 && !expireFails then Expiring(c, now, window) else c)
            && arrived.admitted == s.admitted +
                 (if (if Alive(s.counter, now) then s.counter.value.count else 0) + 1 <= max then [now] else [])
            && Step(s, SetExpiry(now), max, window).admitted == s.admitted
  {
  }

  // ---------- the bound is reached ----------

  function Arrivals(n: nat, at: Time): seq<Event> {
    seq(n, _ => Arrive(at))
  }

  function Times(n: nat, at: Time): seq<Time> {
    seq(n, _ => at)
  }

  lemma RunMore(es: seq<Event>, e: Event, max: nat, window: Time)
    ensures Run(es + [e], max, window) == Step(Run(es, max, window), e, max, window)
  {
    assert (es + [e])[..|es|] == es;
  }

  lemma OneAdmitted(s: State, n: nat, at: Time, max: nat, window: Time)
    requires 1 <= n <= max && if n == 1 then !Alive(s.counter, at) else s.counter == Some(Counter(n - 1, None))
    ensures Step(s, Arrive(at), max, window).admitted == s.admitted + [at]
    ensures Step(s, Arrive(at), max, window).counter == Some(Counter(n, None))
  {
  }

  lemma OneMore(es: seq<Event>, n: nat, at: Time)
    ensures es + Arrivals(n + 1, at) == es + Arrivals(n, at) + [Arrive(at)] && Times(n + 1, at) == Times(n, at) + [at]
  {
  }

  /** n arrivals at a time when the counter has lapsed, n at most max: all admitted. */
  lemma {:induction false} AllAdmitted(es: seq<Event>, n: nat, at: Time, max: nat, window: Time)
    requires n <= max && !Alive(Run(es, max, window).counter, at)
    ensures Run(es + Arrivals(n, at), max, window).admitted == Run(es, max, window).admitted + Times(n, at)
    ensures Run(es + Arrivals(n, at), max, window).counter == if n == 0 then Run(es, max, window).counter else Some(Counter(n, None))
  {
    if n == 0 {
      assert es + Arrivals(0, at) == es;
    } else {
      var before := es + Arrivals(n - 1, at);
      AllAdmitted(es, n - 1, at, max, window);
      OneMore(es, n - 1, at);
      RunMore(before, Arrive(at), max, window);
      OneAdmitted(Run(before, max, window), n, at, max, window);
      calc {
        Run(before, max, window).admitted + [at];
        Run(es, max, window).admitted + Times(n - 1, at) + [at];
        Run(es, max, window).admitted + (Times(n - 1, at) + [at]);
      }
    }
  }

  /** max arrivals when the window starts and max more when it ends. */
  function Busiest(max: nat, window: Time): seq<Event> {
    Arrivals(max, 0.0) + [SetExpiry(0.0)] + Arrivals(max, window)
  }

  lemma BusiestInOrder(max: nat, window: Time)
    requires window > 0.0
    ensures InOrder(Busiest(max, window))
  {
    forall i | 0 <= i < 2 * max + 1 ensures Busiest(max, window)[i].at == if i <= max then 0.0 else window {}
  }

  lemma BusiestAdmitted(max: nat, window: Time)
    requires window > 0.0
    ensures Run(Busiest(max, window), max, window).admitted == Times(max, 0.0) + Times(max, window)
  {
    var first := Arrivals(max, 0.0);
    AllAdmitted([], max, 0.0, max, window);
    assert [] + first == first;
    RunMore(first, SetExpiry(0.0), max, window);
    AllAdmitted(first + [SetExpiry(0.0)], max, window, max, window);
    assert [] + Times(max, 0.0) == Times(max, 0.0);
  }

  lemma {:induction false} AllWithin(admitted: seq<Time>, from: Time, to: Time)
    requires forall i | 0 <= i < |admitted| :: from <= admitted[i] <= to
    ensures |Within(admitted, from, to)| == |admitted|
  {
    if admitted == [] {
      assert Within(admitted, from, to) == {};
    } else {
      var last := |admitted| - 1;
      AllWithin(admitted[..last], from, to);
      forall i | i in Within(admitted, from, to) ensures i == last || i in Within(admitted[..last], from, to) {}
      assert Within(admitted, from, to) == Within(admitted[..last], from, to) + {last};
    }
  }

  ghost predicate AtMost(es: seq<Event>, from: Time, max: nat, window: Time, bound: nat) {
    |Within(Run(es, max, window).admitted, from, from + window)| <= bound
  }

  /** Twice the limit is exactly what a span as long as the window can hold. */
  lemma TwiceTheLimitExactly(max: nat, window: Time, bound: nat)
    requires window > 0.0
    ensures (forall es, from | InOrder(es) :: AtMost(es, from, max, window, bound)) <==> 2 * max <= bound
  {
    forall es, from | InOrder(es) && 2 * max <= bound
      ensures AtMost(es, from, max, window, bound)
    {
      WindowHoldsTwiceTheLimit(es, max, window, from);
    }
    BusiestInOrder(max, window);
    BusiestAdmitted(max, window);
    AllWithin(Times(max, 0.0) + Times(max, window), 0.0, window);
    assert 0.0 + window == window;
    assert AtMost(Busiest(max, window), 0.0, max, window, bound) <==> 2 * max <= bound;
  }
}
