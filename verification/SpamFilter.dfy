// The per-object spam filter: EventSourceObjectSpamFilter.Filter over token buckets.
module SpamFilter {
  import opened Wrappers
  import opened Lru
  import opened Events

  datatype Config = Config(burst: nat, qps: real, spamKeyFunc: Event -> string)

  // The limiter of one object: the tokens it held at a time.
  datatype Bucket = Bucket(tokens: real, last: Time)

  // Tokens earned in d nanoseconds.
  function Earned(c: Config, d: Duration): real {
    if c.qps <= 0.0 || d <= 0 then 0.0 else c.qps * (d as real) / 1_000_000_000.0
  }

  function Min(a: real, b: real): real {
    if a <= b then a else b
  }

  // A bucket that does not exist yet is created full.
  function Level(c: Config, b: Option<Bucket>, t: Time): real {
    match b
    case None => c.burst as real
    case Some(b) => Min(c.burst as real, b.tokens + Earned(c, t - b.last))
  }

  predicate Accepts(c: Config, b: Option<Bucket>, t: Time) {
    Level(c, b, t) >= 1.0
  }

  // A refusal leaves the limiter as it was.
  function NextBucket(c: Config, b: Option<Bucket>, t: Time): Bucket {
    if Accepts(c, b, t) then Bucket(Level(c, b, t) - 1.0, t)
    else match b
      case None => Bucket(c.burst as real, t)
      case Some(b) => b
  }

  class Filter {
    const config: Config
    const capacity: nat
    var cache: seq<Entry<string, Bucket>>

    ghost predicate Valid()
      reads this
    {
      Bounded(cache, capacity)
    }

    constructor (lruCacheSize: nat, config: Config)
      ensures Valid() && cache == [] && capacity == lruCacheSize && this.config == config
    {
      this.config, capacity, cache := config, lruCacheSize, [];
    }

    // True when the event is to be dropped.
    method Filter(event: Event, now: Time) returns (filter: bool)
      requires Valid()
      modifies this
      ensures Valid()
      ensures
        var k := config.spamKeyFunc(event);
        var b := Lookup(old(cache), k);
        filter == !Accepts(config, b, now) &&
        cache == Added(old(cache), k, NextBucket(config, b, now), capacity)
    {
      var eventKey := config.spamKeyFunc(event);
      var value := Lookup(cache, eventKey);
      TouchedThenAdded(cache, eventKey, NextBucket(config, value, now), capacity);
      cache := Promoted(cache, eventKey);
      var rateLimiter := if value.Some? then value.value else Bucket(config.burst as real, now);
      var level := Min(config.burst as real, rateLimiter.tokens + Earned(config, now - rateLimiter.last));
      filter := level < 1.0;
      if !filter {
        rateLimiter := Bucket(level - 1.0, now);
      }
      cache := Added(cache, eventKey, rateLimiter, capacity);
    }
  }

  // ---- The bound on what passes ----

  lemma EarnedAdds(c: Config, d: Duration, e: Duration)
    requires d >= 0 && e >= 0
    ensures Earned(c, d) + Earned(c, e) == Earned(c, d + e) && Earned(c, d) >= 0.0
  {
    if c.qps > 0.0 {
      assert c.qps * (d as real) + c.qps * (e as real) == c.qps * ((d + e) as real);
    }
  }

  ghost predicate Healthy(b: Option<Bucket>, t: Time) {
    b.Some? ==> b.value.last <= t && 0.0 <= b.value.tokens
  }

  // Waiting earns no more than the rate, and a request pays for itself: the tokens still in the
  // bucket plus the one spent never exceed the tokens before plus what was earned since.
  lemma StepPays(c: Config, b: Option<Bucket>, t: Time, u: Time)
    requires t <= u && Healthy(b, t)
    ensures
      var n := NextBucket(c, b, u);
      n.last <= u && 0.0 <= n.tokens && 0.0 <= Level(c, b, u) <= c.burst as real &&
      Level(c, b, u) <= Level(c, b, t) + Earned(c, u - t) &&
      Level(c, Some(n), u) + (if Accepts(c, b, u) then 1.0 else 0.0) == Level(c, b, u)
  {
    EarnedAdds(c, u - t, 0);
    match b
    case None =>
    case Some(v) =>
      EarnedAdds(c, t - v.last, u - t);
  }

  // f events passed since time t; together with what the bucket can still let through at time u
  // they are paid for by the burst and by the time that went by.
  ghost predicate Paid(c: Config, f: nat, b: Option<Bucket>, t: Time, u: Time) {
    (f as real) + Level(c, b, u) <= (c.burst as real) + Earned(c, u - t)
  }

  lemma PaidAtStart(c: Config, b: Option<Bucket>, t: Time, u: Time)
    requires t <= u
    ensures Paid(c, 0, b, t, u)
  {
    EarnedAdds(c, u - t, 0);
  }

  lemma StillPaid(c: Config, f: nat, b: Option<Bucket>, t: Time, v: Time, u: Time)
    requires t <= v <= u && Healthy(b, v) && Paid(c, f, b, t, v)
    ensures Paid(c, f, b, t, u)
  {
    StepPays(c, b, v, u);
    EarnedAdds(c, v - t, u - v);
  }

  lemma RequestPaid(c: Config, f: nat, b: Option<Bucket>, t: Time, u: Time)
    requires t <= u && Healthy(b, u) && Paid(c, f, b, t, u)
    ensures Paid(c, if Accepts(c, b, u) then f + 1 else f, Some(NextBucket(c, b, u)), t, u)
    ensures Healthy(Some(NextBucket(c, b, u)), u)
  {
    StepPays(c, b, u, u);
  }

  lemma PaidIsBounded(c: Config, f: nat, b: Option<Bucket>, t: Time, u: Time)
    requires Healthy(b, u) && Paid(c, f, b, t, u)
    ensures f as real <= (c.burst as real) + Earned(c, u - t)
  {
    StepPays(c, b, u, u);
  }

  // ---- The bound over a whole run, as one object sees it ----

  // The times of the calls that concern the object, None for the others; and its limiter before
  // each call and after the last one.
  type Times = seq<Option<Time>>
  type Buckets = seq<Option<Bucket>>

  ghost predicate Evolves(c: Config, at: Times, buckets: Buckets) {
    |buckets| == |at| + 1 && buckets[0].None? &&
    forall n :: 0 <= n < |at| ==> EvolvedAt(c, at, buckets, n)
  }

  // What the n-th call does to the limiter.
  predicate EvolvedAt(c: Config, at: Times, buckets: Buckets, n: nat)
    requires n < |at| < |buckets|
  {
    buckets[n + 1] == if at[n].Some? then Some(NextBucket(c, buckets[n], at[n].value)) else buckets[n]
  }

  predicate Passes(c: Config, at: Option<Time>, before: Option<Bucket>) {
    at.Some? && Accepts(c, before, at.value)
  }

  // How many of the calls from i up to n pass.
  function Passed(c: Config, at: Times, buckets: Buckets, i: nat, n: nat): nat
    requires i <= n <= |at| < |buckets|
    decreases n
  {
    if n == i then 0
    else Passed(c, at, buckets, i, n - 1) + if Passes(c, at[n - 1], buckets[n - 1]) then 1 else 0
  }

  ghost predicate Monotone(at: Times) {
    forall i, j :: 0 <= i < j < |at| && at[i].Some? && at[j].Some? ==> at[i].value <= at[j].value
  }

  ghost predicate Within(at: Times, i: nat, n: nat, t: Time, u: Time)
    requires n <= |at|
  {
    forall j :: i <= j < n && at[j].Some? ==> t <= at[j].value <= u
  }

  ghost predicate NoneAfter(at: Times, n: nat, u: Time)
    requires n <= |at|
  {
    forall j :: 0 <= j < n && at[j].Some? ==> at[j].value <= u
  }

  // The time at which the n-th call is to be paid: its own, or else the given one.
  function PayTime(at: Times, n: nat, u: Time): Time
    requires n < |at|
  {
    if at[n].Some? then at[n].value else u
  }

  // Every limiter was last used in the past and holds no debt.
  lemma {:induction false} BucketsAreHealthy(c: Config, at: Times, buckets: Buckets, n: nat, u: Time)
    requires Evolves(c, at, buckets) && Monotone(at) && n <= |at| && NoneAfter(at, n, u)
    ensures Healthy(buckets[n], u)
  {
    if n > 0 {
      var v := PayTime(at, n - 1, u);
      BucketsAreHealthy(c, at, buckets, n - 1, v);
      assert EvolvedAt(c, at, buckets, n - 1);
      StepPays(c, buckets[n - 1], v, v);
    }
  }

  lemma PaidNext(c: Config, at: Times, buckets: Buckets, f: nat, n: nat, t: Time, v: Time)
    requires Evolves(c, at, buckets) && Monotone(at) && n < |at| && NoneAfter(at, n, v) && t <= v
    requires Paid(c, f, buckets[n], t, v) && (at[n].Some? ==> v == at[n].value)
    ensures Paid(c, if Passes(c, at[n], buckets[n]) then f + 1 else f, buckets[n + 1], t, v)
  {
    assert EvolvedAt(c, at, buckets, n);
    BucketsAreHealthy(c, at, buckets, n, v);
    if at[n].Some? { RequestPaid(c, f, buckets[n], t, v); }
  }

  lemma {:induction false} PaidUpTo(c: Config, at: Times, buckets: Buckets, i: nat, n: nat, t: Time, u: Time)
    requires Evolves(c, at, buckets) && Monotone(at) && i <= n <= |at| && t <= u
    requires Within(at, i, n, t, u) && NoneAfter(at, n, u)
    ensures Paid(c, Passed(c, at, buckets, i, n), buckets[n], t, u)
    decreases n
  {
    if i == n {
      PaidAtStart(c, buckets[i], t, u);
    } else {
      var v := PayTime(at, n - 1, u);
      PaidUpTo(c, at, buckets, i, n - 1, t, v);
      PaidNext(c, at, buckets, Passed(c, at, buckets, i, n - 1), n - 1, t, v);
      BucketsAreHealthy(c, at, buckets, n, v);
      StillPaid(c, Passed(c, at, buckets, i, n), buckets[n], t, v, u);
    }
  }

  // No more than the burst plus what the rate earns in d nanoseconds.
  predicate WithinBudget(c: Config, f: nat, d: Duration) {
    f as real <= (c.burst as real) + Earned(c, d)
  }

  // All that the bound needs to know of a window from time t to time u.
  ghost predicate IsWindow(at: Times, i: nat, n: nat, t: Time, u: Time) {
    i <= n <= |at| && t <= u && Monotone(at) && Within(at, i, n, t, u) && NoneAfter(at, n, u)
  }

  // In any window, the calls of one object that pass number at most the burst plus what the rate
  // earns over the window.
  lemma {:induction false} WindowBound(c: Config, at: Times, buckets: Buckets, i: nat, n: nat, t: Time, u: Time, f: nat)
    requires Evolves(c, at, buckets) && IsWindow(at, i, n, t, u) && f == Passed(c, at, buckets, i, n)
    ensures WithinBudget(c, f, u - t)
  {
    PaidUpTo(c, at, buckets, i, n, t, u);
    BucketsAreHealthy(c, at, buckets, n, u);
    PaidIsBounded(c, Passed(c, at, buckets, i, n), buckets[n], t, u);
  }

  // ---- Nothing is refused without need ----

  // What the bucket lets through at time u is all that the burst and the rate leave of the window
  // since some earlier call, or the whole burst.
  ghost predicate IsTight(c: Config, at: Times, buckets: Buckets, j: nat, n: nat, u: Time)
    requires n <= |at| < |buckets|
  {
    Level(c, buckets[n], u) == c.burst as real ||
    (j < n && at[j].Some? &&
     Passed(c, at, buckets, j, n) as real + Level(c, buckets[n], u) == (c.burst as real) + Earned(c, u - at[j].value))
  }

  // After an accepted request the level is that before it, less one token, and what was earned since.
  lemma AcceptedLevel(c: Config, b: Option<Bucket>, v: Time, u: Time)
    requires Accepts(c, b, v) && v <= u && Healthy(b, v)
    ensures var l := Level(c, Some(NextBucket(c, b, v)), u);
      l == c.burst as real || l == Level(c, b, v) - 1.0 + Earned(c, u - v)
  {
    EarnedAdds(c, u - v, 0);
  }

  lemma RefusedLevel(c: Config, b: Option<Bucket>, v: Time, u: Time)
    requires !Accepts(c, b, v) && v <= u
    ensures Level(c, Some(NextBucket(c, b, v)), u) == Level(c, b, u)
  {
    EarnedAdds(c, u - v, 0);
  }

  // A tight window stays tight through an accepted request.
  lemma TightAfterAccepted(c: Config, at: Times, buckets: Buckets, j: nat, n: nat, u: Time) returns (k: nat)
    requires Evolves(c, at, buckets) && Monotone(at) && n < |at| && at[n].Some? && at[n].value <= u
    requires Passes(c, at[n], buckets[n]) && Healthy(buckets[n], at[n].value)
    requires IsTight(c, at, buckets, j, n, at[n].value)
    ensures IsTight(c, at, buckets, k, n + 1, u)
  {
    var v := at[n].value;
    assert EvolvedAt(c, at, buckets, n);
    AcceptedLevel(c, buckets[n], v, u);
    if Level(c, buckets[n], v) == c.burst as real {
      k := n;
      assert Passed(c, at, buckets, n, n + 1) == 1;
    } else {
      k := j;
      EarnedAdds(c, v - at[j].value, u - v);
      assert Passed(c, at, buckets, j, n + 1) == Passed(c, at, buckets, j, n) + 1;
    }
  }

  lemma {:induction false} SomeWindowIsTight(c: Config, at: Times, buckets: Buckets, n: nat, u: Time) returns (j: nat)
    requires Evolves(c, at, buckets) && Monotone(at) && n <= |at| && NoneAfter(at, n, u)
    ensures IsTight(c, at, buckets, j, n, u)
  {
    j := 0;
    if n > 0 {
      assert EvolvedAt(c, at, buckets, n - 1);
      if Passes(c, at[n - 1], buckets[n - 1]) {
        var v := at[n - 1].value;
        BucketsAreHealthy(c, at, buckets, n - 1, v);
        j := SomeWindowIsTight(c, at, buckets, n - 1, v);
        j := TightAfterAccepted(c, at, buckets, j, n - 1, u);
      } else {
        j := SomeWindowIsTight(c, at, buckets, n - 1, u);
        if at[n - 1].Some? { RefusedLevel(c, buckets[n - 1], at[n - 1].value, u); }
      }
    }
  }

  // One more than f would be more than the budget.
  predicate Exceeds(c: Config, f: nat, d: Duration) {
    !WithinBudget(c, f + 1, d)
  }

  // One more event in the window since the j-th call would be more than the budget allows.
  ghost predicate OverBudget(c: Config, at: Times, buckets: Buckets, j: nat, n: nat)
    requires j <= n < |at| < |buckets| && at[j].Some? && at[n].Some?
  {
    Exceeds(c, Passed(c, at, buckets, j, n), at[n].value - at[j].value)
  }

  lemma {:induction false} OverBudgetIs(c: Config, at: Times, buckets: Buckets, j: nat, n: nat, f: nat, d: Duration)
    requires j <= n < |at| < |buckets| && at[j].Some? && at[n].Some?
    requires f == Passed(c, at, buckets, j, n) && d == at[n].value - at[j].value
    ensures OverBudget(c, at, buckets, j, n) <==> Exceeds(c, f, d)
  {
  }

  // A call is refused exactly when letting it pass would put some window that ends with it over the
  // burst plus what the rate earns.
  lemma RefusedIff(c: Config, at: Times, buckets: Buckets, n: nat)
    requires Evolves(c, at, buckets) && Monotone(at) && n < |at| && at[n].Some?
    ensures !Passes(c, at[n], buckets[n]) <==>
      exists j :: 0 <= j <= n && at[j].Some? && OverBudget(c, at, buckets, j, n)
  {
    var u := at[n].value;
    forall j | 0 <= j <= n && at[j].Some? && OverBudget(c, at, buckets, j, n) ensures !Passes(c, at[n], buckets[n]) {
      PaidUpTo(c, at, buckets, j, n, at[j].value, u);
    }
    if !Passes(c, at[n], buckets[n]) {
      var j := SomeWindowIsTight(c, at, buckets, n, u);
      if Level(c, buckets[n], u) == c.burst as real {
        EarnedAdds(c, 0, 0);
        assert OverBudget(c, at, buckets, n, n);
      } else {
        assert OverBudget(c, at, buckets, j, n);
      }
    }
  }

  // In particular the first burst passes.
  lemma {:induction false} FirstBurstPasses(c: Config, at: Times, buckets: Buckets, n: nat)
    requires Evolves(c, at, buckets) && Monotone(at) && n < |at| && at[n].Some?
    requires Passed(c, at, buckets, 0, n) < c.burst
    ensures Passes(c, at[n], buckets[n])
  {
    RefusedIff(c, at, buckets, n);
    forall j | 0 <= j <= n && at[j].Some? ensures !OverBudget(c, at, buckets, j, n) {
      PassedShrinks(c, at, buckets, j, n);
      EarnedAdds(c, at[n].value - at[j].value, 0);
    }
  }

  lemma {:induction false} PassedShrinks(c: Config, at: Times, buckets: Buckets, j: nat, n: nat)
    requires j <= n <= |at| < |buckets|
    ensures Passed(c, at, buckets, j, n) <= Passed(c, at, buckets, 0, n)
    decreases n
  {
    if n > j { PassedShrinks(c, at, buckets, j, n - 1); }
  }
}
