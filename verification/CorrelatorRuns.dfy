// What the calls of the correlator return over whole runs on its bounded caches: the results about
// its stages, carried over.
module CorrelatorRuns {
  import opened Wrappers
  import opened Lru
  import opened Events
  import opened Correlator
  import A = Aggregator
  import L = EventLogger
  import R = AggregatorRuns
  import S = SpamFilter

  // What the n-th call of a run returns.
  ghost function ResultAt(c: Config, ops: seq<Op>, n: nat): Result
    requires n < |ops| && ops[n].Correlate?
  {
    ResultCached(c, RunCached(c, ops[..n]), ops[n].x)
  }

  // ---- The spam bound ----

  // The n-th call forwards an event of this object.
  ghost predicate ForwardsFor(c: Config, ops: seq<Op>, sk: string, n: nat)
    requires n < |ops|
  {
    ops[n].Correlate? && ResultAt(c, ops, n).Forward? && c.spam.spamKeyFunc(ResultAt(c, ops, n).event) == sk
  }

  // The events forwarded for one object by the calls from i up to n.
  ghost function ForwardedCached(c: Config, ops: seq<Op>, sk: string, i: nat, n: nat): nat
    requires i <= n <= |ops|
    decreases n
  {
    if n == i then 0
    else ForwardedCached(c, ops, sk, i, n - 1) + if ForwardsFor(c, ops, sk, n - 1) then 1 else 0
  }

  ghost function SpamKeyAt(c: Config, ops: seq<Op>, n: nat): string
    requires n < |ops| && ops[n].Correlate?
  {
    var s, x := RunCached(c, ops[..n]), ops[n].x;
    var o := Aggregated(c, Lookup(s.agg, AggKey(c, x)), x);
    c.spam.spamKeyFunc(L.Observed(Lookup(s.log, o.key), o.event))
  }

  ghost function SpamKeys(c: Config, ops: seq<Op>): set<string> {
    set n | 0 <= n < |ops| && ops[n].Correlate? :: SpamKeyAt(c, ops, n)
  }

  // Nothing is ever evicted from the spam cache.
  ghost predicate SpamFits(c: Config, ops: seq<Op>) {
    c.lruCacheSize == 0 || |SpamKeys(c, ops)| <= c.lruCacheSize
  }

  ghost predicate OnlySpamKeys(c: Config, ops: seq<Op>, q: seq<Entry<string, S.Bucket>>) {
    DistinctKeys(q) && Contents(q).Keys <= SpamKeys(c, ops)
  }

  // One call changes the limiter of its own object only.
  lemma {:induction false} SpamCacheStep(c: Config, ops: seq<Op>, n: nat, sk: string)
    requires n < |ops| && SpamFits(c, ops) && OnlySpamKeys(c, ops, RunCached(c, ops[..n]).spam)
    ensures OnlySpamKeys(c, ops, RunCached(c, ops[..n + 1]).spam)
    ensures Lookup(RunCached(c, ops[..n + 1]).spam, sk) ==
      if ops[n].Correlate? && SpamKeyAt(c, ops, n) == sk
      then Some(S.NextBucket(c.spam, Lookup(RunCached(c, ops[..n]).spam, sk), ops[n].x.acceptAt))
      else Lookup(RunCached(c, ops[..n]).spam, sk)
  {
    assert ops[..n + 1][..n] == ops[..n];
    if ops[n].Correlate? {
      var q, k := RunCached(c, ops[..n]).spam, SpamKeyAt(c, ops, n);
      assert k in SpamKeys(c, ops);
      AddedFits(q, k, S.NextBucket(c.spam, Lookup(q, k), ops[n].x.acceptAt), c.lruCacheSize, SpamKeys(c, ops));
    }
  }

  lemma {:induction false} SpamCacheKeys(c: Config, ops: seq<Op>, n: nat)
    requires n <= |ops| && SpamFits(c, ops)
    ensures OnlySpamKeys(c, ops, RunCached(c, ops[..n]).spam)
  {
    if n > 0 {
      SpamCacheKeys(c, ops, n - 1);
      SpamCacheStep(c, ops, n - 1, "");
    }
  }

  ghost function TimesCached(c: Config, ops: seq<Op>, sk: string): S.Times {
    seq(|ops|, n requires 0 <= n < |ops| =>
      if ops[n].Correlate? && SpamKeyAt(c, ops, n) == sk then Some(ops[n].x.acceptAt) else None)
  }

  ghost function BucketsCached(c: Config, ops: seq<Op>, sk: string): S.Buckets {
    seq(|ops| + 1, n requires 0 <= n <= |ops| => Lookup(RunCached(c, ops[..n]).spam, sk))
  }

  lemma BucketsCachedEvolve(c: Config, ops: seq<Op>, sk: string)
    requires SpamFits(c, ops)
    ensures S.Evolves(c.spam, TimesCached(c, ops, sk), BucketsCached(c, ops, sk))
  {
    var at, buckets := TimesCached(c, ops, sk), BucketsCached(c, ops, sk);
    forall n | 0 <= n < |ops| ensures S.EvolvedAt(c.spam, at, buckets, n) {
      SpamCacheKeys(c, ops, n);
      SpamCacheStep(c, ops, n, sk);
    }
  }

  lemma {:induction false} ForwardedCounts(c: Config, ops: seq<Op>, sk: string, at: S.Times, buckets: S.Buckets,
                                           i: nat, n: nat)
    requires i <= n <= |ops| == |at| < |buckets|
    requires forall m :: i <= m < n ==> (ForwardsFor(c, ops, sk, m) <==> S.Passes(c.spam, at[m], buckets[m]))
    ensures ForwardedCached(c, ops, sk, i, n) == S.Passed(c.spam, at, buckets, i, n)
    decreases n
  {
    if n > i { ForwardedCounts(c, ops, sk, at, buckets, i, n - 1); }
  }

  lemma {:induction false} ForwardedPassed(c: Config, ops: seq<Op>, sk: string, i: nat, n: nat)
    requires i <= n <= |ops|
    ensures ForwardedCached(c, ops, sk, i, n) ==
      S.Passed(c.spam, TimesCached(c, ops, sk), BucketsCached(c, ops, sk), i, n)
  {
    var at, buckets := TimesCached(c, ops, sk), BucketsCached(c, ops, sk);
    forall m | i <= m < n ensures ForwardsFor(c, ops, sk, m) <==> S.Passes(c.spam, at[m], buckets[m]) {
      ForwardsForPasses(c, ops, sk, m);
    }
    ForwardedCounts(c, ops, sk, at, buckets, i, n);
  }

  lemma ForwardsForPasses(c: Config, ops: seq<Op>, sk: string, n: nat)
    requires n < |ops|
    ensures ForwardsFor(c, ops, sk, n) <==> S.Passes(c.spam, TimesCached(c, ops, sk)[n], BucketsCached(c, ops, sk)[n])
  {
  }

  lemma CachedView(c: Config, ops: seq<Op>, sk: string, i: nat, n: nat) returns (at: S.Times, buckets: S.Buckets)
    requires i <= n <= |ops| && SpamFits(c, ops)
    ensures TimesOf(ops, at) && S.Evolves(c.spam, at, buckets)
    ensures ForwardedCached(c, ops, sk, i, n) == S.Passed(c.spam, at, buckets, i, n)
  {
    at, buckets := TimesCached(c, ops, sk), BucketsCached(c, ops, sk);
    BucketsCachedEvolve(c, ops, sk);
    ForwardedPassed(c, ops, sk, i, n);
  }

  // In any window of a run that evicts nothing from the spam cache, the events that EventCorrelate
  // forwards for one object number at most the burst plus what the rate earns over the window,
  // whatever the other two caches evict.
  lemma {:induction false} CachedSpamBound(c: Config, ops: seq<Op>, sk: string, i: nat, n: nat)
    requires i < n <= |ops| && ClockMonotone(ops) && ops[i].Correlate? && ops[n - 1].Correlate? && SpamFits(c, ops)
    ensures S.WithinBudget(c.spam, ForwardedCached(c, ops, sk, i, n), ops[n - 1].x.acceptAt - ops[i].x.acceptAt)
  {
    var at, buckets := CachedView(c, ops, sk, i, n);
    BoundForView(c, ops, at, buckets, i, n, ForwardedCached(c, ops, sk, i, n));
  }

  lemma {:induction false} CachedDefaultSpamBound(o: Options, ops: seq<Op>, sk: string, i: nat, n: nat, seconds: nat)
    requires o.burstSize == 0 && o.qps == 0.0 && SpamFits(Configured(o), ops)
    requires i < n <= |ops| && ClockMonotone(ops) && ops[i].Correlate? && ops[n - 1].Correlate?
    requires ops[n - 1].x.acceptAt - ops[i].x.acceptAt <= seconds * NANOS_PER_SECOND
    ensures ForwardedCached(Configured(o), ops, sk, i, n) <= 25 + seconds / 300
  {
    CachedSpamBound(Configured(o), ops, sk, i, n);
    DefaultRate(o, ops[n - 1].x.acceptAt - ops[i].x.acceptAt, seconds, ForwardedCached(Configured(o), ops, sk, i, n));
  }

  // ---- Nothing is skipped without need ----

  lemma TimesAreMonotone(ops: seq<Op>, at: S.Times)
    requires ClockMonotone(ops) && TimesOf(ops, at)
    ensures S.Monotone(at)
  {
  }

  lemma ForwardIsPass(c: Config, ops: seq<Op>, n: nat)
    requires n < |ops| && ops[n].Correlate?
    ensures var sk := SpamKeyAt(c, ops, n);
      ResultAt(c, ops, n).Forward? <==> S.Passes(c.spam, TimesCached(c, ops, sk)[n], BucketsCached(c, ops, sk)[n])
  {
    ForwardsForPasses(c, ops, SpamKeyAt(c, ops, n), n);
  }

  // The j-th call concerns the object of the n-th, and one more event forwarded for it by the n-th
  // would be more than the burst plus what the rate earned since the j-th.
  ghost predicate WouldExceed(c: Config, ops: seq<Op>, j: nat, n: nat)
    requires j <= n < |ops| && ops[n].Correlate?
  {
    ops[j].Correlate? && SpamKeyAt(c, ops, j) == SpamKeyAt(c, ops, n) &&
    S.Exceeds(c.spam, ForwardedCached(c, ops, SpamKeyAt(c, ops, n), j, n), ops[n].x.acceptAt - ops[j].x.acceptAt)
  }

  lemma TimeOfCall(c: Config, ops: seq<Op>, sk: string, j: nat)
    requires j < |ops|
    ensures var at := TimesCached(c, ops, sk);
      (at[j].Some? <==> ops[j].Correlate? && SpamKeyAt(c, ops, j) == sk) &&
      (at[j].Some? ==> at[j].value == ops[j].x.acceptAt)
  {
  }

  // These are the times and the limiters of the object of the n-th call.
  ghost predicate IsViewFor(c: Config, ops: seq<Op>, n: nat, at: S.Times, buckets: S.Buckets)
    requires n < |ops| && ops[n].Correlate?
  {
    |at| == |ops| && S.Evolves(c.spam, at, buckets) && S.Monotone(at) &&
    (ResultAt(c, ops, n).Forward? <==> S.Passes(c.spam, at[n], buckets[n])) &&
    forall j :: 0 <= j <= n ==> SeesCall(c, ops, n, at, buckets, j)
  }

  ghost predicate SeesCall(c: Config, ops: seq<Op>, n: nat, at: S.Times, buckets: S.Buckets, j: nat)
    requires j <= n < |ops| == |at| < |buckets| && ops[n].Correlate?
  {
    (at[j].Some? <==> ops[j].Correlate? && SpamKeyAt(c, ops, j) == SpamKeyAt(c, ops, n)) &&
    (at[j].Some? ==> at[j].value == ops[j].x.acceptAt) &&
    S.Passed(c.spam, at, buckets, j, n) == ForwardedCached(c, ops, SpamKeyAt(c, ops, n), j, n)
  }

  lemma ViewFor(c: Config, ops: seq<Op>, n: nat) returns (at: S.Times, buckets: S.Buckets)
    requires n < |ops| && ops[n].Correlate? && ClockMonotone(ops) && SpamFits(c, ops)
    ensures IsViewFor(c, ops, n, at, buckets)
  {
    var sk := SpamKeyAt(c, ops, n);
    at, buckets := TimesCached(c, ops, sk), BucketsCached(c, ops, sk);
    BucketsCachedEvolve(c, ops, sk);
    TimesAreMonotone(ops, at);
    ForwardIsPass(c, ops, n);
    forall j | 0 <= j <= n ensures SeesCall(c, ops, n, at, buckets, j) {
      TimeOfCall(c, ops, sk, j);
      ForwardedPassed(c, ops, sk, j, n);
    }
  }

  lemma WouldExceedIsOverBudget(c: Config, ops: seq<Op>, n: nat, at: S.Times, buckets: S.Buckets, j: nat)
    requires j <= n < |ops| == |at| < |buckets| && ops[n].Correlate?
    requires SeesCall(c, ops, n, at, buckets, j) && SeesCall(c, ops, n, at, buckets, n)
    ensures WouldExceed(c, ops, j, n) <==> at[j].Some? && S.OverBudget(c.spam, at, buckets, j, n)
  {
    if at[j].Some? {
      var f := ForwardedCached(c, ops, SpamKeyAt(c, ops, n), j, n);
      S.OverBudgetIs(c.spam, at, buckets, j, n, f, ops[n].x.acceptAt - ops[j].x.acceptAt);
    }
  }

  // EventCorrelate skips an event exactly when forwarding it would exceed the burst plus what the
  // rate earns over some window of calls for its object that ends with it.
  lemma SkippedIff(c: Config, ops: seq<Op>, n: nat)
    requires n < |ops| && ops[n].Correlate? && ClockMonotone(ops) && SpamFits(c, ops)
    ensures ResultAt(c, ops, n).Skip? <==> exists j :: 0 <= j <= n && WouldExceed(c, ops, j, n)
  {
    var at, buckets := ViewFor(c, ops, n);
    assert SeesCall(c, ops, n, at, buckets, n);
    S.RefusedIff(c.spam, at, buckets, n);
    forall j | 0 <= j <= n
      ensures WouldExceed(c, ops, j, n) <==> at[j].Some? && S.OverBudget(c.spam, at, buckets, j, n)
    {
      assert SeesCall(c, ops, n, at, buckets, j);
      WouldExceedIsOverBudget(c, ops, n, at, buckets, j);
    }
  }

  lemma DefaultExceeds(o: Options, f: nat, d: Duration)
    requires o.burstSize == 0 && o.qps == 0.0 && d >= 0
    ensures S.Exceeds(Configured(o).spam, f, d) <==> (f - 24) * 300_000_000_000 > d
  {
    var c, g: int := Configured(o).spam, f - 24;
    assert S.Earned(c, d) == (d as real) / 300_000_000_000.0;
    assert S.Exceeds(c, f, d) <==> g as real > (d as real) / 300_000_000_000.0;
    assert (g * 300_000_000_000) as real == (g as real) * 300_000_000_000.0;
  }

  // The same with the default burst and rate, in nanoseconds.
  ghost predicate DefaultWouldExceed(c: Config, ops: seq<Op>, j: nat, n: nat)
    requires j <= n < |ops| && ops[n].Correlate?
  {
    ops[j].Correlate? && SpamKeyAt(c, ops, j) == SpamKeyAt(c, ops, n) &&
    (ForwardedCached(c, ops, SpamKeyAt(c, ops, n), j, n) + 1 - 25) * 300_000_000_000 >
      ops[n].x.acceptAt - ops[j].x.acceptAt
  }

  // With default options: an event is skipped exactly when, over some window of calls for its object
  // that ends with it, it would be one more than 25 and one for every 300 seconds.
  lemma DefaultSkippedIff(o: Options, ops: seq<Op>, n: nat)
    requires o.burstSize == 0 && o.qps == 0.0 && SpamFits(Configured(o), ops)
    requires n < |ops| && ops[n].Correlate? && ClockMonotone(ops)
    ensures ResultAt(Configured(o), ops, n).Skip? <==>
      exists j :: 0 <= j <= n && DefaultWouldExceed(Configured(o), ops, j, n)
  {
    var c := Configured(o);
    SkippedIff(c, ops, n);
    forall j | 0 <= j <= n ensures WouldExceed(c, ops, j, n) <==> DefaultWouldExceed(c, ops, j, n) {
      if ops[j].Correlate? && SpamKeyAt(c, ops, j) == SpamKeyAt(c, ops, n) {
        DefaultExceeds(o, ForwardedCached(c, ops, SpamKeyAt(c, ops, n), j, n),
                       ops[n].x.acceptAt - ops[j].x.acceptAt);
      }
    }
  }

  // With default options: the first 25 events of an object are forwarded, at whatever pace they come.
  lemma {:induction false} FirstDefaultBurst(o: Options, ops: seq<Op>, n: nat)
    requires o.burstSize == 0 && o.qps == 0.0 && SpamFits(Configured(o), ops)
    requires n < |ops| && ops[n].Correlate? && ClockMonotone(ops)
    requires ForwardedCached(Configured(o), ops, SpamKeyAt(Configured(o), ops, n), 0, n) < 25
    ensures ResultAt(Configured(o), ops, n).Forward?
  {
    var at, buckets := ViewFor(Configured(o), ops, n);
    assert SeesCall(Configured(o), ops, n, at, buckets, 0) && SeesCall(Configured(o), ops, n, at, buckets, n);
    S.FirstBurstPasses(Configured(o).spam, at, buckets, n);
  }

  // ---- Aggregation ----

  // The calls of one aggregate key among the first n.
  ghost function Similar(c: Config, ops: seq<Op>, n: nat, key: string): seq<R.Input>
    requires n <= |ops|
  {
    R.Project(c.agg, AggInputs(ops[..n]), key)
  }

  ghost function OutcomeCached(c: Config, ops: seq<Op>, n: nat): A.Outcome
    requires n < |ops| && ops[n].Correlate?
  {
    Aggregated(c, Lookup(RunCached(c, ops[..n]).agg, AggKey(c, ops[n].x)), ops[n].x)
  }

  // The first event counted: all but what the counting stage replaces is that of the second.
  ghost predicate CountedForm(e: Event, of: Event) {
    e == of.(name := e.name, resourceVersion := e.resourceVersion, firstTimestamp := e.firstTimestamp, count := e.count)
  }

  // A forwarded event is the counted form of what the aggregator passed on.
  lemma ForwardedForm(c: Config, ops: seq<Op>, n: nat)
    requires n < |ops| && ops[n].Correlate? && ResultAt(c, ops, n).Forward?
    ensures CountedForm(ResultAt(c, ops, n).event, OutcomeCached(c, ops, n).event)
  {
  }

  // The aggregator at the n-th call, as a run of the aggregator alone.
  lemma AggregatorCall(c: Config, ops: seq<Op>, n: nat) returns (xs: seq<R.Input>, m: nat)
    requires n < |ops| && ops[n].Correlate?
    ensures xs == AggInputs(ops[..n + 1]) && m + 1 == |xs| && xs[..m] == AggInputs(ops[..n]) && xs[..m + 1] == xs
    ensures xs[m] == R.Input(ops[n].x.event, ops[n].x.now, ops[n].x.hint)
    ensures R.OutcomeAt(c.agg, [], c.lruCacheSize, xs, m) == OutcomeCached(c, ops, n)
  {
    assert ops[..n + 1][..n] == ops[..n];
    AggregationStage(c, ops[..n]);
    xs, m := AggInputs(ops[..n + 1]), |AggInputs(ops[..n])|;
    assert xs[..m] == AggInputs(ops[..n]);
  }

  // Onset: calls of one aggregate key with pairwise distinct messages and small gaps, whatever is
  // called for other keys in between, forward the first maxEvents - 1 events in their own form and
  // every later one as a combined event.
  lemma CachedOnset(c: Config, ops: seq<Op>, n: nat)
    requires n < |ops| && ops[n].Correlate? && c.agg.maxEvents >= 1
    requires R.NoEviction(c.agg, [], c.lruCacheSize, AggInputs(ops[..n + 1]))
    requires var ys := Similar(c, ops, n + 1, AggKey(c, ops[n].x));
      R.DistinctLocals(c.agg, ys) && R.SmallGaps(c.agg, ys)
    ensures var x, r := ops[n].x, ResultAt(c, ops, n);
      r.Forward? ==>
        CountedForm(r.event, if |Similar(c, ops, n, AggKey(c, x))| < c.agg.maxEvents - 1 then x.event
                             else A.Combined(c.agg, x.event, x.now))
  {
    var xs, m := AggregatorCall(c, ops, n);
    var a := R.Key(c.agg, xs[m]);
    assert R.Project(c.agg, xs[..m + 1], a) == R.Project(c.agg, xs[..m], a) + [xs[m]];
    R.AggregationOnset(c.agg, [], c.lruCacheSize, xs, m);
    if ResultAt(c, ops, n).Forward? { ForwardedForm(c, ops, n); }
  }

  // With default options: gaps of at most 600 seconds, nine events in their own form, and then
  // combined ones.
  lemma DefaultOnset(o: Options, ops: seq<Op>, n: nat)
    requires o.maxEvents == 0 && o.maxIntervalInSeconds == 0 && n < |ops| && ops[n].Correlate?
    requires var c := Configured(o); R.NoEviction(c.agg, [], c.lruCacheSize, AggInputs(ops[..n + 1]))
    requires var ys := Similar(Configured(o), ops, n + 1, AggKey(Configured(o), ops[n].x));
      R.DistinctLocals(Configured(o).agg, ys) &&
      forall i :: 0 < i < |ys| ==> ys[i].now - ys[i - 1].now <= 600_000_000_000
    ensures var c, x, r := Configured(o), ops[n].x, ResultAt(Configured(o), ops, n);
      r.Forward? ==>
        var few := |Similar(c, ops, n, AggKey(c, x))| < 9;
        CountedForm(r.event, if few then x.event else A.Combined(c.agg, x.event, x.now))
  {
    CachedOnset(Configured(o), ops, n);
  }

  // Soundness: whatever the caches evict, an event is forwarded in another than its own form only if
  // an unbroken chain of calls of its aggregate key, ending with this one, carried maxEvents distinct
  // messages.
  lemma CachedSoundness(c: Config, ops: seq<Op>, n: nat) returns (m: nat)
    requires n < |ops| && ops[n].Correlate?
    requires ResultAt(c, ops, n).Forward? && !CountedForm(ResultAt(c, ops, n).event, ops[n].x.event)
    ensures var ys := Similar(c, ops, n + 1, AggKey(c, ops[n].x));
      m < |ys| && R.SmallGaps(c.agg, ys[m..]) && |R.Locals(c.agg, ys[m..])| >= c.agg.maxEvents
    ensures CountedForm(ResultAt(c, ops, n).event, A.Combined(c.agg, ops[n].x.event, ops[n].x.now))
  {
    var xs, k := AggregatorCall(c, ops, n);
    ForwardedForm(c, ops, n);
    m := R.AggregationSoundness(c.agg, c.lruCacheSize, xs, k);
  }
}
