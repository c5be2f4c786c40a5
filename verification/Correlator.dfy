// The three stages together: EventCorrelator.EventCorrelate and UpdateState, on bounded caches
// and on plain maps.
module Correlator {
  import opened Wrappers
  import opened Lru
  import opened Events
  import A = Aggregator
  import L = EventLogger
  import S = SpamFilter
  import R = AggregatorRuns

  datatype Config = Config(agg: A.Config, spam: S.Config, lruCacheSize: nat)

  // One call: the event, the two readings of the clock (by the aggregator and by the limiter) and
  // the element PopAny removes if it runs.
  datatype Input = Input(event: Event, now: Time, acceptAt: Time, hint: string)

  datatype Result = Skip | Forward(event: Event, patch: L.Patch)

  datatype Op = Correlate(x: Input) | Update(reply: Event)

  // ---- One call, as a function of the three cached values it finds ----

  ghost function AggKey(c: Config, x: Input): string {
    c.agg.keyFunc(x.event).0
  }

  ghost function Aggregated(c: Config, r: Option<A.Rec>, x: Input): A.Outcome {
    A.Aggregate(c.agg, r, x.event, x.now)
  }

  ghost function Decide(c: Config, o: A.Outcome, l: Option<L.EventLog>, b: Option<S.Bucket>, at: Time): Result {
    if S.Accepts(c.spam, b, at) then Forward(L.Observed(l, o.event), L.PatchFor(l, o.event)) else Skip
  }

  // ---- On bounded caches ----

  datatype Caches = Caches(
    agg: seq<Entry<string, A.Rec>>, log: seq<Entry<string, L.EventLog>>, spam: seq<Entry<string, S.Bucket>>)

  // The aggregator has a set for this event: see there.
  ghost predicate Admits(c: Config, s: Caches, e: Event, now: Time) {
    A.Admits(c.agg, Lookup(s.agg, c.agg.keyFunc(e).0), now)
  }

  ghost function StepCached(c: Config, s: Caches, op: Op): Caches {
    match op
    case Update(reply) => s.(log := Added(s.log, EventKey(reply), L.LogOf(reply), c.lruCacheSize))
    case Correlate(x) =>
      var r := Lookup(s.agg, AggKey(c, x));
      var o := Aggregated(c, r, x);
      var l := Lookup(s.log, o.key);
      var sk := c.spam.spamKeyFunc(L.Observed(l, o.event));
      Caches(Added(s.agg, AggKey(c, x), A.NextRec(c.agg, r, x.event, x.now, x.hint), c.lruCacheSize),
             Added(s.log, o.key, L.LogOf(L.Observed(l, o.event)), c.lruCacheSize),
             Added(s.spam, sk, S.NextBucket(c.spam, Lookup(s.spam, sk), x.acceptAt), c.lruCacheSize))
  }

  ghost function ResultCached(c: Config, s: Caches, x: Input): Result {
    var o := Aggregated(c, Lookup(s.agg, AggKey(c, x)), x);
    var l := Lookup(s.log, o.key);
    Decide(c, o, l, Lookup(s.spam, c.spam.spamKeyFunc(L.Observed(l, o.event))), x.acceptAt)
  }

  ghost function RunCached(c: Config, ops: seq<Op>): Caches {
    if ops == [] then Caches([], [], [])
    else StepCached(c, RunCached(c, ops[..|ops| - 1]), ops[|ops| - 1])
  }

  // ---- On maps that never forget ----

  datatype Maps = Maps(agg: map<string, A.Rec>, log: map<string, L.EventLog>, spam: map<string, S.Bucket>)

  ghost function OutcomeIn(c: Config, m: Maps, x: Input): A.Outcome {
    Aggregated(c, MapLookup(m.agg, AggKey(c, x)), x)
  }

  ghost function ObservedIn(c: Config, m: Maps, x: Input): Event {
    var o := OutcomeIn(c, m, x);
    L.Observed(MapLookup(m.log, o.key), o.event)
  }

  ghost function SpamKeyIn(c: Config, m: Maps, x: Input): string {
    c.spam.spamKeyFunc(ObservedIn(c, m, x))
  }

  ghost function ResultIn(c: Config, m: Maps, x: Input): Result {
    var o := OutcomeIn(c, m, x);
    Decide(c, o, MapLookup(m.log, o.key), MapLookup(m.spam, SpamKeyIn(c, m, x)), x.acceptAt)
  }

  ghost function Step(c: Config, m: Maps, op: Op): Maps {
    match op
    case Update(reply) => m.(log := m.log[EventKey(reply) := L.LogOf(reply)])
    case Correlate(x) =>
      var sk := SpamKeyIn(c, m, x);
      Maps(m.agg[AggKey(c, x) := A.NextRec(c.agg, MapLookup(m.agg, AggKey(c, x)), x.event, x.now, x.hint)],
           m.log[OutcomeIn(c, m, x).key := L.LogOf(ObservedIn(c, m, x))],
           m.spam[sk := S.NextBucket(c.spam, MapLookup(m.spam, sk), x.acceptAt)])
  }

  ghost function Run(c: Config, ops: seq<Op>): Maps {
    if ops == [] then Maps(map[], map[], map[])
    else Step(c, Run(c, ops[..|ops| - 1]), ops[|ops| - 1])
  }

  // ---- The stages seen on their own ----

  // The calls the counting stage sees: what the aggregator passed on, and the feedback.
  ghost function LogOps(c: Config, ops: seq<Op>): (r: seq<L.Op>)
    ensures |r| == |ops|
  {
    if ops == [] then []
    else
      var before, op := ops[..|ops| - 1], ops[|ops| - 1];
      var o := if op.Correlate? then OutcomeIn(c, Run(c, before), op.x) else A.Outcome(op.reply, "");
      LogOps(c, before) + [if op.Correlate? then L.Observe(o.event, o.key) else L.Feedback(op.reply)]
  }

  // The counting stage of a run is a run of the counting stage.
  lemma {:induction false} LogStage(c: Config, ops: seq<Op>)
    ensures L.Run(LogOps(c, ops)) == Run(c, ops).log
  {
    if ops != [] {
      var before := ops[..|ops| - 1];
      LogStage(c, before);
      assert LogOps(c, ops)[..|before|] == LogOps(c, before);
    }
  }

  lemma {:induction false} LogOpsPrefix(c: Config, ops: seq<Op>, n: nat)
    requires n <= |ops|
    ensures LogOps(c, ops)[..n] == LogOps(c, ops[..n])
    decreases |ops| - n
  {
    if n == |ops| {
      assert ops[..n] == ops;
    } else {
      LogOpsPrefix(c, ops, n + 1);
      assert ops[..n + 1][..n] == ops[..n];
      assert LogOps(c, ops)[..n + 1][..n] == LogOps(c, ops)[..n];
    }
  }

  ghost function AggInputs(ops: seq<Op>): seq<R.Input> {
    if ops == [] then []
    else
      var rest, op := AggInputs(ops[..|ops| - 1]), ops[|ops| - 1];
      if op.Correlate? then rest + [R.Input(op.x.event, op.x.now, op.x.hint)] else rest
  }

  // The aggregation stage of a run is a run of the aggregator.
  lemma {:induction false} AggregationStage(c: Config, ops: seq<Op>)
    ensures R.Run(c.agg, [], c.lruCacheSize, AggInputs(ops)) == RunCached(c, ops).agg
  {
    if ops != [] {
      var before, op := ops[..|ops| - 1], ops[|ops| - 1];
      AggregationStage(c, before);
      if op.Correlate? {
        assert AggInputs(ops)[..|AggInputs(before)|] == AggInputs(before);
      }
    }
  }

  // ---- Refinement: caches that never overflow are maps ----

  ghost predicate Represents(s: Caches, m: Maps) {
    DistinctKeys(s.agg) && DistinctKeys(s.log) && DistinctKeys(s.spam) &&
    Contents(s.agg) == m.agg && Contents(s.log) == m.log && Contents(s.spam) == m.spam
  }

  ghost predicate Fits(c: Config, m: Maps) {
    c.lruCacheSize == 0 ||
    (|m.agg| <= c.lruCacheSize && |m.log| <= c.lruCacheSize && |m.spam| <= c.lruCacheSize)
  }

  lemma SameResult(c: Config, s: Caches, m: Maps, x: Input)
    requires Represents(s, m)
    ensures ResultCached(c, s, x) == ResultIn(c, m, x)
  {
    LookupIsContents(s.agg, AggKey(c, x));
    LookupIsContents(s.log, OutcomeIn(c, m, x).key);
    LookupIsContents(s.spam, SpamKeyIn(c, m, x));
  }

  lemma SameStep(c: Config, s: Caches, m: Maps, op: Op)
    requires Represents(s, m) && Fits(c, Step(c, m, op))
    ensures Represents(StepCached(c, s, op), Step(c, m, op))
  {
    match op
    case Update(reply) =>
      AddedContents(s.log, EventKey(reply), L.LogOf(reply), c.lruCacheSize);
    case Correlate(x) =>
      var k, o, sk := AggKey(c, x), OutcomeIn(c, m, x), SpamKeyIn(c, m, x);
      LookupIsContents(s.agg, k);
      LookupIsContents(s.log, o.key);
      LookupIsContents(s.spam, sk);
      AddedContents(s.agg, k, A.NextRec(c.agg, MapLookup(m.agg, k), x.event, x.now, x.hint), c.lruCacheSize);
      AddedContents(s.log, o.key, L.LogOf(ObservedIn(c, m, x)), c.lruCacheSize);
      AddedContents(s.spam, sk, S.NextBucket(c.spam, MapLookup(m.spam, sk), x.acceptAt), c.lruCacheSize);
  }

  // A map only ever gains keys.
  lemma KeysGrow(c: Config, m: Maps, op: Op)
    ensures var n := Step(c, m, op);
      |m.agg| <= |n.agg| && |m.log| <= |n.log| && |m.spam| <= |n.spam|
  {
    var n := Step(c, m, op);
    assert m.agg.Keys <= n.agg.Keys && m.log.Keys <= n.log.Keys && m.spam.Keys <= n.spam.Keys;
    SubsetSize(m.agg.Keys, n.agg.Keys);
    SubsetSize(m.log.Keys, n.log.Keys);
    SubsetSize(m.spam.Keys, n.spam.Keys);
    assert |m.agg| == |m.agg.Keys| && |m.log| == |m.log.Keys| && |m.spam| == |m.spam.Keys|;
    assert |n.agg| == |n.agg.Keys| && |n.log| == |n.log.Keys| && |n.spam| == |n.spam.Keys|;
  }

  lemma {:induction false} CachesAreMaps(c: Config, ops: seq<Op>)
    requires Fits(c, Run(c, ops))
    ensures Represents(RunCached(c, ops), Run(c, ops))
  {
    if ops != [] {
      var before, op := ops[..|ops| - 1], ops[|ops| - 1];
      KeysGrow(c, Run(c, before), op);
      CachesAreMaps(c, before);
      SameStep(c, RunCached(c, before), Run(c, before), op);
    }
  }

  lemma {:induction false} RunSnoc(c: Config, ops: seq<Op>, n: nat)
    requires n < |ops|
    ensures Run(c, ops[..n + 1]) == Step(c, Run(c, ops[..n]), ops[n])
  {
    assert ops[..n + 1][..n] == ops[..n];
  }

  lemma {:induction false} PrefixFits(c: Config, ops: seq<Op>, n: nat)
    requires n <= |ops| && Fits(c, Run(c, ops))
    ensures Fits(c, Run(c, ops[..n]))
    decreases |ops| - n
  {
    if n == |ops| {
      assert ops[..n] == ops;
    } else {
      PrefixFits(c, ops, n + 1);
      RunSnoc(c, ops, n);
      KeysGrow(c, Run(c, ops[..n]), ops[n]);
    }
  }

  // In a run whose distinct keys fit each cache, every call on the caches returns exactly what it
  // returns on unbounded maps, for the same choices of PopAny.
  lemma {:induction false} LruRefinement(c: Config, ops: seq<Op>, n: nat)
    requires n < |ops| && ops[n].Correlate? && Fits(c, Run(c, ops))
    ensures ResultCached(c, RunCached(c, ops[..n]), ops[n].x) == ResultIn(c, Run(c, ops[..n]), ops[n].x)
  {
    PrefixFits(c, ops, n);
    CachesAreMaps(c, ops[..n]);
    SameResult(c, RunCached(c, ops[..n]), Run(c, ops[..n]), ops[n].x);
  }

  // ---- The spam bound ----

  // The n-th call forwards an event for this spam key.
  ghost predicate ForwardsIn(c: Config, ops: seq<Op>, sk: string, n: nat)
    requires n < |ops|
  {
    var m := Run(c, ops[..n]);
    ops[n].Correlate? && SpamKeyIn(c, m, ops[n].x) == sk && ResultIn(c, m, ops[n].x).Forward?
  }

  // The number of events forwarded for one spam key by the calls from i up to n.
  ghost function Forwarded(c: Config, ops: seq<Op>, sk: string, i: nat, n: nat): nat
    requires i <= n <= |ops|
    decreases n
  {
    if n == i then 0
    else Forwarded(c, ops, sk, i, n - 1) + if ForwardsIn(c, ops, sk, n - 1) then 1 else 0
  }

  ghost predicate ClockMonotone(ops: seq<Op>) {
    forall i, j :: 0 <= i < j < |ops| && ops[i].Correlate? && ops[j].Correlate? ==>
      ops[i].x.acceptAt <= ops[j].x.acceptAt
  }

  ghost function BucketAt(c: Config, ops: seq<Op>, n: nat, sk: string): Option<S.Bucket>
    requires n <= |ops|
  {
    MapLookup(Run(c, ops[..n]).spam, sk)
  }

  // The time of the n-th call if it concerns the key.
  ghost function TimeAt(c: Config, ops: seq<Op>, n: nat, sk: string): Option<Time>
    requires n < |ops|
  {
    if ops[n].Correlate? && SpamKeyIn(c, Run(c, ops[..n]), ops[n].x) == sk then Some(ops[n].x.acceptAt) else None
  }

  ghost function Times(c: Config, ops: seq<Op>, sk: string): S.Times {
    seq(|ops|, n requires 0 <= n < |ops| => TimeAt(c, ops, n, sk))
  }

  ghost function Buckets(c: Config, ops: seq<Op>, sk: string): S.Buckets {
    seq(|ops| + 1, n requires 0 <= n <= |ops| => BucketAt(c, ops, n, sk))
  }

  // The bucket of a key moves only with the calls that concern the key.
  lemma BucketsEvolve(c: Config, ops: seq<Op>, sk: string)
    ensures S.Evolves(c.spam, Times(c, ops, sk), Buckets(c, ops, sk))
  {
    forall n | 0 <= n < |ops|
      ensures S.EvolvedAt(c.spam, Times(c, ops, sk), Buckets(c, ops, sk), n)
    {
      RunSnoc(c, ops, n);
    }
  }

  lemma ForwardPasses(c: Config, ops: seq<Op>, sk: string, n: nat)
    requires n < |ops|
    ensures ForwardsIn(c, ops, sk, n) <==> S.Passes(c.spam, Times(c, ops, sk)[n], Buckets(c, ops, sk)[n])
  {
  }

  lemma {:induction false} ForwardedCounts(c: Config, ops: seq<Op>, sk: string, at: S.Times, buckets: S.Buckets,
                                           i: nat, n: nat)
    requires i <= n <= |ops| == |at| < |buckets|
    requires forall m :: i <= m < n ==> (ForwardsIn(c, ops, sk, m) <==> S.Passes(c.spam, at[m], buckets[m]))
    ensures Forwarded(c, ops, sk, i, n) == S.Passed(c.spam, at, buckets, i, n)
    decreases n
  {
    if n > i { ForwardedCounts(c, ops, sk, at, buckets, i, n - 1); }
  }

  lemma {:induction false} ForwardedPasses(c: Config, ops: seq<Op>, sk: string, i: nat, n: nat)
    requires i <= n <= |ops|
    ensures Forwarded(c, ops, sk, i, n) == S.Passed(c.spam, Times(c, ops, sk), Buckets(c, ops, sk), i, n)
  {
    var at, buckets := Times(c, ops, sk), Buckets(c, ops, sk);
    forall m | i <= m < n ensures ForwardsIn(c, ops, sk, m) <==> S.Passes(c.spam, at[m], buckets[m]) {
      ForwardPasses(c, ops, sk, m);
    }
    ForwardedCounts(c, ops, sk, at, buckets, i, n);
  }

  // Times read off the calls of a run, each of them or none.
  ghost predicate TimesOf(ops: seq<Op>, at: S.Times) {
    |at| == |ops| && forall n :: 0 <= n < |at| && at[n].Some? ==> ops[n].Correlate? && at[n].value == ops[n].x.acceptAt
  }

  // A run as the limiter of one object sees it.
  lemma ViewOf(c: Config, ops: seq<Op>, sk: string, i: nat, n: nat) returns (at: S.Times, buckets: S.Buckets)
    requires i <= n <= |ops|
    ensures TimesOf(ops, at) && S.Evolves(c.spam, at, buckets)
    ensures Forwarded(c, ops, sk, i, n) == S.Passed(c.spam, at, buckets, i, n)
  {
    at, buckets := Times(c, ops, sk), Buckets(c, ops, sk);
    BucketsEvolve(c, ops, sk);
    ForwardedPasses(c, ops, sk, i, n);
  }

  lemma CallsAreAWindow(ops: seq<Op>, at: S.Times, i: nat, n: nat)
    requires i < n <= |ops| && ClockMonotone(ops) && ops[i].Correlate? && ops[n - 1].Correlate? && TimesOf(ops, at)
    ensures S.IsWindow(at, i, n, ops[i].x.acceptAt, ops[n - 1].x.acceptAt)
  {
  }

  // The bound for a run as the limiter of one object sees it.
  lemma {:induction false} BoundForView(c: Config, ops: seq<Op>, at: S.Times, buckets: S.Buckets,
                                        i: nat, n: nat, f: nat)
    requires i < n <= |ops| && ClockMonotone(ops) && ops[i].Correlate? && ops[n - 1].Correlate?
    requires TimesOf(ops, at) && S.Evolves(c.spam, at, buckets) && f == S.Passed(c.spam, at, buckets, i, n)
    ensures S.WithinBudget(c.spam, f, ops[n - 1].x.acceptAt - ops[i].x.acceptAt)
  {
    CallsAreAWindow(ops, at, i, n);
    S.WindowBound(c.spam, at, buckets, i, n, ops[i].x.acceptAt, ops[n - 1].x.acceptAt, f);
  }

  // In any window of a run, the events forwarded for one object number at most the burst plus what
  // the rate earns over the window.
  lemma {:induction false} SpamBound(c: Config, ops: seq<Op>, sk: string, i: nat, n: nat)
    requires i < n <= |ops| && ClockMonotone(ops) && ops[i].Correlate? && ops[n - 1].Correlate?
    ensures S.WithinBudget(c.spam, Forwarded(c, ops, sk, i, n), ops[n - 1].x.acceptAt - ops[i].x.acceptAt)
  {
    var at, buckets := ViewOf(c, ops, sk, i, n);
    BoundForView(c, ops, at, buckets, i, n, Forwarded(c, ops, sk, i, n));
  }

  // ---- The object ----

  datatype Options = Options(
    lruCacheSize: nat, burstSize: nat, qps: real,
    keyFunc: Option<Event -> (string, string)>, messageFunc: Option<Event -> string>,
    maxEvents: int, maxIntervalInSeconds: int, spamKeyFunc: Option<Event -> string>)

  const MAX_LRU_CACHE_ENTRIES := 4096
  const DEFAULT_AGGREGATE_MAX_EVENTS := 10
  const DEFAULT_AGGREGATE_INTERVAL_IN_SECONDS := 600
  const DEFAULT_SPAM_BURST := 25
  const DEFAULT_SPAM_QPS := 1.0 / 300.0

  function PopulateDefaults(o: Options): Options {
    Options(
      if o.lruCacheSize == 0 then MAX_LRU_CACHE_ENTRIES else o.lruCacheSize,
      if o.burstSize == 0 then DEFAULT_SPAM_BURST else o.burstSize,
      if o.qps == 0.0 then DEFAULT_SPAM_QPS else o.qps,
      if o.keyFunc.None? then Some(AggregateKeyByReason) else o.keyFunc,
      if o.messageFunc.None? then Some(CombinedMessage) else o.messageFunc,
      if o.maxEvents == 0 then DEFAULT_AGGREGATE_MAX_EVENTS else o.maxEvents,
      if o.maxIntervalInSeconds == 0 then DEFAULT_AGGREGATE_INTERVAL_IN_SECONDS else o.maxIntervalInSeconds,
      if o.spamKeyFunc.None? then Some(SpamKey) else o.spamKeyFunc)
  }

  // What a correlator built from these options runs with.
  function Configured(o: Options): Config {
    var d := PopulateDefaults(o);
    Config(A.Config(d.keyFunc.value, d.messageFunc.value, ToUint(d.maxEvents), d.maxIntervalInSeconds),
           S.Config(d.burstSize, d.qps, d.spamKeyFunc.value), d.lruCacheSize)
  }

  // What is not given gets its default, and what is given is kept.
  lemma DefaultsFilledIn(o: Options, e: Event)
    ensures var c := Configured(o);
      c.lruCacheSize == (if o.lruCacheSize == 0 then 4096 else o.lruCacheSize) &&
      c.spam.burst == (if o.burstSize == 0 then 25 else o.burstSize) &&
      c.spam.qps == (if o.qps == 0.0 then 1.0 / 300.0 else o.qps) &&
      (o.maxEvents >= 0 && o.maxEvents <= MAX_DURATION ==>
        c.agg.maxEvents == if o.maxEvents == 0 then 10 else o.maxEvents) &&
      c.agg.maxIntervalInSeconds == (if o.maxIntervalInSeconds == 0 then 600 else o.maxIntervalInSeconds)
    ensures var c := Configured(o);
      (match o.messageFunc
       case None => c.agg.messageFunc(e) == "(combined from similar events): " + e.message
       case Some(f) => c.agg.messageFunc == f) &&
      (match o.keyFunc
       case None => c.agg.keyFunc(e) == AggregateKeyByReason(e)
       case Some(f) => c.agg.keyFunc == f) &&
      (match o.spamKeyFunc
       case None => c.spam.spamKeyFunc(e) == SpamKey(e)
       case Some(f) => c.spam.spamKeyFunc == f)
  {
  }

  lemma DefaultRate(o: Options, d: Duration, seconds: nat, f: nat)
    requires o.burstSize == 0 && o.qps == 0.0 && d <= seconds * NANOS_PER_SECOND
    requires S.WithinBudget(Configured(o).spam, f, d)
    ensures f <= 25 + seconds / 300
  {
    assert S.Earned(Configured(o).spam, d) <= (seconds as real) / 300.0;
    var g: int := f;
    assert ((g - 25) * 300) as real <= seconds as real;
  }

  // With default options: at most 25 events of one object plus one every 300 seconds.
  lemma {:induction false} DefaultSpamBound(o: Options, ops: seq<Op>, sk: string, i: nat, n: nat, seconds: nat)
    requires o.burstSize == 0 && o.qps == 0.0
    requires i < n <= |ops| && ClockMonotone(ops) && ops[i].Correlate? && ops[n - 1].Correlate?
    requires ops[n - 1].x.acceptAt - ops[i].x.acceptAt <= seconds * NANOS_PER_SECOND
    ensures Forwarded(Configured(o), ops, sk, i, n) <= 25 + seconds / 300
  {
    SpamBound(Configured(o), ops, sk, i, n);
    DefaultRate(o, ops[n - 1].x.acceptAt - ops[i].x.acceptAt, seconds, Forwarded(Configured(o), ops, sk, i, n));
  }

  class EventCorrelator {
    const config: Config
    const aggregator: A.EventAggregator
    const logger: L.Logger
    const filter: S.Filter

    ghost predicate Valid()
      reads aggregator, aggregator.sets, logger, filter
    {
      aggregator.Valid() && logger.Valid() && filter.Valid() &&
      aggregator.config == config.agg && filter.config == config.spam &&
      aggregator.capacity == logger.capacity == filter.capacity == config.lruCacheSize
    }

    ghost function State(): Caches
      requires Valid()
      reads aggregator, aggregator.sets, logger, filter
    {
      Caches(aggregator.State(), logger.cache, filter.cache)
    }

    constructor (options: Options)
      ensures Valid() && State() == Caches([], [], [])
      ensures config == Configured(options) && config.lruCacheSize > 0
      ensures fresh(aggregator) && aggregator.sets == {} && fresh(logger) && fresh(filter)
    {
      var d := PopulateDefaults(options);
      config := Configured(options);
      aggregator := new A.EventAggregator(d.lruCacheSize, d.keyFunc.value, d.messageFunc.value,
                                          d.maxEvents, d.maxIntervalInSeconds);
      logger := new L.Logger(d.lruCacheSize);
      filter := new S.Filter(d.lruCacheSize, S.Config(d.burstSize, d.qps, d.spamKeyFunc.value));
    }

    method EventCorrelate(newEvent: Event, now: Time, acceptAt: Time) returns (result: Result, ghost hint: string)
      requires Valid() && Admits(config, State(), newEvent, now)
      modifies aggregator, aggregator.sets, logger, filter
      ensures Valid() && fresh(aggregator.sets - old(aggregator.sets))
      ensures
        var x := Input(newEvent, now, acceptAt, hint);
        State() == StepCached(config, old(State()), Correlate(x)) && result == ResultCached(config, old(State()), x)
    {
      var aggregateEvent, ckey, h := aggregator.EventAggregate(newEvent, now);
      hint := h;
      var observedEvent, patch := logger.EventObserve(aggregateEvent, ckey);
      var filtered := filter.Filter(observedEvent, acceptAt);
      result := if filtered then Skip else Forward(observedEvent, patch);
    }

    method UpdateState(event: Event)
      requires Valid()
      modifies logger
      ensures Valid() && State() == StepCached(config, old(State()), Update(event))
    {
      logger.UpdateState(event);
    }
  }
}
