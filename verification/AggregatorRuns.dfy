// Whole runs of the aggregator: when similar events start being combined, and why.
module AggregatorRuns {
  import opened Wrappers
  import opened Lru
  import opened Events
  import opened Aggregator

  // One call: the event, the reading of the clock and the element PopAny removes if it runs.
  datatype Input = Input(event: Event, now: Time, hint: string)

  type Cache = seq<Entry<string, Rec>>

  function Key(c: Config, x: Input): string {
    c.keyFunc(x.event).0
  }

  function Local(c: Config, x: Input): string {
    c.keyFunc(x.event).1
  }

  ghost function Run(c: Config, s: Cache, capacity: nat, xs: seq<Input>): Cache {
    if xs == [] then s
    else
      var q, x := Run(c, s, capacity, xs[..|xs| - 1]), xs[|xs| - 1];
      Added(q, Key(c, x), NextRec(c, Lookup(q, Key(c, x)), x.event, x.now, x.hint), capacity)
  }

  ghost function OutcomeAt(c: Config, s: Cache, capacity: nat, xs: seq<Input>, n: nat): Outcome
    requires n < |xs|
  {
    Aggregate(c, Lookup(Run(c, s, capacity, xs[..n]), Key(c, xs[n])), xs[n].event, xs[n].now)
  }

  // The calls of one aggregate key, in order.
  ghost function Project(c: Config, xs: seq<Input>, a: string): seq<Input> {
    if xs == [] then []
    else
      var rest, x := Project(c, xs[..|xs| - 1], a), xs[|xs| - 1];
      if Key(c, x) == a then rest + [x] else rest
  }

  ghost function Locals(c: Config, ys: seq<Input>): set<string> {
    set i | 0 <= i < |ys| :: Local(c, ys[i])
  }

  // An unbroken chain: no gap exceeds the interval.
  ghost predicate SmallGaps(c: Config, ys: seq<Input>) {
    forall i :: 0 < i < |ys| ==> ys[i].now - ys[i - 1].now <= SecondsDuration(c.maxIntervalInSeconds)
  }

  ghost predicate DistinctLocals(c: Config, ys: seq<Input>) {
    forall i, j :: 0 <= i < j < |ys| ==> Local(c, ys[i]) != Local(c, ys[j])
  }

  lemma LocalsSnoc(c: Config, ys: seq<Input>, x: Input)
    ensures Locals(c, ys + [x]) == Locals(c, ys) + {Local(c, x)}
  {
    var zs := ys + [x];
    assert forall i :: 0 <= i < |ys| ==> zs[i] == ys[i];
    assert zs[|ys|] == x;
  }

  // ---- Soundness: a combined event ends a chain with enough distinct messages ----

  // The record of a key remembers only messages of an unbroken chain that ends at its last call.
  ghost predicate ChainOf(c: Config, r: Rec, ys: seq<Input>) {
    ys != [] && SmallGaps(c, ys) && r.lastTimestamp == ys[|ys| - 1].now &&
    r.localKeys <= Locals(c, ys) && |r.localKeys| <= KeyLimit(c.maxEvents)
  }

  // One more call of a key extends its chain, or starts a new one.
  lemma ExtendChain(c: Config, r: Option<Rec>, chain: seq<Input>, x: Input)
    requires if r.None? || Expired(c, r.value.lastTimestamp, x.now) then chain == [] else ChainOf(c, r.value, chain)
    ensures ChainOf(c, NextRec(c, r, x.event, x.now, x.hint), chain + [x])
    ensures LiveKeys(c, r, x.now) + {Local(c, x)} <= Locals(c, chain + [x])
  {
    var live := LiveKeys(c, r, x.now);
    assert live <= Locals(c, chain) && |live| <= KeyLimit(c.maxEvents);
    assert live + {Local(c, x)} <= Locals(c, chain + [x]) by { LocalsSnoc(c, chain, x); }
    NextRecKeys(c, r, x.event, x.now, x.hint);
    if chain != [] { SmallGapsSnoc(c, chain, x); }
  }

  lemma SmallGapsSnoc(c: Config, chain: seq<Input>, x: Input)
    requires chain != [] && SmallGaps(c, chain) && !Expired(c, chain[|chain| - 1].now, x.now)
    ensures SmallGaps(c, chain + [x])
  {
    ExpiredIsUnclamped(c, chain[|chain| - 1].now, x.now);
  }

  lemma NextChain(c: Config, r: Option<Rec>, ys: seq<Input>, m: nat, x: Input) returns (m': nat)
    requires r.Some? ==> m <= |ys| && ChainOf(c, r.value, ys[m..])
    ensures m' <= |ys|
    ensures ChainOf(c, NextRec(c, r, x.event, x.now, x.hint), (ys + [x])[m'..])
    ensures LiveKeys(c, r, x.now) + {Local(c, x)} <= Locals(c, (ys + [x])[m'..])
  {
    m' := if r.None? || Expired(c, r.value.lastTimestamp, x.now) then |ys| else m;
    ExtendChain(c, r, ys[m'..], x);
    assert (ys + [x])[m'..] == ys[m'..] + [x];
  }

  lemma {:induction false} RecordsAreChains(c: Config, capacity: nat, xs: seq<Input>, a: string) returns (m: nat)
    ensures var r, ys := Lookup(Run(c, [], capacity, xs), a), Project(c, xs, a);
      r.Some? ==> m <= |ys| && ChainOf(c, r.value, ys[m..])
  {
    m := 0;
    if xs != [] {
      var before, x := xs[..|xs| - 1], xs[|xs| - 1];
      var q := Run(c, [], capacity, before);
      m := RecordsAreChains(c, capacity, before, a);
      LookupAdded(q, Key(c, x), NextRec(c, Lookup(q, Key(c, x)), x.event, x.now, x.hint), capacity, a);
      if Key(c, x) == a {
        m := NextChain(c, Lookup(q, a), Project(c, before, a), m, x);
      }
    }
  }

  // Whatever the other keys do and whatever the cache evicts, an event is replaced only if an
  // unbroken chain of calls of its key, ending with it, carried maxEvents distinct messages.
  lemma AggregationSoundness(c: Config, capacity: nat, xs: seq<Input>, n: nat) returns (m: nat)
    requires n < |xs|
    requires OutcomeAt(c, [], capacity, xs, n) != Outcome(xs[n].event, EventKey(xs[n].event))
    ensures var a := Key(c, xs[n]);
      var ys := Project(c, xs[..n + 1], a);
      OutcomeAt(c, [], capacity, xs, n) == Outcome(Combined(c, xs[n].event, xs[n].now), a) &&
      m < |ys| && ys[|ys| - 1] == xs[n] && SmallGaps(c, ys[m..]) &&
      |Locals(c, ys[m..])| >= c.maxEvents
  {
    var a, before, x := Key(c, xs[n]), xs[..n], xs[n];
    assert xs[..n + 1] == before + [x];
    var r := Lookup(Run(c, [], capacity, before), a);
    m := RecordsAreChains(c, capacity, before, a);
    m := CombinedEndsChain(c, r, Project(c, before, a), m, x);
  }

  lemma CombinedEndsChain(c: Config, r: Option<Rec>, ys: seq<Input>, m: nat, x: Input) returns (m': nat)
    requires r.Some? ==> m <= |ys| && ChainOf(c, r.value, ys[m..])
    requires IsCombined(c, r, x.event, x.now)
    ensures m' <= |ys| && SmallGaps(c, (ys + [x])[m'..]) && |Locals(c, (ys + [x])[m'..])| >= c.maxEvents
  {
    m' := NextChain(c, r, ys, m, x);
    SubsetSize(LiveKeys(c, r, x.now) + {Local(c, x)}, Locals(c, (ys + [x])[m'..]));
  }

  // Between calls no record holds more than maxEvents - 1 local keys.
  lemma {:induction false} AggregationBound(c: Config, capacity: nat, xs: seq<Input>, a: string)
    ensures var r := Lookup(Run(c, [], capacity, xs), a);
      r.Some? ==> |r.value.localKeys| <= if c.maxEvents == 0 then 0 else c.maxEvents - 1
  {
    var m := RecordsAreChains(c, capacity, xs, a);
  }

  // ---- Onset: similar events are combined from the maxEvents-th on ----

  ghost function KeysOf(c: Config, xs: seq<Input>): set<string> {
    set i | 0 <= i < |xs| :: Key(c, xs[i])
  }

  ghost predicate NoEviction(c: Config, s: Cache, capacity: nat, xs: seq<Input>) {
    DistinctKeys(s) && (capacity == 0 || |Contents(s).Keys + KeysOf(c, xs)| <= capacity)
  }

  lemma {:induction false} AddedKeys(c: Config, p: Cache, capacity: nat, x: Input, universe: set<string>)
    requires DistinctKeys(p) && Contents(p).Keys <= universe && Key(c, x) in universe
    requires capacity == 0 || |universe| <= capacity
    ensures var q := Added(p, Key(c, x), NextRec(c, Lookup(p, Key(c, x)), x.event, x.now, x.hint), capacity);
      DistinctKeys(q) && Contents(q).Keys <= universe &&
      Lookup(q, Key(c, x)) == Some(NextRec(c, Lookup(p, Key(c, x)), x.event, x.now, x.hint)) &&
      forall a :: a != Key(c, x) ==> Lookup(q, a) == Lookup(p, a)
  {
    AddedFits(p, Key(c, x), NextRec(c, Lookup(p, Key(c, x)), x.event, x.now, x.hint), capacity, universe);
  }

  lemma {:induction false} RunKeys(c: Config, s: Cache, capacity: nat, xs: seq<Input>, n: nat)
    requires n <= |xs| && NoEviction(c, s, capacity, xs)
    ensures var q := Run(c, s, capacity, xs[..n]);
      DistinctKeys(q) && Contents(q).Keys <= Contents(s).Keys + KeysOf(c, xs)
  {
    if n > 0 {
      RunKeys(c, s, capacity, xs, n - 1);
      var p, x := Run(c, s, capacity, xs[..n - 1]), xs[n - 1];
      assert xs[..n][..n - 1] == xs[..n - 1];
      assert Key(c, x) in KeysOf(c, xs);
      AddedKeys(c, p, capacity, x, Contents(s).Keys + KeysOf(c, xs));
    }
  }

  // Without evictions a call changes the record of its own key only.
  lemma {:induction false} RunSnoc(c: Config, s: Cache, capacity: nat, xs: seq<Input>, n: nat, a: string)
    requires 0 < n <= |xs| && NoEviction(c, s, capacity, xs)
    ensures var p, x := Run(c, s, capacity, xs[..n - 1]), xs[n - 1];
      Lookup(Run(c, s, capacity, xs[..n]), a) ==
        if Key(c, x) == a then Some(NextRec(c, Lookup(p, a), x.event, x.now, x.hint)) else Lookup(p, a)
  {
    RunKeys(c, s, capacity, xs, n - 1);
    RunNext(c, s, capacity, xs, n);
    AddedKeys(c, Run(c, s, capacity, xs[..n - 1]), capacity, xs[n - 1], Contents(s).Keys + KeysOf(c, xs));
  }

  lemma {:induction false} RunNext(c: Config, s: Cache, capacity: nat, xs: seq<Input>, n: nat)
    requires 0 < n <= |xs|
    ensures var p, x := Run(c, s, capacity, xs[..n - 1]), xs[n - 1];
      Run(c, s, capacity, xs[..n]) ==
        Added(p, Key(c, x), NextRec(c, Lookup(p, Key(c, x)), x.event, x.now, x.hint), capacity) &&
      Key(c, x) in KeysOf(c, xs)
  {
    assert xs[..n][..n - 1] == xs[..n - 1];
  }

  // The record of one key after its own calls.
  ghost function RecAfter(c: Config, r: Option<Rec>, ys: seq<Input>): Option<Rec> {
    if ys == [] then r
    else
      var x := ys[|ys| - 1];
      Some(NextRec(c, RecAfter(c, r, ys[..|ys| - 1]), x.event, x.now, x.hint))
  }

  lemma {:induction false} RecAfterSnoc(c: Config, r: Option<Rec>, ys: seq<Input>, x: Input)
    ensures RecAfter(c, r, ys + [x]) == Some(NextRec(c, RecAfter(c, r, ys), x.event, x.now, x.hint))
  {
    assert (ys + [x])[..|ys|] == ys;
  }

  // Keys do not interfere: what a key's record becomes depends on its own calls only.
  lemma {:induction false} RunProjects(c: Config, s: Cache, capacity: nat, xs: seq<Input>, n: nat, a: string)
    requires n <= |xs| && NoEviction(c, s, capacity, xs)
    ensures Lookup(Run(c, s, capacity, xs[..n]), a) == RecAfter(c, Lookup(s, a), Project(c, xs[..n], a))
  {
    if n > 0 {
      RunProjects(c, s, capacity, xs, n - 1, a);
      RunSnoc(c, s, capacity, xs, n, a);
      assert xs[..n][..n - 1] == xs[..n - 1];
      RecAfterSnoc(c, Lookup(s, a), Project(c, xs[..n - 1], a), xs[n - 1]);
    }
  }

  ghost predicate Dead(c: Config, r: Option<Rec>, now: Time) {
    r.Some? ==> now - r.value.lastTimestamp > SecondsDuration(c.maxIntervalInSeconds)
  }

  // A new message finds a live record of its own key, or none.
  lemma NewMessage(c: Config, r: Option<Rec>, before: seq<Input>, x: Input)
    requires DistinctLocals(c, before + [x]) && SmallGaps(c, before + [x])
    requires if before == [] then Dead(c, r, x.now)
             else r.Some? && r.value.lastTimestamp == before[|before| - 1].now && r.value.localKeys <= Locals(c, before)
    ensures LiveKeys(c, r, x.now) == (if before == [] then {} else r.value.localKeys)
    ensures Local(c, x) !in LiveKeys(c, r, x.now)
  {
    var ys := before + [x];
    if r.Some? { ExpiredIsUnclamped(c, r.value.lastTimestamp, x.now); }
    if before != [] {
      assert ys[|before|].now - ys[|before| - 1].now <= SecondsDuration(c.maxIntervalInSeconds);
    }
    assert Local(c, x) !in Locals(c, before) by {
      forall i | 0 <= i < |before| ensures Local(c, before[i]) != Local(c, x) {
        assert ys[i] == before[i] && ys[|before|] == x;
      }
    }
  }

  lemma Prefixes(c: Config, before: seq<Input>, x: Input)
    requires DistinctLocals(c, before + [x]) && SmallGaps(c, before + [x])
    ensures DistinctLocals(c, before) && SmallGaps(c, before)
  {
    assert forall i :: 0 <= i < |before| ==> (before + [x])[i] == before[i];
  }

  // What the record of a key holds after the given calls of the key.
  ghost predicate Filled(c: Config, q: Option<Rec>, ys: seq<Input>) {
    ys != [] && q.Some? && q.value.lastTimestamp == ys[|ys| - 1].now && q.value.localKeys <= Locals(c, ys) &&
    |q.value.localKeys| == if |ys| < c.maxEvents then |ys| else c.maxEvents - 1
  }

  lemma FillStep(c: Config, p: Option<Rec>, before: seq<Input>, x: Input)
    requires c.maxEvents >= 1 && DistinctLocals(c, before + [x]) && SmallGaps(c, before + [x])
    requires if before == [] then Dead(c, p, x.now) else Filled(c, p, before)
    ensures Filled(c, Some(NextRec(c, p, x.event, x.now, x.hint)), before + [x])
  {
    NewMessage(c, p, before, x);
    NextRecKeys(c, p, x.event, x.now, x.hint);
    assert LiveKeys(c, p, x.now) + {Local(c, x)} <= Locals(c, before + [x]) by { LocalsSnoc(c, before, x); }
  }

  // The record collects every message until it holds maxEvents - 1 of them, and stays that large.
  lemma {:induction false} RecordFills(c: Config, r: Option<Rec>, ys: seq<Input>)
    requires c.maxEvents >= 1 && ys != [] && Dead(c, r, ys[0].now)
    requires DistinctLocals(c, ys) && SmallGaps(c, ys)
    ensures Filled(c, RecAfter(c, r, ys), ys)
  {
    var before, x := ys[..|ys| - 1], ys[|ys| - 1];
    assert ys == before + [x];
    Prefixes(c, before, x);
    if before != [] { RecordFills(c, r, before); }
    FillStep(c, RecAfter(c, r, before), before, x);
  }

  // Starting from no live record, calls of one key with pairwise distinct messages and small gaps
  // pass maxEvents - 1 events unchanged and replace every later one, whatever PopAny removes and
  // whatever is called for other keys in between.
  lemma {:induction false} AggregationOnset(c: Config, s: Cache, capacity: nat, xs: seq<Input>, n: nat)
    requires n < |xs| && NoEviction(c, s, capacity, xs) && c.maxEvents >= 1
    requires var ys := Project(c, xs[..n + 1], Key(c, xs[n]));
      ys != [] && Dead(c, Lookup(s, Key(c, xs[n])), ys[0].now) && DistinctLocals(c, ys) && SmallGaps(c, ys)
    ensures var a := Key(c, xs[n]);
      OutcomeAt(c, s, capacity, xs, n) ==
        if |Project(c, xs[..n], a)| < c.maxEvents - 1 then Outcome(xs[n].event, EventKey(xs[n].event))
        else Outcome(Combined(c, xs[n].event, xs[n].now), a)
  {
    var a, x := Key(c, xs[n]), xs[n];
    var before := Project(c, xs[..n], a);
    assert xs[..n + 1][..n] == xs[..n];
    var ys := before + [x];
    RunProjects(c, s, capacity, xs, n, a);
    if before != [] {
      Prefixes(c, before, x);
      assert before[0] == ys[0];
      RecordFills(c, Lookup(s, a), before);
    }
    OnsetOutcome(c, RecAfter(c, Lookup(s, a), before), before, x);
  }

  // What the next of such calls is answered.
  lemma OnsetOutcome(c: Config, q: Option<Rec>, before: seq<Input>, x: Input)
    requires c.maxEvents >= 1 && DistinctLocals(c, before + [x]) && SmallGaps(c, before + [x])
    requires if before == [] then Dead(c, q, x.now) else Filled(c, q, before)
    ensures Aggregate(c, q, x.event, x.now) ==
      if |before| < c.maxEvents - 1 then Outcome(x.event, EventKey(x.event))
      else Outcome(Combined(c, x.event, x.now), Key(c, x))
  {
    NewMessage(c, q, before, x);
    var live := LiveKeys(c, q, x.now);
    assert |live + {Local(c, x)}| == |live| + 1;
  }
}
