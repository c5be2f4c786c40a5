// Similarity aggregation over a sliding window: EventAggregator.EventAggregate.
module Aggregator {
  import opened Wrappers
  import opened Lru
  import opened Events

  datatype Config = Config(
    keyFunc: Event -> (string, string),
    messageFunc: Event -> string,
    maxEvents: nat,                // a 64-bit uint in the source
    maxIntervalInSeconds: int)

  // The value a cached record stands for.
  datatype Rec = Rec(localKeys: set<string>, lastTimestamp: Time)

  datatype Outcome = Outcome(event: Event, key: string)

  // ---- One step, as a function of the record found in the cache ----

  predicate Expired(c: Config, last: Time, now: Time) {
    Sub(now, last) > SecondsDuration(c.maxIntervalInSeconds)
  }

  // Neither the saturation of Sub nor the overflow of the interval can hide an expiry: the
  // interval is an even number, so it never reaches the largest duration.
  lemma ExpiredIsUnclamped(c: Config, last: Time, now: Time)
    ensures Expired(c, last, now) <==> now - last > SecondsDuration(c.maxIntervalInSeconds)
  {
    var d := SecondsDuration(c.maxIntervalInSeconds);
    var q := (d - c.maxIntervalInSeconds * NANOS_PER_SECOND) / 0x1_0000_0000_0000_0000;
    assert d == 2 * (c.maxIntervalInSeconds * 500_000_000 + q * 0x8000_0000_0000_0000);
    assert d != MAX_DURATION;
  }

  // What the source needs in order to have a set to insert into: a key that is not cached has the
  // zero time as its last timestamp and no set, and gets one only if that time has expired.
  predicate Admits(c: Config, r: Option<Rec>, now: Time) {
    r.Some? || Expired(c, ZERO_TIME, now)
  }

  // The zero time has expired when the clock is further from it than the interval; a realistic
  // clock is, whatever the interval.
  lemma UncachedIsExpired(c: Config, now: Time)
    ensures Expired(c, ZERO_TIME, now) <==> now > ZERO_TIME + SecondsDuration(c.maxIntervalInSeconds)
    ensures RealisticClock(now) ==> Expired(c, ZERO_TIME, now)
  {
    ExpiredIsUnclamped(c, ZERO_TIME, now);
  }

  ghost function LiveKeys(c: Config, r: Option<Rec>, now: Time): set<string> {
    if r.None? || Expired(c, r.value.lastTimestamp, now) then {} else r.value.localKeys
  }

  // PopAny removes an arbitrary element: hint says which one when it can.
  ghost function Pop(keys: set<string>, hint: string): (r: set<string>)
    requires keys != {}
    ensures r < keys && |r| == |keys| - 1
  {
    var x := if hint in keys then hint else var y :| y in keys; y;
    keys - {x}
  }

  function Combined(c: Config, e: Event, now: Time): Event {
    Event(e.involvedObject.name + "." + Hex(now), e.namespace, "", map[], map[],
          e.involvedObject, e.reason, c.messageFunc(e), e.source, now, now, 1, e.eventType, "", "")
  }

  // A combined event is about the same thing as the event it replaces, starts to count anew, and its
  // name tells the object and the time apart.
  lemma CombinedFields(c: Config, e: Event, now: Time)
    ensures var d := Combined(c, e, now);
      d.involvedObject == e.involvedObject && d.namespace == e.namespace && d.source == e.source &&
      d.reason == e.reason && d.eventType == e.eventType && d.message == c.messageFunc(e) &&
      d.count == 1 && d.firstTimestamp == now && d.lastTimestamp == now && d.resourceVersion == ""
    ensures var name := Combined(c, e, now).name;
      exists stamp :: name == e.involvedObject.name + "." + stamp && HexValue(stamp) == now
  {
    HexRoundTrip(now);
    assert Combined(c, e, now).name == e.involvedObject.name + "." + Hex(now);
  }

  ghost predicate IsCombined(c: Config, r: Option<Rec>, e: Event, now: Time) {
    |LiveKeys(c, r, now) + {c.keyFunc(e).1}| >= c.maxEvents
  }

  ghost function NextRec(c: Config, r: Option<Rec>, e: Event, now: Time, hint: string): Rec {
    var keys := LiveKeys(c, r, now) + {c.keyFunc(e).1};
    Rec(if |keys| >= c.maxEvents then Pop(keys, hint) else keys, now)
  }

  // No record keeps more than this many local keys between calls.
  function KeyLimit(maxEvents: nat): nat {
    if maxEvents == 0 then 0 else maxEvents - 1
  }

  // What the step does to the size of the set.
  lemma NextRecKeys(c: Config, r: Option<Rec>, e: Event, now: Time, hint: string)
    ensures var keys, q := LiveKeys(c, r, now) + {c.keyFunc(e).1}, NextRec(c, r, e, now, hint);
      q.lastTimestamp == now && q.localKeys <= keys &&
      (|keys| <= KeyLimit(c.maxEvents) + 1 ==>
        |q.localKeys| == if |keys| <= KeyLimit(c.maxEvents) then |keys| else KeyLimit(c.maxEvents))
  {
  }

  ghost function Aggregate(c: Config, r: Option<Rec>, e: Event, now: Time): Outcome {
    if IsCombined(c, r, e, now) then Outcome(Combined(c, e, now), c.keyFunc(e).0)
    else Outcome(e, EventKey(e))
  }

  // ---- The object, with the set that a cached record shares with later calls ----

  class KeySet {
    var items: set<string>

    constructor ()
      ensures items == {}
    {
      items := {};
    }

    method Insert(k: string)
      modifies this
      ensures items == old(items) + {k}
    {
      items := items + {k};
    }

    method PopAny() returns (k: string)
      requires items != {}
      modifies this
      ensures k in old(items) && items == old(items) - {k}
    {
      k :| k in items;
      items := items - {k};
    }
  }

  datatype AggregateRecord = AggregateRecord(localKeys: KeySet, lastTimestamp: Time)

  type Cached = Entry<string, AggregateRecord>

  // No two cached records share a set.
  ghost predicate Unshared(entries: seq<Cached>) {
    forall i, j :: 0 <= i < j < |entries| ==> entries[i].value.localKeys != entries[j].value.localKeys
  }

  ghost predicate SetsWithin(entries: seq<Cached>, sets: set<KeySet>) {
    forall x :: x in entries ==> x.value.localKeys in sets
  }

  ghost function AbstractEntry(x: Cached): Entry<string, Rec>
    reads x.value.localKeys
  {
    Entry(x.key, Rec(x.value.localKeys.items, x.value.lastTimestamp))
  }

  ghost function Abstract(entries: seq<Cached>, sets: set<KeySet>): seq<Entry<string, Rec>>
    requires SetsWithin(entries, sets)
    reads sets
  {
    if entries == [] then []
    else [AbstractEntry(entries[0])] + Abstract(entries[1..], sets)
  }

  lemma {:induction false} AbstractWithout(entries: seq<Cached>, sets: set<KeySet>, k: string)
    requires SetsWithin(entries, sets)
    ensures SetsWithin(Without(entries, k), sets)
    ensures Abstract(Without(entries, k), sets) == Without(Abstract(entries, sets), k)
  {
    if entries != [] {
      AbstractWithout(entries[1..], sets, k);
      var a := Abstract(entries, sets);
      assert a[1..] == Abstract(entries[1..], sets);
      if entries[0].key != k {
        var rest := Without(entries[1..], k);
        assert ([entries[0]] + rest)[1..] == rest;
      }
    }
  }

  lemma {:induction false} AbstractLookup(entries: seq<Cached>, sets: set<KeySet>, k: string)
    requires SetsWithin(entries, sets)
    ensures Lookup(entries, k).None? <==> Lookup(Abstract(entries, sets), k).None?
    ensures Lookup(entries, k).Some? ==>
      var v := Lookup(entries, k).value;
      v.localKeys in sets && Entry(k, v) in entries &&
      Lookup(Abstract(entries, sets), k) == Some(Rec(v.localKeys.items, v.lastTimestamp))
  {
    if entries != [] {
      AbstractLookup(entries[1..], sets, k);
      assert Abstract(entries, sets)[1..] == Abstract(entries[1..], sets);
      assert entries[0] in entries;
    }
  }

  lemma {:induction false} AbstractTake(entries: seq<Cached>, sets: set<KeySet>, n: nat)
    requires SetsWithin(entries, sets) && n <= |entries|
    ensures |Abstract(entries, sets)| == |entries|
    ensures Abstract(entries[..n], sets) == Abstract(entries, sets)[..n]
  {
    if entries != [] {
      AbstractTake(entries[1..], sets, if n == 0 then 0 else n - 1);
      if n > 0 {
        assert entries[..n][1..] == entries[1..][..n - 1];
      }
    }
  }

  lemma HeadUnshared(s: seq<Cached>)
    requires Unshared(s) && s != []
    ensures Unshared(s[1..]) && forall x :: x in s[1..] ==> x.value.localKeys != s[0].value.localKeys
  {
    forall x | x in s[1..] ensures x.value.localKeys != s[0].value.localKeys {
      var i :| 0 <= i < |s[1..]| && s[1..][i] == x;
      assert s[i + 1] == x;
    }
  }

  // What is left after taking a record out: the taken set is not among the remaining ones.
  lemma {:induction false} WithoutUnshared(s: seq<Cached>, k: string)
    requires Unshared(s) && DistinctKeys(s)
    ensures Unshared(Without(s, k))
    ensures Lookup(s, k).Some? ==>
      forall x :: x in Without(s, k) ==> x.value.localKeys != Lookup(s, k).value.localKeys
  {
    if s != [] {
      HeadUnshared(s);
      assert DistinctKeys(s[1..]);
      WithoutUnshared(s[1..], k);
      WithoutMembers(s[1..], k);
      if s[0].key != k && Lookup(s[1..], k).Some? {
        LookupMember(s[1..], k);
      }
    }
  }

  // The cached records after the new one is put in front, seen abstractly.
  lemma {:induction false} AbstractAdded(rest: seq<Cached>, sets: set<KeySet>, first: Cached, capacity: nat)
    requires SetsWithin(rest, sets) && Unshared(rest) && first.value.localKeys in sets
    requires forall x :: x in rest ==> x.value.localKeys != first.value.localKeys
    ensures var u := Capped([first] + rest, capacity);
      SetsWithin(u, sets) && Unshared(u) &&
      Abstract(u, sets) == Capped([AbstractEntry(first)] + Abstract(rest, sets), capacity)
  {
    var t := [first] + rest;
    assert t[1..] == rest;
    AbstractTake(t, sets, if capacity != 0 && |t| > capacity then |t| - 1 else |t|);
  }

  lemma {:induction false} AbstractMonotone(entries: seq<Cached>, sets: set<KeySet>, more: set<KeySet>)
    requires SetsWithin(entries, sets) && sets <= more
    ensures Abstract(entries, sets) == Abstract(entries, more)
  {
    if entries != [] { AbstractMonotone(entries[1..], sets, more); }
  }

  class EventAggregator {
    const config: Config
    const capacity: nat
    var cache: seq<Cached>
    // The sets allocated so far.
    ghost var sets: set<KeySet>

    ghost predicate Valid()
      reads this, sets
    {
      Bounded(cache, capacity) && Unshared(cache) && SetsWithin(cache, sets) &&
      forall x :: x in cache ==> |x.value.localKeys.items| <= KeyLimit(config.maxEvents)
    }

    ghost function State(): seq<Entry<string, Rec>>
      requires Valid()
      reads this, sets
    {
      Abstract(cache, sets)
    }

    // The source's maxEvents is an int converted to uint.
    constructor (lruCacheSize: nat, keyFunc: Event -> (string, string), messageFunc: Event -> string,
                 maxEvents: int, maxIntervalInSeconds: int)
      ensures Valid() && State() == [] && sets == {}
      ensures config == Config(keyFunc, messageFunc, ToUint(maxEvents), maxIntervalInSeconds)
      ensures capacity == lruCacheSize
    {
      config := Config(keyFunc, messageFunc, ToUint(maxEvents), maxIntervalInSeconds);
      capacity, cache, sets := lruCacheSize, [], {};
    }

    // What is known of a cached record and of all the others.
    lemma {:induction false} RestFacts(k: string)
      requires Valid()
      ensures
        var found, rest := Lookup(cache, k), Without(cache, k);
        && Lookup(State(), k) == (if found.None? then None
                                  else Some(Rec(found.value.localKeys.items, found.value.lastTimestamp)))
        && (found.Some? ==> found.value.localKeys in sets)
        && (found.Some? ==> |found.value.localKeys.items| <= KeyLimit(config.maxEvents))
        && (found.Some? ==> SetsWithin(rest, sets - {found.value.localKeys}))
        && Unshared(rest) && SetsWithin(rest, sets)
        && Abstract(rest, sets) == Without(State(), k)
        && forall x :: x in rest ==> |x.value.localKeys.items| <= KeyLimit(config.maxEvents)
    {
      AbstractLookup(cache, sets, k);
      AbstractWithout(cache, sets, k);
      WithoutUnshared(cache, k);
      WithoutMembers(cache, k);
    }

    // The cache while the newest record's set may still be one key too large: rest are the other
    // records and was is the state before the call.
    ghost predicate Pending(k: string, localKeys: KeySet, now: Time, rest: seq<Cached>, was: seq<Entry<string, Rec>>)
      reads this, sets
    {
      Others(k, localKeys, rest, was) && Bounded(cache, capacity) &&
      cache == Capped([Entry(k, AggregateRecord(localKeys, now))] + rest, capacity)
    }

    ghost predicate Others(k: string, localKeys: KeySet, rest: seq<Cached>, was: seq<Entry<string, Rec>>)
      reads `sets, sets - {localKeys}
    {
      localKeys in sets && Unshared(rest) && SetsWithin(rest, sets - {localKeys}) &&
      Abstract(rest, sets - {localKeys}) == Without(was, k) &&
      forall x :: x in rest ==> |x.value.localKeys.items| <= KeyLimit(config.maxEvents)
    }

    // What the cache stands for once that set is small enough.
    lemma Reassembled(k: string, localKeys: KeySet, now: Time, rest: seq<Cached>, was: seq<Entry<string, Rec>>)
      requires Pending(k, localKeys, now, rest, was)
      requires |localKeys.items| <= KeyLimit(config.maxEvents)
      ensures Valid()
      ensures State() == Added(was, k, Rec(localKeys.items, now), capacity)
    {
      AbstractMonotone(rest, sets - {localKeys}, sets);
      AbstractAdded(rest, sets, Entry(k, AggregateRecord(localKeys, now)), capacity);
    }

    // The set to extend for a record: its own, or a new one when it expired.
    method LiveSet(k: string, value: Option<AggregateRecord>, now: Time) returns (localKeys: KeySet)
      requires Valid() && Admits(config, Lookup(State(), k), now) && value == Lookup(cache, k)
      modifies `sets
      ensures localKeys.items == LiveKeys(config, Lookup(old(State()), k), now)
      ensures |localKeys.items| <= KeyLimit(config.maxEvents)
      ensures sets == old(sets) + {localKeys} && fresh(sets - old(sets))
      ensures Others(k, localKeys, Without(cache, k), old(State()))
    {
      RestFacts(k);
      var recordKeys: KeySet?, lastTimestamp := null, ZERO_TIME;
      if value.Some? {
        recordKeys, lastTimestamp := value.value.localKeys, value.value.lastTimestamp;
      }
      if Expired(config, lastTimestamp, now) {
        recordKeys := new KeySet();
      }
      localKeys := recordKeys;
      AbstractMonotone(Without(cache, k), sets - {localKeys}, sets);
      assert (sets + {localKeys}) - {localKeys} == sets - {localKeys};
      sets := sets + {localKeys};
    }

    // The record of k with one more local key, cached again.
    method Remember(k: string, localKey: string, now: Time) returns (localKeys: KeySet)
      requires Valid() && Admits(config, Lookup(State(), k), now)
      modifies this, sets
      ensures localKeys.items == LiveKeys(config, Lookup(old(State()), k), now) + {localKey}
      ensures |localKeys.items| <= KeyLimit(config.maxEvents) + 1
      ensures sets == old(sets) + {localKeys} && fresh(sets - old(sets))
      ensures Pending(k, localKeys, now, Without(old(cache), k), old(State()))
    {
      var value := Lookup(cache, k);
      localKeys := LiveSet(k, value, now);
      localKeys.Insert(localKey);
      TouchedThenAdded(cache, k, AggregateRecord(localKeys, now), capacity);
      cache := Promoted(cache, k);
      cache := Added(cache, k, AggregateRecord(localKeys, now), capacity);
    }

    method EventAggregate(newEvent: Event, now: Time) returns (event: Event, key: string, ghost hint: string)
      requires Valid() && Admits(config, Lookup(State(), config.keyFunc(newEvent).0), now)
      modifies this, sets
      ensures Valid() && fresh(sets - old(sets))
      ensures
        var k := config.keyFunc(newEvent).0;
        var r := Lookup(old(State()), k);
        State() == Added(old(State()), k, NextRec(config, r, newEvent, now, hint), capacity) &&
        Outcome(event, key) == Aggregate(config, r, newEvent, now)
    {
      hint := "";
      var eventKey := EventKey(newEvent);
      var (aggregateKey, localKey) := config.keyFunc(newEvent);
      ghost var rest, was := Without(cache, aggregateKey), State();
      var localKeys := Remember(aggregateKey, localKey, now);
      event, key := newEvent, eventKey;
      if |localKeys.items| >= config.maxEvents {
        hint := localKeys.PopAny();
        event, key := Combined(config, newEvent, now), aggregateKey;
      }
      Reassembled(aggregateKey, localKeys, now, rest, was);
    }
  }
}
