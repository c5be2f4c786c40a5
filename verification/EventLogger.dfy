// Duplicate counting and the decision to patch: eventLogger.eventObserve and updateState.
module EventLogger {
  import opened Wrappers
  import opened Lru
  import opened Events

  // What is remembered of a key; count is a 64-bit uint in the source.
  datatype EventLog = EventLog(count: nat, firstTimestamp: Time, name: string, resourceVersion: string)

  // The merge patch between an event and its copy with these three fields blanked.  A field that
  // equals its blank is not part of the patch.
  datatype Patch = NoPatch | Patch(count: int, lastTimestamp: Time, message: string)

  const EPOCH: Time := 0

  function LogOf(e: Event): EventLog {
    EventLog(ToUint(e.count), e.firstTimestamp, e.name, e.resourceVersion)
  }

  predicate SeenBefore(last: Option<EventLog>) {
    last.Some? && last.value.count > 0
  }

  function Observed(last: Option<EventLog>, e: Event): Event {
    if SeenBefore(last) then
      e.(name := last.value.name, resourceVersion := last.value.resourceVersion,
         firstTimestamp := last.value.firstTimestamp, count := WrapInt32(WrapInt32(last.value.count) + 1))
    else e
  }

  function PatchFor(last: Option<EventLog>, e: Event): Patch {
    if SeenBefore(last) then Patch(Observed(last, e).count, e.lastTimestamp, e.message) else NoPatch
  }

  function ApplyPatch(stored: Event, p: Patch): Event {
    match p
    case NoPatch => stored
    case Patch(count, lastTimestamp, message) =>
      stored.(count := if count != 0 then count else stored.count,
              lastTimestamp := if lastTimestamp != EPOCH then lastTimestamp else stored.lastTimestamp,
              message := if message != "" then message else stored.message)
  }

  class Logger {
    const capacity: nat
    var cache: seq<Entry<string, EventLog>>

    ghost predicate Valid()
      reads this
    {
      Bounded(cache, capacity)
    }

    constructor (lruCacheEntries: nat)
      ensures Valid() && cache == [] && capacity == lruCacheEntries
    {
      capacity, cache := lruCacheEntries, [];
    }

    method EventObserve(newEvent: Event, key: string) returns (event: Event, patch: Patch)
      requires Valid()
      modifies this
      ensures Valid()
      ensures event == Observed(Lookup(old(cache), key), newEvent)
      ensures patch == PatchFor(Lookup(old(cache), key), newEvent)
      ensures cache == Added(old(cache), key, LogOf(event), capacity)
    {
      event, patch := newEvent, NoPatch;
      var lastObservation := EventLog(0, ZERO_TIME, "", "");
      var value := Lookup(cache, key);
      if value.Some? {
        lastObservation := value.value;
      }
      TouchedThenAdded(cache, key, LogOf(Observed(value, newEvent)), capacity);
      cache := Promoted(cache, key);
      if lastObservation.count > 0 {
        event := event.(name := lastObservation.name, resourceVersion := lastObservation.resourceVersion,
                        firstTimestamp := lastObservation.firstTimestamp,
                        count := WrapInt32(WrapInt32(lastObservation.count) + 1));
        patch := Patch(event.count, event.lastTimestamp, event.message);
      }
      cache := Added(cache, key, LogOf(event), capacity);
    }

    method UpdateState(event: Event)
      requires Valid()
      modifies this
      ensures Valid()
      ensures cache == Added(old(cache), EventKey(event), LogOf(event), capacity)
    {
      TouchedThenAdded(cache, EventKey(event), LogOf(event), capacity);
      cache := Added(cache, EventKey(event), LogOf(event), capacity);
    }
  }

  // ---- Observation counting over a whole run ----

  // Feedback is the answer of the sink, handed to UpdateState.
  datatype Op = Observe(event: Event, key: string) | Feedback(reply: Event)

  ghost function Run(ops: seq<Op>): map<string, EventLog> {
    if ops == [] then map[]
    else
      var m, op := Run(ops[..|ops| - 1]), ops[|ops| - 1];
      match op
      case Observe(e, k) => m[k := LogOf(Observed(MapLookup(m, k), e))]
      case Feedback(r) => m[EventKey(r) := LogOf(r)]
  }

  // The observations made under a key.
  ghost function Under(ops: seq<Op>, k: string): seq<Event> {
    if ops == [] then []
    else
      var rest, op := Under(ops[..|ops| - 1], k), ops[|ops| - 1];
      if op.Observe? && op.key == k then rest + [op.event] else rest
  }

  // The counted form of the last observation under k.
  ghost predicate CountsLast(seen: seq<Event>, l: EventLog) {
    l.count == ToUint(WrapInt32(|seen|)) &&
    (0 < |seen| <= 0x1_0000_0000 ==> l.name == seen[0].name && l.firstTimestamp == seen[0].firstTimestamp)
  }

  // An echoing sink answers with the count, name and first timestamp it was sent, so the feedback
  // at i either repeats what is remembered of a key or concerns a key that is never observed.
  ghost predicate EchoAt(ops: seq<Op>, i: nat)
    requires i < |ops|
  {
    ops[i].Feedback? ==>
      var k := EventKey(ops[i].reply);
      Under(ops, k) == [] || (Under(ops[..i], k) != [] && CountsLast(Under(ops[..i], k), LogOf(ops[i].reply)))
  }

  ghost predicate Echoing(ops: seq<Op>, n: nat)
    requires n <= |ops|
  {
    forall i :: 0 <= i < n ==> EchoAt(ops, i)
  }

  lemma EchoingNext(ops: seq<Op>, n: nat)
    requires n < |ops| && Echoing(ops, n) && EchoAt(ops, n)
    ensures Echoing(ops, n + 1)
  {
  }

  ghost predicate SingleCounts(ops: seq<Op>) {
    forall i :: 0 <= i < |ops| && ops[i].Observe? ==> ops[i].event.count == 1
  }

  lemma {:induction false} UnderPrefix(ops: seq<Op>, n: nat, k: string)
    requires n <= |ops|
    ensures Under(ops[..n], k) <= Under(ops, k)
    decreases |ops| - n
  {
    if n == |ops| {
      assert ops[..n] == ops;
    } else {
      UnderPrefix(ops, n + 1, k);
      assert ops[..n + 1][..n] == ops[..n];
    }
  }

  lemma {:induction false} CacheCounts(ops: seq<Op>, n: nat, k: string)
    requires n <= |ops| && SingleCounts(ops) && Echoing(ops, n)
    requires Under(ops, k) != []
    ensures var m, seen := Run(ops[..n]), Under(ops[..n], k);
      if seen == [] then k !in m else k in m && CountsLast(seen, m[k])
  {
    if n > 0 {
      CacheCounts(ops, n - 1, k);
      assert EchoAt(ops, n - 1);
      assert ops[..n][..n - 1] == ops[..n - 1];
      if ops[n - 1].Observe? && ops[n - 1].key == k {
        NextCount(Under(ops[..n - 1], k), MapLookup(Run(ops[..n - 1]), k), ops[n - 1].event);
      }
    }
  }

  lemma WrapOfUint(w: int)
    requires -0x8000_0000 <= w < 0x8000_0000
    ensures WrapInt32(ToUint(w)) == w && (ToUint(w) == 0 <==> w == 0)
  {
    assert ToUint(w) == if w >= 0 then w else w + 0x1_0000_0000_0000_0000;
  }

  lemma WrapNext(n: nat)
    ensures WrapInt32(WrapInt32(n) + 1) == WrapInt32(n + 1)
    ensures WrapInt32(n) == 0 <==> n % 0x1_0000_0000 == 0
  {
    var q := (n + 0x8000_0000) / 0x1_0000_0000;
    assert WrapInt32(n) == n - q * 0x1_0000_0000;
  }

  // Counting in 32 bits through the 64-bit counter of the cache.
  lemma CountWraps(n: nat)
    ensures WrapInt32(WrapInt32(ToUint(WrapInt32(n))) + 1) == WrapInt32(n + 1)
    ensures ToUint(WrapInt32(n)) == 0 <==> n % 0x1_0000_0000 == 0
    ensures n % 0x1_0000_0000 == 0 ==> WrapInt32(n + 1) == 1
    ensures WrapInt32(n) == n <==> n < 0x8000_0000
  {
    WrapNext(n);
    WrapOfUint(WrapInt32(n));
  }

  lemma NextCount(seen: seq<Event>, l: Option<EventLog>, e: Event)
    requires e.count == 1
    requires if seen == [] then l.None? else l.Some? && CountsLast(seen, l.value)
    ensures CountsLast(seen + [e], LogOf(Observed(l, e)))
    ensures Observed(l, e).count == WrapInt32(|seen| + 1)
  {
    CountWraps(|seen|);
    assert seen != [] ==> (seen + [e])[0] == seen[0];
  }

  // The m-th observation under a key carries Count m, in 32 bits, with the name and the first
  // timestamp of the first one, whatever was fed back in between and whatever became of the
  // earlier observations.
  lemma ObservationCounting(ops: seq<Op>, n: nat)
    requires n < |ops| && ops[n].Observe? && SingleCounts(ops) && Echoing(ops, n)
    ensures
      var k := ops[n].key;
      var seen := Under(ops[..n + 1], k);
      var e := Observed(MapLookup(Run(ops[..n]), k), ops[n].event);
      e.count == WrapInt32(|seen|) && (e.count == |seen| <==> |seen| < 0x8000_0000) &&
      (|seen| <= 0x1_0000_0000 ==> e.name == seen[0].name && e.firstTimestamp == seen[0].firstTimestamp)
  {
    var k := ops[n].key;
    assert ops[..n + 1][..n] == ops[..n];
    UnderPrefix(ops, n + 1, k);
    CacheCounts(ops, n, k);
    CountWraps(|Under(ops[..n], k)| + 1);
    NextCount(Under(ops[..n], k), MapLookup(Run(ops[..n]), k), ops[n].event);
  }

  // ---- What an observation takes over, and from where ----

  ghost predicate Concerns(op: Op, k: string) {
    if op.Observe? then op.key == k else EventKey(op.reply) == k
  }

  // The cache keeps an entry as long as nothing concerns its key.
  lemma {:induction false} EntryStays(ops: seq<Op>, m: nat, n: nat, k: string)
    requires m <= n <= |ops| && forall i :: m <= i < n ==> !Concerns(ops[i], k)
    ensures MapLookup(Run(ops[..n]), k) == MapLookup(Run(ops[..m]), k)
    decreases n
  {
    if m < n {
      EntryStays(ops, m, n - 1, k);
      assert ops[..n][..n - 1] == ops[..n - 1];
    }
  }

  // After an answer of the sink, the next observation under its key carries its name, resource
  // version and first timestamp, and the next count; all else is its own.  It becomes a patch of its
  // count, last timestamp and message.
  lemma AnswerIsCarried(ops: seq<Op>, m: nat, n: nat)
    requires m < n < |ops| && ops[m].Feedback? && ops[n].Observe? && ops[n].key == EventKey(ops[m].reply)
    requires forall i :: m < i < n ==> !Concerns(ops[i], ops[n].key)
    requires 0 < ops[m].reply.count < 0x7FFF_FFFF
    ensures var l, r := MapLookup(Run(ops[..n]), ops[n].key), ops[m].reply;
      var e := Observed(l, ops[n].event);
      e.resourceVersion == r.resourceVersion && e.name == r.name && e.firstTimestamp == r.firstTimestamp &&
      e.count == r.count + 1 &&
      PatchFor(l, ops[n].event) == Patch(r.count + 1, ops[n].event.lastTimestamp, ops[n].event.message) &&
      e.(resourceVersion := ops[n].event.resourceVersion, name := ops[n].event.name,
         firstTimestamp := ops[n].event.firstTimestamp, count := ops[n].event.count) == ops[n].event
  {
    EntryStays(ops, m + 1, n, ops[n].key);
    assert ops[..m + 1][..m] == ops[..m];
  }

  // An observation under a key that nothing has concerned yet is passed on as it is.
  lemma FirstIsUnchanged(ops: seq<Op>, n: nat)
    requires n < |ops| && ops[n].Observe? && forall i :: 0 <= i < n ==> !Concerns(ops[i], ops[n].key)
    ensures var l := MapLookup(Run(ops[..n]), ops[n].key);
      Observed(l, ops[n].event) == ops[n].event && PatchFor(l, ops[n].event).NoPatch?
  {
    EntryStays(ops, 0, n, ops[n].key);
  }
}
