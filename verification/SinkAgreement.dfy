// Whole runs of the recorder against its sink: what the counting cache remembers and what the
// sink stores agree.
module SinkAgreement {
  import opened Lru
  import opened Events
  import opened Recorder
  import opened StoredCounts
  import L = EventLogger
  import C = Correlator

  // One event recorded: the correlator's input and everything then said to the sink.
  datatype Turn = Turn(x: C.Input, ex: seq<Exchange>)

  // The calls a turn makes to the correlator: UpdateState runs exactly after a successful write.
  ghost function OpsOf(t: Turn): seq<C.Op> {
    [C.Correlate(t.x)] + if Succeeded(t.ex) then [C.Update(t.ex[|t.ex| - 1].reply.event)] else []
  }

  ghost function Ops(turns: seq<Turn>): seq<C.Op> {
    if turns == [] then [] else Ops(turns[..|turns| - 1]) + OpsOf(turns[|turns| - 1])
  }

  ghost function StoreAfter(s: Store, turns: seq<Turn>): Store {
    if turns == [] then s else After(StoreAfter(s, turns[..|turns| - 1]), turns[|turns| - 1].ex)
  }

  ghost function MapsAt(c: C.Config, turns: seq<Turn>, n: nat): C.Maps
    requires n <= |turns|
  {
    C.Run(c, Ops(turns[..n]))
  }

  // What RecordToSink says to the sink, given what the correlator decided.
  ghost predicate Speaks(r: C.Result, s: Store, ex: seq<Exchange>) {
    match r
    case Skip => ex == []
    case Forward(e, p) => Conversation(s, e, p, ex)
  }

  // The contract of RecordToSink, for caches that evict nothing.
  ghost predicate TurnAt(c: C.Config, first: Store, turns: seq<Turn>, n: nat)
    requires n < |turns|
  {
    Speaks(C.ResultIn(c, MapsAt(c, turns, n), turns[n].x), StoreAfter(first, turns[..n]), turns[n].ex)
  }

  ghost predicate IsRun(c: C.Config, first: Store, turns: seq<Turn>) {
    forall n :: 0 <= n < |turns| ==> TurnAt(c, first, turns, n)
  }

  // The sink keeps its contract, and no call names an event that it stored at first.
  ghost predicate GoodSink(first: Store, turns: seq<Turn>) {
    forall n :: 0 <= n < |turns| ==> Lawful(turns[n].ex) && Avoids(first, turns[n].ex)
  }

  // ---- Observations: what the counting stage saw under a key ----

  ghost function Seen(c: C.Config, turns: seq<Turn>, k: string): seq<Event> {
    L.Under(C.LogOps(c, Ops(turns)), k)
  }

  ghost function Family(c: C.Config, turns: seq<Turn>): string -> seq<Event> {
    (k: string) => Seen(c, turns, k)
  }

  ghost function KeyAt(c: C.Config, turns: seq<Turn>, n: nat): string
    requires n < |turns|
  {
    C.OutcomeIn(c, MapsAt(c, turns, n), turns[n].x).key
  }

  // Single-count inputs, fewer than 2^31 of them per key, and no name used under two keys.
  ghost predicate GoodInputs(c: C.Config, turns: seq<Turn>) {
    L.SingleCounts(C.LogOps(c, Ops(turns))) &&
    (forall k :: |Seen(c, turns, k)| < 0x8000_0000) &&
    UniqueNames(Family(c, turns))
  }

  // Keys do not collide: what the sink echoes for a key has that same event key, or an event key
  // under which nothing is ever observed.  The second case is that of combined events, which are
  // counted under their aggregate key.
  ghost predicate CollisionFree(c: C.Config, turns: seq<Turn>) {
    forall k, g, h :: 0 <= g < |Seen(c, turns, k)| && 0 <= h < |Seen(c, turns, k)| ==>
      var fk := EventKey(Seen(c, turns, k)[g].(message := Seen(c, turns, k)[h].message));
      fk == k || Seen(c, turns, fk) == []
  }

  // ---- Prefixes of a run ----

  lemma OpsSnoc(turns: seq<Turn>, n: nat)
    requires n < |turns|
    ensures Ops(turns[..n + 1]) == Ops(turns[..n]) + OpsOf(turns[n])
  {
    assert turns[..n + 1][..n] == turns[..n];
  }

  lemma {:induction false} OpsPrefix(turns: seq<Turn>, n: nat)
    requires n <= |turns|
    ensures Ops(turns[..n]) <= Ops(turns)
    decreases |turns| - n
  {
    if n == |turns| {
      assert turns[..n] == turns;
    } else {
      OpsPrefix(turns, n + 1);
      OpsSnoc(turns, n);
    }
  }

  // What the counting stage saw up to a turn, within the whole run.
  lemma {:induction false} StagePrefix(c: C.Config, turns: seq<Turn>, n: nat)
    requires n <= |turns|
    ensures var p, all := |Ops(turns[..n])|, C.LogOps(c, Ops(turns));
      p <= |all| && all[..p] == C.LogOps(c, Ops(turns[..n])) && L.Run(all[..p]) == MapsAt(c, turns, n).log
  {
    OpsPrefix(turns, n);
    var p := |Ops(turns[..n])|;
    assert Ops(turns)[..p] == Ops(turns[..n]);
    C.LogOpsPrefix(c, Ops(turns), p);
    C.LogStage(c, Ops(turns[..n]));
  }

  lemma SeenPrefix(c: C.Config, turns: seq<Turn>, n: nat, k: string)
    requires n <= |turns|
    ensures Seen(c, turns[..n], k) <= Seen(c, turns, k)
  {
    StagePrefix(c, turns, n);
    L.UnderPrefix(C.LogOps(c, Ops(turns)), |Ops(turns[..n])|, k);
  }

  lemma {:induction false} UnderSnoc(c: C.Config, ops: seq<C.Op>, op: C.Op, k: string)
    ensures L.Under(C.LogOps(c, ops + [op]), k) == L.Under(C.LogOps(c, ops), k) +
      if op.Correlate? && C.OutcomeIn(c, C.Run(c, ops), op.x).key == k
        then [C.OutcomeIn(c, C.Run(c, ops), op.x).event] else []
  {
    assert (ops + [op])[..|ops|] == ops;
    var all := C.LogOps(c, ops + [op]);
    assert all[..|ops|] == C.LogOps(c, ops);
  }

  // A turn adds one observation, under its own key.
  lemma SeenSnoc(c: C.Config, turns: seq<Turn>, n: nat, k: string)
    requires n < |turns|
    ensures Seen(c, turns[..n + 1], k) == Seen(c, turns[..n], k) +
      if k == KeyAt(c, turns, n) then [C.OutcomeIn(c, MapsAt(c, turns, n), turns[n].x).event] else []
  {
    OpsSnoc(turns, n);
    var ops, op := Ops(turns[..n]), C.Correlate(turns[n].x);
    UnderSnoc(c, ops, op, k);
    if Succeeded(turns[n].ex) {
      var feedback := C.Update(turns[n].ex[|turns[n].ex| - 1].reply.event);
      assert ops + OpsOf(turns[n]) == (ops + [op]) + [feedback];
      UnderSnoc(c, ops + [op], feedback, k);
    } else {
      assert ops + OpsOf(turns[n]) == ops + [op];
    }
  }

  lemma UniquePrefix(c: C.Config, turns: seq<Turn>, n: nat)
    requires n <= |turns| && UniqueNames(Family(c, turns))
    ensures UniqueNames(Family(c, turns[..n]))
  {
    var f, g := Family(c, turns[..n]), Family(c, turns);
    forall j, k | f(j) != [] && f(k) != [] && f(j)[0].name == f(k)[0].name ensures j == k {
      SeenPrefix(c, turns, n, j);
      SeenPrefix(c, turns, n, k);
      assert g(j)[0].name == g(k)[0].name;
    }
  }

  // The counting stage, call by call.
  lemma {:induction false} LogOpAt(c: C.Config, ops: seq<C.Op>, p: nat)
    requires p < |ops|
    ensures C.LogOps(c, ops)[p] ==
      if ops[p].Correlate? then
        L.Observe(C.OutcomeIn(c, C.Run(c, ops[..p]), ops[p].x).event, C.OutcomeIn(c, C.Run(c, ops[..p]), ops[p].x).key)
      else L.Feedback(ops[p].reply)
  {
    C.LogOpsPrefix(c, ops, p + 1);
    assert ops[..p + 1][..p] == ops[..p];
    assert C.LogOps(c, ops)[..p + 1][p] == C.LogOps(c, ops)[p];
  }

  // The observation turn n makes, and the feedback it gives.
  lemma {:induction false} ObservationAt(c: C.Config, turns: seq<Turn>, n: nat)
    requires n < |turns|
    ensures var p, all, o :=
      |Ops(turns[..n])|, C.LogOps(c, Ops(turns)), C.OutcomeIn(c, MapsAt(c, turns, n), turns[n].x);
      p < |all| && all[p] == L.Observe(o.event, o.key)
  {
    OpsSnoc(turns, n);
    OpsPrefix(turns, n + 1);
    var p, ops := |Ops(turns[..n])|, Ops(turns);
    assert ops[p] == C.Correlate(turns[n].x);
    assert ops[..p] == Ops(turns[..n]);
    LogOpAt(c, ops, p);
  }

  lemma {:induction false} FeedbackAt(c: C.Config, turns: seq<Turn>, n: nat)
    requires n < |turns| && Succeeded(turns[n].ex)
    ensures var p, all := |Ops(turns[..n])|, C.LogOps(c, Ops(turns));
      p + 1 < |all| && all[p + 1] == L.Feedback(turns[n].ex[|turns[n].ex| - 1].reply.event) &&
      |Ops(turns[..n + 1])| == p + 2
  {
    OpsSnoc(turns, n);
    OpsPrefix(turns, n + 1);
    var p, ops := |Ops(turns[..n])|, Ops(turns);
    assert ops[p + 1] == OpsOf(turns[n])[1];
    LogOpAt(c, ops, p + 1);
  }

  lemma {:induction false} OpsThroughObservation(turns: seq<Turn>, n: nat)
    requires n < |turns|
    ensures var p, ops := |Ops(turns[..n])|, Ops(turns);
      p < |ops| && ops[..p + 1] == Ops(turns[..n]) + [C.Correlate(turns[n].x)]
  {
    OpsSnoc(turns, n);
    OpsPrefix(turns, n + 1);
    var p, ops := |Ops(turns[..n])|, Ops(turns);
    assert Ops(turns[..n + 1])[..p + 1] == Ops(turns[..n]) + [C.Correlate(turns[n].x)];
    assert ops[..p + 1] == Ops(turns[..n + 1])[..p + 1];
  }

  // At that feedback the observation of the turn has been counted.
  lemma SeenAtFeedback(c: C.Config, turns: seq<Turn>, n: nat, k: string)
    requires n < |turns|
    ensures var p, all := |Ops(turns[..n])|, C.LogOps(c, Ops(turns));
      p < |all| && L.Under(all[..p + 1], k) == Seen(c, turns[..n + 1], k)
  {
    LogThroughObservation(c, turns, n);
    SeenWithObservation(c, turns, n, k);
  }

  lemma {:induction false} LogThroughObservation(c: C.Config, turns: seq<Turn>, n: nat)
    requires n < |turns|
    ensures var p, all := |Ops(turns[..n])|, C.LogOps(c, Ops(turns));
      p < |all| && all[..p + 1] == C.LogOps(c, Ops(turns[..n]) + [C.Correlate(turns[n].x)])
  {
    OpsThroughObservation(turns, n);
    LogThrough(c, Ops(turns), Ops(turns[..n]), C.Correlate(turns[n].x));
  }

  lemma {:induction false} LogThrough(c: C.Config, ops: seq<C.Op>, before: seq<C.Op>, op: C.Op)
    requires |before| < |ops| && ops[..|before| + 1] == before + [op]
    ensures |before| < |C.LogOps(c, ops)| && C.LogOps(c, ops)[..|before| + 1] == C.LogOps(c, before + [op])
  {
    C.LogOpsPrefix(c, ops, |before| + 1);
  }

  lemma {:induction false} SeenWithObservation(c: C.Config, turns: seq<Turn>, n: nat, k: string)
    requires n < |turns|
    ensures L.Under(C.LogOps(c, Ops(turns[..n]) + [C.Correlate(turns[n].x)]), k) == Seen(c, turns[..n + 1], k)
  {
    UnderSnoc(c, Ops(turns[..n]), C.Correlate(turns[n].x), k);
    SeenSnoc(c, turns, n, k);
  }

  // ---- The agreement ----

  ghost predicate Assumptions(c: C.Config, first: Store, turns: seq<Turn>) {
    IsRun(c, first, turns) && GoodSink(first, turns) && GoodInputs(c, turns) && CollisionFree(c, turns)
  }

  // The feedback so far was an echo.
  ghost predicate Echoed(c: C.Config, turns: seq<Turn>, n: nat)
    requires n <= |turns|
  {
    |Ops(turns[..n])| <= |C.LogOps(c, Ops(turns))| && L.Echoing(C.LogOps(c, Ops(turns)), |Ops(turns[..n])|)
  }

  // Everything stored is counted, or was there at first.
  ghost predicate Sound(c: C.Config, first: Store, turns: seq<Turn>, n: nat)
    requires n <= |turns|
  {
    StoreSound(Family(c, turns[..n]), first, StoreAfter(first, turns[..n]))
  }

  // What the cache remembers of a key that is observed in this run.
  lemma CacheAt(c: C.Config, turns: seq<Turn>, n: nat, k: string)
    requires n <= |turns| && GoodInputs(c, turns) && Echoed(c, turns, n) && Seen(c, turns, k) != []
    ensures var seen, log := Seen(c, turns[..n], k), MapsAt(c, turns, n).log;
      if seen == [] then k !in log
      else
        k in log && log[k].count == |seen| &&
        log[k].name == seen[0].name && log[k].firstTimestamp == seen[0].firstTimestamp
  {
    StagePrefix(c, turns, n);
    SeenPrefix(c, turns, n, k);
    L.CacheCounts(C.LogOps(c, Ops(turns)), |Ops(turns[..n])|, k);
  }

  // The event a turn forwards counts all observations of its key, this one included.
  lemma ForwardedIsCounted(c: C.Config, turns: seq<Turn>, n: nat)
    requires n < |turns| && GoodInputs(c, turns) && Echoed(c, turns, n)
    ensures var k, e := KeyAt(c, turns, n), C.ObservedIn(c, MapsAt(c, turns, n), turns[n].x);
      var l := MapLookup(MapsAt(c, turns, n).log, k);
      var p := L.PatchFor(l, C.OutcomeIn(c, MapsAt(c, turns, n), turns[n].x).event);
      Counted(Seen(c, turns[..n + 1], k), e) &&
      (e.count > 1 ==> p == L.Patch(e.count, e.lastTimestamp, e.message))
  {
    var k, o := KeyAt(c, turns, n), C.OutcomeIn(c, MapsAt(c, turns, n), turns[n].x);
    SeenSnoc(c, turns, n, k);
    SeenPrefix(c, turns, n + 1, k);
    CacheAt(c, turns, n, k);
    ObservationAt(c, turns, n);
    assert |Seen(c, turns, k)| < 0x8000_0000;
    assert o.event.count == 1;
  }

  lemma SoundMonotone(c: C.Config, first: Store, turns: seq<Turn>, n: nat, s: Store)
    requires n < |turns| && StoreSound(Family(c, turns[..n]), first, s)
    ensures StoreSound(Family(c, turns[..n + 1]), first, s)
  {
    var f, g := Family(c, turns[..n]), Family(c, turns[..n + 1]);
    forall name | name in s && name !in first ensures s[name].name == name && exists k :: StemsFrom(g(k), s[name]) {
      var k :| StemsFrom(f(k), s[name]);
      SeenSnoc(c, turns, n, k);
      StemsMonotone(f(k), g(k), s[name]);
    }
  }

  lemma InOrderIsFor(e: Event, p: L.Patch, ex: seq<Exchange>, i: nat)
    requires InOrder(e, p, ex) && i < |ex|
    requires e.count > 1 ==> p == L.Patch(e.count, e.lastTimestamp, e.message)
    ensures CallFor(e, ex[i].call)
  {
    assert CallInOrder(e, p, ex, i);
  }

  // What a turn leaves behind, call by call.
  lemma TurnIsCounted(c: C.Config, first: Store, turns: seq<Turn>, n: nat, i: nat)
    requires n < |turns| && Assumptions(c, first, turns) && Echoed(c, turns, n) && Sound(c, first, turns, n) &&
      i <= |turns[n].ex|
    ensures var s, ex, seen := StoreAfter(first, turns[..n]), turns[n].ex, Seen(c, turns[..n + 1], KeyAt(c, turns, n));
      StoreSound(Family(c, turns[..n + 1]), first, After(s, ex[..i])) &&
      (i > 0 ==> NeverDrops(After(s, ex[..i - 1]), After(s, ex[..i])) &&
                 (ex[i - 1].reply.Ok? ==> Confirms(seen, After(s, ex[..i]), ex[i - 1].reply.event)))
  {
    var s, ex, k := StoreAfter(first, turns[..n]), turns[n].ex, KeyAt(c, turns, n);
    var f := Family(c, turns[..n + 1]);
    SoundMonotone(c, first, turns, n, s);
    assert TurnAt(c, first, turns, n);
    if i > 0 {
      var e := C.ObservedIn(c, MapsAt(c, turns, n), turns[n].x);
      var p := L.PatchFor(MapLookup(MapsAt(c, turns, n).log, k), C.OutcomeIn(c, MapsAt(c, turns, n), turns[n].x).event);
      assert Conversation(s, e, p, ex);
      ForwardedIsCounted(c, turns, n);
      forall j | 0 <= j < |ex| ensures CallFor(e, ex[j].call) { InOrderIsFor(e, p, ex, j); }
      UniquePrefix(c, turns, n + 1);
      ConversationIsCounted(f, k, first, s, e, ex, i);
    }
  }

  // The feedback of a confirmed write is an echo.
  lemma {:induction false} ConfirmationEchoes(c: C.Config, turns: seq<Turn>, n: nat, t: Store)
    requires n < |turns| && GoodInputs(c, turns) && CollisionFree(c, turns) && Succeeded(turns[n].ex)
    requires Confirms(Seen(c, turns[..n + 1], KeyAt(c, turns, n)), t, turns[n].ex[|turns[n].ex| - 1].reply.event)
    ensures var p, all := |Ops(turns[..n])|, C.LogOps(c, Ops(turns)); p + 1 < |all| && L.EchoAt(all, p + 1)
  {
    var k, r := KeyAt(c, turns, n), turns[n].ex[|turns[n].ex| - 1].reply.event;
    FeedbackAt(c, turns, n);
    SeenAtFeedback(c, turns, n, k);
    SeenPrefix(c, turns, n + 1, k);
    ConfirmedKey(c, turns, n, r);
    ConfirmedCounts(Seen(c, turns[..n + 1], k), t, r);
    EchoOf(C.LogOps(c, Ops(turns)), |Ops(turns[..n])| + 1, r, k);
  }

  lemma ConfirmedCounts(seen: seq<Event>, t: Store, r: Event)
    requires Confirms(seen, t, r) && |seen| < 0x8000_0000
    ensures seen != [] && L.CountsLast(seen, L.LogOf(r))
  {
  }

  lemma {:induction false} EchoOf(all: seq<L.Op>, i: nat, r: Event, k: string)
    requires i < |all| && all[i] == L.Feedback(r)
    requires L.Under(all[..i], k) != [] && L.CountsLast(L.Under(all[..i], k), L.LogOf(r))
    requires EventKey(r) == k || L.Under(all, EventKey(r)) == []
    ensures L.EchoAt(all, i)
  {
  }

  // Its key is the one that was observed, or is no observation's.
  lemma {:induction false} ConfirmedKey(c: C.Config, turns: seq<Turn>, n: nat, r: Event)
    requires n < |turns| && CollisionFree(c, turns) && StemsFrom(Seen(c, turns[..n + 1], KeyAt(c, turns, n)), r)
    ensures EventKey(r) == KeyAt(c, turns, n) || Seen(c, turns, EventKey(r)) == []
  {
    var k := KeyAt(c, turns, n);
    var seen, all := Seen(c, turns[..n + 1], k), Seen(c, turns, k);
    SeenPrefix(c, turns, n + 1, k);
    var g, h := StemKey(seen, r);
    assert seen[g] == all[g] && seen[h] == all[h];
  }

  lemma StemKey(seen: seq<Event>, r: Event) returns (g: nat, h: nat)
    requires StemsFrom(seen, r)
    ensures g < |seen| && h < |seen| && EventKey(r) == EventKey(seen[g].(message := seen[h].message))
  {
    g :| 0 <= g < |seen| && SameIdentity(r, seen[g]);
    h :| 0 <= h < |seen| && r.message == seen[h].message;
  }

  lemma {:induction false} EchoedObservation(c: C.Config, turns: seq<Turn>, n: nat)
    requires n < |turns| && Echoed(c, turns, n)
    ensures var p, all := |Ops(turns[..n])|, C.LogOps(c, Ops(turns)); p < |all| && L.Echoing(all, p + 1)
  {
    ObservationAt(c, turns, n);
    L.EchoingNext(C.LogOps(c, Ops(turns)), |Ops(turns[..n])|);
  }

  lemma EchoedFailure(c: C.Config, turns: seq<Turn>, n: nat)
    requires n < |turns| && Echoed(c, turns, n) && !Succeeded(turns[n].ex)
    ensures Echoed(c, turns, n + 1)
  {
    EchoedObservation(c, turns, n);
    OpsSnoc(turns, n);
  }

  lemma {:induction false} EchoedSuccess(c: C.Config, turns: seq<Turn>, n: nat)
    requires n < |turns| && Echoed(c, turns, n) && Succeeded(turns[n].ex)
    requires var p, all := |Ops(turns[..n])|, C.LogOps(c, Ops(turns)); p + 1 < |all| && L.EchoAt(all, p + 1)
    ensures Echoed(c, turns, n + 1)
  {
    EchoedObservation(c, turns, n);
    FeedbackAt(c, turns, n);
    EchoedFeedback(C.LogOps(c, Ops(turns)), |Ops(turns[..n])|);
  }

  lemma EchoedFeedback(all: seq<L.Op>, p: nat)
    requires p + 1 < |all| && L.Echoing(all, p + 1) && L.EchoAt(all, p + 1)
    ensures L.Echoing(all, p + 2)
  {
    L.EchoingNext(all, p + 1);
  }

  lemma SoundNext(c: C.Config, first: Store, turns: seq<Turn>, n: nat)
    requires n < |turns| && Assumptions(c, first, turns) && Echoed(c, turns, n) && Sound(c, first, turns, n)
    ensures Sound(c, first, turns, n + 1)
  {
    StoreSnoc(first, turns, n);
    TurnIsCounted(c, first, turns, n, |turns[n].ex|);
  }

  lemma StoreSnoc(first: Store, turns: seq<Turn>, n: nat)
    requires n < |turns|
    ensures var ex := turns[n].ex;
      StoreAfter(first, turns[..n + 1]) == After(StoreAfter(first, turns[..n]), ex) && ex[..|ex|] == ex
  {
    assert turns[..n + 1][..n] == turns[..n];
  }

  lemma TurnConfirms(c: C.Config, first: Store, turns: seq<Turn>, n: nat)
    requires n < |turns| && Assumptions(c, first, turns) && Echoed(c, turns, n) && Sound(c, first, turns, n) &&
      Succeeded(turns[n].ex)
    ensures Confirms(Seen(c, turns[..n + 1], KeyAt(c, turns, n)), StoreAfter(first, turns[..n + 1]),
                     turns[n].ex[|turns[n].ex| - 1].reply.event)
  {
    StoreSnoc(first, turns, n);
    TurnIsCounted(c, first, turns, n, |turns[n].ex|);
  }

  lemma EchoedNext(c: C.Config, first: Store, turns: seq<Turn>, n: nat)
    requires n < |turns| && Assumptions(c, first, turns) && Echoed(c, turns, n) && Sound(c, first, turns, n)
    ensures Echoed(c, turns, n + 1)
  {
    if Succeeded(turns[n].ex) {
      TurnConfirms(c, first, turns, n);
      ConfirmationEchoes(c, turns, n, StoreAfter(first, turns[..n + 1]));
      EchoedSuccess(c, turns, n);
    } else {
      EchoedFailure(c, turns, n);
    }
  }

  lemma {:induction false} RunAgrees(c: C.Config, first: Store, turns: seq<Turn>, n: nat)
    requires n <= |turns| && Assumptions(c, first, turns)
    ensures Echoed(c, turns, n) && Sound(c, first, turns, n)
  {
    if n > 0 {
      RunAgrees(c, first, turns, n - 1);
      SoundNext(c, first, turns, n - 1);
      EchoedNext(c, first, turns, n - 1);
    }
  }

  // Every observation is counted under its key, with the name and the first timestamp of the first
  // one: also those the spam filter skipped and those whose write failed.
  lemma RecorderCounts(c: C.Config, first: Store, turns: seq<Turn>, n: nat)
    requires n < |turns| && Assumptions(c, first, turns)
    ensures var seen := Seen(c, turns[..n + 1], KeyAt(c, turns, n));
      var e := C.ObservedIn(c, MapsAt(c, turns, n), turns[n].x);
      seen != [] && e.count == |seen| && e.name == seen[0].name && e.firstTimestamp == seen[0].firstTimestamp
  {
    RunAgrees(c, first, turns, n);
    ForwardedIsCounted(c, turns, n);
  }

  // A successful write leaves the stored count equal to the number of observations of its key, with
  // the name and time of the first of them and the message and time of the last.
  lemma WriteAgrees(c: C.Config, first: Store, turns: seq<Turn>, n: nat)
    requires n < |turns| && Assumptions(c, first, turns) && Succeeded(turns[n].ex)
    ensures var s, name := StoreAfter(first, turns[..n + 1]), turns[n].ex[|turns[n].ex| - 1].reply.event.name;
      var seen := Seen(c, turns[..n + 1], KeyAt(c, turns, n));
      seen != [] && name in s && name == seen[0].name && s[name].count == |seen| &&
      s[name].firstTimestamp == seen[0].firstTimestamp && UpToDate(s[name], seen[|seen| - 1])
  {
    RunAgrees(c, first, turns, n);
    TurnConfirms(c, first, turns, n);
  }

  // No sink call lowers the count of a name, not even a create after the entry expired.
  lemma StoredNeverDrops(c: C.Config, first: Store, turns: seq<Turn>, n: nat, i: nat)
    requires n < |turns| && Assumptions(c, first, turns) && i < |turns[n].ex|
    ensures var s, ex := StoreAfter(first, turns[..n]), turns[n].ex;
      NeverDrops(After(s, ex[..i]), After(s, ex[..i + 1]))
  {
    RunAgrees(c, first, turns, n);
    TurnIsCounted(c, first, turns, n, i + 1);
  }

  // Apart from what was there at first, a stored count never exceeds the count the cache remembers
  // for that name.
  lemma StoredBelowCached(c: C.Config, first: Store, turns: seq<Turn>, n: nat, name: string) returns (k: string)
    requires n <= |turns| && Assumptions(c, first, turns) && name in StoreAfter(first, turns[..n]) && name !in first
    ensures var s, log := StoreAfter(first, turns[..n]), MapsAt(c, turns, n).log;
      k in log && log[k].name == name && 1 <= s[name].count <= log[k].count
  {
    RunAgrees(c, first, turns, n);
    var f, s := Family(c, turns[..n]), StoreAfter(first, turns[..n]);
    k :| StemsFrom(f(k), s[name]);
    SeenPrefix(c, turns, n, k);
    CacheAt(c, turns, n, k);
  }

  // What was there at first stays as it was, until it expires.
  lemma FirstStaysUntouched(c: C.Config, first: Store, turns: seq<Turn>, n: nat, name: string)
    requires n <= |turns| && Assumptions(c, first, turns) && name in first
    ensures var s := StoreAfter(first, turns[..n]); name in s ==> s[name] == first[name]
  {
    RunAgrees(c, first, turns, n);
  }

  // ---- The same for the bounded caches of the correlator ----

  // What RecordToSink promises of a turn, in the words of its own caches.
  ghost predicate CachedTurnFrom(c: C.Config, s: Store, turns: seq<Turn>, n: nat)
    requires n < |turns|
  {
    Speaks(C.ResultCached(c, C.RunCached(c, Ops(turns[..n])), turns[n].x), StoreAfter(s, turns[..n]), turns[n].ex)
  }

  lemma {:induction false} SameDecision(c: C.Config, turns: seq<Turn>, n: nat)
    requires n < |turns| && C.Fits(c, C.Run(c, Ops(turns)))
    ensures C.ResultCached(c, C.RunCached(c, Ops(turns[..n])), turns[n].x) ==
      C.ResultIn(c, C.Run(c, Ops(turns[..n])), turns[n].x)
  {
    OpsThroughObservation(turns, n);
    var ops, before := Ops(turns), Ops(turns[..n]);
    var p := |before|;
    assert ops[p] == ops[..p + 1][p];
    assert before == ops[..p + 1][..p] == ops[..p];
    C.LruRefinement(c, ops, p);
  }

  // When the keys fit the caches, the recorder runs as if they were unbounded.
  lemma {:induction false} CachedRunIsRun(c: C.Config, first: Store, turns: seq<Turn>)
    requires forall n :: 0 <= n < |turns| ==> CachedTurnFrom(c, first, turns, n)
    requires C.Fits(c, C.Run(c, Ops(turns)))
    ensures IsRun(c, first, turns)
  {
    forall n | 0 <= n < |turns| ensures TurnAt(c, first, turns, n) {
      assert CachedTurnFrom(c, first, turns, n);
      SameDecision(c, turns, n);
    }
  }
}
