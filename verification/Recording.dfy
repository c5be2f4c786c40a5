// A whole recording: StartRecordingToSink feeds the events of its watch, one at a time, to
// recordToSink, with one correlator and one sink.
module Recording {
  import opened Events
  import opened Recorder
  import opened SinkAgreement
  import A = Aggregator
  import C = Correlator

  // An event and the readings of the clock while it is correlated.
  datatype Arrival = Arrival(event: Event, now: Time, acceptAt: Time)

  // The turns answer to the arrivals, each as recordToSink promises, from the given store on.
  ghost predicate Records(c: C.Config, s: Store, arrivals: seq<Arrival>, turns: seq<Turn>) {
    |turns| <= |arrivals| &&
    forall n :: 0 <= n < |turns| ==> CachedTurnFrom(c, s, turns, n) && Answers(turns[n], arrivals[n])
  }

  ghost predicate Answers(t: Turn, a: Arrival) {
    t.x == C.Input(a.event, a.now, a.acceptAt, t.x.hint)
  }

  lemma {:induction false} RunCachedSnoc(c: C.Config, ops: seq<C.Op>, op: C.Op)
    ensures C.RunCached(c, ops + [op]) == C.StepCached(c, C.RunCached(c, ops), op)
  {
    assert (ops + [op])[..|ops|] == ops;
  }

  // What a turn makes of the caches of the correlator.
  ghost function CachesAfter(c: C.Config, s: C.Caches, t: Turn): C.Caches {
    var mid := C.StepCached(c, s, C.Correlate(t.x));
    if Succeeded(t.ex) then C.StepCached(c, mid, C.Update(t.ex[|t.ex| - 1].reply.event)) else mid
  }

  lemma {:induction false} TurnSnoc(c: C.Config, turns: seq<Turn>, t: Turn)
    ensures C.RunCached(c, Ops(turns + [t])) == CachesAfter(c, C.RunCached(c, Ops(turns)), t)
  {
    assert (turns + [t])[..|turns|] == turns;
    var ops, op := Ops(turns), C.Correlate(t.x);
    RunCachedSnoc(c, ops, op);
    if Succeeded(t.ex) {
      var feedback := C.Update(t.ex[|t.ex| - 1].reply.event);
      RunCachedSnoc(c, ops + [op], feedback);
      assert ops + OpsOf(t) == (ops + [op]) + [feedback];
    } else {
      assert ops + OpsOf(t) == ops + [op];
    }
  }

  lemma {:induction false} StoreAfterSnoc(s: Store, turns: seq<Turn>, t: Turn)
    ensures StoreAfter(s, turns + [t]) == After(StoreAfter(s, turns), t.ex)
  {
    assert (turns + [t])[..|turns|] == turns;
  }

  lemma CachedTurnKept(c: C.Config, s: Store, turns: seq<Turn>, t: Turn, n: nat)
    requires n < |turns| && CachedTurnFrom(c, s, turns, n)
    ensures CachedTurnFrom(c, s, turns + [t], n)
  {
    assert (turns + [t])[..n] == turns[..n];
  }

  lemma {:induction false} RecordsSnoc(c: C.Config, s: Store, arrivals: seq<Arrival>, turns: seq<Turn>, t: Turn)
    requires Records(c, s, arrivals, turns) && |turns| < |arrivals| && Answers(t, arrivals[|turns|])
    requires Speaks(C.ResultCached(c, C.RunCached(c, Ops(turns)), t.x), StoreAfter(s, turns), t.ex)
    ensures Records(c, s, arrivals, turns + [t])
  {
    var all := turns + [t];
    forall n | 0 <= n < |all| ensures CachedTurnFrom(c, s, all, n) && Answers(all[n], arrivals[n]) {
      if n < |turns| {
        assert CachedTurnFrom(c, s, turns, n) && Answers(turns[n], arrivals[n]);
        CachedTurnKept(c, s, turns, t, n);
      } else {
        assert all[..n] == turns && all[n] == t;
      }
    }
  }

  // One event recorded, as a turn.
  method RecordOne(sink: Sink, correlator: C.EventCorrelator, a: Arrival, cancelled: nat -> bool)
    returns (ghost t: Turn)
    requires sink.Valid() && correlator.Valid() && C.Admits(correlator.config, correlator.State(), a.event, a.now)
    modifies sink, correlator.logger, correlator.aggregator, correlator.aggregator.sets, correlator.filter
    ensures sink.Valid() && correlator.Valid() && fresh(correlator.aggregator.sets - old(correlator.aggregator.sets))
    ensures Answers(t, a)
    ensures Speaks(C.ResultCached(correlator.config, old(correlator.State()), t.x), old(sink.store), t.ex)
    ensures correlator.State() == CachesAfter(correlator.config, old(correlator.State()), t)
    ensures sink.store == After(old(sink.store), t.ex)
  {
    var attempts, hint, ex := RecordToSink(sink, a.event, correlator, a.now, a.acceptAt, cancelled);
    t := Turn(C.Input(a.event, a.now, a.acceptAt, hint), ex);
  }

  // The sink and the correlator are as these turns leave them.
  ghost predicate InSync(sink: Sink, correlator: C.EventCorrelator, s: Store, arrivals: seq<Arrival>, turns: seq<Turn>)
    reads sink, correlator.aggregator, correlator.aggregator.sets, correlator.logger, correlator.filter
  {
    sink.Valid() && correlator.Valid() && Records(correlator.config, s, arrivals, turns) &&
    correlator.State() == C.RunCached(correlator.config, Ops(turns)) && sink.store == StoreAfter(s, turns)
  }

  method RecordNext(sink: Sink, correlator: C.EventCorrelator, a: Arrival, cancelled: nat -> bool,
                    ghost s: Store, ghost arrivals: seq<Arrival>, ghost turns: seq<Turn>)
    returns (ghost t: Turn)
    requires InSync(sink, correlator, s, arrivals, turns)
    requires C.Admits(correlator.config, correlator.State(), a.event, a.now)
    requires |turns| < |arrivals| && arrivals[|turns|] == a
    modifies sink, correlator.logger, correlator.aggregator, correlator.aggregator.sets, correlator.filter
    ensures InSync(sink, correlator, s, arrivals, turns + [t])
    ensures fresh(correlator.aggregator.sets - old(correlator.aggregator.sets))
  {
    t := RecordOne(sink, correlator, a, cancelled);
    RecordsSnoc(correlator.config, s, arrivals, turns, t);
    TurnSnoc(correlator.config, turns, t);
    StoreAfterSnoc(s, turns, t);
  }

  // The clock is late enough for a key that is not cached.
  predicate LateEnough(c: C.Config, arrivals: seq<Arrival>) {
    forall i :: 0 <= i < |arrivals| ==> A.Expired(c.agg, ZERO_TIME, arrivals[i].now)
  }

  lemma LateIsAdmitted(c: C.Config, s: C.Caches, arrivals: seq<Arrival>, i: nat)
    requires LateEnough(c, arrivals) && i < |arrivals|
    ensures C.Admits(c, s, arrivals[i].event, arrivals[i].now)
  {
  }

  // All events recorded, from a correlator that has seen nothing.
  method RecordAll(sink: Sink, correlator: C.EventCorrelator, arrivals: seq<Arrival>, cancelled: nat -> (nat -> bool))
    returns (ghost turns: seq<Turn>)
    requires InSync(sink, correlator, sink.store, arrivals, []) && LateEnough(correlator.config, arrivals)
    modifies sink, correlator.logger, correlator.aggregator, correlator.aggregator.sets, correlator.filter
    ensures |turns| == |arrivals| && InSync(sink, correlator, old(sink.store), arrivals, turns)
  {
    ghost var s := sink.store;
    turns := [];
    for i := 0 to |arrivals|
      invariant |turns| == i && InSync(sink, correlator, s, arrivals, turns)
      invariant fresh(correlator.aggregator.sets - old(correlator.aggregator.sets))
    {
      LateIsAdmitted(correlator.config, correlator.State(), arrivals, i);
      ghost var t := RecordNext(sink, correlator, arrivals[i], cancelled(i), s, arrivals, turns);
      turns := turns + [t];
    }
  }

  // cancelled(i) says when the recorder is shut down while it retries the i-th event.
  method StartRecordingToSink(options: C.Options, sink: Sink, arrivals: seq<Arrival>, cancelled: nat -> (nat -> bool))
    returns (correlator: C.EventCorrelator, ghost turns: seq<Turn>)
    requires sink.Valid() && LateEnough(C.Configured(options), arrivals)
    modifies sink
    ensures sink.Valid() && correlator.Valid() && correlator.config == C.Configured(options)
    ensures |turns| == |arrivals| && Records(correlator.config, old(sink.store), arrivals, turns)
    ensures correlator.State() == C.RunCached(correlator.config, Ops(turns))
    ensures sink.store == StoreAfter(old(sink.store), turns)
  {
    correlator := new C.EventCorrelator(options);
    turns := RecordAll(sink, correlator, arrivals, cancelled);
  }

  // A recording with keys that fit the caches, into a sink that keeps its contract and stored other
  // events at first, is a run to which the agreement between the cache and the sink applies: every
  // write that succeeds leaves the stored count equal to the number of observations of its key.
  lemma {:induction false} RecordingAgrees(c: C.Config, first: Store, arrivals: seq<Arrival>, turns: seq<Turn>, n: nat)
    requires Records(c, first, arrivals, turns) && C.Fits(c, C.Run(c, Ops(turns)))
    requires GoodSink(first, turns) && GoodInputs(c, turns) && CollisionFree(c, turns)
    requires n < |turns| && Succeeded(turns[n].ex)
    ensures var s, name := StoreAfter(first, turns[..n + 1]), turns[n].ex[|turns[n].ex| - 1].reply.event.name;
      name in s && s[name].count == |Seen(c, turns[..n + 1], KeyAt(c, turns, n))|
  {
    CachedRunIsRun(c, first, turns);
    WriteAgrees(c, first, turns, n);
  }
}
