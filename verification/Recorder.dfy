// Writing events to the sink: recordEvent and recordToSink, with the sink as an abstract store.
module Recorder {
  import opened Events
  import L = EventLogger
  import C = Correlator

  const MAX_TRIES_PER_EVENT := 12

  // ---- The sink: a store from event names to events ----

  type Store = map<string, Event>

  // The classes of error recordEvent tells apart.
  datatype ClientError = RequestConstruction | Status(notFound: bool) | UnexpectedObject | Transport

  datatype Reply = Ok(event: Event) | Err(error: ClientError)

  datatype Call = Create(event: Event) | Patch(event: Event, patch: L.Patch)

  // What the world does around one call: first some stored events expire; then the server handles
  // the request, or handles it and the answer is lost, or the request fails without effect.  Or the
  // server keeps no contract at all: it stores and answers anything.
  datatype Verdict = Serve | Lose | Fail(error: ClientError) | Anything(store: Store, reply: Reply)
  datatype Answer = Answer(expired: set<string>, resourceVersion: string, verdict: Verdict)

  // The contract assumed of the server: it refuses to create what exists or what carries a
  // resource version, answers "not found" to a patch of what does not exist, and otherwise stores
  // and echoes the event under a new resource version.
  function Handle(s: Store, call: Call, rv: string): (Store, Reply) {
    match call
    case Create(e) =>
      if e.name in s || e.resourceVersion != "" then (s, Err(Status(false)))
      else
        var stored := e.(resourceVersion := rv);
        (s[e.name := stored], Ok(stored))
    case Patch(e, p) =>
      if e.name !in s then (s, Err(Status(true)))
      else
        var stored := L.ApplyPatch(s[e.name], p).(resourceVersion := rv);
        (s[e.name := stored], Ok(stored))
  }

  function Respond(s: Store, call: Call, a: Answer): (Store, Reply) {
    var left := s - a.expired;
    match a.verdict
    case Serve => Handle(left, call, a.resourceVersion)
    case Lose => (Handle(left, call, a.resourceVersion).0, Err(Transport))
    case Fail(error) => (left, Err(error))
    case Anything(store, reply) => (store, reply)
  }

  datatype Exchange = Exchange(call: Call, answer: Answer, reply: Reply)

  ghost function After(s: Store, ex: seq<Exchange>): Store {
    if ex == [] then s
    else Respond(After(s, ex[..|ex| - 1]), ex[|ex| - 1].call, ex[|ex| - 1].answer).0
  }

  // The i-th reply is the sink's.
  ghost predicate FaithfulAt(s: Store, ex: seq<Exchange>, i: nat)
    requires i < |ex|
  {
    ex[i].reply == Respond(After(s, ex[..i]), ex[i].call, ex[i].answer).1
  }

  ghost predicate Faithful(s: Store, ex: seq<Exchange>) {
    forall i :: 0 <= i < |ex| ==> FaithfulAt(s, ex, i)
  }

  // The server keeps the contract in these calls.
  ghost predicate Lawful(ex: seq<Exchange>) {
    forall i :: 0 <= i < |ex| ==> !ex[i].answer.verdict.Anything?
  }

  class Sink {
    const script: nat -> Answer
    var store: Store
    ghost const first: Store
    ghost var history: seq<Exchange>
    var calls: nat

    ghost predicate Valid()
      reads this
    {
      calls == |history| && store == After(first, history)
    }

    constructor (script: nat -> Answer, store: Store)
      ensures Valid() && this.script == script && this.store == store == first && history == []
    {
      this.script, this.store, first := script, store, store;
      calls, history := 0, [];
    }

    method Do(call: Call) returns (reply: Reply, ghost x: Exchange)
      requires Valid()
      modifies this
      ensures Valid()
      ensures x == Exchange(call, script(old(calls)), reply)
      ensures history == old(history) + [x]
      ensures (store, reply) == Respond(old(store), call, x.answer)
    {
      var answer := script(calls);
      var r := Respond(store, call, answer);
      store, reply := r.0, r.1;
      x := Exchange(call, answer, reply);
      history := history + [x];
      calls := calls + 1;
      assert history[..|history| - 1] == old(history);
    }
  }

  // ---- The discipline of the writes ----

  // The same event as the given one, up to the resource version that a create blanks.
  ghost predicate SameButVersion(a: Event, b: Event) {
    a.(resourceVersion := b.resourceVersion) == b
  }

  // The k-th sink call for an event: patches only when the count says the event was written
  // before, and creates only otherwise or after a patch that found nothing.
  ghost predicate CallInOrder(e: Event, p: L.Patch, ex: seq<Exchange>, k: nat)
    requires k < |ex|
  {
    match ex[k].call
    case Patch(event, patch) => e.count > 1 && patch == p && SameButVersion(event, e)
    case Create(event) =>
      SameButVersion(event, e) && event.resourceVersion == "" &&
      (e.count > 1 ==> k > 0 && ex[k - 1].call.Patch? && ex[k - 1].reply == Err(Status(true)))
  }

  ghost predicate InOrder(e: Event, p: L.Patch, ex: seq<Exchange>) {
    forall k :: 0 <= k < |ex| ==> CallInOrder(e, p, ex, k)
  }

  // A call after which another one follows: it failed on the way or was answered by something
  // unexpected, or it is a patch that found nothing.
  predicate GoesOn(x: Exchange) {
    x.reply.Err? &&
    match x.reply.error
    case Transport => true
    case UnexpectedObject => true
    case Status(notFound) => notFound && x.call.Patch?
    case RequestConstruction => false
  }

  ghost predicate AllGoOn(ex: seq<Exchange>) {
    forall i :: 0 <= i < |ex| ==> GoesOn(ex[i])
  }

  // A call that ends it: it succeeded, it could not be made, or the server refused it.
  predicate Ends(x: Exchange) {
    match x.reply
    case Ok(_) => true
    case Err(RequestConstruction) => true
    case Err(Status(notFound)) => !(notFound && x.call.Patch?)
    case _ => false
  }

  ghost predicate Succeeded(ex: seq<Exchange>) {
    ex != [] && ex[|ex| - 1].reply.Ok?
  }

  // Everything recordToSink may say to the sink about one event, from a given store: at most 24
  // calls, each after the first only because the one before it calls for it.
  ghost predicate Conversation(s: Store, e: Event, p: L.Patch, ex: seq<Exchange>) {
    Faithful(s, ex) && InOrder(e, p, ex) && 1 <= |ex| <= 24 && AllGoOn(ex[..|ex| - 1])
  }

  ghost predicate NotCancelled(cancelled: nat -> bool, tries: nat) {
    forall k :: 0 < k <= tries ==> !cancelled(k)
  }

  // It ended in time, or for one of these reasons.
  ghost predicate EndedFor(ex: seq<Exchange>, attempts: nat, cancelled: nat -> bool)
    requires ex != []
  {
    1 <= attempts <= 12 && |ex| <= 2 * attempts && NotCancelled(cancelled, attempts - 1) &&
    (Ends(ex[|ex| - 1]) || attempts == 12 || cancelled(attempts))
  }

  predicate Terminal(error: ClientError) {
    error.RequestConstruction? || error.Status?
  }

  // Whether to stop trying after these calls.
  predicate Finished(reply: Reply) {
    reply.Ok? || Terminal(reply.error)
  }

  // One attempt: a single call, or a patch that found nothing followed by a create.
  ghost predicate Attempt(e: Event, p: L.Patch, update: bool, ex: seq<Exchange>) {
    1 <= |ex| <= 2 &&
    ex[0].call == (if update then Patch(e, p) else Create(e.(resourceVersion := ""))) &&
    (|ex| == 2 <==> update && ex[0].reply == Err(Status(true))) &&
    (|ex| == 2 ==> ex[1].call == Create(e.(resourceVersion := "")))
  }

  lemma {:induction false} AfterSplit(s: Store, a: seq<Exchange>, b: seq<Exchange>)
    ensures After(s, a + b) == After(After(s, a), b)
  {
    if b != [] {
      AfterSplit(s, a, b[..|b| - 1]);
      assert (a + b)[..|a + b| - 1] == a + b[..|b| - 1];
    } else {
      assert a + b == a;
    }
  }

  lemma {:induction false} SingleExchange(s: Store, x: Exchange)
    requires x.reply == Respond(s, x.call, x.answer).1
    ensures Faithful(s, [x]) && After(s, [x]) == Respond(s, x.call, x.answer).0
  {
    assert [x][..0] == [];
  }

  lemma {:induction false} FaithfulSplit(s: Store, a: seq<Exchange>, b: seq<Exchange>)
    requires Faithful(s, a) && Faithful(After(s, a), b)
    ensures Faithful(s, a + b)
  {
    forall i | 0 <= i < |a + b| ensures FaithfulAt(s, a + b, i) {
      if i < |a| {
        assert FaithfulAt(s, a, i) && (a + b)[..i] == a[..i];
      } else {
        assert FaithfulAt(After(s, a), b, i - |a|) && (a + b)[..i] == a + b[..i - |a|];
        AfterSplit(s, a, b[..i - |a|]);
      }
    }
  }

  // An attempt keeps the discipline when it follows failed ones.
  lemma AttemptInOrder(e: Event, p: L.Patch, ex: seq<Exchange>, event: Event, more: seq<Exchange>)
    requires InOrder(e, p, ex) && SameButVersion(event, e) && Attempt(event, p, e.count > 1, more)
    ensures InOrder(e, p, ex + more)
  {
    forall k | 0 <= k < |ex + more| ensures CallInOrder(e, p, ex + more, k) {
      if k < |ex| {
        assert CallInOrder(e, p, ex, k);
        assert (ex + more)[k] == ex[k] && (k > 0 ==> (ex + more)[k - 1] == ex[k - 1]);
      } else {
        assert (ex + more)[k] == more[k - |ex|];
      }
    }
  }

  method RecordEvent(sink: Sink, event: Event, patch: L.Patch, updateExistingEvent: bool, correlator: C.EventCorrelator)
    returns (done: bool, after: Event, ghost ex: seq<Exchange>)
    requires sink.Valid() && correlator.Valid()
    modifies sink, correlator.logger
    ensures sink.Valid() && correlator.Valid()
    ensures sink.history == old(sink.history) + ex && sink.store == After(old(sink.store), ex)
    ensures Faithful(old(sink.store), ex) && Attempt(event, patch, updateExistingEvent, ex)
    ensures SameButVersion(after, event)
    ensures done <==> Ends(ex[|ex| - 1])
    ensures done <==> ex[|ex| - 1].reply !in {Err(Transport), Err(UnexpectedObject)}
    ensures var last := ex[|ex| - 1].reply;
      correlator.State() == if last.Ok?
        then C.StepCached(correlator.config, old(correlator.State()), C.Update(last.event))
        else old(correlator.State())
  {
    after, ex := event, [];
    ghost var x: Exchange;
    var reply := Err(Transport);
    if updateExistingEvent {
      reply, x := sink.Do(Patch(after, patch));
      ex := [x];
      SingleExchange(old(sink.store), x);
    }
    if !updateExistingEvent || reply == Err(Status(true)) {
      after := after.(resourceVersion := "");
      ghost var between := sink.store;
      reply, x := sink.Do(Create(after));
      SingleExchange(between, x);
      FaithfulSplit(old(sink.store), ex, [x]);
      AfterSplit(old(sink.store), ex, [x]);
      ex := ex + [x];
    }
    if reply.Ok? {
      correlator.UpdateState(reply.event);
    }
    done := Finished(reply);
  }

  // What has been said so far when every attempt failed.
  ghost predicate FailedSoFar(s: Store, e: Event, p: L.Patch, ex: seq<Exchange>, tries: nat) {
    Faithful(s, ex) && InOrder(e, p, ex) && AllGoOn(ex) && |ex| <= 2 * tries
  }

  lemma AttemptGoesOn(ex: seq<Exchange>, more: seq<Exchange>, event: Event, p: L.Patch, update: bool)
    requires AllGoOn(ex) && Attempt(event, p, update, more)
    ensures var all := ex + more;
      all[|all| - 1] == more[|more| - 1] && AllGoOn(all[..|all| - 1]) && (!Ends(more[|more| - 1]) ==> AllGoOn(all))
  {
    var all := ex + more;
    forall i | 0 <= i < |all| - 1 ensures GoesOn(all[i]) {
      if i < |ex| { assert all[i] == ex[i]; } else { assert all[i] == more[0]; }
    }
  }

  lemma {:induction false} OneMoreAttempt(
    s: Store, e: Event, p: L.Patch, ex: seq<Exchange>, event: Event, more: seq<Exchange>)
    requires Faithful(s, ex) && InOrder(e, p, ex) && SameButVersion(event, e)
    requires Attempt(event, p, e.count > 1, more) && Faithful(After(s, ex), more)
    ensures Faithful(s, ex + more) && InOrder(e, p, ex + more) && After(s, ex + more) == After(After(s, ex), more)
  {
    AttemptInOrder(e, p, ex, event, more);
    FaithfulSplit(s, ex, more);
    AfterSplit(s, ex, more);
  }

  // The loop after one more attempt: it goes on, or this was the last one.
  ghost predicate Looping(s: Store, e: Event, p: L.Patch, ex: seq<Exchange>, attempts: nat, cancelled: nat -> bool) {
    FailedSoFar(s, e, p, ex, attempts) && attempts < 12 && NotCancelled(cancelled, attempts)
  }

  ghost predicate Delivered(s: Store, e: Event, p: L.Patch, ex: seq<Exchange>, attempts: nat, cancelled: nat -> bool) {
    Conversation(s, e, p, ex) && EndedFor(ex, attempts, cancelled)
  }

  lemma NotCancelledNext(cancelled: nat -> bool, tries: nat)
    requires NotCancelled(cancelled, tries) && !cancelled(tries + 1)
    ensures NotCancelled(cancelled, tries + 1)
  {
  }

  lemma {:induction false} AttemptMade(
    s: Store, e: Event, p: L.Patch, ex: seq<Exchange>, tries: nat, cancelled: nat -> bool,
    event: Event, more: seq<Exchange>)
    requires Looping(s, e, p, ex, tries, cancelled) && SameButVersion(event, e)
    requires Attempt(event, p, e.count > 1, more) && Faithful(After(s, ex), more)
    ensures After(s, ex + more) == After(After(s, ex), more)
    ensures (ex + more)[|ex + more| - 1] == more[|more| - 1]
    ensures if Ends(more[|more| - 1]) || tries + 1 == 12 || cancelled(tries + 1)
            then Delivered(s, e, p, ex + more, tries + 1, cancelled)
            else Looping(s, e, p, ex + more, tries + 1, cancelled)
  {
    OneMoreAttempt(s, e, p, ex, event, more);
    AttemptGoesOn(ex, more, event, p, e.count > 1);
    var all := ex + more;
    assert 1 <= |all| <= 2 * (tries + 1);
    if Ends(more[|more| - 1]) || tries + 1 == 12 || cancelled(tries + 1) {
      assert Conversation(s, e, p, all);
      assert EndedFor(all, tries + 1, cancelled);
    } else {
      assert FailedSoFar(s, e, p, all, tries + 1);
      NotCancelledNext(cancelled, tries);
    }
  }

  // One attempt of the retry loop, after the given calls have failed.
  method AttemptOnce(sink: Sink, event: Event, patch: L.Patch, correlator: C.EventCorrelator, ghost s: Store,
                     ghost observed: Event, ghost ex: seq<Exchange>, ghost tries: nat, ghost cancelled: nat -> bool)
    returns (done: bool, after: Event, ghost all: seq<Exchange>)
    requires sink.Valid() && correlator.Valid() && sink.store == After(s, ex)
    requires Looping(s, observed, patch, ex, tries, cancelled) && SameButVersion(event, observed)
    modifies sink, correlator.logger
    ensures sink.Valid() && correlator.Valid() && SameButVersion(after, observed)
    ensures ex < all && sink.history == old(sink.history) + all[|ex|..] && sink.store == After(s, all)
    ensures done <==> Ends(all[|all| - 1])
    ensures if done || tries + 1 == 12 || cancelled(tries + 1)
            then Delivered(s, observed, patch, all, tries + 1, cancelled)
            else Looping(s, observed, patch, all, tries + 1, cancelled)
    ensures correlator.State() == Told(correlator.config, old(correlator.State()), all)
  {
    ghost var more;
    done, after, more := RecordEvent(sink, event, patch, event.count > 1, correlator);
    all := ex + more;
    AttemptMade(s, observed, patch, ex, tries, cancelled, event, more);
  }

  // The caches after these calls: they are told of the last one if it succeeded.
  ghost function Told(c: C.Config, before: C.Caches, ex: seq<Exchange>): C.Caches {
    if Succeeded(ex) then C.StepCached(c, before, C.Update(ex[|ex| - 1].reply.event)) else before
  }

  // The retry loop, against any sink whatsoever.  cancelled(k) says whether the recorder is shut down
  // while it waits after the k-th failed attempt.
  method Deliver(sink: Sink, observed: Event, patch: L.Patch, correlator: C.EventCorrelator, cancelled: nat -> bool)
    returns (attempts: nat, ghost ex: seq<Exchange>)
    requires sink.Valid() && correlator.Valid()
    modifies sink, correlator.logger
    ensures sink.Valid() && correlator.Valid()
    ensures sink.history == old(sink.history) + ex && sink.store == After(old(sink.store), ex)
    ensures Delivered(old(sink.store), observed, patch, ex, attempts, cancelled)
    ensures correlator.State() == Told(correlator.config, old(correlator.State()), ex)
  {
    ghost var s, mid := sink.store, correlator.State();
    var event := observed;
    attempts, ex := 0, [];
    while true
      invariant sink.Valid() && correlator.Valid() && correlator.State() == mid
      invariant sink.history == old(sink.history) + ex && sink.store == After(s, ex)
      invariant SameButVersion(event, observed) && Looping(s, observed, patch, ex, attempts, cancelled)
      decreases MAX_TRIES_PER_EVENT - attempts
    {
      var done, after, all := AttemptOnce(sink, event, patch, correlator, s, observed, ex, attempts, cancelled);
      assert !done ==> !Succeeded(all);
      ex, event, attempts := all, after, attempts + 1;
      if done || attempts >= MAX_TRIES_PER_EVENT || cancelled(attempts) {
        break;
      }
    }
  }

  // One event, from its arrival to the last call made for it: a skipped event makes no call; any
  // other is written at most once, by the last call, and only then is the cache told.
  method RecordToSink(sink: Sink, event: Event, correlator: C.EventCorrelator, now: Time, acceptAt: Time,
                      cancelled: nat -> bool)
    returns (attempts: nat, ghost hint: string, ghost ex: seq<Exchange>)
    requires sink.Valid() && correlator.Valid() && C.Admits(correlator.config, correlator.State(), event, now)
    modifies sink, correlator.logger, correlator.aggregator, correlator.aggregator.sets, correlator.filter
    ensures sink.Valid() && correlator.Valid() && fresh(correlator.aggregator.sets - old(correlator.aggregator.sets))
    ensures sink.history == old(sink.history) + ex && sink.store == After(old(sink.store), ex)
    ensures
      var c, x := correlator.config, C.Input(event, now, acceptAt, hint);
      var mid := C.StepCached(c, old(correlator.State()), C.Correlate(x));
      match C.ResultCached(c, old(correlator.State()), x)
      case Skip => ex == [] && attempts == 0 && correlator.State() == mid
      case Forward(e, p) =>
        Delivered(old(sink.store), e, p, ex, attempts, cancelled) &&
        correlator.State() == Told(c, mid, ex)
  {
    attempts, ex := 0, [];
    var result, h := correlator.EventCorrelate(event, now, acceptAt);
    hint := h;
    ghost var mid := correlator.State();
    if result.Forward? {
      attempts, ex := Deliver(sink, result.event, result.patch, correlator, cancelled);
      assert correlator.State() == Told(correlator.config, mid, ex);
    }
  }
}
