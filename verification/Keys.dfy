// What the keys of an event tell apart.
module Keys {
  import opened Events

  lemma SameEnds(a: string, b: string, x: string, y: string)
    requires a + x + b == a + y + b
    ensures x == y
  {
    assert |x| == |y|;
    forall i | 0 <= i < |x| ensures x[i] == y[i] {
      assert (a + x + b)[|a| + i] == (a + y + b)[|a| + i];
    }
  }

  lemma {:induction false} JoinSplit(parts: seq<string>, i: nat)
    requires i < |parts|
    ensures Join(parts) == Join(parts[..i]) + parts[i] + Join(parts[i + 1..])
  {
    if i == 0 {
      assert parts[..0] == [];
    } else {
      JoinSplit(parts[1..], i - 1);
      assert parts[1..][..i - 1] == parts[..i][1..] && parts[1..][i..] == parts[i + 1..];
      assert parts[..i][0] == parts[0];
    }
  }

  // Lists that differ in one part only have different joins.
  lemma JoinTellsApart(parts: seq<string>, i: nat, x: string)
    requires i < |parts| && x != parts[i]
    ensures Join(parts[i := x]) != Join(parts)
  {
    JoinSplit(parts, i);
    JoinSplit(parts[i := x], i);
    assert parts[i := x][..i] == parts[..i] && parts[i := x][i + 1..] == parts[i + 1..];
    if Join(parts[i := x]) == Join(parts) { SameEnds(Join(parts[..i]), Join(parts[i + 1..]), parts[i], x); }
  }

  lemma {:induction false} OnePart(parts: seq<string>, changed: seq<string>, i: nat, x: string)
    requires i < |parts| && changed == parts[i := x]
    ensures Join(changed) == Join(parts) <==> x == parts[i]
  {
    if x != parts[i] { JoinTellsApart(parts, i, x); } else { assert changed == parts; }
  }

  function AggregateKey(e: Event): string {
    AggregateKeyByReason(e).0
  }

  lemma EventKeySource(e: Event, x: string)
    ensures var s := e.source;
      (EventKey(e.(source := s.(component := x))) == EventKey(e) <==> x == s.component) &&
      (EventKey(e.(source := s.(host := x))) == EventKey(e) <==> x == s.host)
  {
    var s := e.source;
    OnePart(EventKeyParts(e), EventKeyParts(e.(source := s.(component := x))), 0, x);
    OnePart(EventKeyParts(e), EventKeyParts(e.(source := s.(host := x))), 1, x);
  }

  lemma EventKeyObject(e: Event, x: string)
    ensures var o := e.involvedObject;
      (EventKey(e.(involvedObject := o.(kind := x))) == EventKey(e) <==> x == o.kind) &&
      (EventKey(e.(involvedObject := o.(namespace := x))) == EventKey(e) <==> x == o.namespace) &&
      (EventKey(e.(involvedObject := o.(name := x))) == EventKey(e) <==> x == o.name) &&
      (EventKey(e.(involvedObject := o.(fieldPath := x))) == EventKey(e) <==> x == o.fieldPath) &&
      (EventKey(e.(involvedObject := o.(uid := x))) == EventKey(e) <==> x == o.uid) &&
      (EventKey(e.(involvedObject := o.(apiVersion := x))) == EventKey(e) <==> x == o.apiVersion)
  {
    var o := e.involvedObject;
    OnePart(EventKeyParts(e), EventKeyParts(e.(involvedObject := o.(kind := x))), 2, x);
    OnePart(EventKeyParts(e), EventKeyParts(e.(involvedObject := o.(namespace := x))), 3, x);
    OnePart(EventKeyParts(e), EventKeyParts(e.(involvedObject := o.(name := x))), 4, x);
    OnePart(EventKeyParts(e), EventKeyParts(e.(involvedObject := o.(fieldPath := x))), 5, x);
    OnePart(EventKeyParts(e), EventKeyParts(e.(involvedObject := o.(uid := x))), 6, x);
    OnePart(EventKeyParts(e), EventKeyParts(e.(involvedObject := o.(apiVersion := x))), 7, x);
  }

  lemma EventKeyRest(e: Event, x: string)
    ensures (EventKey(e.(eventType := x)) == EventKey(e) <==> x == e.eventType) &&
      (EventKey(e.(reason := x)) == EventKey(e) <==> x == e.reason) &&
      (EventKey(e.(message := x)) == EventKey(e) <==> x == e.message)
  {
    OnePart(EventKeyParts(e), EventKeyParts(e.(eventType := x)), 8, x);
    OnePart(EventKeyParts(e), EventKeyParts(e.(reason := x)), 9, x);
    OnePart(EventKeyParts(e), EventKeyParts(e.(message := x)), 10, x);
  }

  // Events that differ in one of these fields only have different event keys: what is counted together
  // agrees in source, object, type, reason and message, up to the joining of the parts.
  lemma EventKeyTellsApart(e: Event, x: string)
    ensures var s, o := e.source, e.involvedObject;
      (EventKey(e.(source := s.(component := x))) == EventKey(e) <==> x == s.component) &&
      (EventKey(e.(source := s.(host := x))) == EventKey(e) <==> x == s.host) &&
      (EventKey(e.(involvedObject := o.(kind := x))) == EventKey(e) <==> x == o.kind) &&
      (EventKey(e.(involvedObject := o.(namespace := x))) == EventKey(e) <==> x == o.namespace) &&
      (EventKey(e.(involvedObject := o.(name := x))) == EventKey(e) <==> x == o.name) &&
      (EventKey(e.(involvedObject := o.(fieldPath := x))) == EventKey(e) <==> x == o.fieldPath) &&
      (EventKey(e.(involvedObject := o.(uid := x))) == EventKey(e) <==> x == o.uid) &&
      (EventKey(e.(involvedObject := o.(apiVersion := x))) == EventKey(e) <==> x == o.apiVersion) &&
      (EventKey(e.(eventType := x)) == EventKey(e) <==> x == e.eventType) &&
      (EventKey(e.(reason := x)) == EventKey(e) <==> x == e.reason) &&
      (EventKey(e.(message := x)) == EventKey(e) <==> x == e.message)
  {
    EventKeySource(e, x);
    EventKeyObject(e, x);
    EventKeyRest(e, x);
  }

  lemma AggregateKeySource(e: Event, x: string)
    ensures var s := e.source;
      (AggregateKey(e.(source := s.(component := x))) == AggregateKey(e) <==> x == s.component) &&
      (AggregateKey(e.(source := s.(host := x))) == AggregateKey(e) <==> x == s.host)
  {
    var s := e.source;
    OnePart(AggregateKeyParts(e), AggregateKeyParts(e.(source := s.(component := x))), 0, x);
    OnePart(AggregateKeyParts(e), AggregateKeyParts(e.(source := s.(host := x))), 1, x);
  }

  lemma AggregateKeyObject(e: Event, x: string)
    ensures var o := e.involvedObject;
      (AggregateKey(e.(involvedObject := o.(kind := x))) == AggregateKey(e) <==> x == o.kind) &&
      (AggregateKey(e.(involvedObject := o.(namespace := x))) == AggregateKey(e) <==> x == o.namespace) &&
      (AggregateKey(e.(involvedObject := o.(name := x))) == AggregateKey(e) <==> x == o.name) &&
      (AggregateKey(e.(involvedObject := o.(uid := x))) == AggregateKey(e) <==> x == o.uid) &&
      (AggregateKey(e.(involvedObject := o.(apiVersion := x))) == AggregateKey(e) <==> x == o.apiVersion)
  {
    var o := e.involvedObject;
    OnePart(AggregateKeyParts(e), AggregateKeyParts(e.(involvedObject := o.(kind := x))), 2, x);
    OnePart(AggregateKeyParts(e), AggregateKeyParts(e.(involvedObject := o.(namespace := x))), 3, x);
    OnePart(AggregateKeyParts(e), AggregateKeyParts(e.(involvedObject := o.(name := x))), 4, x);
    OnePart(AggregateKeyParts(e), AggregateKeyParts(e.(involvedObject := o.(uid := x))), 5, x);
    OnePart(AggregateKeyParts(e), AggregateKeyParts(e.(involvedObject := o.(apiVersion := x))), 6, x);
  }

  lemma AggregateKeyRest(e: Event, x: string)
    ensures (AggregateKey(e.(eventType := x)) == AggregateKey(e) <==> x == e.eventType) &&
      (AggregateKey(e.(reason := x)) == AggregateKey(e) <==> x == e.reason) &&
      (AggregateKey(e.(reportingController := x)) == AggregateKey(e) <==> x == e.reportingController) &&
      (AggregateKey(e.(reportingInstance := x)) == AggregateKey(e) <==> x == e.reportingInstance)
  {
    OnePart(AggregateKeyParts(e), AggregateKeyParts(e.(eventType := x)), 7, x);
    OnePart(AggregateKeyParts(e), AggregateKeyParts(e.(reason := x)), 8, x);
    OnePart(AggregateKeyParts(e), AggregateKeyParts(e.(reportingController := x)), 9, x);
    OnePart(AggregateKeyParts(e), AggregateKeyParts(e.(reportingInstance := x)), 10, x);
  }

  // The same for what is combined: the reporting controller and instance count, the field path of the
  // object and the message do not.
  lemma AggregateKeyTellsApart(e: Event, x: string)
    ensures var s, o := e.source, e.involvedObject;
      (AggregateKey(e.(source := s.(component := x))) == AggregateKey(e) <==> x == s.component) &&
      (AggregateKey(e.(source := s.(host := x))) == AggregateKey(e) <==> x == s.host) &&
      (AggregateKey(e.(involvedObject := o.(kind := x))) == AggregateKey(e) <==> x == o.kind) &&
      (AggregateKey(e.(involvedObject := o.(namespace := x))) == AggregateKey(e) <==> x == o.namespace) &&
      (AggregateKey(e.(involvedObject := o.(name := x))) == AggregateKey(e) <==> x == o.name) &&
      (AggregateKey(e.(involvedObject := o.(uid := x))) == AggregateKey(e) <==> x == o.uid) &&
      (AggregateKey(e.(involvedObject := o.(apiVersion := x))) == AggregateKey(e) <==> x == o.apiVersion) &&
      (AggregateKey(e.(eventType := x)) == AggregateKey(e) <==> x == e.eventType) &&
      (AggregateKey(e.(reason := x)) == AggregateKey(e) <==> x == e.reason) &&
      (AggregateKey(e.(reportingController := x)) == AggregateKey(e) <==> x == e.reportingController) &&
      (AggregateKey(e.(reportingInstance := x)) == AggregateKey(e) <==> x == e.reportingInstance)
  {
    AggregateKeySource(e, x);
    AggregateKeyObject(e, x);
    AggregateKeyRest(e, x);
  }

  lemma SpamKeySource(e: Event, x: string)
    ensures var s := e.source;
      (SpamKey(e.(source := s.(component := x))) == SpamKey(e) <==> x == s.component) &&
      (SpamKey(e.(source := s.(host := x))) == SpamKey(e) <==> x == s.host)
  {
    var s := e.source;
    OnePart(SpamKeyParts(e), SpamKeyParts(e.(source := s.(component := x))), 0, x);
    OnePart(SpamKeyParts(e), SpamKeyParts(e.(source := s.(host := x))), 1, x);
  }

  lemma SpamKeyObject(e: Event, x: string)
    ensures var o := e.involvedObject;
      (SpamKey(e.(involvedObject := o.(kind := x))) == SpamKey(e) <==> x == o.kind) &&
      (SpamKey(e.(involvedObject := o.(namespace := x))) == SpamKey(e) <==> x == o.namespace) &&
      (SpamKey(e.(involvedObject := o.(name := x))) == SpamKey(e) <==> x == o.name) &&
      (SpamKey(e.(involvedObject := o.(uid := x))) == SpamKey(e) <==> x == o.uid) &&
      (SpamKey(e.(involvedObject := o.(apiVersion := x))) == SpamKey(e) <==> x == o.apiVersion)
  {
    var o := e.involvedObject;
    OnePart(SpamKeyParts(e), SpamKeyParts(e.(involvedObject := o.(kind := x))), 2, x);
    OnePart(SpamKeyParts(e), SpamKeyParts(e.(involvedObject := o.(namespace := x))), 3, x);
    OnePart(SpamKeyParts(e), SpamKeyParts(e.(involvedObject := o.(name := x))), 4, x);
    OnePart(SpamKeyParts(e), SpamKeyParts(e.(involvedObject := o.(uid := x))), 5, x);
    OnePart(SpamKeyParts(e), SpamKeyParts(e.(involvedObject := o.(apiVersion := x))), 6, x);
  }

  // The same for what shares a limiter: source and object.
  lemma SpamKeyTellsApart(e: Event, x: string)
    ensures var s, o := e.source, e.involvedObject;
      (SpamKey(e.(source := s.(component := x))) == SpamKey(e) <==> x == s.component) &&
      (SpamKey(e.(source := s.(host := x))) == SpamKey(e) <==> x == s.host) &&
      (SpamKey(e.(involvedObject := o.(kind := x))) == SpamKey(e) <==> x == o.kind) &&
      (SpamKey(e.(involvedObject := o.(namespace := x))) == SpamKey(e) <==> x == o.namespace) &&
      (SpamKey(e.(involvedObject := o.(name := x))) == SpamKey(e) <==> x == o.name) &&
      (SpamKey(e.(involvedObject := o.(uid := x))) == SpamKey(e) <==> x == o.uid) &&
      (SpamKey(e.(involvedObject := o.(apiVersion := x))) == SpamKey(e) <==> x == o.apiVersion)
  {
    SpamKeySource(e, x);
    SpamKeyObject(e, x);
  }

  // Nothing else matters for the keys.
  lemma KeysIgnoreTheRest(a: Event, b: Event)
    ensures SameIdentity(a, b) && a.message == b.message ==> EventKey(a) == EventKey(b)
    ensures
      SameIdentity(a, b) && a.reportingController == b.reportingController && a.reportingInstance == b.reportingInstance
      ==> AggregateKey(a) == AggregateKey(b) && AggregateKeyByReason(a).1 == a.message
    ensures a.source == b.source && a.involvedObject == b.involvedObject ==> SpamKey(a) == SpamKey(b)
    ensures var c := a.(involvedObject := a.involvedObject.(fieldPath := b.involvedObject.fieldPath));
      AggregateKey(c) == AggregateKey(a) && SpamKey(c) == SpamKey(a)
  {
  }
}
