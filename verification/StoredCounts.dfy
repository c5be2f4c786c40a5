// What one conversation with the sink does to the counts it stores.
module StoredCounts {
  import opened Events
  import opened Recorder
  import L = EventLogger

  // seen(k) are the observations made under key k so far, oldest first.

  // A stored event stems from the observations of one key: their first name and timestamp, a count
  // between 1 and their number, and an identity and a message that some of them had.
  ghost predicate StemsFrom(seen: seq<Event>, e: Event) {
    seen != [] && e.name == seen[0].name && e.firstTimestamp == seen[0].firstTimestamp &&
    1 <= e.count <= |seen| &&
    (exists g :: 0 <= g < |seen| && SameIdentity(e, seen[g])) &&
    (exists h :: 0 <= h < |seen| && e.message == seen[h].message)
  }

  // What is stored stems from the observations, apart from what was there at first, untouched.
  ghost predicate StoreSound<K(!new)>(seen: K -> seq<Event>, first: Store, s: Store) {
    forall n :: n in s ==>
      if n in first then s[n] == first[n] else s[n].name == n && exists k :: StemsFrom(seen(k), s[n])
  }

  // No two keys start with the same name.
  ghost predicate UniqueNames<K(!new)>(seen: K -> seq<Event>) {
    forall j, k :: seen(j) != [] && seen(k) != [] && seen(j)[0].name == seen(k)[0].name ==> j == k
  }

  // What a call is made for: the last observation of a key, counted.
  ghost predicate Counted(seen: seq<Event>, e: Event) {
    seen != [] && e.count == |seen| && e.name == seen[0].name && e.firstTimestamp == seen[0].firstTimestamp &&
    SameIdentity(e, seen[|seen| - 1]) && e.message == seen[|seen| - 1].message &&
    e.lastTimestamp == seen[|seen| - 1].lastTimestamp
  }

  // The event says what the observation says, where that is not blank.
  ghost predicate UpToDate(e: Event, o: Event) {
    (o.message != "" ==> e.message == o.message) && (o.lastTimestamp != 0 ==> e.lastTimestamp == o.lastTimestamp)
  }

  ghost predicate CallFor(e: Event, call: Call) {
    SameButVersion(call.event, e) &&
    (call.Patch? ==> call.patch == L.Patch(e.count, e.lastTimestamp, e.message))
  }

  ghost predicate NeverDrops(s: Store, t: Store) {
    forall n :: n in s && n in t ==> s[n].count <= t[n].count
  }

  // A reply that confirms a write: the event is stored as told, with every observation counted.
  ghost predicate Confirms(seen: seq<Event>, t: Store, r: Event) {
    r.name in t && t[r.name] == r && StemsFrom(seen, r) && r.count == |seen| && UpToDate(r, seen[|seen| - 1])
  }

  lemma StemsMonotone(a: seq<Event>, b: seq<Event>, e: Event)
    requires StemsFrom(a, e) && a <= b
    ensures StemsFrom(b, e)
  {
    var g :| 0 <= g < |a| && SameIdentity(e, a[g]);
    var h :| 0 <= h < |a| && e.message == a[h].message;
    assert b[g] == a[g] && b[h] == a[h];
  }

  lemma PatchedStems(seen: seq<Event>, stored: Event, e: Event, rv: string)
    requires StemsFrom(seen, stored) && Counted(seen, e)
    ensures
      var r := L.ApplyPatch(stored, L.Patch(e.count, e.lastTimestamp, e.message)).(resourceVersion := rv);
      r.name == stored.name && StemsFrom(seen, r) && r.count == |seen| && UpToDate(r, seen[|seen| - 1])
  {
    var r := L.ApplyPatch(stored, L.Patch(e.count, e.lastTimestamp, e.message)).(resourceVersion := rv);
    var g :| 0 <= g < |seen| && SameIdentity(stored, seen[g]);
    assert SameIdentity(r, seen[g]);
    var h :| 0 <= h < |seen| && stored.message == seen[h].message;
    assert r.message == seen[h].message || r.message == seen[|seen| - 1].message;
  }

  lemma CreatedStems(seen: seq<Event>, e: Event, event: Event, rv: string)
    requires Counted(seen, e) && SameButVersion(event, e)
    ensures
      var r := event.(resourceVersion := rv);
      r.name == e.name && StemsFrom(seen, r) && r.count == |seen| && UpToDate(r, seen[|seen| - 1])
  {
    assert SameIdentity(event.(resourceVersion := rv), seen[|seen| - 1]);
  }

  // What is stored under the name of a key stems from that key.
  lemma StoredUnderName<K(!new)>(seen: K -> seq<Event>, k: K, first: Store, s: Store, name: string)
    requires StoreSound(seen, first, s) && UniqueNames(seen) && name in s && name !in first
    requires seen(k) != [] && seen(k)[0].name == name
    ensures StemsFrom(seen(k), s[name])
  {
    var j :| StemsFrom(seen(j), s[name]);
    assert seen(j)[0].name == seen(k)[0].name;
  }

  // Storing an event that stems from a key and counts all of it.
  lemma StoreCounted<K(!new)>(seen: K -> seq<Event>, k: K, first: Store, s: Store, r: Event)
    requires StoreSound(seen, first, s) && UniqueNames(seen) && StemsFrom(seen(k), r) && r.count == |seen(k)|
    requires r.name !in first
    ensures StoreSound(seen, first, s[r.name := r]) && NeverDrops(s, s[r.name := r])
  {
    var t := s[r.name := r];
    forall n | n in t
      ensures if n in first then t[n] == first[n] else t[n].name == n && exists j :: StemsFrom(seen(j), t[n])
    {
      if n == r.name { assert StemsFrom(seen(k), t[n]); } else { assert t[n] == s[n]; }
    }
    if r.name in s { StoredUnderName(seen, k, first, s, r.name); }
  }

  lemma ExpiryIsSound<K(!new)>(seen: K -> seq<Event>, first: Store, s: Store, expired: set<string>)
    requires StoreSound(seen, first, s)
    ensures StoreSound(seen, first, s - expired)
  {
    var t := s - expired;
    forall n | n in t
      ensures if n in first then t[n] == first[n] else t[n].name == n && exists j :: StemsFrom(seen(j), t[n])
    {
      assert t[n] == s[n];
    }
  }

  lemma HandledIsCounted<K(!new)>(seen: K -> seq<Event>, k: K, first: Store, s: Store, e: Event, call: Call, rv: string)
    requires StoreSound(seen, first, s) && UniqueNames(seen) && Counted(seen(k), e) && CallFor(e, call)
    requires e.name !in first
    ensures var (t, reply) := Handle(s, call, rv);
      if reply.Err? then t == s
      else t == s[e.name := reply.event] && reply.event.name == e.name &&
           StemsFrom(seen(k), reply.event) && reply.event.count == |seen(k)| &&
           UpToDate(reply.event, seen(k)[|seen(k)| - 1])
  {
    if call.Patch? && e.name in s {
      StoredUnderName(seen, k, first, s, e.name);
      PatchedStems(seen(k), s[e.name], e, rv);
    } else {
      CreatedStems(seen(k), e, call.event, rv);
    }
  }

  lemma ExpiryDropsNothing<K(!new)>(seen: K -> seq<Event>, k: K, first: Store, s: Store, expired: set<string>, r: Event)
    requires StoreSound(seen, first, s) && UniqueNames(seen) && StemsFrom(seen(k), r) && r.count == |seen(k)|
    requires r.name !in first
    ensures NeverDrops(s, (s - expired)[r.name := r])
  {
    if r.name in s { StoredUnderName(seen, k, first, s, r.name); }
  }

  lemma HandledKeepsSound<K(!new)>(seen: K -> seq<Event>, k: K, first: Store, s: Store, e: Event, call: Call,
                                   expired: set<string>, rv: string)
    requires StoreSound(seen, first, s) && UniqueNames(seen) && Counted(seen(k), e) && CallFor(e, call)
    requires e.name !in first
    ensures var h := Handle(s - expired, call, rv);
      StoreSound(seen, first, h.0) && NeverDrops(s, h.0) && (h.1.Ok? ==> Confirms(seen(k), h.0, h.1.event))
  {
    ExpiryIsSound(seen, first, s, expired);
    HandledIsCounted(seen, k, first, s - expired, e, call, rv);
    var h := Handle(s - expired, call, rv);
    if h.1.Ok? {
      StoreCounted(seen, k, first, s - expired, h.1.event);
      ExpiryDropsNothing(seen, k, first, s, expired, h.1.event);
    }
  }

  // A call stores nothing but up-to-date counts, even when the answer is lost, touches no event
  // that was there at first, and no count of a name ever goes down, even when its entry expired and
  // was created again.
  lemma RespondedIsCounted<K(!new)>(seen: K -> seq<Event>, k: K, first: Store, s: Store, e: Event, x: Exchange)
    requires StoreSound(seen, first, s) && UniqueNames(seen) && Counted(seen(k), e) && CallFor(e, x.call)
    requires x.call.event.name !in first && !x.answer.verdict.Anything?
    ensures var h := Respond(s, x.call, x.answer);
      StoreSound(seen, first, h.0) && NeverDrops(s, h.0) && (h.1.Ok? ==> Confirms(seen(k), h.0, h.1.event))
  {
    match x.answer.verdict
    case Fail(_) => ExpiryIsSound(seen, first, s, x.answer.expired);
    case _ => HandledKeepsSound(seen, k, first, s, e, x.call, x.answer.expired, x.answer.resourceVersion);
  }

  // None of these calls names an event that was there at first.
  ghost predicate Avoids(first: Store, ex: seq<Exchange>) {
    forall i :: 0 <= i < |ex| ==> ex[i].call.event.name !in first
  }

  // A whole conversation.
  lemma {:induction false} ConversationIsCounted<K(!new)>(seen: K -> seq<Event>, k: K, first: Store, s: Store,
                                                          e: Event, ex: seq<Exchange>, n: nat)
    requires StoreSound(seen, first, s) && UniqueNames(seen) && Counted(seen(k), e) && Faithful(s, ex) && n <= |ex|
    requires Lawful(ex) && Avoids(first, ex) && forall i :: 0 <= i < |ex| ==> CallFor(e, ex[i].call)
    ensures StoreSound(seen, first, After(s, ex[..n]))
    ensures n > 0 ==>
      NeverDrops(After(s, ex[..n - 1]), After(s, ex[..n])) &&
      (ex[n - 1].reply.Ok? ==> Confirms(seen(k), After(s, ex[..n]), ex[n - 1].reply.event))
  {
    if n > 0 {
      ConversationIsCounted(seen, k, first, s, e, ex, n - 1);
      assert ex[..n][..n - 1] == ex[..n - 1] && FaithfulAt(s, ex, n - 1);
      RespondedIsCounted(seen, k, first, After(s, ex[..n - 1]), e, ex[n - 1]);
    }
  }
}
