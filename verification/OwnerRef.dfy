// The optimistic update of owner references: DeploymentGenerator.setOwnerRef.
module OwnerRef {
  import opened Wrappers

  const MAX_UPDATES := 10

  datatype OwnerReference = OwnerReference(kind: string, apiVersion: string, name: string, uid: string)

  // A custom resource: the version the server gave it, its owners, and everything else.
  datatype Resource = Resource(version: nat, owners: Option<seq<OwnerReference>>, rest: string)

  // The server: its revision counter and its copy of one resource.
  datatype Server = Server(revision: nat, stored: Option<Resource>)

  // ---- The world around the calls ----

  datatype Failure = NoFailure | Unavailable | LostReply | SpuriousConflict

  // Before the k-th call other writers may act on the resource; the call itself may fail.
  datatype World = World(others: (nat, Server) -> Server, failure: nat -> Failure, deploymentUid: Option<string>)

  predicate Sound(s: Server) {
    s.stored.Some? ==> s.stored.value.version <= s.revision
  }

  // The contract assumed of a version-checked store: whatever others write gets a version above
  // the revision at that time, also after a deletion.
  ghost predicate VersionChecked(w: World) {
    forall k: nat, s: Server :: Sound(s) ==>
      var t := w.others(k, s);
      Sound(t) && s.revision <= t.revision &&
      (t.stored.Some? && t.stored.value.version <= s.revision ==> t.stored == s.stored)
  }

  datatype UpdateError = Conflict | OtherError

  function Put(s: Server, r: Resource): Server {
    Server(s.revision + 1, Some(r.(version := s.revision + 1)))
  }

  // An update is accepted only when it carries the stored version.
  function Update(s: Server, r: Resource, f: Failure): (Server, Option<UpdateError>) {
    if f.Unavailable? || s.stored.None? then (s, Some(OtherError))
    else if f.SpuriousConflict? || s.stored.value.version != r.version then (s, Some(Conflict))
    else if f.LostReply? then (Put(s, r), Some(OtherError))
    else (Put(s, r), None)
  }

  // ---- What one call of setOwnerRef does, as a function of the world ----

  datatype Outcome = AlreadyOwned | DeploymentMissing | OwnerSet | ProcessExit

  // One update: the resource it was computed from, the server right before and right after it.
  datatype Attempt = Attempt(read: Resource, before: Server, after: Server, error: Option<UpdateError>)

  datatype Trace = Trace(outcome: Outcome, server: Server, attempts: seq<Attempt>)

  function OwnerOf(deploymentName: string, uid: string): seq<OwnerReference> {
    [OwnerReference("Deployment", "apps/v1", deploymentName, uid)]
  }

  function Try(w: World, owners: seq<OwnerReference>, s: Server, k: nat): Attempt
    requires w.others(k, s).stored.Some?
  {
    var read := w.others(k, s).stored.value;
    var before := w.others(k + 1, w.others(k, s));
    var r := Update(before, read.(owners := Some(owners)), w.failure(k + 1));
    Attempt(read, before, r.0, r.1)
  }

  // The retry loop from its n-th turn on; k counts the calls made so far.
  function Retry(w: World, owners: seq<OwnerReference>, s: Server, k: nat, n: nat): Trace
    requires n <= MAX_UPDATES
    decreases MAX_UPDATES - n
  {
    if n == MAX_UPDATES then Trace(ProcessExit, s, [])
    else if w.others(k, s).stored.None? || !w.failure(k).NoFailure? then Trace(ProcessExit, w.others(k, s), [])
    else
      var a := Try(w, owners, s, k);
      if a.error == Some(Conflict) then
        var t := Retry(w, owners, a.after, k + 2, n + 1);
        t.(attempts := [a] + t.attempts)
      else Trace(if a.error.None? then OwnerSet else ProcessExit, a.after, [a])
  }

  function Spec(w: World, s: Server, deploymentName: string): Trace {
    var first := w.others(0, s);
    if first.stored.None? || !w.failure(0).NoFailure? then Trace(ProcessExit, first, [])
    else if first.stored.value.owners.Some? then Trace(AlreadyOwned, first, [])
    else if w.deploymentUid.None? || !w.failure(1).NoFailure? then Trace(DeploymentMissing, w.others(1, first), [])
    else Retry(w, OwnerOf(deploymentName, w.deploymentUid.value), w.others(1, first), 2, 0)
  }

  // ---- The loop of the source ----

  // After the given attempts the rest of the loop completes the whole trace.
  ghost predicate Continues(whole: Trace, done: seq<Attempt>, rest: Trace) {
    whole == Trace(rest.outcome, rest.server, done + rest.attempts)
  }

  lemma OneTurn(w: World, owners: seq<OwnerReference>, s: Server, k: nat, n: nat, whole: Trace, done: seq<Attempt>)
    requires n < MAX_UPDATES && Continues(whole, done, Retry(w, owners, s, k, n))
    ensures
      if w.others(k, s).stored.None? || !w.failure(k).NoFailure? then whole == Trace(ProcessExit, w.others(k, s), done)
      else
        var a := Try(w, owners, s, k);
        if a.error == Some(Conflict) then Continues(whole, done + [a], Retry(w, owners, a.after, k + 2, n + 1))
        else whole == Trace(if a.error.None? then OwnerSet else ProcessExit, a.after, done + [a])
  {
    if w.others(k, s).stored.Some? && w.failure(k).NoFailure? {
      var a := Try(w, owners, s, k);
      if a.error == Some(Conflict) {
        var rest := Retry(w, owners, a.after, k + 2, n + 1);
        assert done + ([a] + rest.attempts) == (done + [a]) + rest.attempts;
      }
    } else {
      assert done + [] == done;
    }
  }

  method UpdateWithRetries(w: World, owners: seq<OwnerReference>, start: Server)
    returns (outcome: Outcome, server: Server, attempts: seq<Attempt>)
    ensures Trace(outcome, server, attempts) == Retry(w, owners, start, 2, 0)
    ensures |attempts| <= MAX_UPDATES
  {
    attempts, server := [], start;
    ghost var whole := Retry(w, owners, start, 2, 0);
    var ok, calls := false, 2;
    for retry := 0 to MAX_UPDATES
      invariant |attempts| == retry && !ok
      invariant Continues(whole, attempts, Retry(w, owners, server, calls, retry))
    {
      OneTurn(w, owners, server, calls, retry, whole, attempts);
      var current := w.others(calls, server);
      if current.stored.None? || !w.failure(calls).NoFailure? {
        return ProcessExit, current, attempts;
      }
      var result := current.stored.value;
      var before := w.others(calls + 1, current);
      var (after, error) := Update(before, result.(owners := Some(owners)), w.failure(calls + 1));
      assert Attempt(result, before, after, error) == Try(w, owners, server, calls);
      server, attempts := after, attempts + [Attempt(result, before, after, error)];
      if error == Some(Conflict) {
        calls := calls + 2;
        continue;
      }
      if error.Some? {
        return ProcessExit, server, attempts;
      }
      ok := true;
      break;
    }
    outcome := if ok then OwnerSet else ProcessExit;
  }

  method SetOwnerRef(w: World, start: Server, deploymentName: string)
    returns (outcome: Outcome, server: Server, attempts: seq<Attempt>)
    ensures Trace(outcome, server, attempts) == Spec(w, start, deploymentName)
    ensures |attempts| <= MAX_UPDATES
  {
    server := w.others(0, start);
    if server.stored.None? || !w.failure(0).NoFailure? {
      return ProcessExit, server, [];
    }
    if server.stored.value.owners.Some? {
      return AlreadyOwned, server, [];
    }
    server := w.others(1, server);
    if w.deploymentUid.None? || !w.failure(1).NoFailure? {
      return DeploymentMissing, server, [];
    }
    outcome, server, attempts := UpdateWithRetries(w, OwnerOf(deploymentName, w.deploymentUid.value), server);
  }

  // ---- What the trace promises ----

  // The loop is entered: the resource exists, unowned at the check, and so does the deployment.
  predicate EntersLoop(w: World, s: Server) {
    var first := w.others(0, s);
    w.failure(0).NoFailure? && first.stored.Some? && first.stored.value.owners.None? &&
    w.failure(1).NoFailure? && w.deploymentUid.Some?
  }

  // An update that takes effect: what is stored afterwards is what was stored right before it, by
  // whomever, with only the owners replaced (and the version advanced).
  ghost predicate LosesNothing(owners: seq<OwnerReference>, a: Attempt) {
    a.before.stored.Some? && a.before.stored.value == a.read && a.after.revision == a.before.revision + 1 &&
    a.after.stored == Some(a.before.stored.value.(owners := Some(owners), version := a.before.revision + 1))
  }

  ghost predicate ChangesNothing(a: Attempt) {
    a.after == a.before
  }

  lemma TryIsSafe(w: World, owners: seq<OwnerReference>, s: Server, k: nat)
    requires VersionChecked(w) && Sound(s) && w.others(k, s).stored.Some?
    ensures var a := Try(w, owners, s, k);
      Sound(a.after) && (ChangesNothing(a) || LosesNothing(owners, a)) &&
      (a.error.None? ==> LosesNothing(owners, a)) && (a.error == Some(Conflict) ==> ChangesNothing(a))
  {
    var read := w.others(k, s);
    assert Sound(read);
    var before := w.others(k + 1, read);
    assert Sound(before);
    if before.stored.Some? && before.stored.value.version == read.stored.value.version {
      assert before.stored == read.stored;
    }
  }

  // Conflicts that change nothing until the last attempt, which ends the loop unless the attempts
  // run out.
  ghost predicate WellPaced(owners: seq<OwnerReference>, t: Trace, limit: nat) {
    var m := |t.attempts|;
    m <= limit &&
    (forall i :: 0 <= i < m - 1 ==> t.attempts[i].error == Some(Conflict) && ChangesNothing(t.attempts[i])) &&
    (m > 0 && !ChangesNothing(t.attempts[m - 1]) ==>
      LosesNothing(owners, t.attempts[m - 1]) && t.server == t.attempts[m - 1].after) &&
    (t.outcome.OwnerSet? <==> m > 0 && t.attempts[m - 1].error.None?) &&
    (t.outcome.OwnerSet? ==> !ChangesNothing(t.attempts[m - 1])) &&
    (t.outcome.OwnerSet? || t.outcome.ProcessExit?)
  }

  lemma WellPacedCons(owners: seq<OwnerReference>, a: Attempt, t: Trace, limit: nat)
    requires WellPaced(owners, t, limit) && a.error == Some(Conflict) && ChangesNothing(a)
    ensures WellPaced(owners, Trace(t.outcome, t.server, [a] + t.attempts), limit + 1)
  {
    var all := [a] + t.attempts;
    assert forall i :: 0 < i < |all| ==> all[i] == t.attempts[i - 1];
  }

  lemma {:induction false} RetryIsSafe(w: World, owners: seq<OwnerReference>, s: Server, k: nat, n: nat)
    requires n <= MAX_UPDATES && VersionChecked(w) && Sound(s)
    ensures WellPaced(owners, Retry(w, owners, s, k, n), MAX_UPDATES - n)
    decreases MAX_UPDATES - n
  {
    if n < MAX_UPDATES && w.others(k, s).stored.Some? && w.failure(k).NoFailure? {
      TryIsSafe(w, owners, s, k);
      var a := Try(w, owners, s, k);
      if a.error == Some(Conflict) {
        RetryIsSafe(w, owners, a.after, k + 2, n + 1);
        WellPacedCons(owners, a, Retry(w, owners, a.after, k + 2, n + 1), MAX_UPDATES - n - 1);
      }
    }
  }

  lemma WellPacedMeans(owners: seq<OwnerReference>, t: Trace)
    requires WellPaced(owners, t, MAX_UPDATES)
    ensures var m := |t.attempts|;
      m <= MAX_UPDATES && OnlyLastTakesEffect(owners, t) &&
      if t.outcome.OwnerSet? then
        m > 0 && t.attempts[m - 1].error.None? && t.attempts[m - 1].after != t.attempts[m - 1].before
      else t.outcome.ProcessExit? && forall i :: 0 <= i < m ==> t.attempts[i].error.Some?
  {
  }

  ghost predicate OnlyLastTakesEffect(owners: seq<OwnerReference>, t: Trace) {
    forall i :: 0 <= i < |t.attempts| && t.attempts[i].after != t.attempts[i].before ==>
      i == |t.attempts| - 1 && t.server == t.attempts[i].after && LosesNothing(owners, t.attempts[i])
  }

  // A run without the loop makes no attempt.
  lemma {:induction false} LoopOrNoAttempt(w: World, s: Server, deploymentName: string)
    ensures var t := Spec(w, s, deploymentName);
      if EntersLoop(w, s) then
        t == Retry(w, OwnerOf(deploymentName, w.deploymentUid.value), w.others(1, w.others(0, s)), 2, 0)
      else t.attempts == [] && !t.outcome.OwnerSet? &&
           (t.outcome.AlreadyOwned? ==> t.server.stored.Some? && t.server.stored.value.owners.Some?)
  {
  }

  // The resource is owned by the deployment, and by nothing else.
  predicate OwnedBy(s: Server, deploymentName: string, uid: string) {
    s.stored.Some? && s.stored.value.owners.Some? &&
    var owners := s.stored.value.owners.value;
    |owners| == 1 && owners[0].kind == "Deployment" && owners[0].apiVersion == "apps/v1" &&
    owners[0].name == deploymentName && owners[0].uid == uid
  }

  // Against any interleaving of other writers, and whatever the outcome: at most ten updates are
  // made and at most one, the last, takes effect, even if its reply is lost; it changes nothing but
  // the owners of the latest state of the resource.  The resource is left alone when it was found
  // owned or when there is no deployment to own it.
  lemma NoLostUpdate(w: World, s: Server, deploymentName: string)
    requires VersionChecked(w) && Sound(s)
    ensures var t := Spec(w, s, deploymentName);
      var m := |t.attempts|;
      m <= 10 &&
      (m > 0 ==> w.deploymentUid.Some? && OnlyLastTakesEffect(OwnerOf(deploymentName, w.deploymentUid.value), t)) &&
      match t.outcome
      case AlreadyOwned => m == 0 && t.server.stored.Some? && t.server.stored.value.owners.Some?
      case DeploymentMissing => m == 0
      case OwnerSet =>
        m > 0 && t.attempts[m - 1].error.None? && t.attempts[m - 1].after != t.attempts[m - 1].before &&
        w.deploymentUid.Some? && OwnedBy(t.server, deploymentName, w.deploymentUid.value)
      case ProcessExit => forall i :: 0 <= i < m ==> t.attempts[i].error.Some?
  {
    LoopOrNoAttempt(w, s, deploymentName);
    if EntersLoop(w, s) {
      RetryIsSafe(w, OwnerOf(deploymentName, w.deploymentUid.value), w.others(1, w.others(0, s)), 2, 0);
      WellPacedMeans(OwnerOf(deploymentName, w.deploymentUid.value), Spec(w, s, deploymentName));
    }
  }

  // The two outcomes that leave the resource alone, in terms of what is there at the first two calls:
  // owners, or no deployment to own it.
  lemma LeftAloneIff(w: World, s: Server, deploymentName: string)
    requires VersionChecked(w) && Sound(s)
    ensures var t, first := Spec(w, s, deploymentName), w.others(0, s);
      var found := w.failure(0).NoFailure? && first.stored.Some?;
      (t.outcome.AlreadyOwned? <==> found && first.stored.value.owners.Some?) &&
      (t.outcome.DeploymentMissing? <==>
        found && first.stored.value.owners.None? && (w.deploymentUid.None? || !w.failure(1).NoFailure?)) &&
      (t.outcome.AlreadyOwned? ==> t.server == first) &&
      (t.outcome.DeploymentMissing? ==> t.server == w.others(1, first))
  {
    NoLostUpdate(w, s, deploymentName);
    LoopOrNoAttempt(w, s, deploymentName);
    if EntersLoop(w, s) {
      RetryIsSafe(w, OwnerOf(deploymentName, w.deploymentUid.value), w.others(1, w.others(0, s)), 2, 0);
    }
  }

  // A call that neither exits nor misses the deployment leaves the resource owned.
  lemma OwnedUnlessExit(w: World, s: Server, deploymentName: string)
    requires VersionChecked(w) && Sound(s)
    ensures var t := Spec(w, s, deploymentName);
      (t.outcome.AlreadyOwned? ==> t.server.stored.Some? && t.server.stored.value.owners.Some?) &&
      (t.outcome.OwnerSet? ==> w.deploymentUid.Some? && OwnedBy(t.server, deploymentName, w.deploymentUid.value))
  {
    NoLostUpdate(w, s, deploymentName);
  }

  // An undisturbed run sets the owner at the first attempt.
  lemma UndisturbedSets(w: World, s: Server, deploymentName: string)
    requires forall k: nat :: w.failure(k).NoFailure?
    requires forall k: nat, x: Server :: w.others(k, x) == x
    requires s.stored.Some? && s.stored.value.owners.None? && w.deploymentUid.Some?
    ensures var t := Spec(w, s, deploymentName);
      t.outcome.OwnerSet? && |t.attempts| == 1 &&
      t.server.stored == Some(s.stored.value.(owners := Some(OwnerOf(deploymentName, w.deploymentUid.value)),
                                              version := s.revision + 1))
  {
  }

  // ---- What it does not promise ----

  // Another writer that sets owners right before the given call.
  function Intruder(theirs: seq<OwnerReference>, call: nat): World {
    World((k: nat, x: Server) =>
            if k == call && x.stored.Some? then Put(x, x.stored.value.(owners := Some(theirs))) else x,
          (k: nat) => NoFailure, Some("uid"))
  }

  // The owners are checked once, before the loop.  The other writers alone, as long as no update of
  // ours takes effect, leave the resource like this right before the k-th call.
  function BeforeCall(w: World, s: Server, k: nat): Server {
    w.others(k, if k == 0 then s else BeforeCall(w, s, k - 1))
  }

  // The i-th turn ends in a conflict: someone wrote between its two calls, or the server says so.
  predicate TurnConflicts(w: World, s: Server, i: nat) {
    var read, before := BeforeCall(w, s, 2 + 2 * i), BeforeCall(w, s, 3 + 2 * i);
    w.failure(2 + 2 * i).NoFailure? && read.stored.Some? && !w.failure(3 + 2 * i).Unavailable? && before.stored.Some? &&
    (w.failure(3 + 2 * i).SpuriousConflict? || before.stored != read.stored)
  }

  // The update of the i-th turn takes effect: nobody wrote between its two calls.
  predicate TurnTakesEffect(w: World, s: Server, i: nat) {
    var read, before := BeforeCall(w, s, 2 + 2 * i), BeforeCall(w, s, 3 + 2 * i);
    w.failure(2 + 2 * i).NoFailure? && read.stored.Some? && before.stored == read.stored &&
    (w.failure(3 + 2 * i).NoFailure? || w.failure(3 + 2 * i).LostReply?)
  }

  // The i-th turn is the first not to end in a conflict, and its update takes effect.
  ghost predicate EffectiveFrom(w: World, s: Server, n: nat, i: nat) {
    n <= i < 10 && (forall j :: n <= j < i ==> TurnConflicts(w, s, j)) && TurnTakesEffect(w, s, i)
  }

  lemma {:induction false} SoundBefore(w: World, s: Server, k: nat)
    requires VersionChecked(w) && Sound(s)
    ensures Sound(BeforeCall(w, s, k))
  {
    if k > 0 { SoundBefore(w, s, k - 1); }
  }

  // The update of the i-th turn, while none before it has taken effect.
  function AttemptAt(w: World, owners: seq<OwnerReference>, s: Server, i: nat): Attempt
    requires BeforeCall(w, s, 2 + 2 * i).stored.Some?
  {
    Try(w, owners, BeforeCall(w, s, 1 + 2 * i), 2 + 2 * i)
  }

  lemma {:induction false} OneAttempt(w: World, owners: seq<OwnerReference>, s: Server, i: nat)
    requires VersionChecked(w) && Sound(s) && BeforeCall(w, s, 2 + 2 * i).stored.Some? &&
      w.failure(2 + 2 * i).NoFailure?
    ensures var a := AttemptAt(w, owners, s, i);
      a.read == BeforeCall(w, s, 2 + 2 * i).stored.value && a.before == BeforeCall(w, s, 3 + 2 * i) &&
      (a.error == Some(Conflict) <==> TurnConflicts(w, s, i)) && (a.error == Some(Conflict) ==> a.after == a.before) &&
      (a.error.None? <==> TurnTakesEffect(w, s, i) && w.failure(3 + 2 * i).NoFailure?) &&
      (a.after != a.before <==> TurnTakesEffect(w, s, i))
  {
    var read := BeforeCall(w, s, 2 + 2 * i);
    SoundBefore(w, s, 2 + 2 * i);
    var before := w.others(3 + 2 * i, read);
    if before.stored.Some? && before.stored.value.version == read.stored.value.version {
      assert before.stored == read.stored;
    }
  }

  // The loop from its n-th turn on, as long as no update has taken effect.
  function RetryFrom(w: World, owners: seq<OwnerReference>, s: Server, n: nat): Trace
    requires n <= MAX_UPDATES
  {
    Retry(w, owners, BeforeCall(w, s, 1 + 2 * n), 2 + 2 * n, n)
  }

  lemma RetryStep(w: World, owners: seq<OwnerReference>, s: Server, n: nat)
    requires n < MAX_UPDATES && VersionChecked(w) && Sound(s)
    ensures var t := RetryFrom(w, owners, s, n);
      if BeforeCall(w, s, 2 + 2 * n).stored.None? || !w.failure(2 + 2 * n).NoFailure? then t.attempts == []
      else
        var a, rest := AttemptAt(w, owners, s, n), RetryFrom(w, owners, s, n + 1);
        if TurnConflicts(w, s, n) then t == rest.(attempts := [a] + rest.attempts)
        else t == Trace(if a.error.None? then OwnerSet else ProcessExit, a.after, [a])
  {
    if BeforeCall(w, s, 2 + 2 * n).stored.Some? && w.failure(2 + 2 * n).NoFailure? {
      OneAttempt(w, owners, s, n);
    }
  }

  lemma LoopFromCheck(w: World, s: Server, deploymentName: string)
    requires EntersLoop(w, s)
    ensures Spec(w, s, deploymentName) == RetryFrom(w, OwnerOf(deploymentName, w.deploymentUid.value), s, 0)
  {
    assert BeforeCall(w, s, 0) == w.others(0, s);
    assert BeforeCall(w, s, 1) == w.others(1, w.others(0, s));
    LoopOrNoAttempt(w, s, deploymentName);
  }

  // The turn whose update takes effect is the last one.
  lemma {:induction false} EffectiveIsLast(w: World, owners: seq<OwnerReference>, s: Server, n: nat, i: nat)
    requires VersionChecked(w) && Sound(s) && EffectiveFrom(w, s, n, i)
    ensures var t, a := RetryFrom(w, owners, s, n), AttemptAt(w, owners, s, i);
      |t.attempts| == i - n + 1 && t.server == a.after && t.outcome == if a.error.None? then OwnerSet else ProcessExit
    decreases i - n
  {
    RetryStep(w, owners, s, n);
    if n < i {
      assert TurnConflicts(w, s, n);
      EffectiveIsLast(w, owners, s, n + 1, i);
    } else {
      TurnsExclude(w, s, n);
    }
  }

  // An attempt of the loop takes effect exactly when its turn does by the rules above.
  lemma {:induction false} EffectiveAttempts(w: World, owners: seq<OwnerReference>, s: Server, n: nat, a: Attempt)
    requires n <= MAX_UPDATES && VersionChecked(w) && Sound(s)
    ensures a in RetryFrom(w, owners, s, n).attempts && a.after != a.before <==>
      exists i: nat :: EffectiveFrom(w, s, n, i) && a == AttemptAt(w, owners, s, i)
    decreases MAX_UPDATES - n
  {
    if n < MAX_UPDATES {
      RetryStep(w, owners, s, n);
      if BeforeCall(w, s, 2 + 2 * n).stored.Some? && w.failure(2 + 2 * n).NoFailure? {
        OneAttempt(w, owners, s, n);
        EffectiveAttempts(w, owners, s, n + 1, a);
      }
      forall i: nat ensures EffectiveFrom(w, s, n, i) <==>
        if i == n then TurnTakesEffect(w, s, n) else TurnConflicts(w, s, n) && EffectiveFrom(w, s, n + 1, i)
      {
      }
    }
  }

  lemma TurnsExclude(w: World, s: Server, i: nat)
    ensures !TurnConflicts(w, s, i) || !TurnTakesEffect(w, s, i)
  {
  }

  lemma EffectiveIsUnique(w: World, s: Server, n: nat, i: nat, j: nat)
    requires EffectiveFrom(w, s, n, i) && EffectiveFrom(w, s, n, j)
    ensures i == j
  {
    TurnsExclude(w, s, i);
    TurnsExclude(w, s, j);
  }

  // ---- When the owner is set ----

  // A turn's update takes effect, its answer arrives, and all turns before it ended in conflicts.
  ghost predicate AnsweredFrom(w: World, s: Server, n: nat, i: nat) {
    EffectiveFrom(w, s, n, i) && w.failure(3 + 2 * i).NoFailure?
  }

  lemma AnsweredStep(w: World, s: Server, n: nat, i: nat)
    requires n < MAX_UPDATES
    ensures AnsweredFrom(w, s, n, i) <==>
      if i == n then TurnTakesEffect(w, s, n) && w.failure(3 + 2 * n).NoFailure?
      else TurnConflicts(w, s, n) && AnsweredFrom(w, s, n + 1, i)
  {
  }

  lemma {:induction false} LoopSetsIff(w: World, owners: seq<OwnerReference>, s: Server, n: nat)
    requires n <= MAX_UPDATES && VersionChecked(w) && Sound(s)
    ensures RetryFrom(w, owners, s, n).outcome.OwnerSet? <==> exists i: nat :: AnsweredFrom(w, s, n, i)
    decreases MAX_UPDATES - n
  {
    if n < MAX_UPDATES {
      LoopSetsStep(w, owners, s, n);
      LoopSetsIff(w, owners, s, n + 1);
      TurnsExclude(w, s, n);
      forall i: nat
        ensures AnsweredFrom(w, s, n, i) <==>
          if i == n then TurnTakesEffect(w, s, n) && w.failure(3 + 2 * n).NoFailure?
          else TurnConflicts(w, s, n) && AnsweredFrom(w, s, n + 1, i)
      {
        AnsweredStep(w, s, n, i);
      }
      assert AnsweredFrom(w, s, n, n) <==> TurnTakesEffect(w, s, n) && w.failure(3 + 2 * n).NoFailure?;
      if TurnConflicts(w, s, n) && RetryFrom(w, owners, s, n + 1).outcome.OwnerSet? {
        var i: nat :| AnsweredFrom(w, s, n + 1, i);
        assert AnsweredFrom(w, s, n, i);
      }
    }
  }

  lemma LoopSetsStep(w: World, owners: seq<OwnerReference>, s: Server, n: nat)
    requires n < MAX_UPDATES && VersionChecked(w) && Sound(s)
    ensures RetryFrom(w, owners, s, n).outcome.OwnerSet? <==>
      if TurnConflicts(w, s, n) then RetryFrom(w, owners, s, n + 1).outcome.OwnerSet?
      else TurnTakesEffect(w, s, n) && w.failure(3 + 2 * n).NoFailure?
  {
    RetryStep(w, owners, s, n);
    if BeforeCall(w, s, 2 + 2 * n).stored.Some? && w.failure(2 + 2 * n).NoFailure? { OneAttempt(w, owners, s, n); }
  }

  // Against any other writers the owner is set exactly when the loop is entered and within ten
  // turns, all before it ending in conflicts, there is one between whose two calls nobody writes and
  // neither of whose calls fails.
  lemma SetsIff(w: World, s: Server, deploymentName: string)
    requires VersionChecked(w) && Sound(s)
    ensures Spec(w, s, deploymentName).outcome.OwnerSet? <==>
      EntersLoop(w, s) && exists i: nat :: AnsweredFrom(w, s, 0, i)
  {
    LoopOrNoAttempt(w, s, deploymentName);
    if EntersLoop(w, s) {
      LoopFromCheck(w, s, deploymentName);
      LoopSetsIff(w, OwnerOf(deploymentName, w.deploymentUid.value), s, 0);
    }
  }

  // All attempts that are left conflict.
  ghost predicate Exhausted(t: Trace, n: nat) {
    |t.attempts| + n == 10 && t.outcome.ProcessExit? &&
    forall i :: 0 <= i < |t.attempts| ==> t.attempts[i].error == Some(Conflict)
  }

  lemma ExhaustedCons(t: Trace, a: Attempt, n: nat)
    ensures a.error == Some(Conflict) ==>
      (Exhausted(t.(attempts := [a] + t.attempts), n) <==> Exhausted(t, n + 1))
  {
    var all := [a] + t.attempts;
    assert forall i :: 0 < i < |all| ==> all[i] == t.attempts[i - 1];
    assert forall i :: 0 <= i < |t.attempts| ==> t.attempts[i] == all[i + 1];
  }

  lemma {:induction false} LoopExhaustedIff(w: World, owners: seq<OwnerReference>, s: Server, n: nat)
    requires n <= MAX_UPDATES && VersionChecked(w) && Sound(s)
    ensures Exhausted(RetryFrom(w, owners, s, n), n) <==> forall i :: n <= i < 10 ==> TurnConflicts(w, s, i)
    decreases MAX_UPDATES - n
  {
    if n < MAX_UPDATES {
      RetryStep(w, owners, s, n);
      if TurnConflicts(w, s, n) {
        OneAttempt(w, owners, s, n);
        LoopExhaustedIff(w, owners, s, n + 1);
        ExhaustedCons(RetryFrom(w, owners, s, n + 1), AttemptAt(w, owners, s, n), n);
      } else if BeforeCall(w, s, 2 + 2 * n).stored.Some? && w.failure(2 + 2 * n).NoFailure? {
        OneAttempt(w, owners, s, n);
        assert RetryFrom(w, owners, s, n).attempts[0].error != Some(Conflict);
      }
    }
  }

  // The process exits after ten conflicts exactly when the loop is entered and every one of its ten
  // turns meets a write between its two calls, or is told so.
  lemma ExhaustedIff(w: World, s: Server, deploymentName: string)
    requires VersionChecked(w) && Sound(s)
    ensures Exhausted(Spec(w, s, deploymentName), 0) <==>
      EntersLoop(w, s) && forall i :: 0 <= i < 10 ==> TurnConflicts(w, s, i)
  {
    LoopOrNoAttempt(w, s, deploymentName);
    if EntersLoop(w, s) {
      LoopFromCheck(w, s, deploymentName);
      LoopExhaustedIff(w, OwnerOf(deploymentName, w.deploymentUid.value), s, 0);
    }
  }

  // ---- Whose owners are replaced ----

  // An update takes effect on a resource that others own.
  ghost predicate ReplacesOwners(t: Trace) {
    exists a :: a in t.attempts && a.after != a.before && a.before.stored.Some? && a.before.stored.value.owners.Some?
  }

  // Owners of others are replaced exactly when the resource was unowned at the check, and someone
  // else had set its owners by the time of the read of the turn whose update takes effect.
  lemma {:induction false} ReplacesIff(w: World, s: Server, deploymentName: string)
    requires VersionChecked(w) && Sound(s)
    ensures ReplacesOwners(Spec(w, s, deploymentName)) <==>
      EntersLoop(w, s) &&
      exists i: nat :: EffectiveFrom(w, s, 0, i) && BeforeCall(w, s, 2 + 2 * i).stored.value.owners.Some?
  {
    LoopOrNoAttempt(w, s, deploymentName);
    if EntersLoop(w, s) {
      var owners := OwnerOf(deploymentName, w.deploymentUid.value);
      var t := Spec(w, s, deploymentName);
      LoopFromCheck(w, s, deploymentName);
      forall a ensures a in t.attempts && a.after != a.before <==>
          exists i: nat :: EffectiveFrom(w, s, 0, i) && a == AttemptAt(w, owners, s, i)
      {
        EffectiveAttempts(w, owners, s, 0, a);
      }
      forall i: nat | EffectiveFrom(w, s, 0, i)
        ensures AttemptAt(w, owners, s, i).before.stored == BeforeCall(w, s, 2 + 2 * i).stored
      {
        OneAttempt(w, owners, s, i);
      }
    }
  }

  lemma IntruderIsVersionChecked(theirs: seq<OwnerReference>, call: nat)
    ensures VersionChecked(Intruder(theirs, call))
  {
    var w := Intruder(theirs, call);
    forall k: nat, x: Server | Sound(x)
      ensures var t := w.others(k, x);
        Sound(t) && x.revision <= t.revision &&
        (t.stored.Some? && t.stored.value.version <= x.revision ==> t.stored == x.stored)
    {
      var t := w.others(k, x);
      assert t == x || (x.stored.Some? && t == Put(x, x.stored.value.(owners := Some(theirs))));
    }
  }

  lemma {:induction false} IntruderBefore(theirs: seq<OwnerReference>, call: nat, s: Server, k: nat)
    requires s.stored.Some?
    ensures BeforeCall(Intruder(theirs, call), s, k) ==
      if k < call then s else Put(s, s.stored.value.(owners := Some(theirs)))
  {
    if k > 0 { IntruderBefore(theirs, call, s, k - 1); }
  }

  // The turn whose update takes effect against that writer.
  lemma IntruderTurn(theirs: seq<OwnerReference>, call: nat, s: Server)
    requires s.stored.Some? && s.stored.value.owners.None?
    ensures var w := Intruder(theirs, call);
      (EntersLoop(w, s) <==> call > 0) &&
      if call == 3 then TurnConflicts(w, s, 0) && TurnTakesEffect(w, s, 1) else TurnTakesEffect(w, s, 0)
  {
    IntruderBefore(theirs, call, s, 0);
    IntruderBefore(theirs, call, s, 2);
    IntruderBefore(theirs, call, s, 3);
    IntruderBefore(theirs, call, s, 4);
    IntruderBefore(theirs, call, s, 5);
  }

  lemma IntruderReplaced(theirs: seq<OwnerReference>, call: nat, s: Server)
    requires Sound(s) && s.stored.Some? && s.stored.value.owners.None?
    ensures ReplacesOwners(Spec(Intruder(theirs, call), s, "deployment")) <==> 1 <= call <= 3
  {
    var w, last := Intruder(theirs, call), if call == 3 then 1 else 0;
    IntruderIsVersionChecked(theirs, call);
    IntruderTurn(theirs, call, s);
    ReplacesIff(w, s, "deployment");
    IntruderBefore(theirs, call, s, 2 + 2 * last);
    assert EffectiveFrom(w, s, 0, last);
    forall i: nat | EffectiveFrom(w, s, 0, i) ensures i == last { EffectiveIsUnique(w, s, 0, i, last); }
  }

  // The turn that takes effect is answered, and stores our owners.
  lemma IntruderAttempt(theirs: seq<OwnerReference>, call: nat, s: Server, i: nat)
    requires Sound(s) && s.stored.Some? && s.stored.value.owners.None? && TurnTakesEffect(Intruder(theirs, call), s, i)
    ensures var a := AttemptAt(Intruder(theirs, call), OwnerOf("deployment", "uid"), s, i);
      a.error.None? && a.after.stored.Some? && a.after.stored.value.owners == Some(OwnerOf("deployment", "uid"))
  {
    IntruderIsVersionChecked(theirs, call);
    OneAttempt(Intruder(theirs, call), OwnerOf("deployment", "uid"), s, i);
  }

  lemma IntruderOutcome(theirs: seq<OwnerReference>, call: nat, s: Server)
    requires Sound(s) && s.stored.Some? && s.stored.value.owners.None? && call > 0
    ensures var t := Spec(Intruder(theirs, call), s, "deployment");
      t.outcome.OwnerSet? && t.server.stored.Some? &&
      t.server.stored.value.owners == Some(OwnerOf("deployment", "uid")) &&
      |t.attempts| == if call == 3 then 2 else 1
  {
    var w, owners, last := Intruder(theirs, call), OwnerOf("deployment", "uid"), if call == 3 then 1 else 0;
    IntruderIsVersionChecked(theirs, call);
    IntruderTurn(theirs, call, s);
    LoopFromCheck(w, s, "deployment");
    IntruderAttempt(theirs, call, s, last);
    EffectiveIsLast(w, owners, s, 0, last);
  }

  // So one writer that sets owners right before the given call has them respected before the check,
  // replaced before the next three calls (before the update at the price of a conflict), with a
  // success reported, and is too late after them.
  lemma LaterOwnersAreReplaced(theirs: seq<OwnerReference>, call: nat, s: Server)
    requires Sound(s) && s.stored.Some? && s.stored.value.owners.None?
    ensures VersionChecked(Intruder(theirs, call))
    ensures var t := Spec(Intruder(theirs, call), s, "deployment");
      (ReplacesOwners(t) <==> 1 <= call <= 3) &&
      if call == 0 then
        t.outcome.AlreadyOwned? &&
        t.server.stored == Some(s.stored.value.(owners := Some(theirs), version := s.revision + 1))
      else
        t.outcome.OwnerSet? && t.server.stored.Some? &&
        t.server.stored.value.owners == Some(OwnerOf("deployment", "uid")) &&
        |t.attempts| == if call == 3 then 2 else 1
  {
    IntruderIsVersionChecked(theirs, call);
    IntruderReplaced(theirs, call, s);
    if call > 0 {
      IntruderOutcome(theirs, call, s);
    } else {
      IntruderBefore(theirs, call, s, 0);
    }
  }

  predicate Unowned(s: Server) {
    s.stored.Some? ==> s.stored.value.owners.None?
  }

  // Writers that never set owners guarantee that nothing of the kind happens.
  lemma {:induction false} UnownedUntilSet(w: World, owners: seq<OwnerReference>, s: Server, k: nat, n: nat)
    requires n <= MAX_UPDATES
    requires forall i: nat, x: Server :: Unowned(x) ==> Unowned(w.others(i, x))
    requires Unowned(s)
    ensures forall a :: a in Retry(w, owners, s, k, n).attempts ==> a.read.owners.None?
    decreases MAX_UPDATES - n
  {
    if n < MAX_UPDATES && w.others(k, s).stored.Some? && w.failure(k).NoFailure? {
      var a := Try(w, owners, s, k);
      assert Unowned(w.others(k, s)) && Unowned(w.others(k + 1, w.others(k, s)));
      if a.error == Some(Conflict) {
        UnownedUntilSet(w, owners, a.after, k + 2, n + 1);
      }
    }
  }

  // For example: a writer that gets in before every update makes all ten attempts fail, and the
  // process exits.
  lemma {:induction false} ContentionExits(w: World, owners: seq<OwnerReference>, s: Server, k: nat, n: nat)
    requires n <= MAX_UPDATES && k % 2 == 0
    requires s.stored.Some? && Sound(s)
    requires forall i: nat :: w.failure(i).NoFailure?
    requires forall i: nat, x: Server ::
      w.others(i, x) == if i % 2 == 1 && x.stored.Some? then Put(x, x.stored.value) else x
    ensures var t := Retry(w, owners, s, k, n); t.outcome.ProcessExit? && |t.attempts| == 10 - n
    decreases MAX_UPDATES - n
  {
    if n < MAX_UPDATES {
      var a := Try(w, owners, s, k);
      assert (k + 1) % 2 == 1;
      assert a.error == Some(Conflict);
      ContentionExits(w, owners, a.after, k + 2, n + 1);
    }
  }
}
