// Removing the old deployment after a migration to its "-v1" successor:
// v1DeploymentAndHpaMigration and CheckDeploymentStatus.
module Migration {
  import opened Wrappers

  datatype Deployment = Deployment(name: string, labels: Option<map<string, string>>)

  const OPERATOR_LABEL := "app.kubernetes.io/managed-by-operator"
  const OPERATOR := "facade-operator"
  const SUCCESSOR_SUFFIX := "-v1"

  // ---- The pair of deployments ----

  // ds[i] is the successor of ds[j].
  predicate IsPair(ds: seq<Deployment>, i: int, j: int)
    requires 0 <= i < |ds| && 0 <= j < |ds|
  {
    ds[i].name == ds[j].name + SUCCESSOR_SUFFIX
  }

  // Loop order: by successor first.
  predicate Before(i: int, j: int, k: int, l: int) {
    i < k || (i == k && j < l)
  }

  ghost predicate NoPair(ds: seq<Deployment>) {
    forall i, j :: 0 <= i < |ds| && 0 <= j < |ds| ==> !IsPair(ds, i, j)
  }

  // The last pair in loop order.
  ghost predicate LastPair(ds: seq<Deployment>, v0: Deployment, v1: Deployment) {
    exists i, j :: 0 <= i < |ds| && 0 <= j < |ds| && v1 == ds[i] && v0 == ds[j] && LastPairAt(ds, i, j)
  }

  ghost predicate LastPairAt(ds: seq<Deployment>, i: int, j: int)
    requires 0 <= i < |ds| && 0 <= j < |ds|
  {
    IsPair(ds, i, j) &&
    forall k, l :: 0 <= k < |ds| && 0 <= l < |ds| && Before(i, j, k, l) ==> !IsPair(ds, k, l)
  }

  // What the search knows before it compares ds[i] with ds[j].
  ghost predicate SearchedUpTo(ds: seq<Deployment>, i: int, j: int, at: Option<(nat, nat)>,
                               v0: Deployment, v1: Deployment)
  {
    match at
    case None =>
      v0.name == v1.name == "" &&
      forall k, l :: 0 <= k < |ds| && 0 <= l < |ds| && Before(k, l, i, j) ==> !IsPair(ds, k, l)
    case Some((m, n)) =>
      m < |ds| && n < |ds| && Before(m, n, i, j) && v1 == ds[m] && v0 == ds[n] && IsPair(ds, m, n) &&
      forall k, l :: (0 <= k < |ds| && 0 <= l < |ds| && Before(m, n, k, l) && Before(k, l, i, j)) ==> !IsPair(ds, k, l)
  }

  // A name has one predecessor.
  lemma SuccessorDeterminesPair(ds: seq<Deployment>, i: int, j: int, k: int)
    requires 0 <= i < |ds| && 0 <= j < |ds| && 0 <= k < |ds| && IsPair(ds, i, j) && IsPair(ds, i, k)
    ensures ds[j].name == ds[k].name
  {
    var a, b := ds[j].name, ds[k].name;
    assert (a + SUCCESSOR_SUFFIX)[..|a|] == a && (b + SUCCESSOR_SUFFIX)[..|b|] == b;
  }

  method SelectPair(ds: seq<Deployment>) returns (v0: Deployment, v1: Deployment)
    ensures NoPair(ds) <==> v1.name == ""
    ensures NoPair(ds) ==> v0.name == ""
    ensures !NoPair(ds) ==> LastPair(ds, v0, v1) && v1.name == v0.name + "-v1"
    // With distinct names the selected predecessor is the only one there is.
    ensures !NoPair(ds) ==> forall d :: d in ds && v1.name == d.name + SUCCESSOR_SUFFIX ==> d.name == v0.name
  {
    v0, v1 := Deployment("", None), Deployment("", None);
    ghost var at: Option<(nat, nat)> := None;
    for i := 0 to |ds|
      invariant SearchedUpTo(ds, i, 0, at, v0, v1)
    {
      for j := 0 to |ds|
        invariant SearchedUpTo(ds, i, j, at, v0, v1)
      {
        if ds[i].name == ds[j].name + SUCCESSOR_SUFFIX {
          v1, v0, at := ds[i], ds[j], Some((i, j));
        }
      }
    }
    if at.Some? {
      assert LastPairAt(ds, at.value.0, at.value.1);
      forall d | d in ds && v1.name == d.name + SUCCESSOR_SUFFIX ensures d.name == v0.name {
        var k :| 0 <= k < |ds| && ds[k] == d;
        SuccessorDeterminesPair(ds, at.value.0, k, at.value.1);
      }
    }
  }

  // ---- Waiting for the successor ----

  datatype Condition = Condition(kind: string, status: string)

  // The answer to one fetch of the deployment.
  datatype Fetch = FetchError | Status(conditions: seq<Condition>)

  const TIMEOUT_SECONDS := 300
  const INTERVAL_SECONDS := 10

  // The world's part in the wait: the answers, the seconds each took, and whether the surrounding
  // context was already cancelled.
  datatype Waiting = Waiting(fetch: nat -> Fetch, latency: nat -> nat, cancelled: nat -> bool)

  datatype Readiness = Ready | NotReady | FetchFailed

  // The seconds that go by before the n-th fetch: those the fetches before it took, and ten after each.
  function Spent(w: Waiting, n: nat): nat {
    if n == 0 then 0 else Spent(w, n - 1) + w.latency(n - 1) + 10
  }

  // The wait is neither over, after five minutes, nor cancelled.
  predicate InTime(w: Waiting, n: nat) {
    Spent(w, n) < 300 && !w.cancelled(n)
  }

  predicate SeesAvailable(f: Fetch) {
    f.Status? &&
    exists i :: 0 <= i < |f.conditions| && f.conditions[i].kind == "Available" && f.conditions[i].status == "True"
  }

  // The successor is seen available by a fetch in time, and no fetch before it fails.
  ghost predicate BecomesAvailable(w: Waiting) {
    exists n: nat :: SeesAvailable(w.fetch(n)) && forall k :: 0 <= k <= n ==> InTime(w, k) && w.fetch(k).Status?
  }

  method CheckDeploymentStatus(w: Waiting) returns (r: Readiness, fetches: nat)
    ensures fetches <= 30
    // It fetches as long as there is time, and no longer, until it sees what it waits for.
    ensures forall k :: 0 <= k < fetches ==> InTime(w, k)
    ensures forall k :: 0 <= k < fetches - 1 ==> w.fetch(k).Status? && !SeesAvailable(w.fetch(k))
    ensures match r
      case Ready => fetches > 0 && SeesAvailable(w.fetch(fetches - 1))
      case FetchFailed => fetches > 0 && w.fetch(fetches - 1).FetchError?
      case NotReady => !InTime(w, fetches) && (fetches > 0 ==> !SeesAvailable(w.fetch(fetches - 1)))
    ensures r.Ready? <==> BecomesAvailable(w)
  {
    var elapsed, attempt := 0, 0;
    while true
      invariant INTERVAL_SECONDS * attempt <= elapsed == Spent(w, attempt)
      invariant forall k :: 0 <= k < attempt ==> InTime(w, k) && w.fetch(k).Status? && !SeesAvailable(w.fetch(k))
      invariant attempt <= 30
      decreases TIMEOUT_SECONDS - elapsed
    {
      if elapsed >= TIMEOUT_SECONDS || w.cancelled(attempt) {
        return NotReady, attempt;
      }
      var v1Depl := w.fetch(attempt);
      if v1Depl.FetchError? {
        return FetchFailed, attempt + 1;
      }
      var i := 0;
      while i < |v1Depl.conditions|
        invariant i <= |v1Depl.conditions|
        invariant forall k :: 0 <= k < i ==>
          !(v1Depl.conditions[k].kind == "Available" && v1Depl.conditions[k].status == "True")
      {
        if v1Depl.conditions[i].kind == "Available" && v1Depl.conditions[i].status == "True" {
          assert SeesAvailable(w.fetch(attempt));
          return Ready, attempt + 1;
        }
        i := i + 1;
      }
      elapsed, attempt := elapsed + w.latency(attempt) + INTERVAL_SECONDS, attempt + 1;
    }
  }

  // ---- The migration ----

  datatype Effect =
    | SawAvailable(name: string)      // the successor was fetched and had its Available condition
    | DeleteDeployment(name: string)
    | DeleteHpa

  datatype HpaAnswer = HpaFound | HpaMissing | HpaError

  datatype World = World(
    list: Option<seq<Deployment>>, waiting: Waiting, deploymentDeleted: bool,
    hpa: HpaAnswer, hpaDeleted: bool, hpaAfter: HpaAnswer)

  datatype Outcome = NothingToMigrate | ManagedByOperator | Migrated | ProcessExit

  // The operator manages the deployment.
  predicate Managed(d: Deployment) {
    d.name != "" && d.labels.Some? && "app.kubernetes.io/managed-by-operator" in d.labels.value &&
    d.labels.value["app.kubernetes.io/managed-by-operator"] == "facade-operator"
  }

  // There is a pair to migrate, and its successor becomes available.
  ghost predicate GoesAhead(w: World, v0: Deployment) {
    w.list.Some? && !NoPair(w.list.value) && !Managed(v0) && BecomesAvailable(w.waiting)
  }

  method V1DeploymentAndHpaMigration(w: World)
    returns (outcome: Outcome, log: seq<Effect>, v0: Deployment, v1: Deployment)
    ensures w.list.Some? && !NoPair(w.list.value) ==> LastPair(w.list.value, v0, v1)
    // Nothing is done without a pair, for a deployment the operator manages, or for a successor that
    // does not become available.  Otherwise the successor was seen available first, then its
    // predecessor is deleted, then the autoscaler, if the first deletion is answered and there is one.
    ensures log ==
      if !GoesAhead(w, v0) then []
      else [SawAvailable(v1.name), DeleteDeployment(v0.name)] +
           if w.deploymentDeleted && w.hpa.HpaFound? then [DeleteHpa] else []
    ensures outcome.NothingToMigrate? <==> w.list.Some? && NoPair(w.list.value)
    ensures outcome.ManagedByOperator? <==> w.list.Some? && !NoPair(w.list.value) && Managed(v0)
    // It ends normally exactly when all that it asks for is answered.
    ensures outcome.Migrated? <==>
      GoesAhead(w, v0) && w.deploymentDeleted &&
      (w.hpa.HpaMissing? || (w.hpa.HpaFound? && w.hpaDeleted && !w.hpaAfter.HpaError?))
  {
    log, v0, v1 := [], Deployment("", None), Deployment("", None);
    if w.list.None? {
      return ProcessExit, log, v0, v1;
    }
    v0, v1 := SelectPair(w.list.value);
    if v1.name == "" {
      return NothingToMigrate, log, v0, v1;
    }
    if v0.name != "" && v0.labels.Some? &&
       OPERATOR_LABEL in v0.labels.value && v0.labels.value[OPERATOR_LABEL] == OPERATOR {
      return ManagedByOperator, log, v0, v1;
    }
    var ready, fetches := CheckDeploymentStatus(w.waiting);
    if !ready.Ready? {
      return ProcessExit, log, v0, v1;
    }
    log := log + [SawAvailable(v1.name)];
    log := log + [DeleteDeployment(v0.name)];
    if !w.deploymentDeleted {
      return ProcessExit, log, v0, v1;
    }
    match w.hpa {
      case HpaMissing => return Migrated, log, v0, v1;
      case HpaError => return ProcessExit, log, v0, v1;
      case HpaFound =>
    }
    log := log + [DeleteHpa];
    if !w.hpaDeleted || w.hpaAfter.HpaError? {
      return ProcessExit, log, v0, v1;
    }
    outcome := Migrated;
  }

  // ---- The order of the list ----

  // With several generations at once only one pair is migrated.  Some order of the list makes the
  // search select this deployment as the successor.
  ghost predicate Selectable(ds: seq<Deployment>, v1: Deployment) {
    exists es, v0 :: multiset(es) == multiset(ds) && LastPair(es, v0, v1)
  }

  ghost predicate IsSuccessor(ds: seq<Deployment>, v1: Deployment) {
    exists i, j :: 0 <= i < |ds| && 0 <= j < |ds| && IsPair(ds, i, j) && ds[i] == v1
  }

  // The last predecessor of a deployment that has one.
  lemma {:induction false} LastPredecessor(ds: seq<Deployment>, i: nat, n: nat) returns (j: nat)
    requires i < |ds| && n <= |ds| && exists k :: 0 <= k < n && IsPair(ds, i, k)
    ensures j < n && IsPair(ds, i, j) && forall k :: j < k < n ==> !IsPair(ds, i, k)
  {
    if IsPair(ds, i, n - 1) {
      j := n - 1;
    } else {
      j := LastPredecessor(ds, i, n - 1);
    }
  }

  // The list with its k-th element moved to the end.
  function MovedToEnd(ds: seq<Deployment>, k: nat): (es: seq<Deployment>)
    requires k < |ds|
    ensures |es| == |ds| && es[|es| - 1] == ds[k]
    ensures forall n :: 0 <= n < |ds| && n != k ==> ds[n] == es[if n < k then n else n - 1]
  {
    ds[..k] + ds[k + 1..] + [ds[k]]
  }

  lemma MovedIsReordered(ds: seq<Deployment>, k: nat)
    requires k < |ds|
    ensures multiset(MovedToEnd(ds, k)) == multiset(ds)
  {
    assert ds == ds[..k] + [ds[k]] + ds[k + 1..];
  }

  // At the end of the list every successor is selected.
  lemma SuccessorIsSelectable(ds: seq<Deployment>, k: nat, n: nat)
    requires k < |ds| && n < |ds| && IsPair(ds, k, n)
    ensures Selectable(ds, ds[k])
  {
    var es := MovedToEnd(ds, k);
    MovedIsReordered(ds, k);
    var i := |es| - 1;
    assert |ds[k].name| == |ds[n].name| + 3;
    assert IsPair(es, i, if n < k then n else n - 1);
    var j := LastPredecessor(es, i, |es|);
    assert LastPairAt(es, i, j);
    assert LastPair(es, es[j], ds[k]);
  }

  lemma ReorderedContains(ds: seq<Deployment>, es: seq<Deployment>, d: Deployment)
    requires multiset(es) == multiset(ds) && d in es
    ensures d in ds
  {
    assert d in multiset(es);
  }

  // A deployment can be selected, for some order of the list, exactly when it has a predecessor.
  lemma SelectableIff(ds: seq<Deployment>, v1: Deployment)
    ensures Selectable(ds, v1) <==> IsSuccessor(ds, v1)
  {
    if Selectable(ds, v1) {
      var es, v0 :| multiset(es) == multiset(ds) && LastPair(es, v0, v1);
      ReorderedContains(ds, es, v0);
      ReorderedContains(ds, es, v1);
      var i, j :| 0 <= i < |ds| && 0 <= j < |ds| && ds[i] == v1 && ds[j] == v0;
      assert IsPair(ds, i, j);
    }
    if IsSuccessor(ds, v1) {
      var i, j :| 0 <= i < |ds| && 0 <= j < |ds| && IsPair(ds, i, j) && ds[i] == v1;
      SuccessorIsSelectable(ds, i, j);
    }
  }

  // Which deployment is migrated does not depend on the order of the list exactly when all listed
  // pairs have successors of one name.
  lemma OrderIsIrrelevantIff(ds: seq<Deployment>)
    ensures (forall a, b :: Selectable(ds, a) && Selectable(ds, b) ==> a.name == b.name) <==>
      forall a, b :: IsSuccessor(ds, a) && IsSuccessor(ds, b) ==> a.name == b.name
  {
    forall a ensures Selectable(ds, a) <==> IsSuccessor(ds, a) { SelectableIff(ds, a); }
  }

  // For example: of three generations the order of the list decides which one is migrated.
  lemma OrderDecides(a: Deployment, b: Deployment, c: Deployment)
    requires b.name == a.name + SUCCESSOR_SUFFIX && c.name == b.name + SUCCESSOR_SUFFIX
    ensures LastPair([a, b, c], b, c) && LastPair([c, b, a], a, b)
  {
    var ds, es := [a, b, c], [c, b, a];
    assert |c.name| == |b.name| + 3 == |a.name| + 6;
    assert IsPair(ds, 2, 1) && IsPair(es, 1, 2);
    assert LastPairAt(ds, 2, 1) && LastPairAt(es, 1, 2);
  }
}
