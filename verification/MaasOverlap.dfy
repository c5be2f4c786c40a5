// Runs of maasAgentCreateClient that overlap: exactly which schedules keep the credentials safe.
module MaasOverlap {
  import opened Wrappers
  import opened Maas

  datatype Run = Run(password: string, pc: Pc)

  // Any number of runs over one world.  A run that makes no more steps was stopped.
  datatype Shared = Shared(world: World, runs: seq<Run>)

  datatype Move = Begin(enabled: bool, password: string) | Do(run: nat, step: Step)

  // Generated passwords do not repeat.
  predicate NewPassword(s: Shared, password: string) {
    (forall r :: 0 <= r < |s.runs| ==> s.runs[r].password != password) &&
    (s.world.secret.Some? ==> s.world.secret.value.password != password)
  }

  predicate Possible(s: Shared, m: Move) {
    match m
    case Begin(_, password) => NewPassword(s, password)
    case Do(r, step) => r < |s.runs| && Allowed(s.runs[r].pc, step)
  }

  function Next(namespace: string, s: Shared, m: Move): Shared
    requires Possible(s, m)
  {
    match m
    case Begin(enabled, password) =>
      s.(runs := s.runs + [Run(password, if enabled then Reading(password) else Stubbing)])
    case Do(r, step) =>
      var (world, pc) := Apply(namespace, s.world, s.runs[r].pc, step);
      Shared(world, s.runs[r := s.runs[r].(pc := pc)])
  }

  function Reach(namespace: string, w: World, ms: seq<Move>): Option<Shared> {
    if ms == [] then Some(Shared(w, []))
    else
      match Reach(namespace, w, ms[..|ms| - 1])
      case None => None
      case Some(s) => if Possible(s, ms[|ms| - 1]) then Some(Next(namespace, s, ms[|ms| - 1])) else None
  }

  // ---- What the schedule alone tells ----

  predicate Effective(m: Move) {
    m.Do? && (m.step.Read? || m.step.applied)
  }

  // The run that registered the agent last, if that registration was not deleted.
  function Registrar(ms: seq<Move>): Option<nat> {
    if ms == [] then None
    else
      var before, m := ms[..|ms| - 1], ms[|ms| - 1];
      if Effective(m) && m.step.Delete? then None
      else if Effective(m) && m.step.Post? then Some(m.run)
      else Registrar(before)
  }

  // Whether the secret holds credentials of the agent, given whether it did at first.
  predicate Stored(atFirst: bool, ms: seq<Move>) {
    if ms == [] then atFirst
    else
      var before, m := ms[..|ms| - 1], ms[|ms| - 1];
      if Effective(m) && m.step.Store? then true
      else if Effective(m) && m.step.StoreStub? then false
      else Stored(atFirst, before)
  }

  // A run stores its credentials when the last registration is not its own, or deletes or replaces
  // the registration when credentials of the agent are stored.
  predicate Clashes(atFirst: bool, ms: seq<Move>, m: Move) {
    Effective(m) && match m.step
      case Store(_, _) => Registrar(ms) != Some(m.run)
      case Delete(_, _) => Stored(atFirst, ms)
      case Post(_, _) => Stored(atFirst, ms)
      case _ => false
  }

  // ---- What the schedule tells about the world ----

  predicate HoldsAgent(namespace: string, w: World) {
    w.secret.Some? && w.secret.value.username == Some(AgentName(namespace))
  }

  predicate KnowsPassword(run: Run) {
    match run.pc
    case Stubbing => true
    case Finished(_, _) => true
    case _ => run.pc.password == run.password
  }

  ghost predicate Passwords(s: Shared) {
    (forall r :: 0 <= r < |s.runs| ==> KnowsPassword(s.runs[r])) &&
    (forall q, r :: 0 <= q < r < |s.runs| ==> s.runs[q].password != s.runs[r].password)
  }

  ghost predicate SecretTracked(namespace: string, atFirst: bool, s: Shared, ms: seq<Move>) {
    (Stored(atFirst, ms) <==> HoldsAgent(namespace, s.world)) &&
    (HoldsAgent(namespace, s.world) ==>
      forall r :: 0 <= r < |s.runs| && !s.runs[r].pc.Finished? ==> s.runs[r].password != s.world.secret.value.password)
  }

  ghost predicate RegistrarTracked(namespace: string, s: Shared, ms: seq<Move>) {
    match Registrar(ms)
    case Some(r) =>
      r < |s.runs| && AgentName(namespace) in s.world.registered &&
      s.world.registered[AgentName(namespace)] == s.runs[r].password
    case None =>
      AgentName(namespace) in s.world.registered ==> forall r :: 0 <= r < |s.runs| ==> !s.runs[r].pc.Storing?
  }

  ghost predicate Tracked(namespace: string, atFirst: bool, s: Shared, ms: seq<Move>) {
    Passwords(s) && SecretTracked(namespace, atFirst, s, ms) && RegistrarTracked(namespace, s, ms)
  }

  lemma SecretTrackedStep(namespace: string, atFirst: bool, s: Shared, ms: seq<Move>, m: Move)
    requires Passwords(s) && SecretTracked(namespace, atFirst, s, ms) && Possible(s, m)
    ensures SecretTracked(namespace, atFirst, Next(namespace, s, m), ms + [m])
  {
    AgentNameIsUsable(namespace);
    assert (ms + [m])[..|ms|] == ms;
  }

  lemma RegistrarTrackedStep(namespace: string, s: Shared, ms: seq<Move>, m: Move)
    requires Passwords(s) && RegistrarTracked(namespace, s, ms) && Possible(s, m)
    ensures RegistrarTracked(namespace, Next(namespace, s, m), ms + [m])
  {
    assert (ms + [m])[..|ms|] == ms;
  }

  lemma TrackedStep(namespace: string, atFirst: bool, s: Shared, ms: seq<Move>, m: Move)
    requires Tracked(namespace, atFirst, s, ms) && Possible(s, m)
    ensures Tracked(namespace, atFirst, Next(namespace, s, m), ms + [m])
  {
    SecretTrackedStep(namespace, atFirst, s, ms, m);
    RegistrarTrackedStep(namespace, s, ms, m);
  }

  lemma {:induction false} RunIsTracked(namespace: string, w: World, ms: seq<Move>)
    requires Reach(namespace, w, ms).Some?
    ensures Tracked(namespace, HoldsAgent(namespace, w), Reach(namespace, w, ms).value, ms)
  {
    if ms != [] {
      var before, m := ms[..|ms| - 1], ms[|ms| - 1];
      RunIsTracked(namespace, w, before);
      assert ms == before + [m];
      TrackedStep(namespace, HoldsAgent(namespace, w), Reach(namespace, w, before).value, before, m);
    }
  }

  // From a safe state a move leads to an unsafe one exactly when it clashes.
  lemma ClashIsUnsafe(namespace: string, atFirst: bool, s: Shared, ms: seq<Move>, m: Move)
    requires Tracked(namespace, atFirst, s, ms) && Possible(s, m) && Safe(s.world)
    ensures Safe(Next(namespace, s, m).world) <==> !Clashes(atFirst, ms, m)
  {
    AgentNameIsUsable(namespace);
  }

  ghost predicate SafeAfter(namespace: string, w: World, ms: seq<Move>) {
    var s := Reach(namespace, w, ms);
    s.Some? && Safe(s.value.world)
  }

  // However many runs overlap, and wherever each of them stops: the credentials are safe at every
  // moment exactly when no move clashes with the moves before it.
  lemma {:induction false} SafeIffClashFree(namespace: string, w: World, ms: seq<Move>)
    requires Safe(w) && Reach(namespace, w, ms).Some?
    ensures (forall n :: 0 <= n <= |ms| ==> SafeAfter(namespace, w, ms[..n])) <==>
      forall n :: 0 <= n < |ms| ==> !Clashes(HoldsAgent(namespace, w), ms[..n], ms[n])
  {
    if ms != [] {
      var before, m := ms[..|ms| - 1], ms[|ms| - 1];
      SafeIffClashFree(namespace, w, before);
      RunIsTracked(namespace, w, before);
      assert forall n :: 0 <= n <= |before| ==> before[..n] == ms[..n];
      assert ms[..|ms|] == ms;
      if SafeAfter(namespace, w, before) {
        ClashIsUnsafe(namespace, HoldsAgent(namespace, w), Reach(namespace, w, before).value, before, m);
      }
    }
  }

  // ---- An overlap that clashes ----

  lemma Advance(namespace: string, w: World, ms: seq<Move>, s: Shared, m: Move) returns (longer: seq<Move>, t: Shared)
    requires Reach(namespace, w, ms) == Some(s) && Possible(s, m)
    ensures longer == ms + [m] && t == Next(namespace, s, m) && Reach(namespace, w, longer) == Some(t)
  {
    longer, t := ms + [m], Next(namespace, s, m);
    assert longer[..|ms|] == ms;
  }

  // Run r looks at a missing secret and registers the agent.
  lemma Registers(namespace: string, w: World, ms: seq<Move>, s: Shared, r: nat) returns (longer: seq<Move>, t: Shared)
    requires Reach(namespace, w, ms) == Some(s) && s.world.secret.None?
    requires r < |s.runs| && s.runs[r].pc == Reading(s.runs[r].password)
    ensures longer == ms + [Do(r, Step.Read(true))] + [Do(r, Delete(true, true))] + [Do(r, Post(true, true))]
    ensures Reach(namespace, w, longer) == Some(t) && t.world.secret.None?
    ensures t.runs == s.runs[r := s.runs[r].(pc := Storing(s.runs[r].password))]
    ensures Registrar(longer) == Some(r)
  {
    longer, t := Advance(namespace, w, ms, s, Do(r, Step.Read(true)));
    longer, t := Advance(namespace, w, longer, t, Do(r, Delete(true, true)));
    longer, t := Advance(namespace, w, longer, t, Do(r, Post(true, true)));
  }

  // For example: when a second run registers between the registration and the storing of the first,
  // the first ends without an error and with a password that is no longer registered.
  lemma OverlapIsUnsafe(namespace: string, p: string, q: string) returns (ms: seq<Move>)
    requires p != q
    ensures var s := Reach(namespace, World(map[], None), ms);
      s.Some? && !Safe(s.value.world) && |s.value.runs| == 2 && s.value.runs[0].pc == Finished(true, true)
  {
    var w, s := World(map[], None), Shared(World(map[], None), []);
    ms, s := Advance(namespace, w, [], s, Begin(true, p));
    ms, s := Advance(namespace, w, ms, s, Begin(true, q));
    ms, s := Registers(namespace, w, ms, s, 0);
    ms, s := Registers(namespace, w, ms, s, 1);
    RunIsTracked(namespace, w, ms);
    ClashIsUnsafe(namespace, false, s, ms, Do(0, Store(true, true)));
    ms, s := Advance(namespace, w, ms, s, Do(0, Store(true, true)));
  }
}
