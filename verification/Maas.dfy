// The credentials of the MaaS agent: maasAgentCreateClient, createMaasAgentSecret and
// getExistingUsernameFromSecret, step by step, with a stop possible after any step.
module Maas {
  import opened Wrappers

  const STUB_USERNAME := "stub-client-not-registered-in-maas"
  const STUB_PASSWORD := "password"

  // The secret; its username entry may be missing.
  datatype Credentials = Credentials(username: Option<string>, password: string)

  // The clients registered in MaaS with their passwords, and the agent's secret.
  datatype World = World(registered: map<string, string>, secret: Option<Credentials>)

  function AgentName(namespace: string): string {
    "maas-agent-" + namespace
  }

  // ---- One run ----

  datatype Pc =
    | Stubbing                    // disabled: about to store the stub
    | Reading(password: string)   // enabled: about to look at the secret
    | Deleting(password: string)
    | Registering(password: string)
    | Storing(password: string)
    | Finished(enabled: bool, ok: bool)

  // A request may take effect or not, and be answered or not.  The contract assumed of the servers:
  // a write that is answered as successful took effect.
  datatype Step =
    | StoreStub(applied: bool, answered: bool)
    | Read(answered: bool)
    | Delete(applied: bool, answered: bool)   // the status of the answer is ignored
    | Post(applied: bool, success: bool)      // success: answered 200 or 201
    | Store(applied: bool, answered: bool)

  predicate Usable(username: string) {
    username != "" && username != STUB_USERNAME
  }

  predicate Allowed(pc: Pc, step: Step) {
    match step
    case StoreStub(applied, answered) => pc.Stubbing? && (answered ==> applied)
    case Read(_) => pc.Reading?
    case Delete(_, _) => pc.Deleting?
    case Post(applied, success) => pc.Registering? && (success ==> applied)
    case Store(applied, answered) => pc.Storing? && (answered ==> applied)
  }

  function AfterRead(w: World, password: string): Pc {
    match w.secret
    case None => Deleting(password)
    case Some(c) =>
      if c.username.None? then Finished(true, false)
      else if Usable(c.username.value) then Finished(true, true)
      else Deleting(password)
  }

  function Apply(namespace: string, w: World, pc: Pc, step: Step): (World, Pc)
    requires Allowed(pc, step)
  {
    match step
    case StoreStub(applied, answered) =>
      (if applied then w.(secret := Some(Credentials(Some(STUB_USERNAME), STUB_PASSWORD))) else w,
       Finished(false, answered))
    case Read(answered) => (w, if answered then AfterRead(w, pc.password) else Finished(true, false))
    case Delete(applied, answered) =>
      (if applied then w.(registered := w.registered - {AgentName(namespace)}) else w,
       if answered then Registering(pc.password) else Finished(true, false))
    case Post(applied, success) =>
      (if applied then w.(registered := w.registered[AgentName(namespace) := pc.password]) else w,
       if success then Storing(pc.password) else Finished(true, false))
    case Store(applied, answered) =>
      (if applied then w.(secret := Some(Credentials(Some(AgentName(namespace)), pc.password))) else w,
       Finished(true, answered))
  }

  // ---- What must always hold ----

  // A secret that names a client holds the password registered for it.
  predicate Safe(w: World) {
    w.secret.Some? && w.secret.value.username.Some? && Usable(w.secret.value.username.value) ==>
      var c := w.secret.value;
      c.username.value in w.registered && w.registered[c.username.value] == c.password
  }

  // The secret names a client.
  predicate Named(w: World) {
    w.secret.Some? && w.secret.value.username.Some? && Usable(w.secret.value.username.value)
  }

  // What a run knows while it is replacing the registration.
  predicate Consistent(namespace: string, w: World, pc: Pc) {
    Safe(w) &&
    match pc
    case Deleting(_) => !Named(w)
    case Registering(_) => !Named(w)
    case Storing(password) =>
      !Named(w) && AgentName(namespace) in w.registered && w.registered[AgentName(namespace)] == password
    case Finished(enabled, ok) => enabled && ok ==> Named(w)
    case _ => true
  }

  lemma AgentNameIsUsable(namespace: string)
    ensures Usable(AgentName(namespace))
  {
    assert AgentName(namespace)[0] == 'm' && STUB_USERNAME[0] == 's';
  }

  lemma StepKeepsConsistent(namespace: string, w: World, pc: Pc, step: Step)
    requires Consistent(namespace, w, pc) && Allowed(pc, step)
    ensures var (v, next) := Apply(namespace, w, pc, step);
      Consistent(namespace, v, next) &&
      forall u :: u != AgentName(namespace) ==>
        (u in v.registered <==> u in w.registered) && (u in w.registered ==> v.registered[u] == w.registered[u])
  {
    AgentNameIsUsable(namespace);
  }

  // ---- Runs one after the other, each stopped anywhere ----

  // What happens to the agent: a run begins, makes a step, or is stopped where it is.
  datatype Event = BeginEnabled(password: string) | BeginDisabled | Makes(step: Step) | Stops

  datatype State = State(world: World, running: Option<Pc>)

  predicate Enabled(s: State, e: Event) {
    match e
    case Makes(step) => s.running.Some? && Allowed(s.running.value, step)
    case Stops => s.running.Some?
    case _ => s.running.None?       // runs do not overlap
  }

  function Next(namespace: string, s: State, e: Event): State
    requires Enabled(s, e)
  {
    match e
    case BeginEnabled(password) => s.(running := Some(Reading(password)))
    case BeginDisabled => s.(running := Some(Stubbing))
    case Makes(step) =>
      var r := Apply(namespace, s.world, s.running.value, step);
      State(r.0, Some(r.1))
    case Stops => s.(running := None)
  }

  function Reach(namespace: string, s: State, events: seq<Event>): Option<State> {
    if events == [] then Some(s)
    else
      match Reach(namespace, s, events[..|events| - 1])
      case None => None
      case Some(t) =>
        if Enabled(t, events[|events| - 1]) then Some(Next(namespace, t, events[|events| - 1])) else None
  }

  // Over any sequence of enabled and disabled runs, each of which may stop after any step, at every
  // moment a secret that names a client holds its registered password; an enabled run that has
  // returned without an error leaves such a secret; and no other client is touched.
  lemma {:induction false} StopSafe(namespace: string, w: World, events: seq<Event>)
    requires Safe(w) && Reach(namespace, State(w, None), events).Some?
    ensures var s := Reach(namespace, State(w, None), events).value;
      Safe(s.world) &&
      (s.running == Some(Finished(true, true)) ==> Named(s.world)) &&
      (s.running.Some? ==> Consistent(namespace, s.world, s.running.value)) &&
      forall u :: u != AgentName(namespace) ==>
        (u in s.world.registered <==> u in w.registered) &&
        (u in w.registered ==> s.world.registered[u] == w.registered[u])
  {
    if events != [] {
      StopSafe(namespace, w, events[..|events| - 1]);
      var s, e := Reach(namespace, State(w, None), events[..|events| - 1]).value, events[|events| - 1];
      if e.Makes? {
        StepKeepsConsistent(namespace, s.world, s.running.value, e.step);
      }
    }
  }

  // ---- The code, as a run of these steps ----

  // What the world answers to each request of one run.
  datatype Answers = Answers(
    storeStub: (bool, bool), read: bool, delete: (bool, bool), post: (bool, bool), store: (bool, bool))

  predicate Honest(a: Answers) {
    (a.storeStub.1 ==> a.storeStub.0) && (a.post.1 ==> a.post.0) && (a.store.1 ==> a.store.0)
  }

  function RunSteps(namespace: string, w: World, pc: Pc, steps: seq<Step>): Option<(World, Pc)> {
    if steps == [] then Some((w, pc))
    else
      match RunSteps(namespace, w, pc, steps[..|steps| - 1])
      case None => None
      case Some(r) =>
        if Allowed(r.1, steps[|steps| - 1]) then Some(Apply(namespace, r.0, r.1, steps[|steps| - 1])) else None
  }

  lemma {:induction false} OneMore(
    namespace: string, w: World, pc: Pc, steps: seq<Step>, v: World, next: Pc, step: Step)
    requires RunSteps(namespace, w, pc, steps) == Some((v, next)) && Allowed(next, step)
    ensures RunSteps(namespace, w, pc, steps + [step]) == Some(Apply(namespace, v, next, step))
  {
    assert (steps + [step])[..|steps|] == steps;
  }

  method CreateAgentSecret(start: World, username: string, password: string, answer: (bool, bool))
    returns (w: World, ok: bool)
    ensures w == if answer.0 then start.(secret := Some(Credentials(Some(username), password))) else start
    ensures ok == answer.1
  {
    w, ok := start, answer.1;
    if answer.0 {
      w := w.(secret := Some(Credentials(Some(username), password)));
    }
  }

  // The username of the secret, "" when there is no secret; Failed without an answer or without
  // a username.
  datatype Username = Read(name: string) | Failed

  method GetExistingUsername(w: World, answered: bool) returns (r: Username)
    ensures r.Failed? <==> !answered || (w.secret.Some? && w.secret.value.username.None?)
    ensures r.Read? ==> r.name == if w.secret.None? then "" else w.secret.value.username.value
  {
    if !answered {
      return Failed;
    }
    if w.secret.None? {
      return Username.Read("");
    }
    if w.secret.value.username.None? {
      return Failed;
    }
    r := Username.Read(w.secret.value.username.value);
  }

  // A secret that is there has a username.
  predicate SecretReadable(w: World) {
    w.secret.Some? ==> w.secret.value.username.Some?
  }

  predicate NamesClient(w: World) {
    w.secret.Some? && w.secret.value.username.Some? &&
    w.secret.value.username.value !in {"", "stub-client-not-registered-in-maas"}
  }

  method MaasAgentCreateClient(start: World, namespace: string, enabled: bool, newPassword: string, a: Answers)
    returns (w: World, ok: bool, ghost steps: seq<Step>)
    requires Honest(a)
    ensures var begin := if enabled then Reading(newPassword) else Stubbing;
      RunSteps(namespace, start, begin, steps) == Some((w, Finished(enabled, ok)))
    ensures Safe(start) ==> Safe(w) && (enabled && ok ==> Named(w))
    // A disabled run stores the stub.
    ensures !enabled ==> ok == a.storeStub.1 && w.registered == start.registered
    ensures !enabled && ok ==>
      w.secret == Some(Credentials(Some("stub-client-not-registered-in-maas"), "password"))
    // An enabled run succeeds exactly when the secret can be read and names a client already, or every
    // request it then makes is answered as successful, whatever became of the deletion.
    ensures enabled ==>
      (ok <==> a.read && SecretReadable(start) && (NamesClient(start) || (a.delete.1 && a.post.1 && a.store.1)))
    ensures enabled && NamesClient(start) ==> w == start
    ensures enabled && ok && !NamesClient(start) ==>
      var agent := "maas-agent-" + namespace;
      w.secret == Some(Credentials(Some(agent), newPassword)) &&
      agent in w.registered && w.registered[agent] == newPassword
    ensures forall u :: u != AgentName(namespace) ==>
      (u in w.registered <==> u in start.registered) &&
        (u in start.registered ==> w.registered[u] == start.registered[u])
  {
    AgentNameIsUsable(namespace);
    ghost var begin := if enabled then Reading(newPassword) else Stubbing;
    w, steps := start, [];
    if !enabled {
      OneMore(namespace, start, begin, steps, w, Stubbing, StoreStub(a.storeStub.0, a.storeStub.1));
      steps := steps + [StoreStub(a.storeStub.0, a.storeStub.1)];
      w, ok := CreateAgentSecret(w, STUB_USERNAME, STUB_PASSWORD, a.storeStub);
      return;
    }
    OneMore(namespace, start, begin, steps, w, begin, Step.Read(a.read));
    steps := steps + [Step.Read(a.read)];
    var existing := GetExistingUsername(w, a.read);
    if existing.Failed? {
      return w, false, steps;
    }
    if existing.name != "" && existing.name != STUB_USERNAME {
      return w, true, steps;
    }
    var newUsername := AgentName(namespace);
    OneMore(namespace, start, begin, steps, w, Deleting(newPassword), Delete(a.delete.0, a.delete.1));
    steps := steps + [Delete(a.delete.0, a.delete.1)];
    if a.delete.0 {
      w := w.(registered := w.registered - {newUsername});
    }
    if !a.delete.1 {
      return w, false, steps;
    }
    OneMore(namespace, start, begin, steps, w, Registering(newPassword), Post(a.post.0, a.post.1));
    steps := steps + [Post(a.post.0, a.post.1)];
    if a.post.0 {
      w := w.(registered := w.registered[newUsername := newPassword]);
    }
    if !a.post.1 {
      return w, false, steps;
    }
    OneMore(namespace, start, begin, steps, w, Storing(newPassword), Store(a.store.0, a.store.1));
    steps := steps + [Store(a.store.0, a.store.1)];
    w, ok := CreateAgentSecret(w, newUsername, newPassword, a.store);
  }
}
