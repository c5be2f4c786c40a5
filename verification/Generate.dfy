// One generator and the watcher of its resource type: declarationCreator, declarationWaiter and
// Generate, interleaved with the dispatcher.
module Generate {
  import opened Wrappers
  import O = OwnerRef
  import W = Watcher

  // Where the generator is; i is the index of the declared name it works on.
  datatype Pc =
    | Creating(i: nat)
    | Starting(i: nat)
    | Registering(i: nat)
    | AtSelect(i: nat, ch: nat)
    | HandlingPhase(i: nat, ch: nat, obj: W.Obj)
    | SettingOwner(i: nat, ch: nat, obj: W.Obj)
    | Leaving(i: nat, ch: nat)
    | Returned
    | Exited

  datatype Effect = Applied(name: string, created: bool)

  // One call of setOwnerRef: the name of the resource, the world it met, the server's copy of the
  // resource at that time, the deployment's name, and what came of it.
  datatype OwnerCall = OwnerCall(
    name: string, world: O.World, server: O.Server, deploymentName: string, trace: O.Trace)

  // What came of it is what setOwnerRef does in that world.
  predicate Genuine(call: OwnerCall) {
    call.trace == O.Spec(call.world, call.server, call.deploymentName)
  }

  // A waiter that came to its end: on this object of the channel it called setOwnerRef.
  datatype Completion = Completion(name: string, ch: nat, obj: W.Obj, call: OwnerCall)

  // watcher is the entry of resourceTypeWatchers for this type, steps is what happened to it, and
  // watches counts the watches opened.
  datatype State = State(
    pc: Pc, watcher: Option<W.State>, steps: seq<W.Action>, watches: nat,
    effects: seq<Effect>, completed: seq<Completion>)

  datatype Action =
    | Apply(created: bool)       // get, then create or update the i-th declarative
    | GetOrCreateWatcher
    | RegisterWaiter
    | TakeObject(obj: W.Obj)
    | NotReady                   // any phase but the two final ones
    | BeginOwner                 // phase Updated
    | EndOwner(call: OwnerCall)  // setOwnerRef returned
    | UnregisterWaiter
    | Exit                       // log.Fatal or a panic, possible anywhere
    | Dispatch(a: W.Action)      // a step of the dispatcher

  function Init(names: seq<string>): State {
    State(AfterCreating(names, 0), None, [], 0, [], [])
  }

  // All declaratives are applied before the first waiter starts.
  function AfterCreating(names: seq<string>, i: nat): Pc {
    if i < |names| then Creating(i) else StartOf(names, 0)
  }

  function StartOf(names: seq<string>, i: nat): Pc {
    if i < |names| then Starting(i) else Returned
  }

  predicate IsDispatcherStep(a: W.Action) {
    a.Receive? || a.Close? || a.Stop? || a.Lookup? || a.Send?
  }

  // The step of the watcher that an action of the generator goes with.
  function WatcherStep(names: seq<string>, s: State, a: Action): Option<W.Action> {
    match a
    case RegisterWaiter =>
      if s.pc.Registering? && s.pc.i < |names| && s.watcher.Some?
      then Some(W.Register(names[s.pc.i], |s.watcher.value.channels|)) else None
    case TakeObject(obj) => if s.pc.AtSelect? then Some(W.Take(s.pc.ch, obj)) else None
    case NotReady => if s.pc.HandlingPhase? then Some(W.Continue(s.pc.ch)) else None
    case EndOwner(_) => if s.pc.SettingOwner? && s.pc.i < |names| then Some(W.Finish(s.pc.ch)) else None
    case UnregisterWaiter =>
      if s.pc.Leaving? && s.pc.i < |names| then Some(W.Unregister(s.pc.ch, names[s.pc.i])) else None
    case Dispatch(w) => if IsDispatcherStep(w) then Some(w) else None
    case _ => None
  }

  predicate MovesWatcher(a: Action) {
    a.RegisterWaiter? || a.TakeObject? || a.NotReady? || a.EndOwner? || a.UnregisterWaiter? || a.Dispatch?
  }

  predicate Enabled(names: seq<string>, s: State, a: Action) {
    !s.pc.Returned? && !s.pc.Exited? &&
    (MovesWatcher(a) ==> s.watcher.Some? && WatcherStep(names, s, a).Some? &&
                         W.Enabled(s.watcher.value, WatcherStep(names, s, a).value)) &&
    match a
    case Apply(_) => s.pc.Creating? && s.pc.i < |names|
    case GetOrCreateWatcher => s.pc.Starting?
    case NotReady => s.pc.HandlingPhase? && s.pc.obj.phase !in {"Updated", "InvalidConfiguration"}
    case BeginOwner => s.pc.HandlingPhase? && s.pc.obj.phase == "Updated"
    case EndOwner(call) => call.name == names[s.pc.i] && !call.trace.outcome.ProcessExit?
    case _ => true
  }

  // Only the generator's own registrations, takes and so on come with a change of its pc.
  function NextPc(names: seq<string>, s: State, a: Action): Pc
    requires Enabled(names, s, a)
  {
    match a
    case Apply(_) => AfterCreating(names, s.pc.i + 1)
    case GetOrCreateWatcher => Registering(s.pc.i)
    case RegisterWaiter => AtSelect(s.pc.i, |s.watcher.value.channels|)
    case TakeObject(obj) => HandlingPhase(s.pc.i, s.pc.ch, obj)
    case NotReady => AtSelect(s.pc.i, s.pc.ch)
    case BeginOwner => SettingOwner(s.pc.i, s.pc.ch, s.pc.obj)
    case EndOwner(_) => Leaving(s.pc.i, s.pc.ch)
    case UnregisterWaiter => StartOf(names, s.pc.i + 1)
    case Exit => Exited
    case Dispatch(_) => s.pc
  }

  function Next(names: seq<string>, stream: seq<W.WatchEvent>, s: State, a: Action): State
    requires Enabled(names, s, a)
  {
    var t := s.(pc := NextPc(names, s, a));
    if MovesWatcher(a) then
      var w := WatcherStep(names, s, a).value;
      t.(watcher := Some(W.Next(s.watcher.value, w)), steps := s.steps + [w],
         completed := s.completed + if a.EndOwner? then [Completion(names[s.pc.i], s.pc.ch, s.pc.obj, a.call)] else [])
    else
      match a
      case Apply(created) => t.(effects := s.effects + [Applied(names[s.pc.i], created)])
      case GetOrCreateWatcher =>
        if s.watcher.Some? then t else t.(watcher := Some(W.Init(stream)), watches := s.watches + 1)
      case _ => t
  }

  function Reach(names: seq<string>, stream: seq<W.WatchEvent>, acts: seq<Action>): Option<State> {
    if acts == [] then Some(Init(names))
    else
      match Reach(names, stream, acts[..|acts| - 1])
      case None => None
      case Some(s) =>
        if Enabled(names, s, acts[|acts| - 1]) then Some(Next(names, stream, s, acts[|acts| - 1])) else None
  }

  // ---- What every step keeps ----

  // All waiters of the type share one watcher, opened once and run by the steps recorded.
  ghost predicate OneWatcher(stream: seq<W.WatchEvent>, s: State) {
    match s.watcher
    case None => s.watches == 0 && s.steps == [] &&
      (s.pc.Creating? || s.pc == Starting(0) || s.pc.Returned? || s.pc.Exited?)
    case Some(w) => s.watches == 1 && W.Reach(W.Init(stream), s.steps) == Some(w)
  }

  lemma OneWatcherStep(names: seq<string>, stream: seq<W.WatchEvent>, s: State, a: Action)
    requires OneWatcher(stream, s) && Enabled(names, s, a)
    ensures OneWatcher(stream, Next(names, stream, s, a))
  {
    if MovesWatcher(a) {
      var w := WatcherStep(names, s, a).value;
      assert (s.steps + [w])[..|s.steps|] == s.steps;
    }
  }

  // The names applied and the waiters completed so far are the first ones of the list.
  function AppliedCount(names: seq<string>, pc: Pc): nat {
    if pc.Creating? then pc.i else |names|
  }

  function CompletedCount(names: seq<string>, pc: Pc): nat {
    match pc
    case Creating(_) => 0
    case Leaving(i, _) => i + 1
    case Returned => |names|
    case Exited => 0
    case _ => pc.i
  }

  ghost predicate InOrder(names: seq<string>, s: State) {
    s.pc.Exited? ||
    (|s.effects| == AppliedCount(names, s.pc) <= |names| &&
     (forall j :: 0 <= j < |s.effects| ==> s.effects[j].name == names[j]) &&
     |s.completed| == CompletedCount(names, s.pc) <= |names| &&
     (forall j :: 0 <= j < |s.completed| ==>
       s.completed[j].name == names[j] && s.completed[j].ch == j && s.completed[j].obj.phase == "Updated" &&
       s.completed[j].call.name == names[j] && !s.completed[j].call.trace.outcome.ProcessExit?) &&
     (s.pc.SettingOwner? ==> s.pc.obj.phase == "Updated") &&
     ChannelOf(names, s))
  }

  // The i-th waiter owns the i-th channel.
  ghost predicate ChannelOf(names: seq<string>, s: State) {
    match s.pc
    case Creating(i) => i < |names|
    case Starting(i) => i < |names|
    case Registering(i) => i < |names|
    case AtSelect(i, ch) => ch == i < |names|
    case HandlingPhase(i, ch, _) => ch == i < |names|
    case SettingOwner(i, ch, _) => ch == i < |names|
    case Leaving(i, ch) => ch == i < |names|
    case _ => true
  }

  // The number of waiters registered so far.
  function RegisteredCount(names: seq<string>, pc: Pc): nat {
    match pc
    case Creating(_) => 0
    case Starting(i) => i
    case Registering(i) => i
    case Returned => |names|
    case Exited => 0
    case _ => pc.i + 1
  }

  ghost predicate Roster(names: seq<string>, s: State) {
    s.pc.Exited? ||
    (RegisteredCount(names, s.pc) == (if s.watcher.Some? then |s.watcher.value.channels| else 0) &&
     (s.watcher.Some? ==>
       var w := s.watcher.value;
       |w.channels| <= |names| &&
       (forall j :: 0 <= j < |w.channels| ==> w.channels[j].name == names[j]) &&
       w.handlers == (if s.pc.AtSelect? || s.pc.HandlingPhase? || s.pc.SettingOwner? || s.pc.Leaving?
                      then map[names[s.pc.i] := s.pc.ch] else map[])))
  }

  lemma InOrderOfWaiter(names: seq<string>, stream: seq<W.WatchEvent>, s: State, a: Action)
    requires InOrder(names, s) && Roster(names, s) && Enabled(names, s, a) && MovesWatcher(a)
    ensures InOrder(names, Next(names, stream, s, a))
  {
  }

  lemma InOrderStep(names: seq<string>, stream: seq<W.WatchEvent>, s: State, a: Action)
    requires OneWatcher(stream, s) && InOrder(names, s) && Roster(names, s) && Enabled(names, s, a)
    ensures InOrder(names, Next(names, stream, s, a))
  {
    if MovesWatcher(a) { InOrderOfWaiter(names, stream, s, a); }
  }

  lemma RosterOfWaiter(names: seq<string>, stream: seq<W.WatchEvent>, s: State, a: Action)
    requires InOrder(names, s) && Roster(names, s) && Enabled(names, s, a) && MovesWatcher(a) && !a.Dispatch?
    ensures Roster(names, Next(names, stream, s, a))
  {
  }

  lemma RosterOfDispatch(names: seq<string>, stream: seq<W.WatchEvent>, s: State, a: Action)
    requires InOrder(names, s) && Roster(names, s) && Enabled(names, s, a) && a.Dispatch?
    ensures Roster(names, Next(names, stream, s, a))
  {
  }

  lemma RosterStep(names: seq<string>, stream: seq<W.WatchEvent>, s: State, a: Action)
    requires OneWatcher(stream, s) && InOrder(names, s) && Roster(names, s) && Enabled(names, s, a)
    ensures Roster(names, Next(names, stream, s, a))
  {
    if a.Dispatch? {
      RosterOfDispatch(names, stream, s, a);
    } else if MovesWatcher(a) {
      RosterOfWaiter(names, stream, s, a);
    }
  }

  // The object a waiter settled on is the last one it received.
  ghost predicate LastReceived(steps: seq<W.Action>, ch: nat, obj: W.Obj) {
    var r := W.Received(steps, ch);
    r != [] && r[|r| - 1] == obj
  }

  ghost predicate Took(s: State) {
    (forall j :: 0 <= j < |s.completed| ==> LastReceived(s.steps, s.completed[j].ch, s.completed[j].obj)) &&
    (s.pc.HandlingPhase? || s.pc.SettingOwner? ==> LastReceived(s.steps, s.pc.ch, s.pc.obj))
  }

  lemma LastReceivedSnoc(steps: seq<W.Action>, w: W.Action, ch: nat, obj: W.Obj)
    requires if w.Take? && w.ch == ch then w.obj == obj else LastReceived(steps, ch, obj)
    ensures LastReceived(steps + [w], ch, obj)
  {
    assert (steps + [w])[..|steps|] == steps;
  }

  lemma CompletedTook(names: seq<string>, s: State, w: W.Action, j: nat)
    requires InOrder(names, s) && Took(s) && !s.pc.Exited? && j < |s.completed|
    requires w.Take? ==> s.pc.AtSelect? && w.ch == s.pc.ch
    ensures LastReceived(s.steps + [w], s.completed[j].ch, s.completed[j].obj)
  {
    assert LastReceived(s.steps, s.completed[j].ch, s.completed[j].obj);
    LastReceivedSnoc(s.steps, w, s.completed[j].ch, s.completed[j].obj);
  }

  lemma CurrentTook(names: seq<string>, stream: seq<W.WatchEvent>, s: State, a: Action)
    requires InOrder(names, s) && Took(s) && Enabled(names, s, a) && MovesWatcher(a)
    ensures var t := Next(names, stream, s, a);
      (t.pc.HandlingPhase? || t.pc.SettingOwner? ==> LastReceived(t.steps, t.pc.ch, t.pc.obj)) &&
      (a.EndOwner? ==> LastReceived(t.steps, s.pc.ch, s.pc.obj))
  {
    var w := WatcherStep(names, s, a).value;
    if a.TakeObject? {
      LastReceivedSnoc(s.steps, w, s.pc.ch, a.obj);
    } else if s.pc.HandlingPhase? || s.pc.SettingOwner? {
      LastReceivedSnoc(s.steps, w, s.pc.ch, s.pc.obj);
    }
  }

  lemma TookStep(names: seq<string>, stream: seq<W.WatchEvent>, s: State, a: Action)
    requires InOrder(names, s) && Took(s) && Enabled(names, s, a)
    ensures Took(Next(names, stream, s, a))
  {
    if MovesWatcher(a) {
      var t, w := Next(names, stream, s, a), WatcherStep(names, s, a).value;
      CurrentTook(names, stream, s, a);
      forall j | 0 <= j < |t.completed| ensures LastReceived(t.steps, t.completed[j].ch, t.completed[j].obj) {
        if j < |s.completed| { CompletedTook(names, s, w, j); }
      }
    }
  }

  lemma {:induction false} RunInvariant(names: seq<string>, stream: seq<W.WatchEvent>, acts: seq<Action>)
    requires Reach(names, stream, acts).Some?
    ensures var s := Reach(names, stream, acts).value;
      OneWatcher(stream, s) && InOrder(names, s) && Roster(names, s) && Took(s)
  {
    if acts != [] {
      var before, a := acts[..|acts| - 1], acts[|acts| - 1];
      RunInvariant(names, stream, before);
      var s := Reach(names, stream, before).value;
      OneWatcherStep(names, stream, s, a);
      InOrderStep(names, stream, s, a);
      RosterStep(names, stream, s, a);
      TookStep(names, stream, s, a);
    }
  }

  // What a channel's waiter received goes by the name of the channel.
  lemma {:induction false} ReceivedByName(
    stream: seq<W.WatchEvent>, steps: seq<W.Action>, w: W.State, ch: nat, obj: W.Obj)
    requires W.Reach(W.Init(stream), steps) == Some(w) && ch < |w.channels| && LastReceived(steps, ch, obj)
    ensures obj.name == w.channels[ch].name
  {
    W.LosslessFifo(stream, steps, ch);
    var n := |W.Received(steps, ch)|;
    assert W.LookedUp(steps, ch)[n - 1] == W.Received(steps, ch)[n - 1];
  }

  ghost predicate AppliesFirst(acts: seq<Action>) {
    forall i, j :: 0 <= i < |acts| && 0 <= j < |acts| && acts[i].Apply? && acts[j].RegisterWaiter? ==> i < j
  }

  ghost predicate NoneRegisters(acts: seq<Action>) {
    forall j :: 0 <= j < |acts| ==> !acts[j].RegisterWaiter?
  }

  lemma AppliesFirstSnoc(acts: seq<Action>, a: Action)
    requires AppliesFirst(acts) && (a.Apply? ==> NoneRegisters(acts))
    ensures AppliesFirst(acts + [a])
    ensures NoneRegisters(acts) && !a.RegisterWaiter? ==> NoneRegisters(acts + [a])
  {
    var all := acts + [a];
    assert forall i :: 0 <= i < |acts| ==> all[i] == acts[i];
  }

  // No waiter registers before every declarative is applied.
  lemma {:induction false} AppliesComeFirst(names: seq<string>, stream: seq<W.WatchEvent>, acts: seq<Action>)
    requires Reach(names, stream, acts).Some?
    ensures AppliesFirst(acts) && (Reach(names, stream, acts).value.pc.Creating? ==> NoneRegisters(acts))
  {
    if acts != [] {
      var before, a := acts[..|acts| - 1], acts[|acts| - 1];
      AppliesComeFirst(names, stream, before);
      AppliesFirstSnoc(before, a);
      assert acts == before + [a];
    }
  }

  // After a call of setOwnerRef that did not exit the resource has owners, or there is no deployment
  // to own it.
  ghost predicate OwnedOrNoDeployment(call: OwnerCall) {
    Genuine(call) && O.VersionChecked(call.world) && O.Sound(call.server) ==>
      match call.trace.outcome
      case DeploymentMissing => true
      case AlreadyOwned => call.trace.server.stored.Some? && call.trace.server.stored.value.owners.Some?
      case OwnerSet =>
        call.world.deploymentUid.Some? &&
        O.OwnedBy(call.trace.server, call.deploymentName, call.world.deploymentUid.value)
      case ProcessExit => false
  }

  lemma CallLeavesOwned(call: OwnerCall)
    requires !call.trace.outcome.ProcessExit?
    ensures OwnedOrNoDeployment(call)
  {
    if Genuine(call) && O.VersionChecked(call.world) && O.Sound(call.server) {
      O.OwnedUnlessExit(call.world, call.server, call.deploymentName);
    }
  }

  // The j-th waiter completed for its own name.
  ghost predicate CompletedFor(names: seq<string>, s: State, j: nat)
    requires j < |names| && j < |s.completed|
  {
    var d := s.completed[j];
    d.name == d.obj.name == d.call.name == names[j] && d.obj.phase == "Updated" &&
    LastReceived(s.steps, d.ch, d.obj) && OwnedOrNoDeployment(d.call)
  }

  lemma CompletedForItsName(names: seq<string>, stream: seq<W.WatchEvent>, s: State, j: nat)
    requires OneWatcher(stream, s) && InOrder(names, s) && Roster(names, s) && Took(s) && s.pc.Returned?
    requires j < |names|
    ensures j < |s.completed| && CompletedFor(names, s, j)
  {
    var d := s.completed[j];
    CallLeavesOwned(d.call);
    assert LastReceived(s.steps, d.ch, d.obj);
    ReceivedByName(stream, s.steps, s.watcher.value, j, d.obj);
  }

  lemma AllCompleted(names: seq<string>, stream: seq<W.WatchEvent>, s: State)
    requires OneWatcher(stream, s) && InOrder(names, s) && Roster(names, s) && Took(s) && s.pc.Returned?
    ensures |s.completed| == |names| && forall j :: 0 <= j < |names| ==> CompletedFor(names, s, j)
  {
    forall j | 0 <= j < |names| ensures j < |s.completed| && CompletedFor(names, s, j) {
      CompletedForItsName(names, stream, s, j);
    }
  }

  lemma ReturnedState(names: seq<string>, stream: seq<W.WatchEvent>, s: State)
    requires OneWatcher(stream, s) && InOrder(names, s) && Roster(names, s) && s.pc.Returned?
    ensures |s.effects| == |names| && forall j :: 0 <= j < |names| ==> s.effects[j].name == names[j]
    ensures (names != [] ==> s.watches == 1) && (s.watcher.Some? ==> s.watcher.value.handlers == map[])
  {
  }

  // Without names there is nothing to do.
  lemma {:induction false} OnlyReturned(stream: seq<W.WatchEvent>, acts: seq<Action>)
    requires Reach([], stream, acts).Some?
    ensures acts == []
  {
    if acts != [] { OnlyReturned(stream, acts[..|acts| - 1]); }
  }

  // If Generate returns, every declared name was created or updated, in the order of the list, and
  // before the first waiter registered; each waiter then received, last, an object of its own name in
  // phase Updated, and its call of setOwnerRef, for that name, left the resource owned or found no
  // deployment, again in the order of the list; there was one watch for all of them and none without
  // any; and no handler is left registered.
  lemma {:induction false} CompletionMeansReady(names: seq<string>, stream: seq<W.WatchEvent>, acts: seq<Action>)
    requires var s := Reach(names, stream, acts); s.Some? && s.value.pc.Returned?
    ensures var s := Reach(names, stream, acts).value;
      |s.effects| == |names| && (forall j :: 0 <= j < |names| ==> s.effects[j].name == names[j]) &&
      |s.completed| == |names| && (forall j :: 0 <= j < |names| ==> CompletedFor(names, s, j)) &&
      AppliesFirst(acts) && s.watches == (if names == [] then 0 else 1) &&
      (s.watcher.Some? ==> s.watcher.value.handlers == map[])
  {
    RunInvariant(names, stream, acts);
    AppliesComeFirst(names, stream, acts);
    AllCompleted(names, stream, Reach(names, stream, acts).value);
    ReturnedState(names, stream, Reach(names, stream, acts).value);
    if names == [] { OnlyReturned(stream, acts); }
  }
}
