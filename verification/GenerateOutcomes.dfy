// For which watch streams a generator can return, and for which its dispatcher can get stuck.
module GenerateOutcomes {
  import opened Wrappers
  import opened Generate
  import O = OwnerRef
  import W = Watcher

  // ---- What to look for in the stream ----

  predicate IsReady(name: string, o: W.Obj) {
    o.name == name && o.phase == "Updated"
  }

  // Among the objects there is, in the order of the list, a ready one of each name.
  predicate ReadyInOrder(names: seq<string>, objs: seq<W.Obj>)
    decreases |objs|
  {
    names == [] ||
    (objs != [] &&
     ((IsReady(names[0], objs[0]) && ReadyInOrder(names[1..], objs[1..])) || ReadyInOrder(names, objs[1..])))
  }

  function Count(name: string, objs: seq<W.Obj>): nat {
    if objs == [] then 0 else (if objs[0].name == name then 1 else 0) + Count(name, objs[1..])
  }

  // Among the objects there is, in the order of the list, a ready one of each name up to some name,
  // and after it there are two more objects of this last name.
  predicate Overtaken(names: seq<string>, objs: seq<W.Obj>)
    decreases |objs|
  {
    names != [] && objs != [] &&
    ((IsReady(names[0], objs[0]) && (Count(names[0], objs[1..]) >= 2 || Overtaken(names[1..], objs[1..]))) ||
     Overtaken(names, objs[1..]))
  }

  // The first objects are some of the others, in the same order.
  predicate Among(some: seq<W.Obj>, objs: seq<W.Obj>)
    decreases |objs|
  {
    some == [] || (objs != [] && ((some[0] == objs[0] && Among(some[1..], objs[1..])) || Among(some, objs[1..])))
  }

  lemma {:induction false} AmongSelf(objs: seq<W.Obj>)
    ensures Among(objs, objs)
  {
    if objs != [] { AmongSelf(objs[1..]); }
  }

  lemma {:induction false} AmongPrepended(prefix: seq<W.Obj>, some: seq<W.Obj>, objs: seq<W.Obj>)
    requires Among(some, objs)
    ensures Among(prefix + some, prefix + objs) && Among(some, prefix + objs)
  {
    if prefix == [] {
      assert prefix + some == some && prefix + objs == objs;
    } else {
      AmongPrepended(prefix[1..], some, objs);
      assert (prefix + some)[1..] == prefix[1..] + some && (prefix + objs)[1..] == prefix[1..] + objs;
    }
  }

  // More objects do no harm.
  lemma {:induction false} AmongReady(names: seq<string>, some: seq<W.Obj>, objs: seq<W.Obj>)
    requires Among(some, objs) && ReadyInOrder(names, some)
    ensures ReadyInOrder(names, objs)
    decreases |objs|
  {
    if names != [] {
      if Among(some, objs[1..]) {
        AmongReady(names, some, objs[1..]);
      } else if ReadyInOrder(names, some[1..]) {
        AmongReady(names, some[1..], objs[1..]);
      } else {
        AmongReady(names[1..], some[1..], objs[1..]);
      }
    }
  }

  lemma {:induction false} AmongCount(name: string, some: seq<W.Obj>, objs: seq<W.Obj>)
    requires Among(some, objs)
    ensures Count(name, some) <= Count(name, objs)
    decreases |objs|
  {
    if some != [] {
      if Among(some, objs[1..]) { AmongCount(name, some, objs[1..]); } else { AmongCount(name, some[1..], objs[1..]); }
    }
  }

  lemma {:induction false} AmongOvertaken(names: seq<string>, some: seq<W.Obj>, objs: seq<W.Obj>)
    requires Among(some, objs) && Overtaken(names, some)
    ensures Overtaken(names, objs)
    decreases |objs|
  {
    if Among(some, objs[1..]) {
      AmongOvertaken(names, some, objs[1..]);
    } else if Overtaken(names, some[1..]) {
      AmongOvertaken(names, some[1..], objs[1..]);
    } else {
      AmongCount(names[0], some[1..], objs[1..]);
      if Overtaken(names[1..], some[1..]) { AmongOvertaken(names[1..], some[1..], objs[1..]); }
    }
  }

  // ---- What may still come ----

  // A watcher that serves nobody new: its dispatcher has exited, or is stuck on a channel.
  predicate Silent(w: W.State) {
    w.dispatcher.Exited? || W.Stuck(w)
  }

  // The objects that may still be looked up.
  function Coming(w: W.State): seq<W.Obj> {
    if Silent(w) then [] else W.InHand(w) + W.Objects(w.stream)
  }

  // The objects that may still arrive on a channel, if they go by its name.
  function OnChannel(w: W.State, ch: nat): seq<W.Obj>
    requires ch < |w.channels|
  {
    W.Buffered(w, ch) + (W.PendingFor(w, ch) + Coming(w))
  }

  // The names whose waiters still have to receive a ready object.
  function Waited(names: seq<string>, pc: Pc): seq<string> {
    match pc
    case Creating(_) => names
    case Starting(i) => if i <= |names| then names[i..] else []
    case Registering(i) => if i <= |names| then names[i..] else []
    case AtSelect(i, _) => if i <= |names| then names[i..] else []
    case HandlingPhase(i, _, _) => if i <= |names| then names[i..] else []
    case SettingOwner(i, _, _) => if i < |names| then names[i + 1..] else []
    case Leaving(i, _) => if i < |names| then names[i + 1..] else []
    case _ => []
  }

  // The objects they may receive it from.
  function Supply(stream: seq<W.WatchEvent>, s: State): seq<W.Obj> {
    match s.watcher
    case None => W.Objects(stream)
    case Some(w) =>
      match s.pc
      case AtSelect(_, ch) => if ch < |w.channels| then OnChannel(w, ch) else []
      case HandlingPhase(_, ch, obj) => if ch < |w.channels| then [obj] + OnChannel(w, ch) else []
      case _ => Coming(w)
  }

  predicate MayReturn(names: seq<string>, stream: seq<W.WatchEvent>, s: State) {
    !s.pc.Exited? && ReadyInOrder(Waited(names, s.pc), Supply(stream, s))
  }

  predicate StuckNow(s: State) {
    s.watcher.Some? && W.Stuck(s.watcher.value)
  }

  // The waiter that is leaving may be overtaken by two objects, or a later one may.
  predicate LeavingTooEarly(names: seq<string>, s: State) {
    (s.pc.SettingOwner? || s.pc.Leaving?) && s.pc.i < |names| &&
    s.watcher.Some? && s.pc.ch < |s.watcher.value.channels| &&
    Count(names[s.pc.i], OnChannel(s.watcher.value, s.pc.ch)) >= 2
  }

  predicate MayStick(names: seq<string>, stream: seq<W.WatchEvent>, s: State) {
    StuckNow(s) || LeavingTooEarly(names, s) ||
    (!s.pc.Exited? && Overtaken(Waited(names, s.pc), Supply(stream, s)))
  }

  // ---- What every reachable state keeps, for this purpose ----

  ghost predicate GoneUpTo(cs: seq<W.Channel>, n: nat)
    requires n <= |cs|
  {
    forall ch :: 0 <= ch < n ==> cs[ch].waiter.Gone?
  }

  // Only the running waiter is there, and it does what the generator does.
  ghost predicate Waiters(s: State) {
    s.watcher.Some? ==>
      var cs := s.watcher.value.channels;
      match s.pc
      case Exited => true
      case AtSelect(_, ch) => |cs| == ch + 1 && cs[ch].waiter.Waiting? && GoneUpTo(cs, ch)
      case HandlingPhase(_, ch, obj) => |cs| == ch + 1 && cs[ch].waiter == W.Handling(obj) && GoneUpTo(cs, ch)
      case SettingOwner(_, ch, obj) => |cs| == ch + 1 && cs[ch].waiter == W.Handling(obj) && GoneUpTo(cs, ch)
      case Leaving(_, ch) => |cs| == ch + 1 && cs[ch].waiter.Leaving? && GoneUpTo(cs, ch)
      case _ => GoneUpTo(cs, |cs|)
  }

  // Objects on the way go by the name of their channel.
  ghost predicate ByName(w: W.State) {
    W.Addressed(w) &&
    (forall n :: n in w.handlers ==> w.handlers[n] < |w.channels| && w.channels[w.handlers[n]].name == n) &&
    forall ch :: 0 <= ch < |w.channels| ==>
      (w.channels[ch].buffer.Some? ==> w.channels[ch].buffer.value.name == w.channels[ch].name) &&
      (w.channels[ch].waiter.Handling? ==> w.channels[ch].waiter.obj.name == w.channels[ch].name)
  }

  ghost predicate Tidy(names: seq<string>, stream: seq<W.WatchEvent>, s: State) {
    OneWatcher(stream, s) && InOrder(names, s) && Roster(names, s) && Waiters(s) &&
    (s.watcher.Some? ==> ByName(s.watcher.value))
  }

  lemma ByNameStep(w: W.State, a: W.Action)
    requires ByName(w) && W.Enabled(w, a)
    ensures ByName(W.Next(w, a))
  {
  }

  lemma WaitersOfDispatch(names: seq<string>, stream: seq<W.WatchEvent>, s: State, a: Action)
    requires Roster(names, s) && Waiters(s) && Enabled(names, s, a) && a.Dispatch?
    ensures Waiters(Next(names, stream, s, a))
  {
    var cs, ds := s.watcher.value.channels, Next(names, stream, s, a).watcher.value.channels;
    assert |ds| == |cs| && forall ch :: 0 <= ch < |cs| ==> ds[ch].waiter == cs[ch].waiter;
  }

  lemma WaitersAtRegister(names: seq<string>, stream: seq<W.WatchEvent>, s: State)
    requires Roster(names, s) && Waiters(s) && Enabled(names, s, RegisterWaiter)
    ensures Waiters(Next(names, stream, s, RegisterWaiter))
  {
  }

  lemma WaitersOfWaiter(names: seq<string>, stream: seq<W.WatchEvent>, s: State, a: Action)
    requires Roster(names, s) && Waiters(s) && Enabled(names, s, a) && MovesWatcher(a)
    requires !a.Dispatch? && !a.RegisterWaiter?
    ensures Waiters(Next(names, stream, s, a))
  {
  }

  lemma WaitersStep(names: seq<string>, stream: seq<W.WatchEvent>, s: State, a: Action)
    requires InOrder(names, s) && Roster(names, s) && Waiters(s) && Enabled(names, s, a)
    ensures Waiters(Next(names, stream, s, a))
  {
    if a.Dispatch? {
      WaitersOfDispatch(names, stream, s, a);
    } else if a.RegisterWaiter? {
      WaitersAtRegister(names, stream, s);
    } else if MovesWatcher(a) {
      WaitersOfWaiter(names, stream, s, a);
    }
  }

  lemma {:induction false} RunIsTidy(names: seq<string>, stream: seq<W.WatchEvent>, acts: seq<Action>)
    requires Reach(names, stream, acts).Some?
    ensures Tidy(names, stream, Reach(names, stream, acts).value)
  {
    RunInvariant(names, stream, acts);
    if acts != [] {
      var before, a := acts[..|acts| - 1], acts[|acts| - 1];
      RunIsTidy(names, stream, before);
      var s := Reach(names, stream, before).value;
      WaitersStep(names, stream, s, a);
      if MovesWatcher(a) { ByNameStep(s.watcher.value, WatcherStep(names, s, a).value); }
    }
  }

  // ---- Necessity: going back from the end of a run ----

  lemma {:induction false} ObjectsCons(stream: seq<W.WatchEvent>)
    requires stream != []
    ensures W.Objects(stream) == (if stream[0].Resource? then [stream[0].obj] else []) + W.Objects(stream[1..])
  {
    if |stream| > 1 {
      var init := stream[..|stream| - 1];
      ObjectsCons(init);
      assert init[1..] == stream[1..][..|stream| - 2];
    }
  }

  lemma ComingAtReceive(w: W.State, event: W.WatchEvent)
    requires W.Enabled(w, W.Receive(event))
    ensures Coming(W.Next(w, W.Receive(event))) == Coming(w)
  {
    ObjectsCons(w.stream);
    assert Coming(w) == [] + W.Objects(w.stream);
  }

  lemma ComingAtLookup(w: W.State, obj: W.Obj)
    requires w.dispatcher == W.Looking(obj)
    ensures var v, rest := W.Next(w, W.Lookup(obj)), W.Objects(w.stream);
      Coming(w) == [obj] + rest && Coming(v) == (if W.Stuck(v) then [] else rest) && Among(Coming(v), rest)
  {
    assert [] + W.Objects(w.stream) == W.Objects(w.stream);
    AmongSelf(W.Objects(w.stream));
  }

  // No step of the watcher brings more objects.
  lemma ComingStep(w: W.State, a: W.Action)
    requires W.Enabled(w, a) && W.Addressed(w)
    ensures Among(Coming(W.Next(w, a)), Coming(w))
    ensures a.Register? || a.Take? || a.Send? ==> Coming(W.Next(w, a)) == Coming(w)
  {
    AmongSelf(Coming(w));
    if a.Receive? {
      ComingAtReceive(w, a.event);
    } else if a.Lookup? {
      ComingAtLookup(w, a.obj);
      AmongPrepended([a.obj], Coming(W.Next(w, a)), W.Objects(w.stream));
    }
  }

  lemma OnChannelLookup(w: W.State, obj: W.Obj, ch: nat)
    requires w.dispatcher == W.Looking(obj) && ch < |w.channels| && W.PendingFor(W.Next(w, W.Lookup(obj)), ch) != []
    ensures Among(OnChannel(W.Next(w, W.Lookup(obj)), ch), OnChannel(w, ch))
  {
    var v, rest := W.Next(w, W.Lookup(obj)), W.Objects(w.stream);
    ComingAtLookup(w, obj);
    AmongPrepended([obj], Coming(v), rest);
    AmongPrepended(W.Buffered(w, ch), [obj] + Coming(v), [obj] + rest);
    assert W.PendingFor(w, ch) + Coming(w) == [obj] + rest;
  }

  lemma Regrouped(none: seq<W.Obj>, some: seq<W.Obj>, rest: seq<W.Obj>)
    requires none == []
    ensures none + (some + rest) == some + rest == some + (none + rest)
  {
    assert none + rest == rest;
  }

  lemma OnChannelSend(w: W.State, ch: nat)
    requires W.Enabled(w, W.Send(ch)) && W.Addressed(w)
    ensures OnChannel(W.Next(w, W.Send(ch)), ch) == OnChannel(w, ch)
  {
    var v, obj := W.Next(w, W.Send(ch)), w.dispatcher.obj;
    assert Coming(v) == Coming(w) by { ComingStep(w, W.Send(ch)); }
    assert W.Buffered(v, ch) == W.PendingFor(w, ch) == [obj] && W.PendingFor(v, ch) == W.Buffered(w, ch) == [];
    Regrouped([], [obj], Coming(w));
  }

  lemma OnChannelTake(w: W.State, ch: nat, obj: W.Obj)
    requires W.Enabled(w, W.Take(ch, obj)) && W.Addressed(w)
    ensures [obj] + OnChannel(W.Next(w, W.Take(ch, obj)), ch) == OnChannel(w, ch)
  {
    var v := W.Next(w, W.Take(ch, obj));
    assert Coming(v) == Coming(w) by { ComingStep(w, W.Take(ch, obj)); }
    assert W.Buffered(w, ch) == [obj] && W.Buffered(v, ch) == [] && W.PendingFor(v, ch) == W.PendingFor(w, ch);
    Regrouped([], W.PendingFor(w, ch), Coming(w));
  }

  // The steps that leave alone what is on the channel, and on its way to it.
  lemma OnChannelAside(w: W.State, a: W.Action, ch: nat)
    requires W.Enabled(w, a) && W.Addressed(w) && ch < |w.channels| && ch < |W.Next(w, a).channels|
    requires W.Buffered(W.Next(w, a), ch) == W.Buffered(w, ch) && W.PendingFor(W.Next(w, a), ch) == W.PendingFor(w, ch)
    ensures Among(OnChannel(W.Next(w, a), ch), OnChannel(w, ch))
  {
    var v := W.Next(w, a);
    ComingStep(w, a);
    AmongPrepended(W.PendingFor(w, ch), Coming(v), Coming(w));
    AmongPrepended(W.Buffered(w, ch), W.PendingFor(w, ch) + Coming(v), W.PendingFor(w, ch) + Coming(w));
  }

  // Nor more objects for a channel, apart from the one that its waiter takes.
  lemma OnChannelStep(w: W.State, a: W.Action, ch: nat)
    requires W.Enabled(w, a) && ByName(w) && ch < |w.channels|
    ensures ch < |W.Next(w, a).channels|
    ensures if a.Take? && a.ch == ch then [a.obj] + OnChannel(W.Next(w, a), ch) == OnChannel(w, ch)
            else Among(OnChannel(W.Next(w, a), ch), OnChannel(w, ch))
  {
    if a.Lookup? && W.PendingFor(W.Next(w, a), ch) != [] {
      OnChannelLookup(w, a.obj, ch);
    } else if a.Send? && a.ch == ch {
      OnChannelSend(w, ch);
      AmongSelf(OnChannel(w, ch));
    } else if a.Take? && a.ch == ch {
      OnChannelTake(w, ch, a.obj);
    } else {
      OnChannelAside(w, a, ch);
    }
  }

  lemma AmongOnChannel(w: W.State, ch: nat)
    requires ch < |w.channels|
    ensures Among(Coming(w), OnChannel(w, ch))
  {
    AmongSelf(Coming(w));
    AmongPrepended(W.PendingFor(w, ch), Coming(w), Coming(w));
    AmongPrepended(W.Buffered(w, ch), Coming(w), W.PendingFor(w, ch) + Coming(w));
  }

  // The same for the steps of the watcher while an object is handled, and for the end of that.
  lemma SupplyWhileHandling(names: seq<string>, stream: seq<W.WatchEvent>, s: State, a: Action)
    requires Enabled(names, s, a) && s.pc.HandlingPhase? && MovesWatcher(a)
    requires s.watcher.Some? && ByName(s.watcher.value) && s.pc.ch < |s.watcher.value.channels|
    ensures Among(Supply(stream, Next(names, stream, s, a)), Supply(stream, s))
  {
    var w, t := s.watcher.value, Next(names, stream, s, a);
    var b, ch := WatcherStep(names, s, a).value, s.pc.ch;
    var v := W.Next(w, b);
    assert t.watcher == Some(v);
    OnChannelStep(w, b, ch);
    if a.NotReady? {
      assert t.pc == AtSelect(s.pc.i, ch);
      assert Supply(stream, t) == OnChannel(v, ch) && Supply(stream, s) == [s.pc.obj] + OnChannel(w, ch);
      AmongPrepended([s.pc.obj], OnChannel(v, ch), OnChannel(w, ch));
    } else {
      assert t.pc == s.pc;
      assert Supply(stream, t) == [s.pc.obj] + OnChannel(v, ch);
      AmongPrepended([s.pc.obj], OnChannel(v, ch), OnChannel(w, ch));
    }
  }

  lemma SupplyAtBeginOwner(names: seq<string>, stream: seq<W.WatchEvent>, s: State)
    requires Enabled(names, s, BeginOwner)
    requires s.watcher.Some? && s.pc.ch < |s.watcher.value.channels|
    ensures Among(Supply(stream, Next(names, stream, s, BeginOwner)), Supply(stream, s))
  {
    AmongOnChannel(s.watcher.value, s.pc.ch);
    AmongPrepended([s.pc.obj], Coming(s.watcher.value), OnChannel(s.watcher.value, s.pc.ch));
  }

  lemma SupplyAtRegister(names: seq<string>, stream: seq<W.WatchEvent>, s: State)
    requires Tidy(names, stream, s) && Enabled(names, s, RegisterWaiter)
    ensures Supply(stream, Next(names, stream, s, RegisterWaiter)) == Supply(stream, s)
  {
    var w, t := s.watcher.value, Next(names, stream, s, RegisterWaiter);
    ComingStep(w, WatcherStep(names, s, RegisterWaiter).value);
    assert Supply(stream, t) == [] + ([] + Coming(t.watcher.value));
  }

  lemma SupplyAtTake(names: seq<string>, stream: seq<W.WatchEvent>, s: State, obj: W.Obj)
    requires Enabled(names, s, TakeObject(obj)) && s.watcher.Some? && W.Addressed(s.watcher.value)
    ensures Supply(stream, Next(names, stream, s, TakeObject(obj))) == Supply(stream, s)
  {
    OnChannelTake(s.watcher.value, s.pc.ch, obj);
  }

  lemma SupplyAtDispatch(names: seq<string>, stream: seq<W.WatchEvent>, s: State, a: W.Action)
    requires Enabled(names, s, Dispatch(a)) && s.pc.AtSelect?
    requires s.watcher.Some? && ByName(s.watcher.value) && s.pc.ch < |s.watcher.value.channels|
    ensures Among(Supply(stream, Next(names, stream, s, Dispatch(a))), Supply(stream, s))
  {
    var w, t := s.watcher.value, Next(names, stream, s, Dispatch(a));
    OnChannelStep(w, a, s.pc.ch);
    assert t.pc == s.pc && t.watcher == Some(W.Next(w, a)) && !a.Take?;
    assert Supply(stream, t) == OnChannel(W.Next(w, a), s.pc.ch) && Supply(stream, s) == OnChannel(w, s.pc.ch);
  }

  lemma SupplyAside(names: seq<string>, stream: seq<W.WatchEvent>, s: State, a: Action)
    requires OneWatcher(stream, s) && Enabled(names, s, a) && (a.Apply? || a.GetOrCreateWatcher?)
    ensures Supply(stream, Next(names, stream, s, a)) == Supply(stream, s)
  {
    assert Coming(W.Init(stream)) == W.Objects(stream);
  }

  lemma SupplyOfDispatcher(names: seq<string>, stream: seq<W.WatchEvent>, s: State, a: Action)
    requires Tidy(names, stream, s) && Enabled(names, s, a) && !s.pc.AtSelect? && !s.pc.HandlingPhase?
    requires MovesWatcher(a) && !a.RegisterWaiter?
    ensures Among(Supply(stream, Next(names, stream, s, a)), Supply(stream, s))
  {
    ComingStep(s.watcher.value, WatcherStep(names, s, a).value);
  }

  // The objects supplied to the generator only ever become fewer.
  lemma SupplyStep(names: seq<string>, stream: seq<W.WatchEvent>, s: State, a: Action)
    requires Tidy(names, stream, s) && Enabled(names, s, a) && !a.Exit?
    ensures Among(Supply(stream, Next(names, stream, s, a)), Supply(stream, s))
  {
    if a.BeginOwner? {
      SupplyAtBeginOwner(names, stream, s);
    } else if s.pc.HandlingPhase? {
      SupplyWhileHandling(names, stream, s, a);
    } else if a.RegisterWaiter? {
      SupplyAtRegister(names, stream, s);
      AmongSelf(Supply(stream, s));
    } else if s.pc.AtSelect? {
      if a.Dispatch? {
        SupplyAtDispatch(names, stream, s, a.a);
      } else {
        SupplyAtTake(names, stream, s, a.obj);
        AmongSelf(Supply(stream, s));
      }
    } else if MovesWatcher(a) {
      SupplyOfDispatcher(names, stream, s, a);
    } else {
      SupplyAside(names, stream, s, a);
      AmongSelf(Supply(stream, s));
    }
  }

  // ---- Going back one step of the generator ----

  lemma FirstWaited(names: seq<string>, i: nat)
    requires i < |names|
    ensures names[i..] == [names[i]] + names[i + 1..] && names[i..][1..] == names[i + 1..]
  {
  }

  // At the beginning of setOwnerRef a name is ticked off, for a ready object.
  lemma BeginOwnerStep(names: seq<string>, stream: seq<W.WatchEvent>, s: State)
    returns (name: string, obj: W.Obj, on: seq<W.Obj>)
    requires Tidy(names, stream, s) && Enabled(names, s, BeginOwner)
    ensures s.pc.i < |names| && name == names[s.pc.i] && s.pc.ch < |s.watcher.value.channels|
    ensures on == OnChannel(s.watcher.value, s.pc.ch) && IsReady(name, obj)
    ensures var t := Next(names, stream, s, BeginOwner);
      Waited(names, s.pc) == [name] + Waited(names, t.pc) && Waited(names, s.pc)[1..] == Waited(names, t.pc) &&
      Supply(stream, s) == [obj] + on && Supply(stream, s)[1..] == on && Among(Supply(stream, t), on)
  {
    name, obj, on := names[s.pc.i], s.pc.obj, OnChannel(s.watcher.value, s.pc.ch);
    AmongOnChannel(s.watcher.value, s.pc.ch);
    FirstWaited(names, s.pc.i);
  }

  lemma WaitedStep(names: seq<string>, stream: seq<W.WatchEvent>, s: State, a: Action)
    requires InOrder(names, s) && Enabled(names, s, a) && !a.Exit? && !a.BeginOwner?
    ensures Waited(names, s.pc) == Waited(names, Next(names, stream, s, a).pc)
  {
  }

  lemma BackFromReturn(names: seq<string>, stream: seq<W.WatchEvent>, s: State, a: Action)
    requires Tidy(names, stream, s) && Enabled(names, s, a) && MayReturn(names, stream, Next(names, stream, s, a))
    ensures MayReturn(names, stream, s)
  {
    var t := Next(names, stream, s, a);
    if a.BeginOwner? {
      var name, obj, on := BeginOwnerStep(names, stream, s);
      AmongReady(Waited(names, t.pc), Supply(stream, t), on);
    } else {
      WaitedStep(names, stream, s, a);
      SupplyStep(names, stream, s, a);
      AmongReady(Waited(names, t.pc), Supply(stream, t), Supply(stream, s));
    }
  }

  // ---- Going back from a stuck dispatcher ----

  lemma {:induction false} TwoOnChannel(name: string, a: W.Obj, b: W.Obj, rest: seq<W.Obj>)
    requires a.name == b.name == name
    ensures Count(name, [a] + ([b] + rest)) >= 2
  {
    assert ([a] + ([b] + rest))[1..] == [b] + rest;
  }

  // It is a lookup after the running waiter has left its loop, or its leaving, that sticks the
  // dispatcher.
  lemma StickingLookup(names: seq<string>, stream: seq<W.WatchEvent>, s: State, obj: W.Obj)
    requires Tidy(names, stream, s) && Enabled(names, s, Dispatch(W.Lookup(obj)))
    requires StuckNow(Next(names, stream, s, Dispatch(W.Lookup(obj))))
    ensures LeavingTooEarly(names, s)
  {
    var w := s.watcher.value;
    ComingAtLookup(w, obj);
    assert s.pc.Leaving? && w.handlers == map[names[s.pc.i] := s.pc.ch] && obj.name == names[s.pc.i];
    var buffered := w.channels[s.pc.ch].buffer.value;
    assert OnChannel(w, s.pc.ch) == [buffered] + ([obj] + W.Objects(w.stream));
    TwoOnChannel(names[s.pc.i], buffered, obj, W.Objects(w.stream));
  }

  lemma StickingFinish(names: seq<string>, stream: seq<W.WatchEvent>, s: State, a: Action)
    requires Tidy(names, stream, s) && Enabled(names, s, a) && a.EndOwner?
    requires StuckNow(Next(names, stream, s, a)) && !StuckNow(s)
    ensures LeavingTooEarly(names, s)
  {
    var w := s.watcher.value;
    var buffered := w.channels[s.pc.ch].buffer.value;
    assert OnChannel(w, s.pc.ch) == [buffered] + ([w.dispatcher.obj] + Coming(w));
    TwoOnChannel(names[s.pc.i], buffered, w.dispatcher.obj, Coming(w));
  }

  lemma StickingStep(names: seq<string>, stream: seq<W.WatchEvent>, s: State, a: Action)
    requires Tidy(names, stream, s) && Enabled(names, s, a)
    requires StuckNow(Next(names, stream, s, a)) && !StuckNow(s)
    ensures LeavingTooEarly(names, s)
  {
    if a.Dispatch? {
      StickingLookup(names, stream, s, a.a.obj);
    } else {
      StickingFinish(names, stream, s, a);
    }
  }

  // The steps of the watcher while a waiter sets its owner or leaves.
  lemma LeavingKept(names: seq<string>, stream: seq<W.WatchEvent>, s: State, a: Action)
    requires Enabled(names, s, a) && MovesWatcher(a) && (s.pc.SettingOwner? || s.pc.Leaving?) && s.pc.i < |names|
    requires s.watcher.Some? && ByName(s.watcher.value) && s.pc.ch < |s.watcher.value.channels|
    requires LeavingTooEarly(names, Next(names, stream, s, a))
    ensures LeavingTooEarly(names, s)
  {
    var w, ch, b := s.watcher.value, s.pc.ch, WatcherStep(names, s, a).value;
    OnChannelStep(w, b, ch);
    AmongCount(names[s.pc.i], OnChannel(W.Next(w, b), ch), OnChannel(w, ch));
  }

  lemma BackFromLeaving(names: seq<string>, stream: seq<W.WatchEvent>, s: State, a: Action)
    requires Tidy(names, stream, s) && Enabled(names, s, a) && LeavingTooEarly(names, Next(names, stream, s, a))
    ensures MayStick(names, stream, s)
  {
    if a.BeginOwner? {
      var _, obj, on := BeginOwnerStep(names, stream, s);
    } else {
      LeavingKept(names, stream, s, a);
    }
  }

  lemma BackFromOvertaken(names: seq<string>, stream: seq<W.WatchEvent>, s: State, a: Action)
    requires Tidy(names, stream, s) && Enabled(names, s, a) && !a.Exit?
    requires var t := Next(names, stream, s, a); Overtaken(Waited(names, t.pc), Supply(stream, t))
    ensures MayStick(names, stream, s)
  {
    var t := Next(names, stream, s, a);
    if a.BeginOwner? {
      var name, obj, on := BeginOwnerStep(names, stream, s);
      AmongOvertaken(Waited(names, t.pc), Supply(stream, t), on);
    } else {
      WaitedStep(names, stream, s, a);
      SupplyStep(names, stream, s, a);
      AmongOvertaken(Waited(names, t.pc), Supply(stream, t), Supply(stream, s));
    }
  }

  lemma BackFromStuck(names: seq<string>, stream: seq<W.WatchEvent>, s: State, a: Action)
    requires Tidy(names, stream, s) && Enabled(names, s, a) && MayStick(names, stream, Next(names, stream, s, a))
    ensures MayStick(names, stream, s)
  {
    var t := Next(names, stream, s, a);
    if StuckNow(t) && !StuckNow(s) {
      StickingStep(names, stream, s, a);
    } else if StuckNow(s) {
    } else if LeavingTooEarly(names, t) {
      BackFromLeaving(names, stream, s, a);
    } else {
      BackFromOvertaken(names, stream, s, a);
    }
  }

  // What may still come of a run could still come of it at every earlier moment.
  lemma {:induction false} BackToPrefix(names: seq<string>, stream: seq<W.WatchEvent>, acts: seq<Action>, n: nat)
    requires n <= |acts| && Reach(names, stream, acts).Some?
    ensures Reach(names, stream, acts[..n]).Some?
    ensures MayReturn(names, stream, Reach(names, stream, acts).value) ==>
      MayReturn(names, stream, Reach(names, stream, acts[..n]).value)
    ensures MayStick(names, stream, Reach(names, stream, acts).value) ==>
      MayStick(names, stream, Reach(names, stream, acts[..n]).value)
  {
    if n == |acts| {
      assert acts[..n] == acts;
    } else {
      var before, a := acts[..|acts| - 1], acts[|acts| - 1];
      RunIsTidy(names, stream, before);
      var s := Reach(names, stream, before).value;
      if MayReturn(names, stream, Next(names, stream, s, a)) { BackFromReturn(names, stream, s, a); }
      if MayStick(names, stream, Next(names, stream, s, a)) { BackFromStuck(names, stream, s, a); }
      BackToPrefix(names, stream, before, n);
      assert before[..n] == acts[..n];
    }
  }

  // ---- Sufficiency: a schedule that gets there ----

  ghost predicate Returns(names: seq<string>, stream: seq<W.WatchEvent>, acts: seq<Action>) {
    var s := Reach(names, stream, acts);
    s.Some? && s.value.pc.Returned?
  }

  ghost predicate Sticks(names: seq<string>, stream: seq<W.WatchEvent>, acts: seq<Action>) {
    var s := Reach(names, stream, acts);
    s.Some? && StuckNow(s.value)
  }

  lemma Advance(names: seq<string>, stream: seq<W.WatchEvent>, acts: seq<Action>, s: State, a: Action)
    returns (longer: seq<Action>, t: State)
    requires Reach(names, stream, acts) == Some(s) && Enabled(names, s, a)
    ensures longer == acts + [a] && t == Next(names, stream, s, a) && Reach(names, stream, longer) == Some(t)
  {
    longer, t := acts + [a], Next(names, stream, s, a);
    assert longer[..|acts|] == acts;
  }

  function Rank(s: State): nat {
    match s.watcher
    case None => 0
    case Some(w) => 5 * |w.stream| + W.DispatcherWork(w.dispatcher)
  }

  lemma DispatcherMoves(names: seq<string>, stream: seq<W.WatchEvent>, acts: seq<Action>, s: State, a: W.Action)
    returns (longer: seq<Action>, t: State)
    requires Reach(names, stream, acts) == Some(s) && !s.pc.Returned? && !s.pc.Exited?
    requires s.watcher.Some? && IsDispatcherStep(a) && W.Enabled(s.watcher.value, a)
    ensures longer == acts + [Dispatch(a)] && Reach(names, stream, longer) == Some(t)
    ensures t.pc == s.pc && t.watcher == Some(W.Next(s.watcher.value, a)) && Rank(t) < Rank(s)
  {
    longer, t := Advance(names, stream, acts, s, Dispatch(a));
  }

  // A call of setOwnerRef that finds the resource owned.
  function SomeCall(name: string): (call: OwnerCall)
    ensures call.name == name && Genuine(call) && call.trace.outcome.AlreadyOwned?
  {
    var world := O.World((k, x) => x, k => O.NoFailure, None);
    var server := O.Server(0, Some(O.Resource(0, Some([]), "")));
    OwnerCall(name, world, server, "", O.Spec(world, server, ""))
  }

  // The dispatcher stands with nothing in hand at this point of the stream.
  predicate Idle(s: State, rest: seq<W.WatchEvent>) {
    s.watcher.Some? && s.watcher.value.dispatcher.Selecting? && s.watcher.value.stream == rest
  }

  // Before a waiter registers, the dispatcher reads on, or gets rid of what it was sending.
  lemma ReadOn(names: seq<string>, stream: seq<W.WatchEvent>, acts: seq<Action>, s: State)
    returns (longer: seq<Action>, t: State)
    requires Reach(names, stream, acts) == Some(s) && s.pc.Registering? && s.watcher.Some?
    requires var w := s.watcher.value;
      !W.Stuck(w) && (w.dispatcher.Sending? || (w.dispatcher.Selecting? && w.stream != []))
    ensures acts <= longer && Reach(names, stream, longer) == Some(t) && t.pc == s.pc && t.watcher.Some?
    ensures Rank(t) < Rank(s) && Coming(t.watcher.value) == Coming(s.watcher.value) && !W.Stuck(t.watcher.value)
  {
    RunIsTidy(names, stream, acts);
    var w := s.watcher.value;
    if w.dispatcher.Selecting? {
      ComingAtReceive(w, w.stream[0]);
      longer, t := DispatcherMoves(names, stream, acts, s, W.Receive(w.stream[0]));
    } else {
      ComingStep(w, W.Send(w.dispatcher.ch));
      longer, t := DispatcherMoves(names, stream, acts, s, W.Send(w.dispatcher.ch));
    }
  }

  // It drops what it has just read.
  lemma Drop(names: seq<string>, stream: seq<W.WatchEvent>, acts: seq<Action>, s: State, obj: W.Obj)
    returns (longer: seq<Action>, t: State)
    requires Reach(names, stream, acts) == Some(s) && s.pc.Registering?
    requires s.watcher.Some? && s.watcher.value.dispatcher == W.Looking(obj)
    ensures acts <= longer && Reach(names, stream, longer) == Some(t) && t.pc == s.pc && Idle(t, s.watcher.value.stream)
  {
    RunIsTidy(names, stream, acts);
    longer, t := DispatcherMoves(names, stream, acts, s, W.Lookup(obj));
  }

  // Or the waiter registers just before the lookup, so that the object is sent to it.
  lemma RegisterAndSend(names: seq<string>, stream: seq<W.WatchEvent>, acts: seq<Action>, s: State, obj: W.Obj)
    returns (longer: seq<Action>, t: State)
    requires Reach(names, stream, acts) == Some(s) && s.pc.Registering? && s.pc.i < |names| && obj.name == names[s.pc.i]
    requires s.watcher.Some? && s.watcher.value.dispatcher == W.Looking(obj)
    ensures acts <= longer && Reach(names, stream, longer) == Some(t)
    ensures t.pc == AtSelect(s.pc.i, |s.watcher.value.channels|) && Idle(t, s.watcher.value.stream)
    ensures t.watcher.value.channels == s.watcher.value.channels + [W.Channel(obj.name, Some(obj), W.Waiting)]
  {
    var ch := |s.watcher.value.channels|;
    longer, t := Advance(names, stream, acts, s, RegisterWaiter);
    longer, t := DispatcherMoves(names, stream, longer, t, W.Lookup(obj));
    longer, t := DispatcherMoves(names, stream, longer, t, W.Send(ch));
  }

  lemma TakeObjectStep(names: seq<string>, stream: seq<W.WatchEvent>, acts: seq<Action>, s: State, obj: W.Obj)
    returns (longer: seq<Action>, t: State)
    requires Reach(names, stream, acts) == Some(s) && s.pc.AtSelect? && s.watcher.Some?
    requires var cs := s.watcher.value.channels;
      s.pc.ch < |cs| && cs[s.pc.ch].waiter.Waiting? && cs[s.pc.ch].buffer == Some(obj)
    ensures acts <= longer && Reach(names, stream, longer) == Some(t)
    ensures t.pc == HandlingPhase(s.pc.i, s.pc.ch, obj) && t.watcher.Some? &&
      |t.watcher.value.channels| == |s.watcher.value.channels|
    ensures Idle(s, s.watcher.value.stream) ==> Idle(t, s.watcher.value.stream)
    ensures t.watcher.value.channels[s.pc.ch].buffer.None?
  {
    longer, t := Advance(names, stream, acts, s, TakeObject(obj));
  }

  // It takes the object, which is ready, and begins to set the owner.
  lemma TakeReady(names: seq<string>, stream: seq<W.WatchEvent>, acts: seq<Action>, s: State, obj: W.Obj)
    returns (longer: seq<Action>, t: State)
    requires Reach(names, stream, acts) == Some(s) && s.pc.Registering? && s.pc.i < |names| &&
      IsReady(names[s.pc.i], obj)
    requires s.watcher.Some? && s.watcher.value.dispatcher == W.Looking(obj)
    ensures acts <= longer && Reach(names, stream, longer) == Some(t)
    ensures t.pc.SettingOwner? && t.pc.i == s.pc.i && Idle(t, s.watcher.value.stream)
    ensures t.pc.ch < |t.watcher.value.channels| && t.watcher.value.channels[t.pc.ch].buffer.None?
  {
    longer, t := RegisterAndSend(names, stream, acts, s, obj);
    longer, t := TakeObjectStep(names, stream, longer, t, obj);
    longer, t := Advance(names, stream, longer, t, BeginOwner);
  }

  lemma SetOwner(names: seq<string>, stream: seq<W.WatchEvent>, acts: seq<Action>, s: State)
    returns (longer: seq<Action>, t: State)
    requires Reach(names, stream, acts) == Some(s) && s.pc.SettingOwner? && s.watcher.Some?
    ensures acts <= longer && Reach(names, stream, longer) == Some(t) && t.watcher.Some?
    ensures t.pc == Leaving(s.pc.i, s.pc.ch) && s.pc.i < |names| && s.pc.ch < |s.watcher.value.channels|
    ensures var cs := s.watcher.value.channels;
      t.watcher.value == s.watcher.value.(channels := cs[s.pc.ch := cs[s.pc.ch].(waiter := W.Leaving)]) &&
      cs[s.pc.ch].name == names[s.pc.i]
  {
    WhileSettingOwner(names, stream, acts, s);
    var step := W.Finish(s.pc.ch);
    assert WatcherStep(names, s, EndOwner(SomeCall(names[s.pc.i]))) == Some(step) && W.Enabled(s.watcher.value, step);
    longer, t := Advance(names, stream, acts, s, EndOwner(SomeCall(names[s.pc.i])));
  }

  lemma Leave(names: seq<string>, stream: seq<W.WatchEvent>, acts: seq<Action>, s: State, rest: seq<W.WatchEvent>)
    returns (longer: seq<Action>, t: State)
    requires Reach(names, stream, acts) == Some(s) && s.pc.Leaving? && s.pc.i < |names| && Idle(s, rest)
    requires var cs := s.watcher.value.channels;
      s.pc.ch < |cs| && cs[s.pc.ch].waiter.Leaving? && cs[s.pc.ch].name == names[s.pc.i]
    ensures acts <= longer && Reach(names, stream, longer) == Some(t) && Idle(t, rest)
    ensures t.pc == StartOf(names, s.pc.i + 1)
  {
    var step := W.Unregister(s.pc.ch, names[s.pc.i]);
    assert WatcherStep(names, s, UnregisterWaiter) == Some(step) && W.Enabled(s.watcher.value, step);
    longer, t := Advance(names, stream, acts, s, UnregisterWaiter);
  }

  // It sets the owner and leaves, and the next waiter comes, if there is one.
  lemma MoveOn(names: seq<string>, stream: seq<W.WatchEvent>, acts: seq<Action>, s: State, rest: seq<W.WatchEvent>)
    returns (longer: seq<Action>, t: State)
    requires Reach(names, stream, acts) == Some(s) && s.pc.SettingOwner? && Idle(s, rest)
    ensures acts <= longer && Reach(names, stream, longer) == Some(t) && Idle(t, rest)
    ensures t.pc == if s.pc.i + 1 < |names| then Registering(s.pc.i + 1) else Returned
  {
    longer, t := SetOwner(names, stream, acts, s);
    longer, t := Leave(names, stream, longer, t, rest);
    if t.pc.Starting? {
      longer, t := Advance(names, stream, longer, t, GetOrCreateWatcher);
    }
  }

  // ---- When a generator can return ----

  lemma {:induction false} IdleSupply(names: seq<string>, stream: seq<W.WatchEvent>, s: State, rest: seq<W.WatchEvent>)
    requires Idle(s, rest) && s.pc.Registering? && s.pc.i < |names|
    ensures Supply(stream, s) == W.Objects(rest) && Waited(names, s.pc) == names[s.pc.i..]
  {
    assert [] + W.Objects(rest) == W.Objects(rest);
  }

  // The object in hand can be dropped, or it is ready and the rest is for the other names.
  lemma DropOrTake(names: seq<string>, stream: seq<W.WatchEvent>, s: State, obj: W.Obj)
    requires s.pc.Registering? && s.pc.i < |names| && s.watcher.Some? && s.watcher.value.dispatcher == W.Looking(obj)
    ensures var rest := W.Objects(s.watcher.value.stream);
      MayReturn(names, stream, s) ==>
        ReadyInOrder(names[s.pc.i..], rest) ||
        (IsReady(names[s.pc.i], obj) && ReadyInOrder(names[s.pc.i + 1..], rest))
  {
    ComingAtLookup(s.watcher.value, obj);
    assert names[s.pc.i..][1..] == names[s.pc.i + 1..];
    assert ([obj] + W.Objects(s.watcher.value.stream))[1..] == W.Objects(s.watcher.value.stream);
  }

  lemma CanReadOn(names: seq<string>, stream: seq<W.WatchEvent>, s: State)
    requires s.pc.Registering? && s.pc.i < |names| && s.watcher.Some? && !s.watcher.value.dispatcher.Looking?
    requires MayReturn(names, stream, s) || Overtaken(Waited(names, s.pc), Supply(stream, s))
    ensures var w := s.watcher.value;
      !W.Stuck(w) && (w.dispatcher.Sending? || (w.dispatcher.Selecting? && w.stream != []))
  {
  }

  lemma {:induction false} DriveToReturn(names: seq<string>, stream: seq<W.WatchEvent>, acts: seq<Action>, s: State)
    returns (longer: seq<Action>)
    requires Reach(names, stream, acts) == Some(s) && s.pc.Registering? && s.pc.i < |names| && s.watcher.Some?
    requires MayReturn(names, stream, s)
    ensures acts <= longer && Returns(names, stream, longer)
    decreases Rank(s)
  {
    var w, t := s.watcher.value, s;
    if !w.dispatcher.Looking? {
      CanReadOn(names, stream, s);
      longer, t := ReadOn(names, stream, acts, s);
      longer := DriveToReturn(names, stream, longer, t);
    } else {
      var obj := w.dispatcher.obj;
      DropOrTake(names, stream, s, obj);
      if ReadyInOrder(names[s.pc.i..], W.Objects(w.stream)) {
        longer, t := Drop(names, stream, acts, s, obj);
      } else {
        longer, t := TakeReady(names, stream, acts, s, obj);
        longer, t := MoveOn(names, stream, longer, t, w.stream);
      }
      if !t.pc.Returned? {
        IdleSupply(names, stream, t, w.stream);
        longer := DriveToReturn(names, stream, longer, t);
      }
    }
  }

  // The process exits, or the watcher is told to stop.
  predicate Forces(a: Action) {
    a.Exit? || (a.Dispatch? && a.a.Stop?)
  }

  ghost predicate Unforced(acts: seq<Action>) {
    forall i :: 0 <= i < |acts| ==> !Forces(acts[i])
  }

  // All declaratives are applied, and the first waiter has its watcher.
  lemma {:induction false} AllApplied(names: seq<string>, stream: seq<W.WatchEvent>, n: nat)
    returns (acts: seq<Action>, s: State)
    requires n <= |names|
    ensures Reach(names, stream, acts) == Some(s) && s.pc == AfterCreating(names, n) && s.watcher.None?
    ensures Unforced(acts)
  {
    if n == 0 {
      acts, s := [], Init(names);
    } else {
      acts, s := AllApplied(names, stream, n - 1);
      acts, s := Advance(names, stream, acts, s, Apply(true));
    }
  }

  lemma FirstWaiter(names: seq<string>, stream: seq<W.WatchEvent>) returns (acts: seq<Action>, s: State)
    requires names != []
    ensures Reach(names, stream, acts) == Some(s) && s.pc == Registering(0) && Idle(s, stream)
    ensures Unforced(acts)
  {
    acts, s := AllApplied(names, stream, |names|);
    acts, s := Advance(names, stream, acts, s, GetOrCreateWatcher);
  }

  // A generator can return, for some schedule, exactly when the watch delivers, in the order of its
  // list, a ready object of each declared name.
  lemma {:induction false} ReturnsIff(names: seq<string>, stream: seq<W.WatchEvent>)
    ensures (exists acts :: Returns(names, stream, acts)) <==> ReadyInOrder(names, W.Objects(stream))
  {
    forall acts | Returns(names, stream, acts) ensures ReadyInOrder(names, W.Objects(stream)) {
      BackToPrefix(names, stream, acts, 0);
    }
    if names == [] {
      assert Returns(names, stream, []);
    } else if ReadyInOrder(names, W.Objects(stream)) {
      var acts, s := FirstWaiter(names, stream);
      IdleSupply(names, stream, s, stream);
      acts := DriveToReturn(names, stream, acts, s);
    }
  }

  // From the moment a waiter has its watcher, the generator can still return exactly when the
  // objects yet to be looked up are enough for the names from this one on.  A dispatcher that has
  // exited or is stuck looks up none.
  lemma {:induction false} WaiterReturnsIff(names: seq<string>, stream: seq<W.WatchEvent>, acts: seq<Action>)
    requires var s := Reach(names, stream, acts);
      s.Some? && s.value.watcher.Some? && (s.value.pc.Starting? || s.value.pc.Registering?)
    ensures var s := Reach(names, stream, acts).value;
      s.pc.i < |names| &&
      ((exists more :: Returns(names, stream, acts + more)) <==> ReadyInOrder(names[s.pc.i..], Coming(s.watcher.value)))
  {
    AtStart(names, stream, acts);
    var s := Reach(names, stream, acts).value;
    forall more | Returns(names, stream, acts + more) ensures MayReturn(names, stream, s) {
      ReturnedMight(names, stream, acts, more);
    }
    if MayReturn(names, stream, s) {
      var longer := ReturnFromStart(names, stream, acts, s);
      assert longer == acts + longer[|acts|..];
    }
  }

  lemma {:induction false} ReturnedMight(
    names: seq<string>, stream: seq<W.WatchEvent>, acts: seq<Action>, more: seq<Action>)
    requires Reach(names, stream, acts).Some? && Returns(names, stream, acts + more)
    ensures MayReturn(names, stream, Reach(names, stream, acts).value)
  {
    assert (acts + more)[..|acts|] == acts;
    BackToPrefix(names, stream, acts + more, |acts|);
  }

  lemma {:induction false} AtStart(names: seq<string>, stream: seq<W.WatchEvent>, acts: seq<Action>)
    requires var s := Reach(names, stream, acts);
      s.Some? && s.value.watcher.Some? && (s.value.pc.Starting? || s.value.pc.Registering?)
    ensures var s := Reach(names, stream, acts).value;
      s.pc.i < |names| && (MayReturn(names, stream, s) <==> ReadyInOrder(names[s.pc.i..], Coming(s.watcher.value)))
  {
    RunIsTidy(names, stream, acts);
  }

  lemma ReturnFromStart(names: seq<string>, stream: seq<W.WatchEvent>, acts: seq<Action>, s: State)
    returns (longer: seq<Action>)
    requires Reach(names, stream, acts) == Some(s) && (s.pc.Starting? || s.pc.Registering?) && s.pc.i < |names|
    requires s.watcher.Some? && MayReturn(names, stream, s)
    ensures acts <= longer && Returns(names, stream, longer)
  {
    var t := s;
    longer := acts;
    if s.pc.Starting? { longer, t := Advance(names, stream, acts, s, GetOrCreateWatcher); }
    longer := DriveToReturn(names, stream, longer, t);
  }

  // In particular no waiter that starts on such a dispatcher ever completes.
  lemma {:induction false} SilentWatcherIsFinal(
    names: seq<string>, stream: seq<W.WatchEvent>, acts: seq<Action>, more: seq<Action>)
    requires var s := Reach(names, stream, acts);
      s.Some? && s.value.pc.Starting? && s.value.watcher.Some? && Silent(s.value.watcher.value)
    ensures !Returns(names, stream, acts + more)
  {
    WaiterReturnsIff(names, stream, acts);
  }

  // ---- When the dispatcher can get stuck ----

  function CountOnChannel(w: W.State, ch: nat, name: string): nat
    requires ch < |w.channels|
  {
    Count(name, W.Buffered(w, ch)) + Count(name, W.PendingFor(w, ch)) + Count(name, Coming(w))
  }

  lemma CountKeptAtLookup(w: W.State, obj: W.Obj, ch: nat, name: string)
    requires w.dispatcher == W.Looking(obj) && ch < |w.channels| && W.InLoop(w.channels[ch].waiter)
    requires w.handlers == map[name := ch]
    ensures var v := W.Next(w, W.Lookup(obj));
      !W.Stuck(v) && |v.channels| == |w.channels| && CountOnChannel(v, ch, name) == CountOnChannel(w, ch, name)
  {
    var rest := W.Objects(w.stream);
    ComingAtLookup(w, obj);
    assert ([obj] + rest)[1..] == rest && [obj][1..] == [];
  }

  // While the waiter of a channel is in its loop and no other handler is registered, the dispatcher
  // loses no object of its name.
  lemma CountKept(w: W.State, a: W.Action, ch: nat, name: string)
    requires W.Enabled(w, a) && ByName(w) && !W.Stuck(w) && (a.Receive? || a.Lookup? || a.Send?)
    requires ch < |w.channels| && W.InLoop(w.channels[ch].waiter) && w.handlers == map[name := ch]
    ensures var v := W.Next(w, a);
      !W.Stuck(v) && |v.channels| == |w.channels| && CountOnChannel(v, ch, name) == CountOnChannel(w, ch, name)
  {
    if a.Receive? {
      ComingAtReceive(w, a.event);
    } else if a.Lookup? {
      CountKeptAtLookup(w, a.obj, ch, name);
    } else {
      ComingStep(w, a);
    }
  }

  // What the dispatcher does next, unless its channel is full.
  function DispatcherStep(w: W.State): W.Action
    requires !w.dispatcher.Exited? && (w.dispatcher.Selecting? ==> w.stream != [])
  {
    match w.dispatcher
    case Looking(obj) => W.Lookup(obj)
    case Sending(ch, _) => W.Send(ch)
    case Selecting => W.Receive(w.stream[0])
  }

  ghost predicate Filling(names: seq<string>, s: State) {
    s.pc.SettingOwner? && s.pc.i < |names| && s.watcher.Some? && !W.Stuck(s.watcher.value) &&
    s.pc.ch < |s.watcher.value.channels| && CountOnChannel(s.watcher.value, s.pc.ch, names[s.pc.i]) >= 2
  }

  predicate ChannelFull(w: W.State) {
    w.dispatcher.Sending? && w.dispatcher.ch < |w.channels| && w.channels[w.dispatcher.ch].buffer.Some?
  }

  lemma {:induction false} CountBound(name: string, objs: seq<W.Obj>)
    ensures Count(name, objs) <= |objs|
  {
    if objs != [] { CountBound(name, objs[1..]); }
  }

  lemma FillingGoesOn(w: W.State, ch: nat, name: string)
    requires W.Addressed(w) && !ChannelFull(w) && ch < |w.channels| && CountOnChannel(w, ch, name) >= 2
    ensures !w.dispatcher.Exited? && (w.dispatcher.Selecting? ==> w.stream != []) && W.Enabled(w, DispatcherStep(w))
  {
    CountBound(name, W.Buffered(w, ch));
    CountBound(name, Coming(w));
  }

  // What Tidy says while an owner is set.
  lemma {:induction false} WhileSettingOwner(names: seq<string>, stream: seq<W.WatchEvent>, acts: seq<Action>, s: State)
    requires Reach(names, stream, acts) == Some(s) && s.pc.SettingOwner? && s.watcher.Some?
    ensures s.pc.i < |names|
    ensures var w, ch := s.watcher.value, s.pc.ch;
      ByName(w) && w.handlers == map[names[s.pc.i] := ch] && |w.channels| == ch + 1 &&
      w.channels[ch].waiter.Handling? && w.channels[ch].name == names[s.pc.i] && GoneUpTo(w.channels, ch)
  {
    RunIsTidy(names, stream, acts);
  }

  lemma FillStep(names: seq<string>, stream: seq<W.WatchEvent>, acts: seq<Action>, s: State)
    returns (longer: seq<Action>, t: State)
    requires Reach(names, stream, acts) == Some(s) && Filling(names, s) && !ChannelFull(s.watcher.value)
    ensures Reach(names, stream, longer) == Some(t) && Filling(names, t) && Rank(t) < Rank(s)
  {
    WhileSettingOwner(names, stream, acts, s);
    var w := s.watcher.value;
    FillingGoesOn(w, s.pc.ch, names[s.pc.i]);
    var a := DispatcherStep(w);
    CountKept(w, a, s.pc.ch, names[s.pc.i]);
    longer, t := DispatcherMoves(names, stream, acts, s, a);
  }

  // The dispatcher fills the channel of a waiter that is setting the owner, until it is stuck.
  lemma {:induction false} FillChannel(names: seq<string>, stream: seq<W.WatchEvent>, acts: seq<Action>, s: State)
    returns (longer: seq<Action>)
    requires Reach(names, stream, acts) == Some(s) && Filling(names, s)
    ensures Sticks(names, stream, longer)
    decreases Rank(s)
  {
    var t := s;
    if ChannelFull(s.watcher.value) {
      longer := StickBySetting(names, stream, acts, s);
    } else {
      longer, t := FillStep(names, stream, acts, s);
      longer := FillChannel(names, stream, longer, t);
    }
  }

  lemma StickBySetting(names: seq<string>, stream: seq<W.WatchEvent>, acts: seq<Action>, s: State)
    returns (longer: seq<Action>)
    requires Reach(names, stream, acts) == Some(s) && Filling(names, s) && ChannelFull(s.watcher.value)
    ensures Sticks(names, stream, longer)
  {
    WhileSettingOwner(names, stream, acts, s);
    assert s.watcher.value.dispatcher.ch == s.pc.ch;
    var t: State;
    longer, t := SetOwner(names, stream, acts, s);
  }

  lemma {:induction false} FillingBegins(names: seq<string>, s: State, rest: seq<W.WatchEvent>)
    requires s.pc.SettingOwner? && s.pc.i < |names| && Idle(s, rest)
    requires s.pc.ch < |s.watcher.value.channels| && s.watcher.value.channels[s.pc.ch].buffer.None?
    requires Count(names[s.pc.i], W.Objects(rest)) >= 2
    ensures Filling(names, s)
  {
    assert Coming(s.watcher.value) == [] + W.Objects(rest) == W.Objects(rest);
  }

  // The object in hand can be dropped, or it is ready and its waiter or a later one is overtaken.
  lemma DropOrStick(names: seq<string>, stream: seq<W.WatchEvent>, s: State, obj: W.Obj)
    requires s.pc.Registering? && s.pc.i < |names| && s.watcher.Some? && s.watcher.value.dispatcher == W.Looking(obj)
    requires Overtaken(Waited(names, s.pc), Supply(stream, s))
    ensures var rest := W.Objects(s.watcher.value.stream);
      Overtaken(names[s.pc.i..], rest) ||
      (IsReady(names[s.pc.i], obj) && (Count(names[s.pc.i], rest) >= 2 || Overtaken(names[s.pc.i + 1..], rest)))
  {
    ComingAtLookup(s.watcher.value, obj);
    assert names[s.pc.i..][1..] == names[s.pc.i + 1..];
    assert ([obj] + W.Objects(s.watcher.value.stream))[1..] == W.Objects(s.watcher.value.stream);
  }

  // One stretch towards a stuck dispatcher: it is stuck, or as much is still to come of less.
  lemma StickOrGoOn(names: seq<string>, stream: seq<W.WatchEvent>, acts: seq<Action>, s: State)
    returns (longer: seq<Action>, t: State)
    requires Reach(names, stream, acts) == Some(s) && s.pc.Registering? && s.pc.i < |names| && s.watcher.Some?
    requires s.watcher.value.dispatcher.Looking? && Overtaken(Waited(names, s.pc), Supply(stream, s))
    ensures Sticks(names, stream, longer) ||
      (Reach(names, stream, longer) == Some(t) && t.pc.Registering? && t.pc.i < |names| &&
       Idle(t, s.watcher.value.stream) && Overtaken(names[t.pc.i..], W.Objects(s.watcher.value.stream)))
  {
    var obj, rest := s.watcher.value.dispatcher.obj, W.Objects(s.watcher.value.stream);
    DropOrStick(names, stream, s, obj);
    if Overtaken(names[s.pc.i..], rest) {
      longer, t := Drop(names, stream, acts, s, obj);
    } else {
      longer, t := TakeReady(names, stream, acts, s, obj);
      if Count(names[s.pc.i], rest) >= 2 {
        FillingBegins(names, t, s.watcher.value.stream);
        longer := FillChannel(names, stream, longer, t);
      } else {
        longer, t := MoveOn(names, stream, longer, t, s.watcher.value.stream);
      }
    }
  }

  lemma {:induction false} DriveToStuck(names: seq<string>, stream: seq<W.WatchEvent>, acts: seq<Action>, s: State)
    returns (longer: seq<Action>)
    requires Reach(names, stream, acts) == Some(s) && s.pc.Registering? && s.pc.i < |names| && s.watcher.Some?
    requires Overtaken(Waited(names, s.pc), Supply(stream, s))
    ensures Sticks(names, stream, longer)
    decreases Rank(s)
  {
    var t := s;
    if !s.watcher.value.dispatcher.Looking? {
      CanReadOn(names, stream, s);
      longer, t := ReadOn(names, stream, acts, s);
      longer := DriveToStuck(names, stream, longer, t);
    } else {
      longer, t := StickOrGoOn(names, stream, acts, s);
      if !Sticks(names, stream, longer) {
        IdleSupply(names, stream, t, s.watcher.value.stream);
        longer := DriveToStuck(names, stream, longer, t);
      }
    }
  }

  // The dispatcher can get stuck, for some schedule, exactly when the watch delivers, in the order of
  // the list, a ready object of each name up to some name, and after it two more objects of that
  // name.
  lemma {:induction false} SticksIff(names: seq<string>, stream: seq<W.WatchEvent>)
    ensures (exists acts :: Sticks(names, stream, acts)) <==> Overtaken(names, W.Objects(stream))
  {
    forall acts | Sticks(names, stream, acts) ensures Overtaken(names, W.Objects(stream)) {
      BackToPrefix(names, stream, acts, 0);
    }
    if Overtaken(names, W.Objects(stream)) {
      var acts, s := FirstWaiter(names, stream);
      IdleSupply(names, stream, s, stream);
      acts := DriveToStuck(names, stream, acts, s);
    }
  }

  // For example: both resources are ready in time, but two more events of the first one come before
  // the second one's.
  lemma EarlyLeaverSticksWatcher(x: W.Obj, y: W.Obj, z: W.Obj, ready: W.Obj) returns (acts: seq<Action>)
    requires x.name == y.name == z.name && x.phase == "Updated" && ready.phase == "Updated"
    ensures
      var names := [x.name, ready.name];
      var stream := [W.Resource(x)] + ([W.Resource(y)] + ([W.Resource(z)] + [W.Resource(ready)]));
      ReadyInOrder(names, W.Objects(stream)) && Sticks(names, stream, acts)
  {
    var names := [x.name, ready.name];
    var fromZ := [W.Resource(z)] + [W.Resource(ready)];
    var fromY := [W.Resource(y)] + fromZ;
    var stream := [W.Resource(x)] + fromY;
    ObjectsCons(stream);
    ObjectsCons(fromY);
    ObjectsCons(fromZ);
    ObjectsCons([W.Resource(ready)]);
    assert stream[1..] == fromY && fromY[1..] == fromZ && fromZ[1..] == [W.Resource(ready)];
    var objs := [x] + ([y] + ([z] + [ready]));
    assert W.Objects(stream) == objs;
    BothReady(x, y, z, ready);
    TwoOnChannel(x.name, y, z, [ready]);
    assert objs[1..] == [y] + ([z] + [ready]);
    SticksIff(names, stream);
    acts :| Sticks(names, stream, acts);
  }

  lemma BothReady(x: W.Obj, y: W.Obj, z: W.Obj, ready: W.Obj)
    requires x.phase == "Updated" && ready.phase == "Updated"
    ensures ReadyInOrder([x.name, ready.name], [x] + ([y] + ([z] + [ready])))
  {
    var n := [ready.name];
    assert n[1..] == [] && [ready][1..] == [];
    assert ReadyInOrder(n, [ready]);
    AmongSelf([ready]);
    AmongPrepended([z], [ready], [ready]);
    AmongPrepended([y], [ready], [z] + [ready]);
    AmongReady(n, [ready], [y] + ([z] + [ready]));
    assert [x.name, ready.name][1..] == n;
    assert ([x] + ([y] + ([z] + [ready])))[1..] == [y] + ([z] + [ready]);
  }
}
