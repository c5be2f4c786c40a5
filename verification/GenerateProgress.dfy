// What a watch stream guarantees a generator, and what it does not.
module GenerateProgress {
  import opened Wrappers
  import opened Generate
  import opened GenerateOutcomes
  import W = Watcher

  // ---- No stream is enough for a generator to return ----

  // Before the first waiter registers the dispatcher may read everything, and drop it.
  lemma {:induction false} DropAll(names: seq<string>, stream: seq<W.WatchEvent>, acts: seq<Action>, s: State)
    returns (longer: seq<Action>, t: State)
    requires Reach(names, stream, acts) == Some(s) && s.pc.Registering? && s.watcher.Some? && Unforced(acts)
    requires s.watcher.value.dispatcher.Selecting? || s.watcher.value.dispatcher.Looking?
    ensures Reach(names, stream, longer) == Some(t) && t.pc == s.pc && Idle(t, []) && Unforced(longer)
    decreases Rank(s)
  {
    var w := s.watcher.value;
    if Idle(s, []) {
      longer, t := acts, s;
    } else {
      RunIsTidy(names, stream, acts);
      var a := if w.dispatcher.Selecting? then W.Receive(w.stream[0]) else W.Lookup(w.dispatcher.obj);
      longer, t := DispatcherMoves(names, stream, acts, s, a);
      longer, t := DropAll(names, stream, longer, t);
    }
  }

  // So whatever the watch delivers, there is a schedule without an exit or a stop after which a
  // generator with anything to wait for can no longer return.
  lemma NoStreamIsEnough(names: seq<string>, stream: seq<W.WatchEvent>) returns (acts: seq<Action>)
    requires names != []
    ensures Unforced(acts) && Reach(names, stream, acts).Some?
    ensures forall more :: !Returns(names, stream, acts + more)
  {
    var s: State;
    acts, s := FirstWaiter(names, stream);
    acts, s := DropAll(names, stream, acts, s);
    WaiterReturnsIff(names, stream, acts);
    assert Coming(s.watcher.value) == [];
    assert !ReadyInOrder(names[0..], []);
  }

  ghost predicate CanReturnAfter(names: seq<string>, stream: seq<W.WatchEvent>, acts: seq<Action>) {
    exists more :: Returns(names, stream, acts + more)
  }

  // As long as nothing forces it to end, a generator can always still return exactly when it has
  // nothing to wait for.
  lemma AlwaysCanReturnIff(names: seq<string>, stream: seq<W.WatchEvent>)
    ensures
      (forall acts :: Unforced(acts) && Reach(names, stream, acts).Some? ==> CanReturnAfter(names, stream, acts))
      <==> names == []
  {
    if names == [] {
      forall acts | Reach(names, stream, acts).Some? ensures CanReturnAfter(names, stream, acts) {
        OnlyReturned(stream, acts);
        assert Returns(names, stream, acts + []);
      }
    } else {
      var acts := NoStreamIsEnough(names, stream);
      assert !CanReturnAfter(names, stream, acts);
    }
  }

  // ---- A waiter that is in its loop in time ----

  predicate InItsLoop(s: State) {
    s.pc.AtSelect? || s.pc.HandlingPhase?
  }

  // The waiter in its loop has a ready object before it: in hand, in its channel, on its way to it,
  // or still in the stream.
  ghost predicate ReadyAwaits(names: seq<string>, stream: seq<W.WatchEvent>, s: State) {
    InItsLoop(s) && s.pc.i < |names| && exists o :: o in Supply(stream, s) && IsReady(names[s.pc.i], o)
  }

  // A step of the dispatcher loses no object of the name it has a handler for.
  lemma DispatcherKeeps(w: W.State, a: W.Action, ch: nat, name: string, o: W.Obj)
    requires W.Enabled(w, a) && IsDispatcherStep(a) && !a.Stop? && W.Addressed(w)
    requires ch < |w.channels| && W.InLoop(w.channels[ch].waiter) && w.handlers == map[name := ch]
    requires o in OnChannel(w, ch) && o.name == name
    ensures ch < |W.Next(w, a).channels| && o in OnChannel(W.Next(w, a), ch)
  {
    var v := W.Next(w, a);
    if a.Receive? {
      ComingAtReceive(w, a.event);
      assert OnChannel(v, ch) == OnChannel(w, ch);
    } else if a.Lookup? {
      ComingAtLookup(w, a.obj);
    } else if a.Send? {
      ComingStep(w, a);
    } else {
      assert Coming(w) == [];
    }
  }

  lemma WaiterKeeps(w: W.State, a: W.Action, ch: nat)
    requires W.Enabled(w, a) && W.Addressed(w) && (a == W.Continue(ch) || (a.Take? && a.ch == ch))
    ensures ch < |w.channels| && ch < |W.Next(w, a).channels|
    ensures OnChannel(w, ch) == (if a.Take? then [a.obj] else []) + OnChannel(W.Next(w, a), ch)
  {
    if a.Take? {
      OnChannelTake(w, ch, a.obj);
    } else {
      assert Coming(W.Next(w, a)) == Coming(w);
    }
  }

  // What Tidy says of a waiter in its loop.
  lemma InLoopFacts(names: seq<string>, stream: seq<W.WatchEvent>, s: State)
    requires Tidy(names, stream, s) && InItsLoop(s)
    ensures s.watcher.Some? && s.pc.i < |names|
    ensures var w, ch := s.watcher.value, s.pc.ch;
      ByName(w) && |w.channels| == ch + 1 && w.handlers == map[names[s.pc.i] := ch] && GoneUpTo(w.channels, ch) &&
      w.channels[ch].waiter == if s.pc.AtSelect? then W.Waiting else W.Handling(s.pc.obj)
  {
  }

  lemma DispatchKeepsReady(names: seq<string>, stream: seq<W.WatchEvent>, s: State, a: W.Action)
    requires Tidy(names, stream, s) && ReadyAwaits(names, stream, s) && Enabled(names, s, Dispatch(a)) && !a.Stop?
    ensures ReadyAwaits(names, stream, Next(names, stream, s, Dispatch(a)))
  {
    InLoopFacts(names, stream, s);
    var w, t := s.watcher.value, Next(names, stream, s, Dispatch(a));
    var o :| o in Supply(stream, s) && IsReady(names[s.pc.i], o);
    if o in OnChannel(w, s.pc.ch) { DispatcherKeeps(w, a, s.pc.ch, names[s.pc.i], o); }
    assert t.pc == s.pc && t.watcher == Some(W.Next(w, a));
    assert o in Supply(stream, t);
  }

  lemma WaiterKeepsReady(names: seq<string>, stream: seq<W.WatchEvent>, s: State, a: Action)
    requires Tidy(names, stream, s) && ReadyAwaits(names, stream, s) && Enabled(names, s, a)
    requires a.TakeObject? || a.NotReady?
    ensures ReadyAwaits(names, stream, Next(names, stream, s, a))
  {
    InLoopFacts(names, stream, s);
    var w, t, b := s.watcher.value, Next(names, stream, s, a), WatcherStep(names, s, a).value;
    WaiterKeeps(w, b, s.pc.ch);
    var o :| o in Supply(stream, s) && IsReady(names[s.pc.i], o);
    assert o in Supply(stream, t);
  }

  // No step but the beginning of setOwnerRef takes the ready object away.
  lemma KeepsReady(names: seq<string>, stream: seq<W.WatchEvent>, s: State, a: Action)
    requires Tidy(names, stream, s) && ReadyAwaits(names, stream, s) && Enabled(names, s, a)
    requires !Forces(a) && !a.BeginOwner?
    ensures var t := Next(names, stream, s, a);
      ReadyAwaits(names, stream, t) && t.pc.i == s.pc.i && s.watcher.Some? && t.watcher.Some? &&
      W.Work(t.watcher.value) < W.Work(s.watcher.value)
  {
    InLoopFacts(names, stream, s);
    W.StepsDecrease(s.watcher.value, WatcherStep(names, s, a).value);
    if a.Dispatch? {
      DispatchKeepsReady(names, stream, s, a.a);
    } else {
      WaiterKeepsReady(names, stream, s, a);
    }
  }

  // The waiter can only exit: its object has an invalid configuration.
  predicate HoldsInvalid(s: State) {
    s.pc.HandlingPhase? && s.pc.obj.phase == "InvalidConfiguration"
  }

  // While something is still to come for an empty channel, the dispatcher can make a step.
  lemma DispatcherEnabled(w: W.State, ch: nat, o: W.Obj)
    requires ByName(w) && |w.channels| == ch + 1 && GoneUpTo(w.channels, ch) && o in OnChannel(w, ch)
    requires w.channels[ch].buffer.None?
    ensures !w.dispatcher.Exited? && (w.dispatcher.Selecting? ==> w.stream != [])
    ensures IsDispatcherStep(DispatcherStep(w)) && W.Enabled(w, DispatcherStep(w)) && !DispatcherStep(w).Stop?
  {
    assert W.Buffered(w, ch) == [];
    assert o in W.PendingFor(w, ch) || o in Coming(w);
  }

  lemma DispatcherOrNone(names: seq<string>, stream: seq<W.WatchEvent>, s: State) returns (a: Action)
    requires Tidy(names, stream, s) && ReadyAwaits(names, stream, s) && s.pc.AtSelect?
    requires s.watcher.Some? && s.pc.ch < |s.watcher.value.channels| && s.watcher.value.channels[s.pc.ch].buffer.None?
    ensures Enabled(names, s, a) && !Forces(a)
  {
    InLoopFacts(names, stream, s);
    var o :| o in Supply(stream, s) && IsReady(names[s.pc.i], o);
    DispatcherEnabled(s.watcher.value, s.pc.ch, o);
    var b := DispatcherStep(s.watcher.value);
    a := Dispatch(b);
    assert WatcherStep(names, s, a) == Some(b);
  }

  lemma WaiterEnabled(names: seq<string>, s: State) returns (a: Action)
    requires InItsLoop(s) && !HoldsInvalid(s) && s.watcher.Some? && s.pc.ch < |s.watcher.value.channels|
    requires var channel := s.watcher.value.channels[s.pc.ch];
      if s.pc.AtSelect? then channel.waiter.Waiting? && channel.buffer.Some? else channel.waiter.Handling?
    ensures Enabled(names, s, a) && !Forces(a)
  {
    if s.pc.AtSelect? {
      a := TakeObject(s.watcher.value.channels[s.pc.ch].buffer.value);
    } else {
      a := if s.pc.obj.phase == "Updated" then BeginOwner else NotReady;
    }
  }

  // There is always something to do for the waiter or the dispatcher.
  lemma ReadyEnables(names: seq<string>, stream: seq<W.WatchEvent>, s: State) returns (a: Action)
    requires Tidy(names, stream, s) && ReadyAwaits(names, stream, s) && !HoldsInvalid(s)
    ensures Enabled(names, s, a) && !Forces(a)
  {
    InLoopFacts(names, stream, s);
    var channel := s.watcher.value.channels[s.pc.ch];
    if s.pc.HandlingPhase? || channel.buffer.Some? {
      a := WaiterEnabled(names, s);
    } else {
      a := DispatcherOrNone(names, stream, s);
    }
  }

  // After n steps the same waiter still has a ready object before it, and so much less to do.
  ghost predicate StillReady(names: seq<string>, stream: seq<W.WatchEvent>, s: State, t: State, n: nat) {
    ReadyAwaits(names, stream, t) && InItsLoop(s) && t.pc.i == s.pc.i && s.watcher.Some? && t.watcher.Some? &&
    n + W.Work(t.watcher.value) <= W.Work(s.watcher.value)
  }

  lemma StillReadyNext(names: seq<string>, stream: seq<W.WatchEvent>, s: State, t: State, n: nat, a: Action)
    requires StillReady(names, stream, s, t, n) && Tidy(names, stream, t) && Enabled(names, t, a)
    requires !Forces(a) && !a.BeginOwner?
    ensures StillReady(names, stream, s, Next(names, stream, t, a), n + 1)
  {
    KeepsReady(names, stream, t, a);
  }

  // The steps up to the last one.
  lemma OneMoreStep(names: seq<string>, stream: seq<W.WatchEvent>, acts: seq<Action>, more: seq<Action>)
    requires more != [] && Reach(names, stream, acts + more).Some?
    ensures var before, a := acts + more[..|more| - 1], more[|more| - 1];
      Reach(names, stream, before).Some? && Enabled(names, Reach(names, stream, before).value, a) &&
      Reach(names, stream, acts + more) == Some(Next(names, stream, Reach(names, stream, before).value, a))
  {
    assert (acts + more)[..|acts + more| - 1] == acts + more[..|more| - 1];
  }

  // The waiter does not begin setOwnerRef in these steps, and nothing forces an end.
  ghost predicate Waits(more: seq<Action>) {
    forall i :: 0 <= i < |more| ==> !Forces(more[i]) && !more[i].BeginOwner?
  }

  lemma {:induction false} ReadyStays(names: seq<string>, stream: seq<W.WatchEvent>,
                                      acts: seq<Action>, more: seq<Action>)
    requires Reach(names, stream, acts).Some? && ReadyAwaits(names, stream, Reach(names, stream, acts).value)
    requires Reach(names, stream, acts + more).Some? && Waits(more)
    ensures StillReady(names, stream, Reach(names, stream, acts).value, Reach(names, stream, acts + more).value, |more|)
  {
    if more == [] {
      assert acts + more == acts;
      RunIsTidy(names, stream, acts);
      InLoopFacts(names, stream, Reach(names, stream, acts).value);
    } else {
      var before, a := more[..|more| - 1], more[|more| - 1];
      OneMoreStep(names, stream, acts, more);
      ReadyStays(names, stream, acts, before);
      RunIsTidy(names, stream, acts + before);
      var s, t := Reach(names, stream, acts).value, Reach(names, stream, acts + before).value;
      StillReadyNext(names, stream, s, t, |before|, a);
    }
  }

  // From the moment a waiter is in its loop with a ready object before it, however the steps
  // interleave, the ready object stays before it until it begins setOwnerRef; until then the number
  // of steps is bounded, and there is always a step to make, unless the waiter holds an object with
  // an invalid configuration.  So nothing but that, an exit or a stop keeps it from setOwnerRef.
  lemma {:induction false} ReadyWaiterProgresses(
    names: seq<string>, stream: seq<W.WatchEvent>, acts: seq<Action>, more: seq<Action>)
    requires Reach(names, stream, acts).Some? && ReadyAwaits(names, stream, Reach(names, stream, acts).value)
    requires Reach(names, stream, acts + more).Some? && Waits(more)
    ensures var s, t := Reach(names, stream, acts).value, Reach(names, stream, acts + more).value;
      StillReady(names, stream, s, t, |more|) &&
      (HoldsInvalid(t) || exists a :: Enabled(names, t, a) && !Forces(a))
  {
    ReadyStays(names, stream, acts, more);
    RunIsTidy(names, stream, acts + more);
    var t := Reach(names, stream, acts + more).value;
    if !HoldsInvalid(t) { var a := ReadyEnables(names, stream, t); }
  }

  // ---- A waiter that meets an invalid configuration ----

  lemma {:induction false} InvalidStays(
    names: seq<string>, stream: seq<W.WatchEvent>, acts: seq<Action>, more: seq<Action>)
    requires Reach(names, stream, acts).Some? && HoldsInvalid(Reach(names, stream, acts).value)
    requires Reach(names, stream, acts + more).Some?
    ensures var s, t := Reach(names, stream, acts).value, Reach(names, stream, acts + more).value;
      t.pc == s.pc || t.pc.Exited?
  {
    if more == [] {
      assert acts + more == acts;
    } else {
      OneMoreStep(names, stream, acts, more);
      InvalidStays(names, stream, acts, more[..|more| - 1]);
    }
  }

  // It never completes: the waiter only ever exits, and Generate does not return.
  lemma {:induction false} InvalidIsFinal(
    names: seq<string>, stream: seq<W.WatchEvent>, acts: seq<Action>, more: seq<Action>)
    requires var s := Reach(names, stream, acts);
      s.Some? && s.value.pc.HandlingPhase? && s.value.pc.obj.phase == "InvalidConfiguration"
    ensures !Returns(names, stream, acts + more)
    ensures Reach(names, stream, acts + more).Some? ==>
      var s, t := Reach(names, stream, acts).value, Reach(names, stream, acts + more).value;
      (t.pc == s.pc || t.pc.Exited?) && !Enabled(names, s, NotReady) && !Enabled(names, s, BeginOwner)
  {
    if Reach(names, stream, acts + more).Some? { InvalidStays(names, stream, acts, more); }
  }
}
