// One dispatcher per resource type and its waiters: resourceTypeWatcher.run, register, unregister
// and the receive loop of declarationWaiter, as a state machine over their steps.
module Watcher {
  import opened Wrappers

  // A watched object: its name, its status.phase (empty when there is none) and everything else.
  datatype Obj = Obj(name: string, phase: string, rest: string)

  // What the watch delivers: an object, or something that is not one and is skipped.
  datatype WatchEvent = Resource(obj: Obj) | NotAnObject

  // The dispatcher between two steps: selecting, about to look up the handler, or blocked on the
  // send to a channel.
  datatype Dispatcher = Selecting | Looking(obj: Obj) | Sending(ch: nat, obj: Obj) | Exited

  // A waiter: at its select, handling an object, on its way to unregister, or gone.
  datatype Waiter = Waiting | Handling(obj: Obj) | Leaving | Gone

  // A channel of capacity one, with the name it was registered for and the waiter that owns it.
  datatype Channel = Channel(name: string, buffer: Option<Obj>, waiter: Waiter)

  datatype State = State(
    stream: seq<WatchEvent>, dispatcher: Dispatcher, handlers: map<string, nat>, channels: seq<Channel>)

  datatype Action =
    | Receive(event: WatchEvent)
    | Close
    | Stop
    | Lookup(obj: Obj)
    | Send(ch: nat)
    | Register(name: string, ch: nat)
    | Take(ch: nat, obj: Obj)
    | Continue(ch: nat)
    | Finish(ch: nat)
    | Unregister(ch: nat, name: string)

  function Init(stream: seq<WatchEvent>): State {
    State(stream, Selecting, map[], [])
  }

  predicate Enabled(s: State, a: Action) {
    match a
    case Receive(event) => s.dispatcher.Selecting? && s.stream != [] && s.stream[0] == event
    case Close => s.dispatcher.Selecting? && s.stream == []
    case Stop => s.dispatcher.Selecting?
    case Lookup(obj) => s.dispatcher == Looking(obj)
    case Send(ch) => s.dispatcher.Sending? && s.dispatcher.ch == ch && ch < |s.channels| && s.channels[ch].buffer.None?
    case Register(_, ch) => ch == |s.channels|
    case Take(ch, obj) => ch < |s.channels| && s.channels[ch].waiter.Waiting? && s.channels[ch].buffer == Some(obj)
    case Continue(ch) => ch < |s.channels| && s.channels[ch].waiter.Handling?
    case Finish(ch) => ch < |s.channels| && s.channels[ch].waiter.Handling?
    case Unregister(ch, name) => ch < |s.channels| && s.channels[ch].waiter.Leaving? && s.channels[ch].name == name
  }

  function Next(s: State, a: Action): State
    requires Enabled(s, a)
  {
    match a
    case Receive(event) =>
      s.(stream := s.stream[1..], dispatcher := if event.Resource? then Looking(event.obj) else Selecting)
    case Close => s.(dispatcher := Exited)
    case Stop => s.(dispatcher := Exited)
    case Lookup(obj) =>
      s.(dispatcher := if obj.name in s.handlers then Sending(s.handlers[obj.name], obj) else Selecting)
    case Send(ch) =>
      s.(dispatcher := Selecting, channels := s.channels[ch := s.channels[ch].(buffer := Some(s.dispatcher.obj))])
    case Register(name, ch) =>
      s.(handlers := s.handlers[name := ch], channels := s.channels + [Channel(name, None, Waiting)])
    case Take(ch, obj) =>
      s.(channels := s.channels[ch := s.channels[ch].(buffer := None, waiter := Handling(obj))])
    case Continue(ch) => s.(channels := s.channels[ch := s.channels[ch].(waiter := Waiting)])
    case Finish(ch) => s.(channels := s.channels[ch := s.channels[ch].(waiter := Leaving)])
    case Unregister(ch, name) =>
      s.(handlers := s.handlers - {name}, channels := s.channels[ch := s.channels[ch].(waiter := Gone)])
  }

  // ---- Runs: every interleaving of the steps ----

  // The state after these actions, if each of them was enabled in its turn.
  function Reach(s: State, acts: seq<Action>): Option<State> {
    if acts == [] then Some(s)
    else
      match Reach(s, acts[..|acts| - 1])
      case None => None
      case Some(t) => if Enabled(t, acts[|acts| - 1]) then Some(Next(t, acts[|acts| - 1])) else None
  }

  // ---- What was promised, read off the actions alone ----

  // The channel a name is registered with after these actions.
  function Registered(acts: seq<Action>, name: string): Option<nat> {
    if acts == [] then None
    else
      var before, a := acts[..|acts| - 1], acts[|acts| - 1];
      if a.Register? && a.name == name then Some(a.ch)
      else if a.Unregister? && a.name == name then None
      else Registered(before, name)
  }

  // The objects looked up for a name while this channel was registered for it, in order.
  function LookedUp(acts: seq<Action>, ch: nat): seq<Obj> {
    if acts == [] then []
    else
      var before, a := acts[..|acts| - 1], acts[|acts| - 1];
      LookedUp(before, ch) + if a.Lookup? && Registered(before, a.obj.name) == Some(ch) then [a.obj] else []
  }

  // The objects the waiter of this channel took from it, in order.
  function Received(acts: seq<Action>, ch: nat): seq<Obj> {
    if acts == [] then []
    else
      var before, a := acts[..|acts| - 1], acts[|acts| - 1];
      Received(before, ch) + if a.Take? && a.ch == ch then [a.obj] else []
  }

  // All lookups, in order.
  function Lookups(acts: seq<Action>): seq<Obj> {
    if acts == [] then []
    else
      var before, a := acts[..|acts| - 1], acts[|acts| - 1];
      Lookups(before) + if a.Lookup? then [a.obj] else []
  }

  function Objects(events: seq<WatchEvent>): seq<Obj> {
    if events == [] then []
    else Objects(events[..|events| - 1]) +
         if events[|events| - 1].Resource? then [events[|events| - 1].obj] else []
  }

  function Buffered(s: State, ch: nat): seq<Obj>
    requires ch < |s.channels|
  {
    match s.channels[ch].buffer
    case None => []
    case Some(obj) => [obj]
  }

  function PendingFor(s: State, ch: nat): seq<Obj> {
    if s.dispatcher.Sending? && s.dispatcher.ch == ch then [s.dispatcher.obj] else []
  }

  function InHand(s: State): seq<Obj> {
    if s.dispatcher.Looking? then [s.dispatcher.obj] else []
  }

  // ---- Lossless first-in first-out delivery ----

  ghost predicate HandlersSound(s: State, acts: seq<Action>) {
    (forall name :: Registered(acts, name) == if name in s.handlers then Some(s.handlers[name]) else None) &&
    (forall name :: name in s.handlers ==>
      s.handlers[name] < |s.channels| && s.channels[s.handlers[name]].name == name)
  }

  // What is on its way to a channel goes by the name of that channel.
  ghost predicate Addressed(s: State) {
    s.dispatcher.Sending? ==>
      s.dispatcher.ch < |s.channels| && s.channels[s.dispatcher.ch].name == s.dispatcher.obj.name
  }

  ghost predicate Delivered(s: State, acts: seq<Action>, ch: nat) {
    if ch < |s.channels| then
      LookedUp(acts, ch) == Received(acts, ch) + Buffered(s, ch) + PendingFor(s, ch) &&
      forall i :: 0 <= i < |LookedUp(acts, ch)| ==> LookedUp(acts, ch)[i].name == s.channels[ch].name
    else LookedUp(acts, ch) == [] && Received(acts, ch) == []
  }

  lemma HandlersStep(s: State, acts: seq<Action>, a: Action)
    requires HandlersSound(s, acts) && Enabled(s, a)
    ensures HandlersSound(Next(s, a), acts + [a])
  {
    assert (acts + [a])[..|acts|] == acts;
    var t := Next(s, a);
    forall name
      ensures Registered(acts + [a], name) == if name in t.handlers then Some(t.handlers[name]) else None
    {
      assert Registered(acts, name) == if name in s.handlers then Some(s.handlers[name]) else None;
    }
  }

  lemma AddressedStep(s: State, acts: seq<Action>, a: Action)
    requires HandlersSound(s, acts) && Addressed(s) && Enabled(s, a)
    ensures Addressed(Next(s, a))
  {
  }

  lemma DeliveredLookup(s: State, acts: seq<Action>, obj: Obj, ch: nat)
    requires HandlersSound(s, acts) && Delivered(s, acts, ch) && s.dispatcher == Looking(obj)
    ensures Delivered(Next(s, Lookup(obj)), acts + [Lookup(obj)], ch)
  {
    assert (acts + [Lookup(obj)])[..|acts|] == acts;
    assert Registered(acts, obj.name) == if obj.name in s.handlers then Some(s.handlers[obj.name]) else None;
  }

  // The steps that only move an object along its channel.
  lemma DeliveredMove(s: State, acts: seq<Action>, a: Action, ch: nat)
    requires Delivered(s, acts, ch) && Enabled(s, a) && ch < |s.channels| && (a.Send? || a.Take?)
    ensures Delivered(Next(s, a), acts + [a], ch)
  {
    assert (acts + [a])[..|acts|] == acts;
    assert LookedUp(acts + [a], ch) == LookedUp(acts, ch) + [];
    if a.ch == ch {
      assert Buffered(s, ch) == if a.Send? then [] else [a.obj];
    }
  }

  // The steps that move nothing, or nothing of this channel.
  lemma DeliveredElsewhere(s: State, acts: seq<Action>, a: Action, ch: nat)
    requires Addressed(s) && Delivered(s, acts, ch) && Enabled(s, a) && !a.Lookup?
    requires ch < |s.channels| ==> !a.Send? && !a.Take?
    ensures Delivered(Next(s, a), acts + [a], ch)
  {
    var t := Next(s, a);
    assert (acts + [a])[..|acts|] == acts;
    assert LookedUp(acts + [a], ch) == LookedUp(acts, ch);
    assert Received(acts + [a], ch) == Received(acts, ch);
    if ch < |s.channels| {
      assert t.channels[ch].buffer == s.channels[ch].buffer && t.channels[ch].name == s.channels[ch].name;
      assert PendingFor(t, ch) == PendingFor(s, ch);
    }
  }

  lemma DeliveredStep(s: State, acts: seq<Action>, a: Action, ch: nat)
    requires HandlersSound(s, acts) && Addressed(s) && Delivered(s, acts, ch) && Enabled(s, a)
    ensures Delivered(Next(s, a), acts + [a], ch)
  {
    if a.Lookup? {
      DeliveredLookup(s, acts, a.obj, ch);
    } else if ch < |s.channels| && (a.Send? || a.Take?) {
      DeliveredMove(s, acts, a, ch);
    } else {
      DeliveredElsewhere(s, acts, a, ch);
    }
  }

  lemma {:induction false} RunInvariant(stream: seq<WatchEvent>, acts: seq<Action>)
    requires Reach(Init(stream), acts).Some?
    ensures var s := Reach(Init(stream), acts).value;
      HandlersSound(s, acts) && Addressed(s) && forall ch :: Delivered(s, acts, ch)
  {
    if acts != [] {
      var before, a := acts[..|acts| - 1], acts[|acts| - 1];
      assert acts == before + [a];
      RunInvariant(stream, before);
      var s := Reach(Init(stream), before).value;
      HandlersStep(s, before, a);
      AddressedStep(s, before, a);
      forall ch ensures Delivered(Next(s, a), acts, ch) { DeliveredStep(s, before, a, ch); }
    }
  }

  // In every interleaving: what a channel's waiter received, what is buffered for it and what the
  // dispatcher is about to send to it are together, and in this order, exactly the objects looked
  // up for its name while it was registered.  Nothing is lost, duplicated or reordered, and nothing
  // arrives under another name.
  lemma {:induction false} LosslessFifo(stream: seq<WatchEvent>, acts: seq<Action>, ch: nat)
    requires Reach(Init(stream), acts).Some? && ch < |Reach(Init(stream), acts).value.channels|
    ensures var s := Reach(Init(stream), acts).value;
      LookedUp(acts, ch) == Received(acts, ch) + Buffered(s, ch) + PendingFor(s, ch) &&
      forall i :: 0 <= i < |LookedUp(acts, ch)| ==> LookedUp(acts, ch)[i].name == s.channels[ch].name
  {
    RunInvariant(stream, acts);
    assert Delivered(Reach(Init(stream), acts).value, acts, ch);
  }

  lemma StreamRead(stream: seq<WatchEvent>, n: nat, event: WatchEvent)
    requires n < |stream| && stream[n..][0] == event
    ensures stream[n + 1..] == stream[n..][1..]
    ensures Objects(stream[..n + 1]) == Objects(stream[..n]) + if event.Resource? then [event.obj] else []
  {
    assert stream[..n + 1][..n] == stream[..n];
  }

  // What was looked up and what is about to be make up the part of the stream that was read.
  ghost predicate Follows(stream: seq<WatchEvent>, s: State, acts: seq<Action>) {
    && |s.stream| <= |stream| && stream[|stream| - |s.stream|..] == s.stream
    && Lookups(acts) + InHand(s) == Objects(stream[..|stream| - |s.stream|])
  }

  lemma FollowsReceive(stream: seq<WatchEvent>, s: State, acts: seq<Action>, event: WatchEvent)
    requires Follows(stream, s, acts) && Enabled(s, Receive(event))
    ensures Follows(stream, Next(s, Receive(event)), acts + [Receive(event)])
  {
    assert (acts + [Receive(event)])[..|acts|] == acts;
    StreamRead(stream, |stream| - |s.stream|, event);
  }

  lemma FollowsStep(stream: seq<WatchEvent>, s: State, acts: seq<Action>, a: Action)
    requires Follows(stream, s, acts) && Enabled(s, a)
    ensures Follows(stream, Next(s, a), acts + [a])
  {
    if a.Receive? {
      FollowsReceive(stream, s, acts, a.event);
    } else {
      assert (acts + [a])[..|acts|] == acts;
      assert Next(s, a).stream == s.stream;
    }
  }

  // The dispatcher looks up the objects of the stream in order and skips none.
  lemma {:induction false} LookupsFollowStream(stream: seq<WatchEvent>, acts: seq<Action>)
    requires Reach(Init(stream), acts).Some?
    ensures Follows(stream, Reach(Init(stream), acts).value, acts)
  {
    if acts != [] {
      var before, a := acts[..|acts| - 1], acts[|acts| - 1];
      LookupsFollowStream(stream, before);
      assert acts == before + [a];
      FollowsStep(stream, Reach(Init(stream), before).value, before, a);
    }
  }

  // ---- Progress ----

  // Every step but a registration makes this smaller.
  function WaiterWork(w: Waiter): nat {
    match w
    case Handling(_) => 2
    case Gone => 0
    case _ => 1
  }

  function ChannelWork(c: Channel): nat {
    WaiterWork(c.waiter) + if c.buffer.Some? then 2 else 0
  }

  function DispatcherWork(d: Dispatcher): nat {
    match d
    case Exited => 0
    case Selecting => 1
    case Sending(_, _) => 4
    case Looking(_) => 5
  }

  function TotalWork(channels: seq<Channel>): nat {
    if channels == [] then 0 else TotalWork(channels[..|channels| - 1]) + ChannelWork(channels[|channels| - 1])
  }

  function Work(s: State): nat {
    5 * |s.stream| + DispatcherWork(s.dispatcher) + TotalWork(s.channels)
  }

  lemma {:induction false} TotalWorkUpdate(channels: seq<Channel>, ch: nat, c: Channel)
    requires ch < |channels|
    ensures TotalWork(channels[ch := c]) == TotalWork(channels) - ChannelWork(channels[ch]) + ChannelWork(c)
  {
    var n := |channels| - 1;
    if ch == n {
      assert channels[ch := c][..n] == channels[..n];
    } else {
      TotalWorkUpdate(channels[..n], ch, c);
      assert channels[ch := c][..n] == channels[..n][ch := c];
    }
  }

  predicate OfAWaiter(a: Action) {
    a.Take? || a.Continue? || a.Finish? || a.Unregister?
  }

  lemma WaiterStepsDecrease(s: State, a: Action)
    requires Enabled(s, a) && OfAWaiter(a)
    ensures Work(Next(s, a)) < Work(s)
  {
    var c := Next(s, a).channels[a.ch];
    assert Next(s, a).channels == s.channels[a.ch := c];
    assert ChannelWork(c) < ChannelWork(s.channels[a.ch]);
    TotalWorkUpdate(s.channels, a.ch, c);
  }

  lemma SendDecreases(s: State, ch: nat)
    requires Enabled(s, Send(ch))
    ensures Work(Next(s, Send(ch))) < Work(s)
  {
    TotalWorkUpdate(s.channels, ch, Next(s, Send(ch)).channels[ch]);
  }

  lemma StepsDecrease(s: State, a: Action)
    requires Enabled(s, a)
    ensures if a.Register? then Work(Next(s, a)) == Work(s) + 1 else Work(Next(s, a)) < Work(s)
  {
    if OfAWaiter(a) {
      WaiterStepsDecrease(s, a);
    } else if a.Send? {
      SendDecreases(s, a.ch);
    } else if a.Register? {
      assert Next(s, a).channels[..|s.channels|] == s.channels;
    }
  }

  function Registrations(acts: seq<Action>): nat {
    if acts == [] then 0
    else Registrations(acts[..|acts| - 1]) + if acts[|acts| - 1].Register? then 1 else 0
  }

  // With a finite stream every run is finite: beyond the registrations themselves, at most five
  // steps per watch event, one per registration, and one to exit.
  lemma {:induction false} RunsAreBounded(stream: seq<WatchEvent>, acts: seq<Action>)
    requires Reach(Init(stream), acts).Some?
    ensures var s := Reach(Init(stream), acts).value;
      |acts| - Registrations(acts) + Work(s) <= 5 * |stream| + 1 + Registrations(acts)
  {
    if acts != [] {
      var before, a := acts[..|acts| - 1], acts[|acts| - 1];
      RunsAreBounded(stream, before);
      StepsDecrease(Reach(Init(stream), before).value, a);
    }
  }

  // ---- When the dispatcher is stuck ----

  predicate InLoop(w: Waiter) {
    w.Waiting? || w.Handling?
  }

  // Blocked on the send to a full channel nobody reads any more.
  predicate Stuck(s: State) {
    s.dispatcher.Sending? && s.dispatcher.ch < |s.channels| &&
    s.channels[s.dispatcher.ch].buffer.Some? && !InLoop(s.channels[s.dispatcher.ch].waiter)
  }

  // What stays as it was when the dispatcher got stuck; channels registered since are untouched.
  ghost predicate Frozen(s: State, t: State) {
    Stuck(t) && s.dispatcher == t.dispatcher && t.stream == s.stream && |s.channels| <= |t.channels| &&
    s.dispatcher.Sending? && s.dispatcher.ch < |s.channels| &&
    t.channels[s.dispatcher.ch].buffer == s.channels[s.dispatcher.ch].buffer &&
    forall i :: |s.channels| <= i < |t.channels| ==> t.channels[i].buffer.None? && t.channels[i].waiter.Waiting?
  }

  lemma FrozenStep(s: State, t: State, a: Action)
    requires Frozen(s, t) && Enabled(t, a)
    ensures Frozen(s, Next(t, a)) && (a.Register? || a.Take? || a.Continue? || a.Finish? || a.Unregister?)
  {
  }

  // Once stuck, always stuck: the dispatcher never moves again and no channel is given anything.
  lemma {:induction false} StuckForever(s: State, acts: seq<Action>)
    requires Stuck(s) && Reach(s, acts).Some?
    ensures Frozen(s, Reach(s, acts).value)
    ensures forall a :: a in acts ==> a.Register? || a.Take? || a.Continue? || a.Finish? || a.Unregister?
  {
    if acts != [] {
      var before, a := acts[..|acts| - 1], acts[|acts| - 1];
      StuckForever(s, before);
      FrozenStep(s, Reach(s, before).value, a);
      assert acts == before + [a];
    }
  }

  // A way for the dispatcher to get rid of the object it is sending.
  function WayOut(s: State): seq<Action>
    requires s.dispatcher.Sending? && s.dispatcher.ch < |s.channels| && !Stuck(s)
  {
    var ch := s.dispatcher.ch;
    var c := s.channels[ch];
    if c.buffer.None? then [Send(ch)]
    else if c.waiter.Waiting? then [Take(ch, c.buffer.value), Send(ch)]
    else [Continue(ch), Take(ch, c.buffer.value), Send(ch)]
  }

  lemma Advance(s: State, acts: seq<Action>, t: State, a: Action) returns (longer: seq<Action>, u: State)
    requires Reach(s, acts) == Some(t) && Enabled(t, a)
    ensures longer == acts + [a] && u == Next(t, a) && Reach(s, longer) == Some(u)
  {
    longer, u := acts + [a], Next(t, a);
    assert longer[..|acts|] == acts;
  }

  lemma {:induction false} SendLeads(s: State, acts: seq<Action>, t: State, ch: nat, obj: Obj)
    requires Reach(s, acts) == Some(t) && t.dispatcher == Sending(ch, obj)
    requires ch < |t.channels| && t.channels[ch].buffer.None?
    ensures var u := Reach(s, acts + [Send(ch)]);
      u.Some? && u.value.dispatcher.Selecting? && |u.value.channels| == |t.channels| &&
      u.value.channels[ch].buffer == Some(obj)
  {
    var longer, u := Advance(s, acts, t, Send(ch));
  }

  lemma {:induction false} TakeAndSendLead(s: State, acts: seq<Action>, t: State, ch: nat, obj: Obj, buffered: Obj)
    requires Reach(s, acts) == Some(t) && t.dispatcher == Sending(ch, obj)
    requires ch < |t.channels| && t.channels[ch].buffer == Some(buffered) && t.channels[ch].waiter.Waiting?
    ensures var u := Reach(s, acts + [Take(ch, buffered)] + [Send(ch)]);
      u.Some? && u.value.dispatcher.Selecting? && |u.value.channels| == |t.channels| &&
      u.value.channels[ch].buffer == Some(obj)
  {
    var longer, v := Advance(s, acts, t, Take(ch, buffered));
    SendLeads(s, longer, v, ch, obj);
  }

  lemma {:induction false} WayOutLeads(s: State)
    requires s.dispatcher.Sending? && s.dispatcher.ch < |s.channels| && !Stuck(s)
    ensures var t := Reach(s, WayOut(s));
      t.Some? && t.value.dispatcher.Selecting? && |t.value.channels| == |s.channels| &&
      t.value.channels[s.dispatcher.ch].buffer == Some(s.dispatcher.obj)
  {
    var ch, obj, c := s.dispatcher.ch, s.dispatcher.obj, s.channels[s.dispatcher.ch];
    if c.buffer.None? {
      SendLeads(s, [], s, ch, obj);
      assert [] + [Send(ch)] == WayOut(s);
    } else if c.waiter.Waiting? {
      TakeAndSendLead(s, [], s, ch, obj, c.buffer.value);
      assert [] + [Take(ch, c.buffer.value)] + [Send(ch)] == WayOut(s);
    } else {
      var acts, t := Advance(s, [], s, Continue(ch));
      TakeAndSendLead(s, acts, t, ch, obj, c.buffer.value);
      assert acts + [Take(ch, c.buffer.value)] + [Send(ch)] == WayOut(s);
    }
  }

  // A dispatcher with an object in hand can never deliver it exactly when the channel is full and
  // its waiter has left the loop.
  lemma {:induction false} StuckIff(stream: seq<WatchEvent>, acts: seq<Action>)
    requires Reach(Init(stream), acts).Some? && Reach(Init(stream), acts).value.dispatcher.Sending?
    ensures var s := Reach(Init(stream), acts).value;
      Stuck(s) <==> forall more :: Reach(s, more).Some? ==> Reach(s, more).value.dispatcher == s.dispatcher
  {
    var s := Reach(Init(stream), acts).value;
    RunInvariant(stream, acts);
    if Stuck(s) {
      forall more | Reach(s, more).Some? ensures Reach(s, more).value.dispatcher == s.dispatcher {
        StuckForever(s, more);
      }
    } else {
      WayOutLeads(s);
    }
  }

  // While the waiter of the target is in its loop, some step of the dispatcher or of that waiter
  // is enabled; an idle dispatcher can always go on.
  lemma SomeStepIsEnabled(stream: seq<WatchEvent>, acts: seq<Action>) returns (a: Action)
    requires Reach(Init(stream), acts).Some?
    requires var s := Reach(Init(stream), acts).value; !s.dispatcher.Exited? && !Stuck(s)
    ensures var s := Reach(Init(stream), acts).value;
      Enabled(s, a) &&
      if a.Take? || a.Continue? then s.dispatcher.Sending? && a.ch == s.dispatcher.ch
      else a.Receive? || a.Close? || a.Lookup? || a.Send?
  {
    var s := Reach(Init(stream), acts).value;
    RunInvariant(stream, acts);
    match s.dispatcher
    case Selecting => a := if s.stream == [] then Close else Receive(s.stream[0]);
    case Looking(obj) => a := Lookup(obj);
    case Sending(ch, obj) => a := WayOut(s)[0];
  }
}
