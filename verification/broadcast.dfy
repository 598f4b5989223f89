// Events to subscribers (internal/engine/engine.go: Subscribe, broadcast,
// closeNow; the client's pushEvent follows the same rule). Every subscriber
// has a channel with one slot; senders hold the engine lock, readers do not.
// Each channel operation of a sender is a step of its own.
module Broadcast {
  import opened Runs

  //  id     the number of broadcasts up to it; a priming has that of the
  //         last broadcast before it
  //  state  the version of the engine's state it describes
  datatype Ev = Ev(id: nat, state: nat)

  //  received  what the reader has taken, in order
  //  left      its unsubscribe has been called
  //  first     the id of the event it is primed with
  //  prime     the version that event describes
  datatype Chan = Chan(slot: Option<Ev>, open: bool, received: seq<Ev>, left: bool, first: nat, prime: nat)

  // Who has the engine lock, and how far it has got.
  datatype Holder =
    | Sending(ev: Ev, todo: set<nat>)
    | Trying(ev: Ev, todo: set<nat>, ch: nat)
    | Draining(ev: Ev, todo: set<nat>, ch: nat)
    | Retrying(ev: Ev, todo: set<nat>, ch: nat)
    | Priming(ch: nat)
    | Closing(todo: set<nat>)

  datatype Panic = SendOnClosed | CloseOfClosed | WriteToNilMap

  //  subs    the registered channels; None once the engine has closed
  //  log     the version each broadcast describes, in the order they were made
  //  built   the versions some thread has built an event from
  datatype State = State(
    chans: seq<Chan>, subs: Option<set<nat>>, lock: Option<Holder>, log: seq<nat>, state: nat, built: set<nat>,
    closed: bool, panic: Option<Panic>)

  const INIT := State([], Some({}), None, [], 0, {}, false, None)

  datatype Event =
    | Mutate
    | Build
    | StartBroadcast(state: nat)
    | Subscribe
    | Unsubscribe(ch: nat)
    | Close
    | HolderStep(ch: nat)
    | Receive(ch: nat)

  function Members(s: State): set<nat> {
    if s.subs.Some? then s.subs.value else {}
  }

  function SetSlot(s: State, ch: nat, slot: Option<Ev>): State
    requires ch < |s.chans|
  {
    s.(chans := s.chans[ch := s.chans[ch].(slot := slot)])
  }

  function Hold(s: State, h: Holder): State {
    s.(lock := Some(h))
  }

  function Shut(s: State, ch: nat): State
    requires ch < |s.chans|
  {
    if !s.chans[ch].open then s.(panic := Some(CloseOfClosed))
    else s.(chans := s.chans[ch := s.chans[ch].(open := false)])
  }

  // The next step of the thread that has the lock. None means it blocks.
  function HolderNext(s: State, h: Holder, pick: nat): Option<State> {
    match h
    case Sending(ev, todo) =>
      if todo == {} then Some(s.(lock := None))
      else if pick in todo then Some(Hold(s, Trying(ev, todo - {pick}, pick)))
      else None
    case Trying(ev, todo, ch) =>
      if ch >= |s.chans| then None
      else if !s.chans[ch].open then Some(s.(panic := Some(SendOnClosed)))
      else if s.chans[ch].slot.None? then Some(Hold(SetSlot(s, ch, Some(ev)), Sending(ev, todo)))
      else Some(Hold(s, Draining(ev, todo, ch)))
    case Draining(ev, todo, ch) =>
      if ch >= |s.chans| then None else Some(Hold(SetSlot(s, ch, None), Retrying(ev, todo, ch)))
    case Retrying(ev, todo, ch) =>
      if ch >= |s.chans| then None
      else if !s.chans[ch].open then Some(s.(panic := Some(SendOnClosed)))
      else if s.chans[ch].slot.None? then Some(Hold(SetSlot(s, ch, Some(ev)), Sending(ev, todo)))
      else Some(Hold(s, Sending(ev, todo)))
    // A plain send: it waits for the slot.
    case Priming(ch) =>
      if ch >= |s.chans| || s.chans[ch].slot.Some? then None
      else Some(SetSlot(s, ch, Some(Ev(|s.log|, s.state))).(lock := None))
    case Closing(todo) =>
      if todo == {} then Some(s.(lock := None, subs := None))
      else if pick in todo && pick < |s.chans| then Some(Hold(Shut(s, pick), Closing(todo - {pick})))
      else None
  }

  // Everything that takes the lock waits until it is free.
  function Step(s: State, e: Event): Option<State> {
    if s.panic.Some? then None else
    match e
    case Mutate => if s.lock.Some? then None else Some(s.(state := s.state + 1))
    case Build => if s.lock.Some? then None else Some(s.(built := s.built + {s.state}))
    case StartBroadcast(state) =>
      if s.lock.Some? || state !in s.built then None
      else Some(Hold(s, Sending(Ev(|s.log| + 1, state), Members(s))).(log := s.log + [state]))
    case Subscribe =>
      if s.lock.Some? then None
      else if s.subs.None? then Some(s.(panic := Some(WriteToNilMap)))
      else Some(Hold(s, Priming(|s.chans|)).(chans := s.chans + [Chan(None, true, [], false, |s.log|, s.state)],
                                             subs := Some(s.subs.value + {|s.chans|})))
    // The second call of an unsubscribe does nothing.
    case Unsubscribe(ch) =>
      if ch >= |s.chans| then None
      else if s.chans[ch].left then Some(s)
      else if s.lock.Some? then None
      else
        var t := s.(chans := s.chans[ch := s.chans[ch].(left := true)]);
        Some(if ch in Members(s) then Shut(t, ch).(subs := Some(Members(s) - {ch})) else t)
    // Only the first call closes.
    case Close =>
      if s.closed then Some(s)
      else if s.lock.Some? then None
      else Some(Hold(s, Closing(Members(s))).(closed := true))
    case HolderStep(pick) => if s.lock.None? then None else HolderNext(s, s.lock.value, pick)
    case Receive(ch) =>
      if ch >= |s.chans| || s.chans[ch].slot.None? then None
      else
        var c := s.chans[ch];
        Some(s.(chans := s.chans[ch := c.(slot := None, received := c.received + [c.slot.value])]))
  }

  // ------------------------------------------------------------------
  // What every step keeps
  // ------------------------------------------------------------------

  // The reader of this channel has ev, or will find it in the slot.
  predicate Has(c: Chan, ev: Ev) {
    c.slot == Some(ev) || ev in c.received
  }

  // Ids go up along what was received and then the slot, and stay below n.
  ghost predicate Ascending(c: Chan, n: nat) {
    && (forall i, j | 0 <= i < j < |c.received| :: c.received[i].id < c.received[j].id)
    && (forall i | 0 <= i < |c.received| :: c.received[i].id < n)
    && (c.slot.Some? ==> c.slot.value.id < n && forall i | 0 <= i < |c.received| :: c.received[i].id < c.slot.value.id)
  }

  // The channel a sender is working on, and the ones it has yet to reach.
  function Ahead(h: Holder): set<nat> {
    match h
    case Sending(ev, todo) => todo
    case Trying(ev, todo, ch) => todo + {ch}
    case Draining(ev, todo, ch) => todo + {ch}
    case Retrying(ev, todo, ch) => todo + {ch}
    case Priming(ch) => {}
    case Closing(todo) => todo
  }

  predicate Sends(h: Holder) {
    !h.Priming? && !h.Closing?
  }

  ghost predicate ChansWell(s: State) {
    && (forall ch | ch in Members(s) :: ch < |s.chans|)
    && (forall ch | ch in Members(s) :: s.chans[ch].open <==>
          (s.lock.Some? && s.lock.value.Closing? ==> ch in s.lock.value.todo))
    && (forall ch | 0 <= ch < |s.chans| :: Ascending(s.chans[ch], |s.log| + 1))
    && s.panic in {None, Some(WriteToNilMap)}
    && (s.subs.None? ==> s.closed && (s.lock.Some? ==> Sends(s.lock.value) && Ahead(s.lock.value) == {}))
    && (s.lock.Some? && s.lock.value.Closing? ==> s.closed)
    && (s.closed ==> s.subs.None? || (s.lock.Some? && s.lock.value.Closing?))
  }

  ghost predicate LockWell(s: State) {
    s.lock.Some? ==>
      var h := s.lock.value;
      && Ahead(h) <= Members(s)
      && (Sends(h) ==> h.ev.id == |s.log|)
      && (Sends(h) ==> forall ch | ch in Ahead(h) && ch < |s.chans| :: Ascending(s.chans[ch], h.ev.id))
      && (Sends(h) ==> forall ch | ch in Members(s) && ch !in Ahead(h) && ch < |s.chans| :: Has(s.chans[ch], h.ev))
      && ((h.Trying? || h.Draining? || h.Retrying?) ==> h.ch !in h.todo)
      && (h.Retrying? && h.ch < |s.chans| ==> s.chans[h.ch].slot.None?)
      && (h.Priming? ==>
            h.ch in Members(s) && h.ch < |s.chans| && s.chans[h.ch].slot.None? && s.chans[h.ch].received == [])
  }

  ghost predicate Inv(s: State) {
    ChansWell(s) && LockWell(s)
  }

  lemma AscendingPut(c: Chan, ev: Ev, n: nat)
    requires Ascending(c, ev.id) && ev.id < n
    ensures Ascending(c.(slot := Some(ev)), n)
  {
  }

  lemma AscendingTake(c: Chan, n: nat)
    requires Ascending(c, n) && c.slot.Some?
    ensures Ascending(c.(slot := None, received := c.received + [c.slot.value]), n)
  {
  }

  lemma AscendingMore(c: Chan, n: nat, m: nat)
    requires Ascending(c, n) && n <= m
    ensures Ascending(c, m)
  {
  }

  // The sender puts its event into the slot of channel ch.
  lemma PutKeeps(s: State, ev: Ev, todo: set<nat>, ch: nat, t: State)
    requires Inv(s) && s.lock in {Some(Trying(ev, todo, ch)), Some(Retrying(ev, todo, ch))} && ch < |s.chans|
    requires t == Hold(SetSlot(s, ch, Some(ev)), Sending(ev, todo))
    ensures Inv(t)
  {
    assert Ascending(s.chans[ch], ev.id);
    AscendingPut(s.chans[ch], ev, |s.log| + 1);
  }

  lemma DrainKeeps(s: State, ev: Ev, todo: set<nat>, ch: nat, t: State)
    requires Inv(s) && s.lock == Some(Draining(ev, todo, ch)) && ch < |s.chans|
    requires t == Hold(SetSlot(s, ch, None), Retrying(ev, todo, ch))
    ensures Inv(t)
  {
    assert Ascending(t.chans[ch], |s.log| + 1) && Ascending(t.chans[ch], ev.id);
  }

  lemma SendKeeps(s: State, pick: nat, t: State)
    requires Inv(s) && s.lock.Some? && Sends(s.lock.value) && HolderNext(s, s.lock.value, pick) == Some(t)
    ensures Inv(t)
  {
    match s.lock.value
    case Sending(ev, todo) =>
    case Trying(ev, todo, ch) =>
      if s.chans[ch].slot.None? {
        PutKeeps(s, ev, todo, ch, t);
      }
    case Draining(ev, todo, ch) => DrainKeeps(s, ev, todo, ch, t);
    case Retrying(ev, todo, ch) => PutKeeps(s, ev, todo, ch, t);
  }

  lemma PrimeOrCloseKeeps(s: State, pick: nat, t: State)
    requires Inv(s) && s.lock.Some? && !Sends(s.lock.value) && HolderNext(s, s.lock.value, pick) == Some(t)
    ensures Inv(t)
  {
    match s.lock.value
    case Priming(ch) =>
    case Closing(todo) =>
  }

  lemma ReceiveKeeps(s: State, ch: nat, t: State)
    requires Inv(s) && Step(s, Receive(ch)) == Some(t)
    ensures Inv(t)
  {
    var c := s.chans[ch];
    AscendingTake(c, |s.log| + 1);
    assert t.chans[ch].received[|c.received|] == c.slot.value;
    assert forall ev :: Has(c, ev) ==> Has(t.chans[ch], ev);
    if s.lock.Some? && Sends(s.lock.value) && ch in Ahead(s.lock.value) {
      AscendingTake(c, s.lock.value.ev.id);
    }
    assert forall k | 0 <= k < |s.chans| && k != ch :: t.chans[k] == s.chans[k];
  }

  lemma StartKeeps(s: State, state: nat, t: State)
    requires Inv(s) && Step(s, StartBroadcast(state)) == Some(t)
    ensures Inv(t)
  {
    forall ch | 0 <= ch < |s.chans|
      ensures Ascending(s.chans[ch], |s.log| + 1) && Ascending(s.chans[ch], |t.log| + 1)
    {
      AscendingMore(s.chans[ch], |s.log| + 1, |t.log| + 1);
    }
  }

  lemma SubscribeKeeps(s: State, t: State)
    requires Inv(s) && Step(s, Subscribe) == Some(t)
    ensures Inv(t)
  {
  }

  lemma UnsubscribeKeeps(s: State, ch: nat, t: State)
    requires Inv(s) && Step(s, Unsubscribe(ch)) == Some(t)
    ensures Inv(t)
  {
  }

  lemma PlainKeeps(s: State, e: Event, t: State)
    requires Inv(s) && (e.Mutate? || e.Build?) && Step(s, e) == Some(t)
    ensures Inv(t)
  {
  }

  lemma CloseKeeps(s: State, t: State)
    requires Inv(s) && Step(s, Close) == Some(t)
    ensures Inv(t)
  {
  }

  lemma StepKeeps(s: State, e: Event)
    requires Inv(s) && Step(s, e).Some?
    ensures Inv(Step(s, e).value)
  {
    var t := Step(s, e).value;
    match e
    case Mutate => PlainKeeps(s, e, t);
    case Build => PlainKeeps(s, e, t);
    case StartBroadcast(state) => StartKeeps(s, state, t);
    case Subscribe => SubscribeKeeps(s, t);
    case Unsubscribe(ch) => UnsubscribeKeeps(s, ch, t);
    case Close => CloseKeeps(s, t);
    case HolderStep(pick) =>
      if Sends(s.lock.value) {
        SendKeeps(s, pick, t);
      } else {
        PrimeOrCloseKeeps(s, pick, t);
      }
    case Receive(ch) => ReceiveKeeps(s, ch, t);
  }

  lemma Always(events: seq<Event>)
    requires Run(Step, INIT, events).Some?
    ensures Inv(Run(Step, INIT, events).value)
  {
    forall s, e | Inv(s) && Step(s, e).Some?
      ensures Inv(Step(s, e).value)
    {
      StepKeeps(s, e);
    }
    InvariantOverRuns(Inv, Step, INIT, events);
  }

  // ------------------------------------------------------------------
  // The theorems
  // ------------------------------------------------------------------

  // No run sends on a closed channel or closes one twice; it panics only
  // if somebody subscribes after the engine has closed.
  lemma PanicsExactly(events: seq<Event>, e: Event)
    requires Run(Step, INIT, events).Some? && Step(Run(Step, INIT, events).value, e).Some?
    ensures var s := Run(Step, INIT, events).value;
            Step(s, e).value.panic.Some? <==> e.Subscribe? && s.subs.None?
  {
    Always(events);
    var s := Run(Step, INIT, events).value;
    StepKeeps(s, e);
    assert s.panic.None?;
  }

  ghost predicate HasLeft(s: State, ch: nat) {
    ch < |s.chans| && s.chans[ch].left
  }

  // The first call of an unsubscribe takes the subscriber out, and closes its
  // channel if the engine has not done so.
  lemma Unsubscribes(events: seq<Event>, ch: nat)
    requires Run(Step, INIT, events).Some?
    requires var s := Run(Step, INIT, events).value;
             s.panic.None? && s.lock.None? && ch < |s.chans| && !s.chans[ch].left
    ensures var s := Run(Step, INIT, events).value;
            && Step(s, Unsubscribe(ch)).Some?
            && var t := Step(s, Unsubscribe(ch)).value;
               && t.panic.None? && Members(t) == Members(s) - {ch} && |t.chans| == |s.chans|
               && t.chans[ch].open == (s.chans[ch].open && ch !in Members(s))
               && forall c | 0 <= c < |s.chans| && c != ch :: t.chans[c] == s.chans[c]
  {
    Always(events);
  }

  // Any later one, whatever has happened since and whoever has the lock, does
  // nothing and waits for nobody.
  lemma {:induction false} UnsubscribesOnce(before: seq<Event>, ch: nat, after: seq<Event>)
    requires Run(Step, INIT, before + [Unsubscribe(ch)] + after).Some?
    requires Run(Step, INIT, before + [Unsubscribe(ch)] + after).value.panic.None?
    ensures var s := Run(Step, INIT, before + [Unsubscribe(ch)] + after).value;
            HasLeft(s, ch) && Step(s, Unsubscribe(ch)) == Some(s)
    decreases |after|
  {
    var all := before + [Unsubscribe(ch)] + after;
    var n := |all| - 1;
    var s := Run(Step, INIT, all[..n]).value;
    if after == [] {
      assert all[..n] == before;
    } else {
      assert all[..n] == before + [Unsubscribe(ch)] + after[..|after| - 1];
      UnsubscribesOnce(before, ch, after[..|after| - 1]);
      StaysLeft(s, all[n], ch);
    }
  }

  lemma StaysLeft(s: State, e: Event, ch: nat)
    requires HasLeft(s, ch) && Step(s, e).Some?
    ensures HasLeft(Step(s, e).value, ch)
  {
    if e.HolderStep? {
      match s.lock.value
      case Sending(ev, todo) =>
      case Trying(ev, todo, c) =>
      case Draining(ev, todo, c) =>
      case Retrying(ev, todo, c) =>
      case Priming(c) =>
      case Closing(todo) =>
    }
  }

  // What the holder of the lock still has to do.
  function Work(h: Holder): nat {
    match h
    case Sending(ev, todo) => 4 * |todo|
    case Trying(ev, todo, ch) => 4 * |todo| + 3
    case Draining(ev, todo, ch) => 4 * |todo| + 2
    case Retrying(ev, todo, ch) => 4 * |todo| + 1
    case Priming(ch) => 0
    case Closing(todo) => 4 * |todo|
  }

  // Whoever has the lock can always go on, whatever the readers do, and
  // each of its steps leaves it less to do: neither a broadcast nor a
  // subscription ever waits for a reader.
  lemma NeverBlocks(events: seq<Event>) returns (pick: nat)
    requires Run(Step, INIT, events).Some? && Run(Step, INIT, events).value.panic.None?
    requires Run(Step, INIT, events).value.lock.Some?
    ensures var s := Run(Step, INIT, events).value;
            var r := Step(s, HolderStep(pick));
            r.Some? && (r.value.lock.Some? ==> Work(r.value.lock.value) < Work(s.lock.value))
  {
    Always(events);
    pick := HolderGoesOn(Run(Step, INIT, events).value);
  }

  lemma HolderGoesOn(s: State) returns (pick: nat)
    requires Inv(s) && s.panic.None? && s.lock.Some?
    ensures var r := HolderNext(s, s.lock.value, pick);
            r.Some? && (r.value.lock.Some? ==> Work(r.value.lock.value) < Work(s.lock.value))
  {
    var h := s.lock.value;
    pick := if h.Sending? || h.Closing? then Pick(h.todo) else 0;
    if h.Sending? || h.Closing? {
      PickerGoesOn(s, h, pick);
    } else {
      WorkerGoesOn(s, h, pick);
    }
  }

  lemma PickerGoesOn(s: State, h: Holder, pick: nat)
    requires ChansWell(s) && Ahead(h) <= Members(s) && s.lock == Some(h) && (h.Sending? || h.Closing?)
    requires h.todo != {} ==> pick in h.todo
    ensures var r := HolderNext(s, h, pick);
            r.Some? && (r.value.lock.Some? ==> Work(r.value.lock.value) < Work(h))
  {
    SmallerWithout(h.todo, pick);
  }

  lemma WorkerGoesOn(s: State, h: Holder, pick: nat)
    requires !h.Sending? && !h.Closing? && s.lock == Some(h)
    requires h.ch < |s.chans| && (if h.Priming? then s.chans[h.ch].slot.None? else s.chans[h.ch].open)
    ensures var r := HolderNext(s, h, pick);
            r.Some? && (r.value.lock.Some? ==> Work(r.value.lock.value) < Work(h))
  {
  }

  ghost function Pick(todo: set<nat>): (pick: nat)
    ensures todo != {} ==> pick in todo
  {
    if todo == {} then 0 else var pick :| pick in todo; pick
  }

  lemma SmallerWithout(todo: set<nat>, pick: nat)
    ensures pick in todo ==> |todo - {pick}| < |todo|
  {
    if pick in todo {
      assert |todo - {pick}| == |todo| - 1;
    }
  }

  // When a broadcast lets go of the lock, every subscriber then registered
  // has its event in the slot, or has received it.
  lemma BroadcastReachesEverybody(events: seq<Event>, pick: nat, ch: nat)
    requires Run(Step, INIT, events).Some?
    requires var s := Run(Step, INIT, events).value;
             && s.lock.Some? && Sends(s.lock.value) && Step(s, HolderStep(pick)).Some?
             && Step(s, HolderStep(pick)).value.lock.None? && ch in Members(s)
    ensures var s := Run(Step, INIT, events).value;
            var t := Step(s, HolderStep(pick)).value;
            ch < |t.chans| && ch in Members(t) && Has(t.chans[ch], s.lock.value.ev)
  {
    Always(events);
    StepKeeps(Run(Step, INIT, events).value, HolderStep(pick));
  }

  // A new subscriber starts with the state at its registration, and nothing
  // before it.
  lemma SubscriberIsPrimed(events: seq<Event>, state: nat)
    requires Run(Step, INIT, events).Some?
    requires var s := Run(Step, INIT, events).value; Step(s, Subscribe).Some? && s.subs.Some? && s.state == state
    ensures var s := Run(Step, INIT, events).value;
            var t := Step(Step(s, Subscribe).value, HolderStep(0));
            && t.Some? && t.value.lock.None? && |t.value.chans| == |s.chans| + 1 && |s.chans| in Members(t.value)
            && t.value.chans[|s.chans|] == Chan(Some(Ev(|s.log|, state)), true, [], false, |s.log|, state)
  {
    Always(events);
  }

  // A reader receives sends in the order they were made, each at most once.
  lemma ReceivedInOrder(events: seq<Event>, ch: nat, i: nat, j: nat)
    requires Run(Step, INIT, events).Some? && ch < |Run(Step, INIT, events).value.chans|
    requires i < j < |Run(Step, INIT, events).value.chans[ch].received|
    ensures var c := Run(Step, INIT, events).value.chans[ch]; c.received[i].id < c.received[j].id
  {
    Always(events);
    assert Ascending(Run(Step, INIT, events).value.chans[ch], |Run(Step, INIT, events).value.log| + 1);
  }

  // After the engine has closed no channel is left open for a subscriber
  // to wait on.
  lemma CloseClosesEverybody(events: seq<Event>, pick: nat, ch: nat)
    requires Run(Step, INIT, events).Some?
    requires var s := Run(Step, INIT, events).value;
             && s.lock.Some? && s.lock.value.Closing? && Step(s, HolderStep(pick)).Some?
             && Step(s, HolderStep(pick)).value.lock.None? && ch in Members(s)
    ensures var t := Step(Run(Step, INIT, events).value, HolderStep(pick)).value;
            ch < |t.chans| && !t.chans[ch].open && t.subs.None?
  {
    Always(events);
  }

  // ------------------------------------------------------------------
  // The order of states
  // ------------------------------------------------------------------

  predicate InOrder(states: seq<nat>) {
    forall i, j | 0 <= i < j < |states| :: states[i] <= states[j]
  }

  function States(evs: seq<Ev>): (states: seq<nat>)
    ensures |states| == |evs| && forall i | 0 <= i < |states| :: states[i] == evs[i].state
  {
    seq(|evs|, i requires 0 <= i < |evs| => evs[i].state)
  }

  // The first event says what the channel was primed with, a later one what
  // the log has for its id.
  predicate FromLog(ev: Ev, c: Chan, log: seq<nat>) {
    if ev.id <= c.first then ev == Ev(c.first, c.prime) else ev.id <= |log| && ev.state == log[ev.id - 1]
  }

  ghost predicate ChanLogged(c: Chan, log: seq<nat>) {
    && c.first <= |log|
    && (forall i | 0 <= i < |c.received| :: FromLog(c.received[i], c, log))
    && (c.slot.Some? ==> FromLog(c.slot.value, c, log))
  }

  // The event being sent is the newest in the log, and everybody it may
  // reach was primed before it.
  ghost predicate SenderLogged(s: State) {
    && (s.lock.Some? && Sends(s.lock.value) ==>
          var ev := s.lock.value.ev;
          && ev.id == |s.log| > 0 && ev.state == s.log[ev.id - 1]
          && forall ch | 0 <= ch < |s.chans| :: s.chans[ch].first < ev.id)
    && (s.lock.Some? && s.lock.value.Priming? && s.lock.value.ch < |s.chans| ==>
          s.chans[s.lock.value.ch].first == |s.log| && s.chans[s.lock.value.ch].prime == s.state)
  }

  ghost predicate Logged(s: State) {
    SenderLogged(s) && forall ch | 0 <= ch < |s.chans| :: ChanLogged(s.chans[ch], s.log)
  }

  lemma LongerLog(c: Chan, log: seq<nat>, state: nat)
    requires ChanLogged(c, log)
    ensures ChanLogged(c, log + [state])
  {
  }

  lemma SlotLogs(s: State, ch: nat, slot: Option<Ev>, t: State)
    requires Logged(s) && ch < |s.chans| && t == SetSlot(s, ch, slot).(lock := t.lock) && SenderLogged(t)
    requires slot.Some? ==> FromLog(slot.value, s.chans[ch], s.log)
    ensures Logged(t)
  {
    assert forall k | 0 <= k < |s.chans| && k != ch :: t.chans[k] == s.chans[k];
    assert ChanLogged(s.chans[ch], s.log);
  }

  lemma SenderLogs(s: State, ev: Ev, ch: nat, pick: nat, t: State)
    requires Logged(s) && s.lock.Some? && HolderNext(s, s.lock.value, pick) == Some(t) && ch < |s.chans|
    requires s.lock.value.Trying? || s.lock.value.Draining? || s.lock.value.Retrying?
    requires s.lock.value.ev == ev && s.lock.value.ch == ch
    ensures Logged(t)
  {
    match s.lock.value
    case Trying(_, todo, _) =>
      if s.chans[ch].open && s.chans[ch].slot.None? {
        SlotLogs(s, ch, Some(ev), t);
      }
    case Draining(_, todo, _) => SlotLogs(s, ch, None, t);
    case Retrying(_, todo, _) =>
      if s.chans[ch].open && s.chans[ch].slot.None? {
        SlotLogs(s, ch, Some(ev), t);
      }
  }

  lemma HolderLogs(s: State, pick: nat, t: State)
    requires Logged(s) && s.lock.Some? && HolderNext(s, s.lock.value, pick) == Some(t)
    ensures Logged(t)
  {
    match s.lock.value
    case Sending(ev, todo) =>
    case Trying(ev, todo, ch) => SenderLogs(s, ev, ch, pick, t);
    case Draining(ev, todo, ch) => SenderLogs(s, ev, ch, pick, t);
    case Retrying(ev, todo, ch) => SenderLogs(s, ev, ch, pick, t);
    case Priming(ch) => SlotLogs(s, ch, Some(Ev(|s.log|, s.state)), t);
    case Closing(todo) => ClosingLogs(s, todo, pick, t);
  }

  lemma ClosingLogs(s: State, todo: set<nat>, pick: nat, t: State)
    requires Logged(s) && s.lock == Some(Closing(todo)) && HolderNext(s, Closing(todo), pick) == Some(t)
    ensures Logged(t)
  {
    assert forall k | 0 <= k < |s.chans| :: t.chans[k] == s.chans[k].(open := t.chans[k].open);
  }

  lemma StartLogs(s: State, state: nat, t: State)
    requires Logged(s) && Step(s, StartBroadcast(state)) == Some(t)
    ensures Logged(t)
  {
    forall k | 0 <= k < |s.chans|
      ensures ChanLogged(s.chans[k], t.log)
    {
      LongerLog(s.chans[k], s.log, state);
    }
  }

  lemma ReceiveLogs(s: State, ch: nat, t: State)
    requires Logged(s) && Step(s, Receive(ch)) == Some(t)
    ensures Logged(t)
  {
    assert forall k | 0 <= k < |s.chans| && k != ch :: t.chans[k] == s.chans[k];
    assert ChanLogged(s.chans[ch], s.log);
  }

  lemma UnsubscribeLogs(s: State, ch: nat, t: State)
    requires Logged(s) && Step(s, Unsubscribe(ch)) == Some(t)
    ensures Logged(t)
  {
    assert forall k | 0 <= k < |s.chans| :: t.chans[k] == s.chans[k].(open := t.chans[k].open, left := t.chans[k].left);
  }

  lemma StepLogs(s: State, e: Event)
    requires Logged(s) && Step(s, e).Some?
    ensures Logged(Step(s, e).value)
  {
    var t := Step(s, e).value;
    match e
    case Mutate =>
    case Build =>
    case StartBroadcast(state) => StartLogs(s, state, t);
    case Subscribe =>
    case Unsubscribe(ch) => UnsubscribeLogs(s, ch, t);
    case Close =>
    case HolderStep(pick) => HolderLogs(s, pick, t);
    case Receive(ch) => ReceiveLogs(s, ch, t);
  }

  lemma LoggedAlways(events: seq<Event>)
    requires Run(Step, INIT, events).Some?
    ensures Logged(Run(Step, INIT, events).value)
  {
    forall s, e | Logged(s) && Step(s, e).Some?
      ensures Logged(Step(s, e).value)
    {
      StepLogs(s, e);
    }
    InvariantOverRuns(Logged, Step, INIT, events);
  }

  // The versions a channel has been sent: its priming, and every broadcast
  // after it.
  function SentTo(s: State, ch: nat): (states: seq<nat>)
    requires ch < |s.chans|
  {
    [s.chans[ch].prime] + if s.chans[ch].first <= |s.log| then s.log[s.chans[ch].first..] else []
  }

  // When what was sent is in order, so is what any reader got of it.
  lemma ReaderInOrder(s: State, ch: nat)
    requires ch < |s.chans| && ChanLogged(s.chans[ch], s.log) && Ascending(s.chans[ch], |s.log| + 1)
    requires InOrder(SentTo(s, ch))
    ensures InOrder(States(s.chans[ch].received))
  {
    var c := s.chans[ch];
    forall i, j | 0 <= i < j < |c.received|
      ensures c.received[i].state <= c.received[j].state
    {
      var a, b := c.received[i], c.received[j];
      assert FromLog(a, c, s.log) && FromLog(b, c, s.log);
      assert SentTo(s, ch)[a.id - c.first] == a.state && SentTo(s, ch)[b.id - c.first] == b.state;
    }
  }

  // ---- a reader that misses nothing ----

  // The sender has still to reach this channel.
  predicate InFlight(lock: Option<Holder>, ch: nat) {
    lock.Some? && (if lock.value.Priming? then ch == lock.value.ch else Sends(lock.value) && ch in Ahead(lock.value))
  }

  // What it has been sent and has not still to be reached with.
  function AllSent(s: State, ch: nat): (evs: seq<Ev>)
    requires ch < |s.chans|
  {
    var first := s.chans[ch].first;
    var n := |SentTo(s, ch)| - if InFlight(s.lock, ch) then 1 else 0;
    seq(n, k requires 0 <= k < n => Ev(first + k, SentTo(s, ch)[k]))
  }

  // Such a reader's slot is never full, so no sender has to drain it.
  function EagerLock(lock: Option<Holder>, ch: nat): Option<Holder> {
    if lock.Some? && (lock.value.Draining? || lock.value.Retrying?) && lock.value.ch == ch
    then Some(Trying(lock.value.ev, lock.value.todo, ch))
    else lock
  }

  // The same state, had the reader of ch taken each event at once.
  function Eagerly(s: State, ch: nat): State {
    if ch >= |s.chans| then s
    else s.(chans := s.chans[ch := s.chans[ch].(slot := None, received := AllSent(s, ch))],
            lock := EagerLock(s.lock, ch))
  }

  // Registered, or yet to be.
  predicate Subscribed(s: State, ch: nat) {
    s.panic.None? && (ch >= |s.chans| || ch in Members(s))
  }

  // The sender reaches ch, and its reader takes the event.
  lemma PutAndReceived(r: iset<State>, s: State, ch: nat, t: State, ev: Ev, todo: set<nat>)
    requires Closed(r) && Eagerly(s, ch) in r && Logged(s) && ch < |s.chans| && s.chans[ch].open && s.panic.None?
    requires s.lock in {Some(Trying(ev, todo, ch)), Some(Retrying(ev, todo, ch))} && ch !in todo
    requires t == Hold(SetSlot(s, ch, Some(ev)), Sending(ev, todo))
    ensures Eagerly(t, ch) in r
  {
    var a := Eagerly(s, ch);
    assert a.lock == Some(Trying(ev, todo, ch));
    var b := Step(a, HolderStep(0)).value;
    var c := Step(b, Receive(ch)).value;
    assert SentTo(t, ch) == SentTo(s, ch);
    assert AllSent(t, ch) == AllSent(s, ch) + [ev];
    assert c.chans == Eagerly(t, ch).chans;
  }

  lemma PrimedAndReceived(r: iset<State>, s: State, ch: nat, t: State)
    requires Closed(r) && Eagerly(s, ch) in r && Logged(s) && ch < |s.chans| && s.panic.None?
    requires s.lock == Some(Priming(ch)) && HolderNext(s, Priming(ch), 0) == Some(t)
    ensures Eagerly(t, ch) in r
  {
    var a := Eagerly(s, ch);
    var b := Step(a, HolderStep(0)).value;
    var c := Step(b, Receive(ch)).value;
    assert SentTo(t, ch) == SentTo(s, ch) == [s.state];
    assert AllSent(s, ch) == [];
    assert AllSent(t, ch) == [Ev(|s.log|, s.state)] == AllSent(s, ch) + [Ev(|s.log|, s.state)];
    assert c.chans == Eagerly(t, ch).chans;
    assert c == Eagerly(t, ch);
  }

  // A sender at another channel.
  lemma HolderElsewhere(s: State, ch: nat, pick: nat, t: State)
    requires ch < |s.chans| && s.panic.None? && t.panic.None?
    requires s.lock.Some? && HolderNext(s, s.lock.value, pick) == Some(t)
    requires s.lock.value.Trying? || s.lock.value.Draining? || s.lock.value.Retrying? || s.lock.value.Priming?
    requires s.lock.value.ch != ch
    ensures Step(Eagerly(s, ch), HolderStep(pick)) == Some(Eagerly(t, ch))
  {
    assert t.chans[ch] == s.chans[ch] && t.log == s.log && InFlight(t.lock, ch) == InFlight(s.lock, ch);
    assert AllSent(t, ch) == AllSent(s, ch);
    assert Eagerly(t, ch).chans == Step(Eagerly(s, ch), HolderStep(pick)).value.chans;
  }

  // A sender between channels, or one that closes them.
  lemma HolderBetween(s: State, ch: nat, pick: nat, t: State)
    requires ch < |s.chans| && s.panic.None? && t.panic.None?
    requires s.lock.Some? && HolderNext(s, s.lock.value, pick) == Some(t)
    requires s.lock.value.Sending? || s.lock.value.Closing?
    ensures Step(Eagerly(s, ch), HolderStep(pick)) == Some(Eagerly(t, ch))
  {
    assert t.log == s.log && InFlight(t.lock, ch) == InFlight(s.lock, ch);
    assert AllSent(t, ch) == AllSent(s, ch);
    assert Eagerly(t, ch).chans == Step(Eagerly(s, ch), HolderStep(pick)).value.chans;
  }

  // The holder's step, for a reader that misses nothing: at its own channel
  // it may take one step for several, and takes what is put there.
  lemma EagerHolder(r: iset<State>, s: State, ch: nat, pick: nat, t: State)
    requires Closed(r) && Eagerly(s, ch) in r && Inv(s) && Logged(s) && ch in Members(s) && Subscribed(t, ch)
    requires s.panic.None? && s.lock.Some? && HolderNext(s, s.lock.value, pick) == Some(t)
    ensures Eagerly(t, ch) in r
  {
    var h := s.lock.value;
    if h.Sending? || h.Closing? {
      HolderBetween(s, ch, pick, t);
      assert Step(Eagerly(s, ch), HolderStep(pick)).value in r;
    } else if h.ch != ch {
      HolderElsewhere(s, ch, pick, t);
      assert Step(Eagerly(s, ch), HolderStep(pick)).value in r;
    } else if h.Priming? {
      PrimedAndReceived(r, s, ch, t);
    } else if h.Trying? && s.chans[ch].slot.None? {
      PutAndReceived(r, s, ch, t, h.ev, h.todo);
    } else if h.Retrying? {
      PutAndReceived(r, s, ch, t, h.ev, h.todo);
    } else {
      assert AllSent(t, ch) == AllSent(s, ch);
      assert Eagerly(t, ch).chans == Eagerly(s, ch).chans;
      assert Eagerly(t, ch) == Eagerly(s, ch);
    }
  }

  // A broadcast begins: it is in flight to every subscriber.
  lemma EagerStart(s: State, ch: nat, state: nat, t: State)
    requires Logged(s) && ch in Members(s) && ch < |s.chans| && Step(s, StartBroadcast(state)) == Some(t)
    ensures Step(Eagerly(s, ch), StartBroadcast(state)) == Some(Eagerly(t, ch))
  {
    assert SentTo(t, ch) == SentTo(s, ch) + [state];
    assert AllSent(t, ch) == AllSent(s, ch);
    assert Eagerly(t, ch).chans == Step(Eagerly(s, ch), StartBroadcast(state)).value.chans;
  }

  lemma EagerSubscribe(s: State, ch: nat, t: State)
    requires Logged(s) && ch < |s.chans| && Step(s, Subscribe) == Some(t) && t.panic.None?
    ensures Step(Eagerly(s, ch), Subscribe) == Some(Eagerly(t, ch))
  {
    assert SentTo(t, ch) == SentTo(s, ch);
    assert AllSent(t, ch) == AllSent(s, ch);
    assert Eagerly(t, ch).chans == Step(Eagerly(s, ch), Subscribe).value.chans;
  }

  lemma EagerBorn(s: State, ch: nat, t: State)
    requires Logged(s) && ch == |s.chans| && Step(s, Subscribe) == Some(t) && t.panic.None?
    ensures Eagerly(t, ch) == t
  {
    assert SentTo(t, ch) == [s.state];
    assert AllSent(t, ch) == [];
    assert Eagerly(t, ch).chans == t.chans;
  }

  lemma EagerUnsubscribe(s: State, ch: nat, other: nat, t: State)
    requires ch < |s.chans| && other != ch && Step(s, Unsubscribe(other)) == Some(t) && t.panic.None?
    ensures Step(Eagerly(s, ch), Unsubscribe(other)) == Some(Eagerly(t, ch))
  {
    assert t.chans[ch] == s.chans[ch] && t.log == s.log && t.lock == s.lock;
    assert AllSent(t, ch) == AllSent(s, ch);
    assert Eagerly(t, ch).chans == Step(Eagerly(s, ch), Unsubscribe(other)).value.chans;
  }

  lemma EagerReceive(s: State, ch: nat, other: nat, t: State)
    requires ch < |s.chans| && other != ch && Step(s, Receive(other)) == Some(t)
    ensures Step(Eagerly(s, ch), Receive(other)) == Some(Eagerly(t, ch))
  {
    assert t.chans[ch] == s.chans[ch] && t.log == s.log && t.lock == s.lock;
    assert AllSent(t, ch) == AllSent(s, ch);
    assert Eagerly(t, ch).chans == Step(Eagerly(s, ch), Receive(other)).value.chans;
  }

  lemma EagerOwnReceive(s: State, ch: nat, t: State)
    requires ch < |s.chans| && Step(s, Receive(ch)) == Some(t)
    ensures Eagerly(t, ch) == Eagerly(s, ch)
  {
    assert AllSent(t, ch) == AllSent(s, ch);
    assert Eagerly(t, ch).chans == Eagerly(s, ch).chans;
  }

  lemma EagerOther(s: State, ch: nat, e: Event, t: State)
    requires ch < |s.chans| && (e.Mutate? || e.Build? || e.Close?) && Step(s, e) == Some(t)
    ensures Step(Eagerly(s, ch), e) == Some(Eagerly(t, ch))
  {
    assert t.chans == s.chans && t.log == s.log;
    assert AllSent(t, ch) == AllSent(s, ch);
    assert Eagerly(t, ch).chans == Step(Eagerly(s, ch), e).value.chans;
  }

  lemma EagerStep(r: iset<State>, s: State, ch: nat, e: Event, t: State)
    requires Closed(r) && Eagerly(s, ch) in r && Inv(s) && Logged(s) && ch in Members(s) && ch < |s.chans|
    requires s.panic.None? && Step(s, e) == Some(t) && Subscribed(t, ch)
    ensures Eagerly(t, ch) in r
  {
    match e
    case Mutate => EagerOther(s, ch, e, t);
    case Build => EagerOther(s, ch, e, t);
    case Close => EagerOther(s, ch, e, t);
    case StartBroadcast(state) => EagerStart(s, ch, state, t);
    case Subscribe => EagerSubscribe(s, ch, t);
    case Unsubscribe(other) =>
      if other != ch {
        EagerUnsubscribe(s, ch, other, t);
      }
    case HolderStep(pick) => EagerHolder(r, s, ch, pick, t);
    case Receive(other) =>
      if other == ch {
        EagerOwnReceive(s, ch, t);
      } else {
        EagerReceive(s, ch, other, t);
      }
  }

  lemma MembersComeByOne(s: State, e: Event, t: State, ch: nat)
    requires Step(s, e) == Some(t) && Subscribed(t, ch)
    ensures Subscribed(s, ch)
    ensures ch >= |s.chans| && ch < |t.chans| ==> e.Subscribe? && ch == |s.chans|
  {
  }

  // Whatever a run sends, the reader of any one channel could have taken
  // all of it.
  lemma {:induction false} EagerReader(r: iset<State>, events: seq<Event>, ch: nat)
    requires Closed(r) && Run(Step, INIT, events).Some? && Subscribed(Run(Step, INIT, events).value, ch)
    ensures Eagerly(Run(Step, INIT, events).value, ch) in r
    decreases |events|
  {
    if events != [] {
      var n := |events| - 1;
      var s, t := Run(Step, INIT, events[..n]).value, Run(Step, INIT, events).value;
      MembersComeByOne(s, events[n], t, ch);
      EagerReader(r, events[..n], ch);
      Always(events[..n]);
      LoggedAlways(events[..n]);
      if ch < |s.chans| {
        EagerStep(r, s, ch, events[n], t);
      } else if ch < |t.chans| {
        EagerBorn(s, ch, t);
      }
    }
  }

  // A run with the same broadcasts, and the same subscriber primed at the
  // same point of them.
  predicate SameSends(s: State, t: State, ch: nat) {
    && ch < |s.chans| && ch < |t.chans| && t.log == s.log
    && t.chans[ch].first == s.chans[ch].first && t.chans[ch].prime == s.chans[ch].prime
  }

  // However a subscriber's reader is interleaved with the same sends, it
  // sees the engine's states in order - exactly when its priming and the
  // broadcasts since were started in the order of the states they describe.
  lemma StatesInOrderExactly(events: seq<Event>, ch: nat)
    requires Run(Step, INIT, events).Some?
    requires var s := Run(Step, INIT, events).value; s.panic.None? && s.lock.None? && ch in Members(s)
    ensures var s := Run(Step, INIT, events).value;
            && ch < |s.chans|
            && ((forall t | Reaches(t) && SameSends(s, t, ch) :: InOrder(States(t.chans[ch].received))) <==>
                InOrder(SentTo(s, ch)))
  {
    Always(events);
    var s := Run(Step, INIT, events).value;
    if InOrder(SentTo(s, ch)) {
      forall t | Reaches(t) && SameSends(s, t, ch)
        ensures InOrder(States(t.chans[ch].received))
      {
        var other :| Run(Step, INIT, other) == Some(t);
        Always(other);
        LoggedAlways(other);
        assert SentTo(t, ch) == SentTo(s, ch);
        ReaderInOrder(t, ch);
      }
    } else {
      var r := Reachable();
      EagerReader(r, events, ch);
      var t := Eagerly(s, ch);
      assert Reaches(t) && SameSends(s, t, ch);
      assert States(t.chans[ch].received) == SentTo(s, ch);
    }
  }

  // ---- the rule for senders ----

  // Nothing sent, built or primed is newer than the engine's state.
  ghost predicate NoneNewer(s: State) {
    && (forall v | v in s.built :: v <= s.state)
    && (forall k | 0 <= k < |s.log| :: s.log[k] <= s.state)
    && (forall ch | 0 <= ch < |s.chans| :: s.chans[ch].prime <= s.state)
  }

  // What a sender can look at before it sends: the newest state that any
  // broadcast or priming has described.
  ghost predicate NewestSoFar(s: State, state: nat) {
    && (forall k | 0 <= k < |s.log| :: s.log[k] <= state)
    && (forall ch | 0 <= ch < |s.chans| :: s.chans[ch].prime <= state)
  }

  // Every broadcast of the run described a state at least as new as any
  // before it.
  ghost predicate SentInOrder(events: seq<Event>)
    requires Run(Step, INIT, events).Some?
    decreases |events|
  {
    events == [] ||
    (var n := |events| - 1;
     SentInOrder(events[..n])
     && (events[n].StartBroadcast? ==> NewestSoFar(Run(Step, INIT, events[..n]).value, events[n].state)))
  }

  ghost predicate AllInOrder(s: State) {
    InOrder(s.log) && forall ch | 0 <= ch < |s.chans| :: InOrder(SentTo(s, ch))
  }

  lemma HolderSendsNothing(s: State, pick: nat, t: State)
    requires s.lock.Some? && HolderNext(s, s.lock.value, pick) == Some(t)
    ensures t.log == s.log && |t.chans| == |s.chans| && t.state == s.state && t.built == s.built
    ensures forall ch | 0 <= ch < |s.chans| ::
              t.chans[ch].first == s.chans[ch].first && t.chans[ch].prime == s.chans[ch].prime
  {
    match s.lock.value
    case Sending(ev, todo) =>
    case Trying(ev, todo, ch) =>
    case Draining(ev, todo, ch) =>
    case Retrying(ev, todo, ch) =>
    case Priming(ch) =>
    case Closing(todo) =>
  }

  // Only a broadcast and a subscription send anything new.
  lemma OthersSendNothing(s: State, e: Event, t: State)
    requires Step(s, e) == Some(t) && !e.StartBroadcast? && !e.Subscribe?
    ensures t.log == s.log && |t.chans| == |s.chans| && t.state >= s.state && t.built <= s.built + {s.state}
    ensures forall ch | 0 <= ch < |s.chans| ::
              t.chans[ch].first == s.chans[ch].first && t.chans[ch].prime == s.chans[ch].prime
  {
    if e.HolderStep? {
      HolderSendsNothing(s, e.ch, t);
    }
  }

  lemma OthersKeepOrder(s: State, e: Event, t: State)
    requires Step(s, e) == Some(t) && !e.StartBroadcast? && !e.Subscribe? && AllInOrder(s) && NoneNewer(s)
    ensures AllInOrder(t) && NoneNewer(t)
  {
    OthersSendNothing(s, e, t);
    forall ch | 0 <= ch < |t.chans|
      ensures InOrder(SentTo(t, ch))
    {
      assert SentTo(t, ch) == SentTo(s, ch);
    }
  }

  lemma SubscribeKeepsOrder(s: State, t: State)
    requires Step(s, Subscribe) == Some(t) && AllInOrder(s) && NoneNewer(s) && Logged(s)
    ensures AllInOrder(t) && NoneNewer(t)
  {
    forall ch | 0 <= ch < |t.chans|
      ensures InOrder(SentTo(t, ch))
    {
      if ch < |s.chans| {
        assert SentTo(t, ch) == SentTo(s, ch);
      }
    }
  }

  lemma BroadcastKeepsOrder(s: State, state: nat, t: State)
    requires Step(s, StartBroadcast(state)) == Some(t) && AllInOrder(s) && NoneNewer(s) && Logged(s)
    requires NewestSoFar(s, state)
    ensures AllInOrder(t) && NoneNewer(t)
  {
    forall ch | 0 <= ch < |t.chans|
      ensures InOrder(SentTo(t, ch))
    {
      assert SentTo(t, ch) == SentTo(s, ch) + [state];
      assert forall k | 0 <= k < |SentTo(s, ch)| :: SentTo(s, ch)[k] <= state;
    }
  }

  // A sender that never describes a state older than one already sent keeps
  // every reader, of every run, in order.
  lemma {:induction false} OrderedSendersOrderReaders(events: seq<Event>)
    requires Run(Step, INIT, events).Some? && SentInOrder(events)
    ensures var s := Run(Step, INIT, events).value;
            && AllInOrder(s) && NoneNewer(s)
            && forall ch | 0 <= ch < |s.chans| :: InOrder(States(s.chans[ch].received))
    decreases |events|
  {
    var t := Run(Step, INIT, events).value;
    if events != [] {
      var n := |events| - 1;
      var s := Run(Step, INIT, events[..n]).value;
      OrderedSendersOrderReaders(events[..n]);
      LoggedAlways(events[..n]);
      match events[n]
      case StartBroadcast(state) => BroadcastKeepsOrder(s, state, t);
      case Subscribe => SubscribeKeepsOrder(s, t);
      case _ => OthersKeepOrder(s, events[n], t);
    }
    Always(events);
    LoggedAlways(events);
    forall ch | 0 <= ch < |t.chans|
      ensures InOrder(States(t.chans[ch].received))
    {
      ReaderInOrder(t, ch);
    }
  }

  // And one that describes an older state than a subscriber has been sent
  // puts that subscriber out of order, and no other.
  lemma OlderBroadcastBreaksOrder(events: seq<Event>, state: nat, ch: nat)
    requires Run(Step, INIT, events).Some?
    requires var s := Run(Step, INIT, events).value;
             ch < |s.chans| && InOrder(SentTo(s, ch)) && Step(s, StartBroadcast(state)).Some?
    ensures var s := Run(Step, INIT, events).value;
            InOrder(SentTo(Step(s, StartBroadcast(state)).value, ch)) <==> state >= SentTo(s, ch)[|SentTo(s, ch)| - 1]
  {
    LoggedAlways(events);
    var s := Run(Step, INIT, events).value;
    var t := Step(s, StartBroadcast(state)).value;
    assert ChanLogged(s.chans[ch], s.log);
    assert SentTo(t, ch) == SentTo(s, ch) + [state];
    var n := |SentTo(s, ch)|;
    assert SentTo(t, ch)[n - 1] == SentTo(s, ch)[n - 1] && SentTo(t, ch)[n] == state;
    assert forall k | 0 <= k < n :: SentTo(s, ch)[k] <= SentTo(s, ch)[n - 1];
  }

  ghost predicate Reaches(s: State) {
    exists events :: Run(Step, INIT, events) == Some(s)
  }

  ghost predicate Closed(r: iset<State>) {
    INIT in r && forall s, e {:trigger Step(s, e)} :: s in r && Step(s, e).Some? ==> Step(s, e).value in r
  }

  lemma Reachable() returns (r: iset<State>)
    ensures Closed(r)
    ensures forall s {:trigger Reaches(s)} :: s in r ==> Reaches(s)
  {
    r := iset s | Reaches(s);
    assert Run(Step, INIT, []) == Some(INIT);
    forall s, e | s in r && Step(s, e).Some?
      ensures Step(s, e).value in r
    {
      var events :| Run(Step, INIT, events) == Some(s);
      RunSnoc(Step, INIT, events, e);
    }
  }

  // One subscriber, nobody at work.
  predicate Quiet(s: State) {
    s.lock.None? && s.panic.None? && s.subs == Some({0}) && |s.chans| == 1 && s.chans[0].open
  }

  // One whole broadcast to it.
  lemma BroadcastRuns(r: iset<State>, s: State, state: nat) returns (t: State)
    requires Closed(r) && s in r && Quiet(s) && state in s.built
    ensures t in r && Quiet(t) && t.state == s.state && t.built == s.built
    ensures t.chans[0] == s.chans[0].(slot := Some(Ev(|s.log| + 1, state)))
  {
    var a := Step(s, StartBroadcast(state)).value;
    var b := Step(a, HolderStep(0)).value;
    assert {0} - {0} == {};
    var c := Step(b, HolderStep(0)).value;
    if s.chans[0].slot.Some? {
      c := Step(c, HolderStep(0)).value;
      c := Step(c, HolderStep(0)).value;
    }
    t := Step(c, HolderStep(0)).value;
  }

  // A tick that builds its event early and sends it late leaves a
  // subscriber that had the newer state with the older one.
  lemma OlderStateLast()
    ensures exists s :: Reaches(s) && Quiet(s) && |s.chans[0].received| == 1 && s.chans[0].slot.Some?
                     && s.chans[0].received[0].state == 1 && s.chans[0].slot.value.state == 0 && s.state == 1
  {
    var r := Reachable();
    var a := SubscribesAndBuilds(r);
    var b := BroadcastRuns(r, a, 1);
    var c := Step(b, Receive(0)).value;
    var d := BroadcastRuns(r, c, 0);
    assert Reaches(d);
  }

  lemma SubscribesAndBuilds(r: iset<State>) returns (t: State)
    requires Closed(r)
    ensures t in r && Quiet(t) && t.state == 1 && 0 in t.built && 1 in t.built && t.chans[0].received == []
  {
    var a := Step(INIT, Subscribe).value;
    assert a.subs.value == {0};
    var b := Step(a, HolderStep(0)).value;
    var c := Step(b, Build).value;
    var d := Step(c, Mutate).value;
    t := Step(d, Build).value;
  }
}
