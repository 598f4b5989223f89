// Switch settings that travel between threads (internal/engine/snapshot.go,
// ops.go, engine.go): what the switches should be is read under the engine
// lock, with the instance it is for, and turned after the lock is dropped -
// the download switch by one library call and the upload switch by another,
// with no lock held across the two.
module FlowThreads {
  import opened Runs
  import Flow

  //  overDown, overUp   the rate limit's verdict on each direction
  datatype Control = Control(paused: bool, guarded: bool, hold: bool, overDown: bool, overUp: bool)
  datatype Switches = Switches(down: bool, up: bool)

  // How far the thread that took a decision has come with turning it.
  datatype Pc = Taken | HalfTurned | Turned

  // A decision: for which instance, and from which of the states the torrent
  // has been in. Decisions are numbered as they are taken.
  datatype Decision = Decision(inst: nat, at: nat, pc: Pc)

  // A switch of an instance, and which decision turned it last.
  datatype Source = Source(down: Option<nat>, up: Option<nat>)

  //  hist     every state the torrent's record has had; the last is the present
  //  inst     the instance tr.t points at
  //  insts    the switches of each instance
  //  applied  the decisions that turned each instance's switches last
  //  decided  the newest decision taken for each instance
  datatype State = State(
    hist: seq<Control>, inst: nat, insts: seq<Switches>, applied: seq<Source>, decided: seq<Option<nat>>,
    decisions: seq<Decision>)

  datatype Event = Change(c: Control) | Decide | Turn(id: nat) | Replace

  datatype Dir = Download | Upload

  function Get(w: Switches, dir: Dir): bool {
    if dir.Download? then w.down else w.up
  }

  function By(a: Source, dir: Dir): Option<nat> {
    if dir.Download? then a.down else a.up
  }

  // The library allows a new instance both directions.
  const BOTH := Switches(true, true)

  function Wanted(c: Control): Switches {
    if c.paused || c.guarded || c.hold then Switches(false, false) else Switches(!c.overDown, !c.overUp)
  }

  // What a decision is read from, of a torrent and the guards.
  function ControlOf(t: Flow.Torrent, g: Flow.Guards): Control {
    Control(t.paused, g.vpnBlocked || g.lowDisk, t.hold, t.downLimit > 0 && t.downRate > t.downLimit as real,
            t.upLimit > 0 && t.upRate > t.upLimit as real)
  }

  // It is the decision of dataFlow.
  lemma WantedIsDataFlow(t: Flow.Torrent, g: Flow.Guards)
    ensures Wanted(ControlOf(t, g)) == Switches(Flow.DataFlow(t, g).down, Flow.DataFlow(t, g).up)
  {
  }

  function Init(c: Control): State {
    State([c], 0, [BOTH], [Source(None, None)], [None], [])
  }

  // The next call of the thread that took decision id.
  function TurnNext(s: State, id: nat): Option<State>
    requires id < |s.decisions|
  {
    var d := s.decisions[id];
    if d.inst >= |s.insts| || d.inst >= |s.applied| || d.at >= |s.hist| then None
    else
      var to := Wanted(s.hist[d.at]);
      match d.pc
      case Taken => Some(s.(insts := s.insts[d.inst := s.insts[d.inst].(down := to.down)],
                            applied := s.applied[d.inst := s.applied[d.inst].(down := Some(id))],
                            decisions := s.decisions[id := d.(pc := HalfTurned)]))
      case HalfTurned => Some(s.(insts := s.insts[d.inst := s.insts[d.inst].(up := to.up)],
                                 applied := s.applied[d.inst := s.applied[d.inst].(up := Some(id))],
                                 decisions := s.decisions[id := d.(pc := Turned)]))
      case Turned => None
  }

  function Step(s: State, e: Event): Option<State> {
    match e
    case Change(c) => Some(s.(hist := s.hist + [c]))
    case Decide =>
      if |s.hist| == 0 || s.inst >= |s.decided| then None
      else Some(s.(decided := s.decided[s.inst := Some(|s.decisions|)],
                   decisions := s.decisions + [Decision(s.inst, |s.hist| - 1, Taken)]))
    case Turn(id) => if id < |s.decisions| then TurnNext(s, id) else None
    case Replace => Some(s.(inst := |s.insts|, insts := s.insts + [BOTH], applied := s.applied + [Source(None, None)],
                           decided := s.decided + [None]))
  }

  // Nobody is between taking a decision and having turned both switches.
  predicate AtRest(s: State) {
    forall id | 0 <= id < |s.decisions| :: s.decisions[id].pc.Turned?
  }

  // What switch a call of this decision's thread turns next.
  function Turns(pc: Pc): Option<Dir> {
    match pc
    case Taken => Some(Download)
    case HalfTurned => Some(Upload)
    case Turned => None
  }

  // The decision's thread has turned this switch.
  predicate HasTurned(pc: Pc, dir: Dir) {
    pc.Turned? || (pc.HalfTurned? && dir.Download?)
  }

  // ------------------------------------------------------------------
  // Each switch on its own
  // ------------------------------------------------------------------

  // A switch is the library's own, or as some decision for this instance
  // wanted it whose thread has turned it.
  ghost predicate FromHistory(s: State, i: nat, dir: Dir)
    requires i < |s.insts| == |s.applied|
  {
    match By(s.applied[i], dir)
    case None => Get(s.insts[i], dir)
    case Some(id) =>
      && id < |s.decisions| && s.decisions[id].inst == i && HasTurned(s.decisions[id].pc, dir)
      && s.decisions[id].at < |s.hist| && Get(s.insts[i], dir) == Get(Wanted(s.hist[s.decisions[id].at]), dir)
  }

  ghost predicate Inv(s: State) {
    && |s.hist| > 0 && s.inst < |s.insts| == |s.applied| == |s.decided|
    && (forall id | 0 <= id < |s.decisions| :: s.decisions[id].inst < |s.insts| && s.decisions[id].at < |s.hist|)
    && (forall i, dir | 0 <= i < |s.insts| :: FromHistory(s, i, dir))
  }

  lemma StepKeeps(s: State, e: Event)
    requires Inv(s) && Step(s, e).Some?
    ensures Inv(Step(s, e).value)
  {
    var t := Step(s, e).value;
    forall i, dir | 0 <= i < |t.insts|
      ensures FromHistory(t, i, dir)
    {
      if i < |s.insts| {
        assert FromHistory(s, i, dir);
      }
    }
  }

  lemma Always(c: Control, events: seq<Event>)
    requires Run(Step, Init(c), events).Some?
    ensures Inv(Run(Step, Init(c), events).value)
  {
    forall s, e | Inv(s) && Step(s, e).Some?
      ensures Inv(Step(s, e).value)
    {
      StepKeeps(s, e);
    }
    InvariantOverRuns(Inv, Step, Init(c), events);
  }

  // This step turns that switch of instance i.
  predicate TurnsSwitch(s: State, e: Event, i: nat, dir: Dir) {
    e.Turn? && e.id < |s.decisions| && s.decisions[e.id].inst == i && Turns(s.decisions[e.id].pc) == Some(dir)
  }

  // The run has a step that does.
  ghost predicate TurnedIn(c: Control, events: seq<Event>, i: nat, dir: Dir)
    decreases |events|
  {
    events != [] &&
    var n := |events| - 1;
    TurnedIn(c, events[..n], i, dir)
    || (Run(Step, Init(c), events[..n]).Some? && TurnsSwitch(Run(Step, Init(c), events[..n]).value, events[n], i, dir))
  }

  // Every setting of a switch is what the torrent wanted of it in some
  // earlier state, whatever threads decided and turned in whatever order; a
  // switch is the library's own only while nobody has turned it.
  lemma SwitchesComeFromHistory(c: Control, events: seq<Event>, i: nat, dir: Dir)
    requires Run(Step, Init(c), events).Some? && i < |Run(Step, Init(c), events).value.insts|
    ensures var s := Run(Step, Init(c), events).value;
            && i < |s.applied|
            && (By(s.applied[i], dir).None? <==> !TurnedIn(c, events, i, dir))
            && match By(s.applied[i], dir)
               case None => Get(s.insts[i], dir)
               case Some(id) => id < |s.decisions| && s.decisions[id].at < |s.hist|
                                && Get(s.insts[i], dir) == Get(Wanted(s.hist[s.decisions[id].at]), dir)
  {
    Always(c, events);
    assert FromHistory(Run(Step, Init(c), events).value, i, dir);
    TurnedExactly(c, events, i, dir);
  }

  lemma {:induction false} TurnedExactly(c: Control, events: seq<Event>, i: nat, dir: Dir)
    requires Run(Step, Init(c), events).Some?
    ensures var s := Run(Step, Init(c), events).value;
            && (i < |s.applied| ==> (By(s.applied[i], dir).None? <==> !TurnedIn(c, events, i, dir)))
            && (i >= |s.applied| ==> !TurnedIn(c, events, i, dir))
    decreases |events|
  {
    if events != [] {
      var n := |events| - 1;
      TurnedExactly(c, events[..n], i, dir);
      Always(c, events[..n]);
      TurnedNext(Run(Step, Init(c), events[..n]).value, events[n], i, dir);
    }
  }

  lemma TurnedNext(s: State, e: Event, i: nat, dir: Dir)
    requires Inv(s) && Step(s, e).Some?
    ensures var t := Step(s, e).value;
            && |s.applied| <= |t.applied| && (TurnsSwitch(s, e, i, dir) ==> i < |s.applied|)
            && (i < |s.applied| ==>
                  By(t.applied[i], dir) == if TurnsSwitch(s, e, i, dir) then Some(e.id) else By(s.applied[i], dir))
            && (|s.applied| <= i < |t.applied| ==> By(t.applied[i], dir).None?)
  {
  }

  // A switch of the present instance is what the torrent wants now exactly
  // when the decision that turned it last was read from a state that wanted
  // the same of it - or, when nobody turned it, when it is wanted on.
  lemma CurrentExactly(c: Control, events: seq<Event>, dir: Dir)
    requires Run(Step, Init(c), events).Some?
    ensures var s := Run(Step, Init(c), events).value;
            && |s.hist| > 0 && s.inst < |s.insts| == |s.applied|
            && var wanted := Get(Wanted(s.hist[|s.hist| - 1]), dir);
               Get(s.insts[s.inst], dir) == wanted <==>
               match By(s.applied[s.inst], dir)
               case None => wanted
               case Some(id) => id < |s.decisions| && s.decisions[id].at < |s.hist|
                                && Get(Wanted(s.hist[s.decisions[id].at]), dir) == wanted
  {
    Always(c, events);
    assert FromHistory(Run(Step, Init(c), events).value, Run(Step, Init(c), events).value.inst, dir);
  }

  // ------------------------------------------------------------------
  // The two switches together
  // ------------------------------------------------------------------

  // The call made by this step: which decision's, for which instance, and
  // which switch.
  datatype Call = Call(id: nat, inst: nat, dir: Dir)

  function CallOf(s: State, e: Event): Option<Call> {
    if e.Turn? && e.id < |s.decisions| && Turns(s.decisions[e.id].pc).Some?
    then Some(Call(e.id, s.decisions[e.id].inst, Turns(s.decisions[e.id].pc).value))
    else None
  }

  ghost function CallAt(c: Control, events: seq<Event>, n: nat): Option<Call>
    requires n < |events|
  {
    match Run(Step, Init(c), events[..n])
    case None => None
    case Some(s) => CallOf(s, events[n])
  }

  // Somebody turned this switch of instance i after step m and before step n.
  ghost predicate TurnedBetween(c: Control, events: seq<Event>, m: nat, n: nat, i: nat, dir: Dir) {
    exists k: nat :: m < k < n && k < |events| && TurnedAt(c, events, k, i, dir)
  }

  ghost predicate TurnedAt(c: Control, events: seq<Event>, k: nat, i: nat, dir: Dir)
    requires k < |events|
  {
    CallAt(c, events, k).Some? && CallAt(c, events, k).value.inst == i && CallAt(c, events, k).value.dir == dir
  }

  lemma CallInPrefix(c: Control, events: seq<Event>, n: nat, k: nat)
    requires k < n <= |events|
    ensures CallAt(c, events[..n], k) == CallAt(c, events, k)
  {
    assert events[..n][..k] == events[..k];
  }

  // The decision a switch was turned by last is that of the last such call.
  lemma {:induction false} LastCall(c: Control, events: seq<Event>, i: nat, dir: Dir) returns (k: nat)
    requires Run(Step, Init(c), events).Some? && i < |Run(Step, Init(c), events).value.applied|
    requires By(Run(Step, Init(c), events).value.applied[i], dir).Some?
    ensures k < |events| && !TurnedBetween(c, events, k, |events|, i, dir)
    ensures CallAt(c, events, k) == Some(Call(By(Run(Step, Init(c), events).value.applied[i], dir).value, i, dir))
    decreases |events|
  {
    var n := |events| - 1;
    var s := Run(Step, Init(c), events[..n]).value;
    Always(c, events[..n]);
    TurnedNext(s, events[n], i, dir);
    if TurnsSwitch(s, events[n], i, dir) {
      k := n;
    } else {
      k := LastCall(c, events[..n], i, dir);
      CallInPrefix(c, events, n, k);
      NoneBetween(c, events, k, i, dir);
    }
  }

  lemma NoneBetween(c: Control, events: seq<Event>, k: nat, i: nat, dir: Dir)
    requires events != [] && !TurnedBetween(c, events[..|events| - 1], k, |events| - 1, i, dir)
    requires !TurnedAt(c, events, |events| - 1, i, dir)
    ensures !TurnedBetween(c, events, k, |events|, i, dir)
  {
    var n := |events| - 1;
    forall j: nat | k < j < |events|
      ensures !TurnedAt(c, events, j, i, dir)
    {
      if j < n {
        CallInPrefix(c, events, n, j);
        assert TurnedAt(c, events[..n], j, i, dir) <==> TurnedAt(c, events, j, i, dir);
      }
    }
  }

  // After its call a decision's thread has turned that switch for good.
  lemma {:induction false} TurnedStays(c: Control, events: seq<Event>, k: nat)
    requires Run(Step, Init(c), events).Some? && k < |events| && CallAt(c, events, k).Some?
    ensures var s := Run(Step, Init(c), events).value;
            var call := CallAt(c, events, k).value;
            && call.id < |s.decisions| && s.decisions[call.id].inst == call.inst
            && HasTurned(s.decisions[call.id].pc, call.dir)
    decreases |events|
  {
    var n := |events| - 1;
    if k < n {
      CallInPrefix(c, events, n, k);
      TurnedStays(c, events[..n], k);
    }
  }

  // So no decision turns a switch twice.
  lemma CalledOnce(c: Control, events: seq<Event>, j: nat, k: nat)
    requires Run(Step, Init(c), events).Some? && j < |events| && k < |events|
    requires CallAt(c, events, j).Some? && CallAt(c, events, j) == CallAt(c, events, k)
    ensures j == k
  {
    if j < k {
      LaterCallDiffers(c, events, j, k);
    } else if k < j {
      LaterCallDiffers(c, events, k, j);
    }
  }

  lemma LaterCallDiffers(c: Control, events: seq<Event>, j: nat, k: nat)
    requires Run(Step, Init(c), events).Some? && j < k < |events|
    requires CallAt(c, events, j).Some?
    ensures CallAt(c, events, j) != CallAt(c, events, k)
  {
    if CallAt(c, events, k).Some? {
      CallInPrefix(c, events, k, j);
      TurnedStays(c, events[..k], j);
    }
  }

  // A thread that turned the download switch and is not between its calls
  // has turned the upload switch after it.
  lemma {:induction false} UploadFollows(c: Control, events: seq<Event>, k: nat)
    requires Run(Step, Init(c), events).Some? && k < |events| && CallAt(c, events, k).Some?
    requires var call := CallAt(c, events, k).value;
             && call.dir == Download && call.id < |Run(Step, Init(c), events).value.decisions|
             && !Run(Step, Init(c), events).value.decisions[call.id].pc.HalfTurned?
    ensures TurnedBetween(c, events, k, |events|, CallAt(c, events, k).value.inst, Upload)
    decreases |events|
  {
    var n := |events| - 1;
    var call := CallAt(c, events, k).value;
    if k < n {
      CallInPrefix(c, events, n, k);
      TurnedStays(c, events[..n], k);
      var s := Run(Step, Init(c), events[..n]).value;
      if s.decisions[call.id].pc.HalfTurned? {
        assert TurnedAt(c, events, n, call.inst, Upload);
      } else {
        UploadFollows(c, events[..n], k);
        var j: nat :| k < j < n && TurnedAt(c, events[..n], j, call.inst, Upload);
        CallInPrefix(c, events, n, j);
        assert TurnedAt(c, events, j, call.inst, Upload);
      }
    }
  }

  // The two calls of one decision on instance i, no upload call on it after.
  ghost predicate LastPair(c: Control, events: seq<Event>, i: nat, id: nat, m: nat, n: nat) {
    && m < n < |events| && CallAt(c, events, m) == Some(Call(id, i, Download))
    && CallAt(c, events, n) == Some(Call(id, i, Upload)) && !TurnedBetween(c, events, n, |events|, i, Upload)
  }

  lemma UploadIsLast(c: Control, events: seq<Event>, i: nat, id: nat, m: nat, n: nat)
    requires Run(Step, Init(c), events).Some? && LastPair(c, events, i, id, m, n)
    ensures var s := Run(Step, Init(c), events).value;
            i < |s.applied| && s.applied[i].up == Some(id) && s.applied[i].down.Some?
  {
    var s := Run(Step, Init(c), events).value;
    CalledIsSome(c, events, m);
    CalledIsSome(c, events, n);
    var k := LastCall(c, events, i, Upload);
    assert TurnedAt(c, events, n, i, Upload) && TurnedAt(c, events, k, i, Upload);
  }

  lemma {:induction false} CalledIsSome(c: Control, events: seq<Event>, k: nat)
    requires Run(Step, Init(c), events).Some? && k < |events| && CallAt(c, events, k).Some?
    ensures var s := Run(Step, Init(c), events).value;
            var call := CallAt(c, events, k).value;
            call.inst < |s.applied| && By(s.applied[call.inst], call.dir).Some?
    decreases |events|
  {
    var n := |events| - 1;
    var call := CallAt(c, events, k).value;
    Always(c, events[..n]);
    if k < n {
      CallInPrefix(c, events, n, k);
      CalledIsSome(c, events[..n], k);
    }
    TurnedNext(Run(Step, Init(c), events[..n]).value, events[n], call.inst, call.dir);
  }

  // Over any run, with no thread between its two calls: the pair of switches
  // an instance is left with was turned by one decision - and so is what the
  // torrent wanted in one state - exactly when no thread turned its download
  // switch between the two calls of the decision that turned its upload
  // switch last.
  lemma PairOfOneDecisionExactly(c: Control, events: seq<Event>, i: nat, id: nat, m: nat, n: nat)
    requires Run(Step, Init(c), events).Some? && LastPair(c, events, i, id, m, n)
    requires var s := Run(Step, Init(c), events).value;
             forall k | 0 <= k < |s.decisions| :: !s.decisions[k].pc.HalfTurned?
    ensures var s := Run(Step, Init(c), events).value;
            && i < |s.insts| == |s.applied|
            && (s.applied[i].down == s.applied[i].up <==> !TurnedBetween(c, events, m, n, i, Download))
            && (!TurnedBetween(c, events, m, n, i, Download) ==>
                  id < |s.decisions| && s.decisions[id].at < |s.hist|
                  && s.insts[i] == Wanted(s.hist[s.decisions[id].at]))
  {
    Always(c, events);
    UploadIsLast(c, events, i, id, m, n);
    var s := Run(Step, Init(c), events).value;
    assert FromHistory(s, i, Download) && FromHistory(s, i, Upload);
    var k := LastCall(c, events, i, Download);
    assert TurnedAt(c, events, m, i, Download) && TurnedAt(c, events, k, i, Download);
    if s.applied[i].down == Some(id) {
      CalledOnce(c, events, m, k);
    } else {
      TurnedStays(c, events, k);
      UploadFollows(c, events, k);
      var j: nat :| k < j < |events| && TurnedAt(c, events, j, i, Upload);
    }
  }

  // ------------------------------------------------------------------
  // Decisions that do not overtake each other
  // ------------------------------------------------------------------

  // A call is late when a newer decision has turned the same switch before
  // it: what the thread that makes it could check.
  predicate IsLate(s: State, e: Event) {
    && CallOf(s, e).Some? && CallOf(s, e).value.inst < |s.applied|
    && var call := CallOf(s, e).value;
       By(s.applied[call.inst], call.dir).Some? && call.id < By(s.applied[call.inst], call.dir).value
  }

  ghost predicate NoneLate(c: Control, events: seq<Event>)
    decreases |events|
  {
    events == [] ||
    (var n := |events| - 1;
     NoneLate(c, events[..n]) && Run(Step, Init(c), events[..n]).Some?
     && !IsLate(Run(Step, Init(c), events[..n]).value, events[n]))
  }

  // The newest decision for each instance has turned the switch last, or has
  // not turned it yet.
  ghost predicate NewestFor(s: State, i: nat, dir: Dir)
    requires i < |s.applied| == |s.decided|
  {
    match s.decided[i]
    case None => By(s.applied[i], dir).None?
    case Some(newest) =>
      && newest < |s.decisions| && s.decisions[newest].inst == i
      && (By(s.applied[i], dir).Some? ==> By(s.applied[i], dir).value <= newest)
      && (By(s.applied[i], dir) == Some(newest) || !HasTurned(s.decisions[newest].pc, dir))
  }

  ghost predicate NewestKept(s: State) {
    && Inv(s)
    && (forall i, dir | 0 <= i < |s.insts| :: NewestFor(s, i, dir))
    && (forall id | 0 <= id < |s.decisions| ::
          s.decided[s.decisions[id].inst].Some? && id <= s.decided[s.decisions[id].inst].value)
  }

  lemma StepKeepsNewest(s: State, e: Event)
    requires NewestKept(s) && Step(s, e).Some? && !IsLate(s, e)
    ensures NewestKept(Step(s, e).value)
  {
    StepKeeps(s, e);
    var t := Step(s, e).value;
    forall i, dir | 0 <= i < |t.insts|
      ensures NewestFor(t, i, dir)
    {
      if i < |s.insts| {
        assert NewestFor(s, i, dir);
      }
    }
  }

  // Over any run of threads that decide and turn as they like: if no call
  // came after a newer decision's call on the same switch, then at rest both
  // switches of each instance are as the newest decision for it has them.
  lemma {:induction false} NoneLateIsNewest(c: Control, events: seq<Event>)
    requires Run(Step, Init(c), events).Some? && NoneLate(c, events)
    ensures var s := Run(Step, Init(c), events).value;
            && NewestKept(s)
            && (AtRest(s) ==> forall i | 0 <= i < |s.insts| ::
                  s.applied[i].down == s.applied[i].up == s.decided[i])
    decreases |events|
  {
    if events != [] {
      var n := |events| - 1;
      NoneLateIsNewest(c, events[..n]);
      StepKeepsNewest(Run(Step, Init(c), events[..n]).value, events[n]);
    }
    NewestAtRest(Run(Step, Init(c), events).value);
  }

  lemma NewestAtRest(s: State)
    requires NewestKept(s)
    ensures AtRest(s) ==> forall i | 0 <= i < |s.insts| :: s.applied[i].down == s.applied[i].up == s.decided[i]
  {
    forall i | AtRest(s) && 0 <= i < |s.insts|
      ensures s.applied[i].down == s.applied[i].up == s.decided[i]
    {
      assert NewestFor(s, i, Download) && NewestFor(s, i, Upload);
    }
  }

  // And a late one does harm: it leaves its switch as an older decision than
  // the newest has it, whatever else is going on.
  lemma LateIsNotNewest(c: Control, events: seq<Event>, id: nat)
    requires Run(Step, Init(c), events).Some? && NoneLate(c, events)
    requires IsLate(Run(Step, Init(c), events).value, Turn(id))
    ensures var s := Run(Step, Init(c), events).value;
            var call := CallOf(s, Turn(id)).value;
            && Step(s, Turn(id)).Some?
            && var t := Step(s, Turn(id)).value;
               && call.inst < |t.applied| == |t.decided| && By(t.applied[call.inst], call.dir) == Some(id)
               && t.decided[call.inst].Some? && id < t.decided[call.inst].value
  {
    NoneLateIsNewest(c, events);
    var s := Run(Step, Init(c), events).value;
    var call := CallOf(s, Turn(id)).value;
    assert NewestFor(s, call.inst, call.dir);
  }

  // ------------------------------------------------------------------
  // Decisions turned in the order they were taken
  // ------------------------------------------------------------------

  // Each thread turns both switches before a newer decision's thread does.
  function FifoStep(s: State, e: Event): Option<State> {
    if e.Turn? && exists id :: 0 <= id < e.id && id < |s.decisions| && !s.decisions[id].pc.Turned? then None
    else Step(s, e)
  }

  // Nothing has been turned by a decision newer than one not wholly turned.
  ghost predicate InTurn(s: State) {
    && Inv(s)
    && (forall id, newer | 0 <= id < newer < |s.decisions| ::
          s.decisions[id].pc.Turned? || s.decisions[newer].pc.Taken?)
  }

  lemma FifoStepKeeps(s: State, e: Event)
    requires InTurn(s) && FifoStep(s, e).Some?
    ensures InTurn(FifoStep(s, e).value) && !IsLate(s, e)
  {
    StepKeeps(s, e);
    if CallOf(s, e).Some? {
      assert FromHistory(s, CallOf(s, e).value.inst, CallOf(s, e).value.dir);
    }
  }

  lemma {:induction false} FifoIsNeverLate(c: Control, events: seq<Event>)
    requires Run(FifoStep, Init(c), events).Some?
    ensures Run(Step, Init(c), events) == Run(FifoStep, Init(c), events)
    ensures NoneLate(c, events) && InTurn(Run(FifoStep, Init(c), events).value)
    decreases |events|
  {
    if events != [] {
      var n := |events| - 1;
      FifoIsNeverLate(c, events[..n]);
      FifoStepKeeps(Run(FifoStep, Init(c), events[..n]).value, events[n]);
    }
  }

  // Had each thread turned its two switches before the next decision was
  // turned, nothing would ever be stale: at rest both switches of each
  // instance are as the newest decision for it, read from one state, has
  // them.
  lemma InOrderIsNewest(c: Control, events: seq<Event>, i: nat)
    requires Run(FifoStep, Init(c), events).Some?
    requires var s := Run(FifoStep, Init(c), events).value; AtRest(s) && i < |s.insts|
    ensures var s := Run(FifoStep, Init(c), events).value;
            && |s.decided| == |s.insts|
            && match s.decided[i]
               case None => s.insts[i] == BOTH
               case Some(id) => id < |s.decisions| && s.decisions[id].at < |s.hist|
                                && s.insts[i] == Wanted(s.hist[s.decisions[id].at])
  {
    FifoIsNeverLate(c, events);
    NoneLateIsNewest(c, events);
    var s := Run(FifoStep, Init(c), events).value;
    assert FromHistory(s, i, Download) && FromHistory(s, i, Upload);
  }

  // ------------------------------------------------------------------
  // Repair, and the ways to be wrong until it comes
  // ------------------------------------------------------------------

  // A tick alone - decide, then turn both switches - always ends with the
  // switches the torrent wants, whatever was stale before.
  lemma TickRepairs(c: Control, events: seq<Event>)
    requires Run(Step, Init(c), events).Some?
    ensures var id := |Run(Step, Init(c), events).value.decisions|;
            var r := Run(Step, Init(c), events + [Decide] + [Turn(id)] + [Turn(id)]);
            && r.Some? && |r.value.hist| > 0 && r.value.inst < |r.value.insts|
            && r.value.insts[r.value.inst] == Wanted(r.value.hist[|r.value.hist| - 1])
  {
    Always(c, events);
    var s := Run(Step, Init(c), events).value;
    var id := |s.decisions|;
    RunSnoc(Step, Init(c), events, Decide);
    var a := Decided(s);
    RunSnoc(Step, Init(c), events + [Decide], Turn(id));
    RunSnoc(Step, Init(c), events + [Decide] + [Turn(id)], Turn(id));
  }

  lemma Decided(s: State) returns (a: State)
    requires Inv(s)
    ensures Step(s, Decide) == Some(a) && Step(a, Turn(|s.decisions|)).Some?
    ensures var r := Step(Step(a, Turn(|s.decisions|)).value, Turn(|s.decisions|));
            && r.Some? && r.value.hist == s.hist && r.value.inst == s.inst < |r.value.insts|
            && r.value.insts[s.inst] == Wanted(s.hist[|s.hist| - 1])
  {
    a := Step(s, Decide).value;
  }

  ghost predicate Reaches(c: Control, s: State) {
    exists events :: Run(Step, Init(c), events) == Some(s)
  }

  ghost predicate Closed(r: iset<State>) {
    forall s, e {:trigger Step(s, e)} :: s in r && Step(s, e).Some? ==> Step(s, e).value in r
  }

  lemma Reachable(c: Control) returns (r: iset<State>)
    ensures Closed(r) && Init(c) in r
    ensures forall s {:trigger Reaches(c, s)} :: s in r ==> Reaches(c, s)
  {
    r := iset s | Reaches(c, s);
    assert Run(Step, Init(c), []) == Some(Init(c));
    forall s, e | s in r && Step(s, e).Some?
      ensures Step(s, e).value in r
    {
      var events :| Run(Step, Init(c), events) == Some(s);
      RunSnoc(Step, Init(c), events, e);
    }
  }

  // The tick decides, a pause comes in, and decides too.
  lemma TwoDecisions(c: Control, r: iset<State>) returns (s: State)
    requires Closed(r) && Init(c) in r
    ensures s in r
    ensures s == State([c, c.(paused := true)], 0, [BOTH], [Source(None, None)], [Some(1)],
                       [Decision(0, 0, Taken), Decision(0, 1, Taken)])
  {
    var a := Step(Init(c), Decide).value;
    var b := Step(a, Change(c.(paused := true))).value;
    s := Step(b, Decide).value;
  }

  // A pause whose own decision overtakes the tick's: at rest the torrent is
  // paused and its switches are on.
  lemma StaleDecisionWins(c: Control)
    requires Wanted(c) == BOTH
    ensures exists s :: Reaches(c, s) && AtRest(s) && |s.hist| > 0 && s.hist[|s.hist| - 1].paused
                     && s.inst < |s.insts| && s.insts[s.inst] == BOTH
  {
    var r := Reachable(c);
    var a := TwoDecisions(c, r);
    var b := Step(a, Turn(1)).value;
    var d := Step(b, Turn(1)).value;
    var e := Step(d, Turn(0)).value;
    var f := Step(e, Turn(0)).value;
    assert Reaches(c, f);
  }

  // A pause whose two calls fall between the tick's two: at rest one switch
  // is off and the other on, which the torrent wanted in no state.
  lemma MixedPair(c: Control)
    requires Wanted(c) == BOTH
    ensures exists s :: Reaches(c, s) && AtRest(s) && s.inst < |s.insts| && s.insts[s.inst] == Switches(false, true)
                     && forall k | 0 <= k < |s.hist| :: Wanted(s.hist[k]) != s.insts[s.inst]
  {
    var r := Reachable(c);
    var a := TwoDecisions(c, r);
    var b := Step(a, Turn(0)).value;
    var d := Step(b, Turn(1)).value;
    var e := Step(d, Turn(1)).value;
    var f := Step(e, Turn(0)).value;
    assert Reaches(c, f);
  }

  // A move swaps in an instance the library allows both directions, and
  // applies nothing to it: held or paused as the torrent is, it may move
  // data until the next tick.
  lemma MovedInstanceStartsAllowed(c: Control)
    ensures exists s :: Reaches(c, s) && AtRest(s) && |s.hist| > 0 && s.hist[|s.hist| - 1].hold && s.inst == 1
                     && 1 < |s.insts| && s.insts[0] == Switches(false, false) && s.insts[1] == BOTH
  {
    var r := Reachable(c);
    var a := Step(Init(c), Change(c.(hold := true))).value;
    var b := Step(a, Decide).value;
    var d := Step(b, Turn(0)).value;
    var e := Step(d, Turn(0)).value;
    var f := Step(e, Replace).value;
    assert Reaches(c, f);
  }
}
