// What a move does to the levels of a torrent's files (MoveStorage and
// applyFilePriorities in internal/engine/ops.go): they are read off the old
// instance one by one before the files are moved, and put on the new one
// before it is swapped in. Whoever sets a level meanwhile takes no opMu and
// writes to the instance it has read from the record.
module MoveLevels {
  import opened Runs
  import opened SaveRestore

  //  origin    the levels on the instance the move will drop
  //  captured  the levels read so far, in order
  //  added     the new instance's levels, once it has been added
  //  applied   how many of them have been put back
  datatype State = State(
    origin: seq<LibPriority>, captured: seq<Priority>, added: Option<seq<LibPriority>>, applied: nat, swapped: bool)

  datatype Event = Capture | ReAdd | Apply | Swap | Write(file: nat, level: LibPriority, toAdded: bool)

  function Init(files: seq<LibPriority>): State {
    State(files, [], None, 0, false)
  }

  function Step(s: State, e: Event): Option<State> {
    match e
    case Capture =>
      if |s.captured| < |s.origin| then Some(s.(captured := s.captured + [FromLib(s.origin[|s.captured|])])) else None
    case ReAdd =>
      if |s.captured| == |s.origin| && s.added.None? then Some(s.(added := Some(seq(|s.origin|, _ => LIB_NONE))))
          else None
    case Apply =>
      if s.added.None? || s.applied >= |s.added.value| || s.applied >= |s.captured| then None
      else Some(s.(added := Some(s.added.value[s.applied := ToLib(s.captured[s.applied])]), applied := s.applied + 1))
    case Swap => if s.added.Some? && s.applied == |s.origin| then Some(s.(swapped := true)) else None
    // Only who reads the record after the swap finds the new instance.
    case Write(i, level, toAdded) =>
      if i >= |s.origin| then None
      else if !toAdded then Some(s.(origin := s.origin[i := level]))
      else if s.swapped && s.added.Some? && i < |s.added.value| then Some(s.(added := Some(s.added.value[i := level])))
      else None
  }

  ghost predicate Inv(s: State) {
    && |s.captured| <= |s.origin| && s.applied <= |s.origin| && (s.swapped ==> s.added.Some? && s.applied == |s.origin|)
    && (s.added.Some? ==> |s.added.value| == |s.origin| == |s.captured|) && (s.added.None? ==> s.applied == 0)
    && forall j | 0 <= j < |s.captured| :: s.captured[j] != Low
  }

  // The level file i will have if nobody sets another: the new instance's
  // once it is back there, the one read once it is read.
  function Standing(s: State, i: nat): Priority
    requires i < |s.origin|
  {
    if s.added.Some? && i < s.applied && i < |s.added.value| then FromLib(s.added.value[i])
    else if i < |s.captured| then s.captured[i]
    else FromLib(s.origin[i])
  }

  predicate Stands(s: State, i: nat, level: Priority) {
    i < |s.origin| && Standing(s, i) == level
  }

  lemma StepKeeps(s: State, e: Event)
    requires Inv(s) && Step(s, e).Some?
    ensures Inv(Step(s, e).value) && |Step(s, e).value.origin| == |s.origin|
  {
  }

  lemma StandsStep(s: State, e: Event, i: nat, level: Priority)
    requires Inv(s) && Step(s, e).Some? && Stands(s, i, level) && (e.Write? ==> e.file != i)
    ensures Stands(Step(s, e).value, i, level)
  {
    if e.Apply? {
      PriorityRoundTrip(s.captured[s.applied], LIB_NONE);
    }
  }

  predicate NobodyWrites(events: seq<Event>, i: nat) {
    forall e | e in events && e.Write? :: e.file != i
  }

  lemma {:induction false} StandsRun(s: State, events: seq<Event>, i: nat, level: Priority)
    requires Inv(s) && Stands(s, i, level) && NobodyWrites(events, i) && Run(Step, s, events).Some?
    ensures Inv(Run(Step, s, events).value) && Stands(Run(Step, s, events).value, i, level)
    decreases |events|
  {
    if events != [] {
      var n := |events| - 1;
      StandsRun(s, events[..n], i, level);
      StandsStep(Run(Step, s, events[..n]).value, events[n], i, level);
      StepKeeps(Run(Step, s, events[..n]).value, events[n]);
    }
  }

  lemma Always(files: seq<LibPriority>, events: seq<Event>)
    requires Run(Step, Init(files), events).Some?
    ensures var s := Run(Step, Init(files), events).value; Inv(s) && |s.origin| == |files|
  {
    var inv := s => Inv(s) && |s.origin| == |files|;
    forall s, e | inv(s) && Step(s, e).Some?
      ensures inv(Step(s, e).value)
    {
      StepKeeps(s, e);
    }
    InvariantOverRuns(inv, Step, Init(files), events);
  }

  // A file nobody touches during the move reads the same after it.
  lemma UntouchedLevelKept(files: seq<LibPriority>, events: seq<Event>, i: nat)
    requires i < |files| && NobodyWrites(events, i) && Run(Step, Init(files), events).Some?
    requires Run(Step, Init(files), events).value.swapped
    ensures var s := Run(Step, Init(files), events).value;
            s.added.Some? && i < |s.added.value| && FromLib(s.added.value[i]) == FromLib(files[i])
  {
    StandsRun(Init(files), events, i, FromLib(files[i]));
    Always(files, events);
  }

  // The level last set during a move is the file's level after it exactly
  // when it was set on the new instance, or before the file's level was
  // read, or is the one that stood already. Otherwise that one stays.
  lemma LevelKeptExactly(files: seq<LibPriority>, before: seq<Event>, i: nat, level: LibPriority, toAdded: bool,
                         after: seq<Event>)
    requires Run(Step, Init(files), before + [Write(i, level, toAdded)]).Some?
    requires Run(Step, Init(files), before + [Write(i, level, toAdded)] + after).Some? && NobodyWrites(after, i)
    requires Run(Step, Init(files), before + [Write(i, level, toAdded)] + after).value.swapped
    ensures Run(Step, Init(files), before).Some?
    ensures var s := Run(Step, Init(files), before).value;
            var t := Run(Step, Init(files), before + [Write(i, level, toAdded)] + after).value;
            && t.added.Some? && i < |t.added.value| && i < |s.origin|
            && FromLib(t.added.value[i]) == (if toAdded || |s.captured| <= i then FromLib(level) else Standing(s, i))
            && (FromLib(t.added.value[i]) == FromLib(level) <==>
                toAdded || |s.captured| <= i || Standing(s, i) == FromLib(level))
  {
    var e := Write(i, level, toAdded);
    assert (before + [e])[..|before|] == before;
    Always(files, before);
    Always(files, before + [e]);
    Always(files, before + [e] + after);
    RunAppend(Step, Init(files), before + [e], after);
    var s := Run(Step, Init(files), before).value;
    var u := Step(s, e).value;
    var lasting := if toAdded || |s.captured| <= i then FromLib(level) else Standing(s, i);
    assert Stands(u, i, lasting);
    StandsRun(u, after, i, lasting);
  }

  // So a level set between the reading and the swap is lost, though it is
  // recorded as chosen: whatever the one file of a torrent stood at, that is
  // what it stands at after the move.
  lemma LevelSetMeanwhileIsLost(before: LibPriority, level: LibPriority)
    ensures exists events ::
              Run(Step, Init([before]), events).Some?
              && var s := Run(Step, Init([before]), events).value;
                 && s.swapped && |s.origin| == 1 && s.origin[0] == level
                 && s.added.Some? && |s.added.value| == 1 && FromLib(s.added.value[0]) == FromLib(before)
  {
    var start := Init([before]);
    var events := [Capture];
    assert events[..0] == [];
    assert Run(Step, start, events) == Step(start, Capture);
    events := Extended(start, events, Write(0, level, false));
    events := Extended(start, events, ReAdd);
    events := Extended(start, events, Apply);
    events := Extended(start, events, Swap);
    PriorityRoundTrip(Off, before);
  }

  lemma Extended(start: State, events: seq<Event>, e: Event) returns (longer: seq<Event>)
    requires Run(Step, start, events).Some?
    ensures Run(Step, start, longer) == Step(Run(Step, start, events).value, e)
  {
    RunSnoc(Step, start, events, e);
    longer := events + [e];
  }
}
