// When a move's or a purge's hold on the data ends, and what pauses a
// torrent (internal/engine/ops.go): over every run of one torrent's threads.
module EngineRelease {
  import opened Runs
  import opened TrackedRecord
  import opened EngineSteps
  import opened EngineSafety
  import opened EngineTheorems

  // ------------------------------------------------------------------
  // The hold
  // ------------------------------------------------------------------

  // Somebody is left who has to end the hold.
  ghost predicate Owed(s: State) {
    (s.holder.Some? && Holding(s.holder.value)) || !MoveLoopsOver(s.loops)
  }

  ghost predicate Released(s: State) {
    s.rec.hold ==> Owed(s)
  }

  // A move's verification that is not over stays so while its step is not
  // the one that ends the hold.
  lemma LoopStaysOwed(s: State, k: nat, more: bool, t: State)
    requires k < |s.loops| && LoopNext(s, k, more) == Some(t) && !s.loops[k].pc.Epilogue?
    requires !MoveLoopsOver(s.loops)
    ensures !MoveLoopsOver(t.loops)
  {
    var j :| 0 <= j < |s.loops| && s.loops[j].byMove && !s.loops[j].pc.Over?;
    LoopAfterStep(s, k, more, t, j);
  }

  lemma LoopAfterStep(s: State, k: nat, more: bool, t: State, j: nat)
    requires k < |s.loops| && LoopNext(s, k, more) == Some(t) && !s.loops[k].pc.Epilogue? && j < |s.loops|
    ensures |t.loops| == |s.loops| && t.loops[j].byMove == s.loops[j].byMove
    ensures s.loops[j].byMove && !s.loops[j].pc.Over? ==> !t.loops[j].pc.Over?
  {
    match s.loops[k].pc
    case Requested =>
    case Added =>
    case Listed =>
    case Spawned =>
    case Testing =>
    case Hashing =>
    case Clearing =>
    case Finishing =>
    case Epilogue =>
    case Over =>
  }

  lemma LoopKeepsReleased(s: State, k: nat, more: bool, t: State)
    requires Released(s) && k < |s.loops| && LoopNext(s, k, more) == Some(t)
    ensures Released(t)
  {
    LoopStepFrame(s, k, more, t);
    LoopHold(s, k, more, t);
    if !s.loops[k].pc.Epilogue? && !MoveLoopsOver(s.loops) {
      LoopStaysOwed(s, k, more, t);
    }
  }

  lemma LoopHold(s: State, k: nat, more: bool, t: State)
    requires k < |s.loops| && LoopNext(s, k, more) == Some(t)
    ensures t.rec.hold == (s.rec.hold && !s.loops[k].pc.Epilogue?)
  {
    match s.loops[k].pc
    case Requested =>
    case Added =>
    case Listed =>
    case Spawned =>
    case Testing =>
    case Hashing =>
    case Clearing =>
    case Finishing =>
    case Epilogue =>
    case Over =>
  }

  // The steps of an operation that do not touch the verifications.
  lemma OpKeepsReleased(s: State, op: Op, ok: bool, t: State)
    requires Inv(s) && Released(s) && s.holder == Some(op) && OpNext(s, op, ok) == Some(t)
    ensures Released(t)
  {
    if op.pc.AddCheck? || op.pc.RegisterCheck? || op.pc.SpawnLoop? {
      OwnLoopIsOwed(s, op, ok, t);
    } else {
      assert t.loops == s.loops;
    }
  }

  // From AddCheck on the operation's own verification is owed.
  lemma OwnLoopIsOwed(s: State, op: Op, ok: bool, t: State)
    requires Inv(s) && s.holder == Some(op) && OpNext(s, op, ok) == Some(t)
    requires op.pc.AddCheck? || op.pc.RegisterCheck? || op.pc.SpawnLoop?
    ensures !MoveLoopsOver(t.loops)
  {
    var k := if op.pc.AddCheck? then |s.loops| else op.loop;
    assert t.loops[k].byMove && !t.loops[k].pc.Over?;
  }

  lemma StepKeepsReleased(s: State, e: Event)
    requires Inv(s) && Released(s) && Step(s, e).Some?
    ensures Released(Step(s, e).value)
  {
    var t := Step(s, e).value;
    if e.OpStep? {
      OpKeepsReleased(s, s.holder.value, e.ok, t);
    } else if e.LoopStep? {
      LoopKeepsReleased(s, e.loop, e.more, t);
    } else if e.StartRecheck? {
      assert forall k | 0 <= k < |s.loops| :: t.loops[k] == s.loops[k];
    }
  }

  // In every run the hold is on only while a move or a purge is at the work
  // it took it for, or a move's goroutine has not come to its end.
  lemma HoldIsOwed(paused: bool, restored: Bytes, events: seq<Event>)
    requires Run(Step, Init(paused, restored), events).Some?
    ensures var s := Run(Step, Init(paused, restored), events).value;
            s.rec.hold ==> (s.holder.Some? && Holding(s.holder.value)) || !MoveLoopsOver(s.loops)
  {
    Always(paused, restored, []);
    forall s, e | Inv(s) && Released(s) && Step(s, e).Some?
      ensures Inv(Step(s, e).value) && Released(Step(s, e).value)
    {
      StepKeeps(s, e);
      StepKeepsReleased(s, e);
    }
    InvariantOverRuns(s => Inv(s) && Released(s), Step, Init(paused, restored), events);
  }

  // So however operations ended, well or not, nobody's hold is left behind:
  // with no operation inside opMu and every move's goroutine over it is off.
  lemma HoldIsReleased(paused: bool, restored: Bytes, events: seq<Event>)
    requires Run(Step, Init(paused, restored), events).Some?
    requires var s := Run(Step, Init(paused, restored), events).value; s.holder.None? && MoveLoopsOver(s.loops)
    ensures !Run(Step, Init(paused, restored), events).value.rec.hold
  {
    HoldIsOwed(paused, restored, events);
  }

  // ------------------------------------------------------------------
  // The pause
  // ------------------------------------------------------------------

  // A user's pause, or a purge as it takes the hold.
  predicate PausesIt(s: State, e: Event) {
    e == Pause(true) || (e.OpStep? && s.holder.Some? && s.holder.value.pc.Hold? && s.holder.value.kind.Purge?)
  }

  // The last step that could decide it paused the torrent, or none did and
  // it was paused at the start.
  ghost predicate PausedLast(paused: bool, restored: Bytes, events: seq<Event>)
    decreases |events|
  {
    if events == [] then paused
    else
      var n := |events| - 1;
      var s := Run(Step, Init(paused, restored), events[..n]);
      (s.Some? && PausesIt(s.value, events[n]))
      || (events[n] != Pause(false) && PausedLast(paused, restored, events[..n]))
  }

  lemma PausedNext(s: State, e: Event)
    requires Step(s, e).Some?
    ensures Step(s, e).value.rec.paused <==> PausesIt(s, e) || (s.rec.paused && e != Pause(false))
  {
    if e.OpStep? {
      OpPauses(s, s.holder.value, e.ok, Step(s, e).value);
    } else if e.LoopStep? {
      LoopPauses(s, e.loop, e.more, Step(s, e).value);
    }
  }

  lemma OpPauses(s: State, op: Op, ok: bool, t: State)
    requires OpNext(s, op, ok) == Some(t)
    ensures t.rec.paused == (s.rec.paused || (op.pc.Hold? && op.kind.Purge?))
  {
    match op.pc
    case CancelCheck =>
    case AwaitChecks =>
    case ReadInst =>
    case DeleteEntry =>
    case Hold =>
    case Rearrange =>
    case ReadStats =>
    case Fold =>
    case DropInst =>
    case ReAdd =>
    case Swap =>
    case AddCheck =>
    case RegisterCheck =>
    case SpawnLoop =>
    case Unlock =>
  }

  lemma LoopPauses(s: State, k: nat, more: bool, t: State)
    requires k < |s.loops| && LoopNext(s, k, more) == Some(t)
    ensures t.rec.paused == s.rec.paused
  {
    match s.loops[k].pc
    case Requested =>
    case Added =>
    case Listed =>
    case Spawned =>
    case Testing =>
    case Hashing =>
    case Clearing =>
    case Finishing =>
    case Epilogue =>
    case Over =>
  }

  // In every run a torrent is paused exactly when a user or a purge has
  // paused it and nobody has resumed it since: no move, removal or
  // verification touches the flag.
  lemma {:induction false} PausedExactly(paused: bool, restored: Bytes, events: seq<Event>)
    requires Run(Step, Init(paused, restored), events).Some?
    ensures Run(Step, Init(paused, restored), events).value.rec.paused <==> PausedLast(paused, restored, events)
    decreases |events|
  {
    if events != [] {
      var n := |events| - 1;
      PausedExactly(paused, restored, events[..n]);
      PausedNext(Run(Step, Init(paused, restored), events[..n]).value, events[n]);
    }
  }

  // A purged torrent is paused when the purge is over, unless somebody
  // resumed it in between: it does not fetch again what was just deleted.
  lemma {:induction false} PurgeEndsPaused(paused: bool, restored: Bytes, before: seq<Event>, ok: bool,
                                           after: seq<Event>)
    requires Run(Step, Init(paused, restored), before + [OpStep(ok)] + after).Some?
    requires Run(Step, Init(paused, restored), before).Some?
    requires var s := Run(Step, Init(paused, restored), before).value;
             s.holder.Some? && s.holder.value.kind.Purge? && s.holder.value.pc.Hold?
    requires Pause(false) !in after
    ensures Run(Step, Init(paused, restored), before + [OpStep(ok)] + after).value.rec.paused
    decreases |after|
  {
    var all := before + [OpStep(ok)] + after;
    var n := |all| - 1;
    PausedNext(Run(Step, Init(paused, restored), all[..n]).value, all[n]);
    if after == [] {
      assert all[..n] == before;
    } else {
      assert all[..n] == before + [OpStep(ok)] + after[..|after| - 1];
      assert all[n] == after[|after| - 1] && all[n] in after;
      PurgeEndsPaused(paused, restored, before, ok, after[..|after| - 1]);
    }
  }
}
