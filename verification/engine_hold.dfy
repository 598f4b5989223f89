// When a move or a purge loses its hold on the data: a goroutine of an
// earlier move may release it (internal/engine/ops.go:1043-1056).
module EngineHold {
  import opened Runs
  import opened Sums
  import opened TrackedRecord
  import opened EngineSteps
  import opened EngineSafety
  import opened EngineTheorems
  import opened EngineRemoval

  // ------------------------------------------------------------------
  // The earlier moves' goroutines
  // ------------------------------------------------------------------

  // From the end of an operation's wait until it unlocks.
  predicate AfterWait(pc: OpPc) {
    !pc.CancelCheck? && !pc.AwaitChecks? && !pc.Unlock?
  }

  // A move's goroutine that has told checkWG it is done.
  predicate Settled(l: Loop) {
    l.byMove ==> l.pc.Epilogue? || l.pc.Over?
  }

  // The check this very operation has begun, and not left to its goroutine.
  predicate Own(op: Op, k: nat) {
    (op.pc.RegisterCheck? || op.pc.SpawnLoop?) && k == op.loop
  }

  // An operation that has waited finds every earlier move's goroutine past
  // the wait group.
  ghost predicate OthersSettled(holder: Option<Op>, loops: seq<Loop>) {
    holder.Some? && AfterWait(holder.value.pc) ==>
      forall k | 0 <= k < |loops| && !Own(holder.value, k) :: Settled(loops[k])
  }

  predicate SomeEpilogue(loops: seq<Loop>) {
    exists k :: 0 <= k < |loops| && loops[k].byMove && loops[k].pc.Epilogue?
  }

  // While a hold that was taken too early still stands, a goroutine that
  // will release it is left.
  ghost predicate ReleaseLeft(s: State) {
    s.holder.Some? && Holding(s.holder.value) && s.pendingRelease && !s.staleRelease ==> SomeEpilogue(s.loops)
  }

  ghost predicate HoldInv(s: State) {
    Sane(s) && OthersSettled(s.holder, s.loops) && ReleaseLeft(s)
  }

  lemma WaitSettles(s: State)
    requires Sane(s) && s.rec.checks == 0 && s.holder.Some? && s.holder.value.pc.AwaitChecks?
    ensures forall k | 0 <= k < |s.loops| :: Settled(s.loops[k])
  {
    forall k | 0 <= k < |s.loops|
      ensures Settled(s.loops[k])
    {
      if Live(s.loops[k].pc) {
        SumAtLeast(Counts, s.loops, k);
      }
    }
  }

  // ---- the operation's own steps ----

  lemma SettledAfterOp(s: State, op: Op, ok: bool, t: State)
    requires Sane(s) && OthersSettled(s.holder, s.loops) && s.holder == Some(op) && OpNext(s, op, ok) == Some(t)
    ensures OthersSettled(t.holder, t.loops)
  {
    if op.pc.AwaitChecks? {
      WaitSettles(s);
      assert t.loops == s.loops;
    } else if op.pc.AddCheck? {
      assert t.loops == s.loops + [Loop(true, Added, 0, false)];
    } else if op.pc.RegisterCheck? {
      assert forall k | 0 <= k < |s.loops| && k != op.loop :: t.loops[k] == s.loops[k];
    } else if !op.pc.SpawnLoop? {
      SettledWithLoops(s, op, ok, t);
    }
  }

  lemma SettledWithLoops(s: State, op: Op, ok: bool, t: State)
    requires OthersSettled(s.holder, s.loops) && s.holder == Some(op) && OpNext(s, op, ok) == Some(t)
    requires !op.pc.AwaitChecks? && !op.pc.AddCheck? && !op.pc.RegisterCheck? && !op.pc.SpawnLoop?
    ensures t.loops == s.loops && OthersSettled(t.holder, t.loops)
  {
    match op.pc
    case CancelCheck =>
    case AwaitChecks =>
    case ReadInst =>
    case DeleteEntry =>
    case Hold =>
    case Rearrange =>
    case ReadStats =>
    case Fold =>
    case DropInst =>
    case ReAdd =>
    case Swap =>
    case AddCheck =>
    case RegisterCheck =>
    case SpawnLoop =>
    case Unlock =>
  }

  lemma HoldTaken(s: State, op: Op, ok: bool, t: State)
    requires OthersSettled(s.holder, s.loops) && s.holder == Some(op) && op.pc.Hold? && OpNext(s, op, ok) == Some(t)
    ensures t.loops == s.loops && (t.pendingRelease <==> !MoveLoopsOver(s.loops)) && !t.staleRelease
    ensures t.pendingRelease ==> SomeEpilogue(t.loops)
  {
    if t.pendingRelease {
      var k :| 0 <= k < |s.loops| && s.loops[k].byMove && !s.loops[k].pc.Over?;
      assert Settled(s.loops[k]);
    }
  }

  // Only the step that takes a hold says anew whether a release is pending.
  lemma PendingKept(s: State, op: Op, ok: bool, t: State)
    requires s.holder == Some(op) && OpNext(s, op, ok) == Some(t) && !op.pc.Hold?
    ensures t.pendingRelease == s.pendingRelease && t.staleRelease == s.staleRelease
  {
    match op.pc
    case CancelCheck =>
    case AwaitChecks =>
    case ReadInst =>
    case DeleteEntry =>
    case Hold =>
    case Rearrange =>
    case ReadStats =>
    case Fold =>
    case DropInst =>
    case ReAdd =>
    case Swap =>
    case AddCheck =>
    case RegisterCheck =>
    case SpawnLoop =>
    case Unlock =>
  }

  // And only there does an operation begin to hold.
  lemma HeldBefore(s: State, op: Op, ok: bool, t: State)
    requires s.holder == Some(op) && OpNext(s, op, ok) == Some(t) && !op.pc.Hold?
    requires op.pc.DeleteEntry? ==> op.kind.Remove?
    ensures t.holder.Some? && Holding(t.holder.value) ==> Holding(op)
  {
    match op.pc
    case CancelCheck =>
    case AwaitChecks =>
    case ReadInst =>
    case DeleteEntry =>
    case Hold =>
    case Rearrange =>
    case ReadStats =>
    case Fold =>
    case DropInst =>
    case ReAdd =>
    case Swap =>
    case AddCheck =>
    case RegisterCheck =>
    case SpawnLoop =>
    case Unlock =>
  }

  lemma EpilogueKept(s: State, op: Op, ok: bool, t: State)
    requires s.holder == Some(op) && OpNext(s, op, ok) == Some(t) && SomeEpilogue(s.loops)
    requires op.pc.RegisterCheck? || op.pc.SpawnLoop? ==> op.loop < |s.loops| && !s.loops[op.loop].pc.Epilogue?
    ensures SomeEpilogue(t.loops)
  {
    var k :| 0 <= k < |s.loops| && s.loops[k].byMove && s.loops[k].pc.Epilogue?;
    OtherLoopKept(s, op, ok, t, k);
  }

  lemma OtherLoopKept(s: State, op: Op, ok: bool, t: State, k: nat)
    requires OpNext(s, op, ok) == Some(t) && k < |s.loops| && !Own(op, k)
    ensures k < |t.loops| && t.loops[k] == s.loops[k]
  {
    match op.pc
    case CancelCheck =>
    case AwaitChecks =>
    case ReadInst =>
    case DeleteEntry =>
    case Hold =>
    case Rearrange =>
    case ReadStats =>
    case Fold =>
    case DropInst =>
    case ReAdd =>
    case Swap =>
    case AddCheck =>
    case RegisterCheck =>
    case SpawnLoop =>
    case Unlock =>
  }

  lemma HoldGoesOn(s: State, op: Op, ok: bool, t: State)
    requires Sane(s) && s.holder == Some(op) && OpNext(s, op, ok) == Some(t) && !op.pc.Hold? && ReleaseLeft(s)
    requires t.pendingRelease == s.pendingRelease && t.staleRelease == s.staleRelease
    ensures ReleaseLeft(t)
  {
    assert OpWell(op, s.rec.inst, s.loops);
    HeldBefore(s, op, ok, t);
    if SomeEpilogue(s.loops) {
      EpilogueKept(s, op, ok, t);
    }
  }

  lemma HoldInvAfterOp(s: State, op: Op, ok: bool, t: State)
    requires HoldInv(s) && s.holder == Some(op) && OpNext(s, op, ok) == Some(t) && Sane(t)
    ensures HoldInv(t)
  {
    SettledAfterOp(s, op, ok, t);
    if op.pc.Hold? {
      HoldTaken(s, op, ok, t);
    } else {
      PendingKept(s, op, ok, t);
      HoldGoesOn(s, op, ok, t);
    }
  }

  // ---- a verification's steps ----

  // It settles for good, and only its last step ends a goroutine's epilogue.
  lemma LoopSettles(s: State, j: nat, more: bool, t: State, k: nat)
    requires j < |s.loops| && k < |s.loops| && LoopNext(s, j, more) == Some(t)
    ensures |t.loops| == |s.loops| && t.pendingRelease == s.pendingRelease
    ensures Settled(s.loops[k]) ==> Settled(t.loops[k])
    ensures s.loops[k].byMove && s.loops[k].pc.Epilogue? ==>
              (t.loops[k].byMove && t.loops[k].pc.Epilogue?) || t.staleRelease
    ensures s.staleRelease ==> t.staleRelease
  {
    match s.loops[j].pc
    case Requested =>
    case Added =>
    case Listed =>
    case Spawned =>
    case Testing =>
    case Hashing =>
    case Clearing =>
    case Finishing =>
    case Epilogue =>
    case Over =>
  }

  lemma HoldInvAfterLoop(s: State, j: nat, more: bool, t: State)
    requires HoldInv(s) && j < |s.loops| && LoopNext(s, j, more) == Some(t) && Sane(t)
    ensures HoldInv(t)
  {
    LoopStepFrame(s, j, more, t);
    forall k | 0 <= k < |s.loops|
      ensures Settled(s.loops[k]) ==> Settled(t.loops[k])
    {
      LoopSettles(s, j, more, t, k);
    }
    if SomeEpilogue(s.loops) {
      var k :| 0 <= k < |s.loops| && s.loops[k].byMove && s.loops[k].pc.Epilogue?;
      LoopSettles(s, j, more, t, k);
    } else {
      LoopSettles(s, j, more, t, j);
    }
  }

  lemma SaneStep(s: State, e: Event)
    requires Sane(s) && Step(s, e).Some?
    ensures Sane(Step(s, e).value)
  {
    StepKeeps(s, e);
    MoveStepsItStep(s, e);
  }

  // ---- the rest ----

  lemma HoldInvAfterRest(s: State, e: Event, t: State)
    requires HoldInv(s) && Step(s, e) == Some(t) && Sane(t) && !e.OpStep? && !e.LoopStep?
    ensures HoldInv(t)
  {
    if e.StartRecheck? {
      assert t.loops == s.loops + [Loop(false, Requested, 0, false)];
      if SomeEpilogue(s.loops) {
        var k :| 0 <= k < |s.loops| && s.loops[k].byMove && s.loops[k].pc.Epilogue?;
        assert t.loops[k] == s.loops[k];
      }
    } else {
      assert t.loops == s.loops && t.pendingRelease == s.pendingRelease && t.staleRelease == s.staleRelease;
    }
  }

  lemma HoldInvStep(s: State, e: Event)
    requires HoldInv(s) && Step(s, e).Some?
    ensures HoldInv(Step(s, e).value)
  {
    SaneStep(s, e);
    if e.OpStep? {
      HoldInvAfterOp(s, s.holder.value, e.ok, Step(s, e).value);
    } else if e.LoopStep? {
      HoldInvAfterLoop(s, e.loop, e.more, Step(s, e).value);
    } else {
      HoldInvAfterRest(s, e, Step(s, e).value);
    }
  }

  lemma HoldAlways(paused: bool, restored: Bytes, events: seq<Event>)
    requires Run(Step, Init(paused, restored), events).Some?
    ensures HoldInv(Run(Step, Init(paused, restored), events).value)
  {
    SaneAlways(paused, restored, []);
    forall s, e | HoldInv(s) && Step(s, e).Some?
      ensures HoldInv(Step(s, e).value)
    {
      HoldInvStep(s, e);
    }
    InvariantOverRuns(HoldInv, Step, Init(paused, restored), events);
  }

  // ------------------------------------------------------------------
  // Lost exactly when a goroutine was left
  // ------------------------------------------------------------------

  // A run from here, with no other operation let in, after which the same
  // operation believes it holds the data, and the hold is off.
  ghost predicate LosesHold(s: State, more: seq<Event>) {
    && NobodyEnters(more) && Run(Step, s, more).Some?
    && var t := Run(Step, s, more).value; t.holder.Some? && Holding(t.holder.value) && !t.rec.hold
  }

  predicate NobodyEnters(more: seq<Event>) {
    forall e | e in more :: !e.EnterOp?
  }

  ghost predicate CanLoseHold(s: State) {
    exists more :: LosesHold(s, more)
  }

  // This operation's hold, from its taking to its end.
  predicate SameHold(s: State, pending: bool) {
    s.holder.Some? ==> s.pendingRelease == pending && (Holding(s.holder.value) || s.holder.value.pc.Unlock?)
  }

  lemma SameHoldStep(s: State, e: Event, pending: bool)
    requires Sane(s) && SameHold(s, pending) && !e.EnterOp? && Step(s, e).Some?
    ensures SameHold(Step(s, e).value, pending)
  {
    var t := Step(s, e).value;
    if e.OpStep? {
      SameHoldOp(s, s.holder.value, e.ok, t, pending);
    } else if e.LoopStep? {
      LoopStepFrame(s, e.loop, e.more, t);
      LoopSettles(s, e.loop, e.more, t, e.loop);
    } else {
      assert t.holder == s.holder && t.pendingRelease == s.pendingRelease;
    }
  }

  lemma SameHoldOp(s: State, op: Op, ok: bool, t: State, pending: bool)
    requires s.holder == Some(op) && SameHold(s, pending) && OpNext(s, op, ok) == Some(t)
    ensures SameHold(t, pending)
  {
    match op.pc
    case CancelCheck =>
    case AwaitChecks =>
    case ReadInst =>
    case DeleteEntry =>
    case Hold =>
    case Rearrange =>
    case ReadStats =>
    case Fold =>
    case DropInst =>
    case ReAdd =>
    case Swap =>
    case AddCheck =>
    case RegisterCheck =>
    case SpawnLoop =>
    case Unlock =>
  }

  lemma {:induction false} SameHoldRun(s: State, more: seq<Event>, pending: bool)
    requires Sane(s) && SameHold(s, pending) && NobodyEnters(more) && Run(Step, s, more).Some?
    ensures var t := Run(Step, s, more).value; Sane(t) && SameHold(t, pending)
    decreases |more|
  {
    if more != [] {
      var n := |more| - 1;
      SameHoldRun(s, more[..n], pending);
      SaneStep(Run(Step, s, more[..n]).value, more[n]);
      SameHoldStep(Run(Step, s, more[..n]).value, more[n], pending);
    }
  }

  // A hold taken with every earlier move's goroutine over is never lost.
  lemma HoldKept(s: State, more: seq<Event>)
    requires Sane(s) && SameHold(s, false) && NobodyEnters(more) && Run(Step, s, more).Some?
    ensures var t := Run(Step, s, more).value; t.holder.Some? && Holding(t.holder.value) ==> t.rec.hold
  {
    SameHoldRun(s, more, false);
  }

  // A goroutine that is left releases the hold with its next step.
  lemma ReleasedNext(s: State) returns (more: seq<Event>)
    requires HoldInv(s) && s.holder.Some? && Holding(s.holder.value) && s.pendingRelease
    ensures LosesHold(s, more) && |more| <= 1
  {
    assert HoldWell(s.holder.value, s);
    if s.staleRelease {
      more := [];
    } else {
      var k :| 0 <= k < |s.loops| && s.loops[k].byMove && s.loops[k].pc.Epilogue?;
      more := [LoopStep(k, true)];
      assert Run(Step, s, []) == Some(s);
      assert more[..0] == [];
    }
  }

  // At every point of a move or a purge that holds the data: some run of it
  // loses the hold exactly when an earlier move's goroutine was unfinished
  // as the hold was taken.
  lemma HoldCanBeLostExactly(paused: bool, restored: Bytes, events: seq<Event>)
    requires Run(Step, Init(paused, restored), events).Some?
    requires var s := Run(Step, Init(paused, restored), events).value; s.holder.Some? && Holding(s.holder.value)
    ensures var s := Run(Step, Init(paused, restored), events).value; CanLoseHold(s) <==> s.pendingRelease
  {
    HoldAlways(paused, restored, events);
    var s := Run(Step, Init(paused, restored), events).value;
    if s.pendingRelease {
      var more := ReleasedNext(s);
    } else if CanLoseHold(s) {
      var more :| LosesHold(s, more);
      HoldKept(s, more);
    }
  }

  // And in terms of what an operation could look at before it takes the
  // hold: from then on it can be lost exactly when some move's goroutine is
  // not over.
  lemma HoldTakenTooEarly(paused: bool, restored: Bytes, events: seq<Event>, ok: bool)
    requires Run(Step, Init(paused, restored), events).Some?
    requires var s := Run(Step, Init(paused, restored), events).value;
             s.holder.Some? && !s.holder.value.kind.Remove? && s.holder.value.pc.Hold?
    ensures var s := Run(Step, Init(paused, restored), events).value;
            var t := Step(s, OpStep(ok));
            && t.Some? && t.value.rec.hold
            && (CanLoseHold(t.value) <==>
                exists k :: 0 <= k < |s.loops| && s.loops[k].byMove && !s.loops[k].pc.Over?)
  {
    HoldAlways(paused, restored, events);
    var s := Run(Step, Init(paused, restored), events).value;
    HoldTaken(s, s.holder.value, ok, Step(s, OpStep(ok)).value);
    RunSnoc(Step, Init(paused, restored), events, OpStep(ok));
    HoldCanBeLostExactly(paused, restored, events + [OpStep(ok)]);
  }
}
