// What every interleaving of the threads in EngineSteps keeps.
module EngineSafety {
  import opened Runs
  import opened Sums
  import opened TrackedRecord
  import opened EngineSteps

  // ------------------------------------------------------------------
  // The invariant, in the parts its preservation is proved in
  // ------------------------------------------------------------------

  // The point an operation is at, its kind, and the check it has begun fit.
  ghost predicate OpWell(op: Op, inst: nat, loops: seq<Loop>) {
    match op.pc
    case RegisterCheck => op.kind.Move? && op.loop < |loops| && loops[op.loop].byMove && loops[op.loop].pc.Added?
    case SpawnLoop => op.kind.Move? && op.loop < |loops| && loops[op.loop].byMove && loops[op.loop].pc.Listed?
    case AddCheck => op.kind.Move?
    case Rearrange => op.kind.Move? && op.inst == inst
    case ReadInst => !op.kind.Remove?
    case DeleteEntry => op.kind.Remove?
    case DropInst => op.inst == inst
    case Hold => !op.kind.Remove? && op.inst == inst
    case ReadStats => !op.kind.Remove? && op.inst == inst
    case Fold => !op.kind.Remove? && op.inst == inst
    case ReAdd => !op.kind.Remove? && op.inst == inst
    case Swap => !op.kind.Remove? && op.inst == inst
    case _ => true
  }

  // The record points at an instance, and no other instance is running
  // but the one just added and not swapped in yet.
  ghost predicate InstsWell(insts: seq<Inst>, inst: nat, holder: Option<Op>) {
    && inst < |insts|
    && (holder.Some? && (holder.value.pc.ReAdd? || holder.value.pc.Swap?) ==> insts[inst].dropped)
    && (holder.Some? && holder.value.pc.Swap? ==> holder.value.added < |insts|)
    && (forall j | 0 <= j < |insts| && !insts[j].dropped ::
          j == inst || (holder.Some? && holder.value.pc.Swap? && holder.value.added == j))
  }

  // From its registration until its own end clears the record.
  predicate Unwinding(pc: LoopPc) {
    pc.Listed? || pc.Spawned? || pc.Testing? || pc.Hashing? || pc.Clearing?
  }

  ghost predicate SomeUnwinding(loops: seq<Loop>) {
    exists k :: 0 <= k < |loops| && Unwinding(loops[k].pc)
  }

  // A registered verification is the one cancelCheck reaches, or has been
  // cancelled, or was orphaned; the last excludes both others.
  ghost predicate CancelWell(cancel: Option<nat>, cancelled: set<nat>, loops: seq<Loop>) {
    && (cancel.Some? ==> cancel.value < |loops| && Unwinding(loops[cancel.value].pc))
    && (forall k | 0 <= k < |loops| && Unwinding(loops[k].pc) ::
          if loops[k].orphan then k !in cancelled && cancel != Some(k)
          else k in cancelled || cancel == Some(k))
    && (forall k | 0 <= k < |loops| && (loops[k].pc.Requested? || loops[k].pc.Added?) ::
          k !in cancelled && !loops[k].orphan)
    && (forall k | k in cancelled :: k < |loops|)
    && (forall k | 0 <= k < |loops| :: loops[k].pc.Epilogue? ==> loops[k].byMove)
  }

  // From the end of its wait to its drop an operation has no verification to
  // be afraid of but the rechecks that slipped in behind it.
  predicate QuietAt(pc: OpPc) {
    pc.ReadInst? || pc.DeleteEntry? || pc.Hold? || pc.Rearrange? || pc.ReadStats? || pc.Fold? || pc.DropInst?
  }

  ghost predicate BegunWell(begun: set<nat>, loops: seq<Loop>) {
    && (forall k | k in begun :: k < |loops| && !loops[k].pc.Requested?)
    && (forall k | 0 <= k < |loops| && Live(loops[k].pc) :: k in begun)
  }

  // While an operation holds the data, only an earlier move's loop can
  // have let go of it, and only if one was unfinished when it took hold.
  ghost predicate HoldWell(op: Op, s: State) {
    Holding(op) ==>
      && (s.rec.hold <==> !s.staleRelease)
      && (s.staleRelease ==> s.pendingRelease)
      && (!s.pendingRelease ==> OnlyOwnMoveLoop(op, s.loops))
  }

  ghost predicate OnlyOwnMoveLoop(op: Op, loops: seq<Loop>) {
    forall k | 0 <= k < |loops| && loops[k].byMove && !loops[k].pc.Over? ::
      (op.pc.RegisterCheck? || op.pc.SpawnLoop?) && k == op.loop
  }

  // What Stats said is not more than the counters say now.
  predicate SeenWell(op: Op, insts: seq<Inst>) {
    op.pc.Fold? ==> op.inst < |insts| && op.seen.Within(insts[op.inst].bytes)
  }

  // The counters of the instance that stands for the present: none once
  // the holder of opMu has folded them away, then those it swaps in.
  function Counted(insts: seq<Inst>, inst: nat, holder: Option<Op>): Bytes
    requires inst < |insts|
    requires holder.Some? && holder.value.pc.Swap? ==> holder.value.added < |insts|
  {
    if holder.None? then insts[inst].bytes
    else
      var op := holder.value;
      match op.pc
      case DropInst => if op.kind.Remove? then insts[inst].bytes else NO_BYTES
      case ReAdd => NO_BYTES
      case Swap => insts[op.added].bytes
      case _ => insts[inst].bytes
  }

  // Everything moved is in the totals, less what was lost and plus what is
  // counted again.
  predicate Balanced(restored: Bytes, insts: seq<Inst>, excess: Bytes, base: Bytes, lost: Bytes, counted: Bytes) {
    restored.Plus(Total(insts)).Plus(excess) == base.Plus(lost).Plus(counted)
  }

  ghost predicate Inv(s: State) {
    && InstsWell(s.insts, s.rec.inst, s.holder)
    && CancelWell(s.rec.cancel, s.rec.cancelled, s.loops)
    && s.rec.checks == LiveCount(s.loops)
    && (s.rec.checking ==> SomeUnwinding(s.loops))
    && (s.holder.Some? ==>
          && OpWell(s.holder.value, s.rec.inst, s.loops)
          && SeenWell(s.holder.value, s.insts)
          && HoldWell(s.holder.value, s)
          && (QuietAt(s.holder.value.pc) ==> BegunWell(s.begun, s.loops)))
    && Balanced(s.restored, s.insts, s.excess, s.rec.base, s.lost, Counted(s.insts, s.rec.inst, s.holder))
  }

  lemma TotalOne(i: Inst)
    ensures Total([i]) == i.bytes
  {
    TotalSnoc([], i);
    assert [] + [i] == [i];
  }

  lemma FreshInv(s: State)
    requires |s.insts| == 1 && s.rec.inst == 0 && s.rec.base == s.restored
    requires Balanced(s.restored, s.insts, s.excess, s.rec.base, s.lost, NO_BYTES)
    requires s.holder.None? && s.loops == [] && s.rec.checks == 0 && !s.rec.checking
    requires s.rec.cancel.None? && s.rec.cancelled == {}
    requires s.insts[0].bytes == NO_BYTES
    ensures Inv(s)
  {
  }

  lemma FreshBalanced(restored: Bytes, insts: seq<Inst>)
    requires |insts| == 1 && insts[0].bytes == NO_BYTES
    ensures Balanced(restored, insts, NO_BYTES, restored, NO_BYTES, NO_BYTES)
  {
    assert insts == [insts[0]];
    TotalOne(insts[0]);
  }

  lemma InitInv(paused: bool, restored: Bytes)
    ensures Inv(Init(paused, restored))
  {
    var s := Init(paused, restored);
    FreshBalanced(restored, s.insts);
    FreshInv(s);
  }

  // ------------------------------------------------------------------
  // What the blocks on cancelCheck do to the verifications
  // ------------------------------------------------------------------

  lemma CancelBlock(r: Record, loops: seq<Loop>)
    requires CancelWell(r.cancel, r.cancelled, loops)
    ensures CancelWell(Cancelled(r).cancel, Cancelled(r).cancelled, loops)
  {
  }

  lemma RegisterBlock(r: Record, loops: seq<Loop>, k: nat)
    requires CancelWell(r.cancel, r.cancelled, loops)
    requires k < |loops| && loops[k].pc.Added?
    ensures CancelWell(Registered(r, k).cancel, Registered(r, k).cancelled, loops[k := loops[k].(pc := Listed)])
  {
  }

  lemma ClearBlock(s: State, k: nat)
    requires CancelWell(s.rec.cancel, s.rec.cancelled, s.loops)
    requires k < |s.loops| && s.loops[k].pc.Clearing?
    ensures CancelWell(Cleared(s.rec, k).cancel, Cleared(s.rec, k).cancelled, AfterClear(s, k))
  {
  }

  lemma ClearCount(s: State, k: nat)
    requires k < |s.loops| && s.loops[k].pc.Clearing?
    ensures LiveCount(AfterClear(s, k)) == LiveCount(s.loops)
  {
    var finished := s.loops[k].(pc := Finishing);
    SumUpdate(Counts, s.loops, k, finished);
    if s.rec.cancel.Some? && s.rec.cancel.value < |s.loops| && s.rec.cancel.value != k {
      var j := s.rec.cancel.value;
      SumUpdate(Counts, s.loops[k := finished], j, s.loops[j].(orphan := true));
    }
  }

  // A verification that moves on without touching cancelCheck.
  lemma AdvanceBlock(r: Record, loops: seq<Loop>, k: nat, l: Loop)
    requires CancelWell(r.cancel, r.cancelled, loops)
    requires k < |loops| && l.orphan == loops[k].orphan
    requires Unwinding(loops[k].pc) <==> Unwinding(l.pc)
    requires l.pc.Epilogue? ==> l.byMove
    requires l.pc.Requested? || l.pc.Added? ==> loops[k].pc.Requested? || loops[k].pc.Added?
    ensures CancelWell(r.cancel, r.cancelled, loops[k := l])
  {
  }

  lemma BeginBlock(r: Record, loops: seq<Loop>, l: Loop)
    requires CancelWell(r.cancel, r.cancelled, loops)
    requires (l.pc.Requested? || l.pc.Added?) && !l.orphan
    ensures CancelWell(r.cancel, r.cancelled, loops + [l])
  {
  }

  lemma UnwindingKept(loops: seq<Loop>, k: nat, l: Loop)
    requires SomeUnwinding(loops) && k < |loops|
    requires Unwinding(loops[k].pc) ==> Unwinding(l.pc)
    ensures SomeUnwinding(loops[k := l])
  {
    var j :| 0 <= j < |loops| && Unwinding(loops[j].pc);
    assert Unwinding(loops[k := l][j].pc);
  }

  // ------------------------------------------------------------------
  // The library's counters
  // ------------------------------------------------------------------

  lemma TotalUpdate(insts: seq<Inst>, j: nat, i: Inst)
    requires j < |insts|
    ensures Total(insts[j := i]).Plus(insts[j].bytes) == Total(insts).Plus(i.bytes)
  {
    SumUpdate(Down, insts, j, i);
    SumUpdate(Up, insts, j, i);
  }

  lemma TotalSnoc(insts: seq<Inst>, i: Inst)
    ensures Total(insts + [i]) == Total(insts).Plus(i.bytes)
  {
    SumSnoc(Down, insts, i);
    SumSnoc(Up, insts, i);
  }

  lemma AddingNothing(insts: seq<Inst>, i: Inst)
    requires i.bytes == NO_BYTES
    ensures Total(insts + [i]) == Total(insts)
  {
    SumSnoc(Down, insts, i);
    SumSnoc(Up, insts, i);
  }

  lemma TransferBalance(restored: Bytes, insts: seq<Inst>, j: nat, i: Inst, moved: Bytes, excess: Bytes, base: Bytes,
                        lost: Bytes, counted: Bytes)
    requires Balanced(restored, insts, excess, base, lost, counted)
    requires j < |insts| && i.bytes == insts[j].bytes.Plus(moved)
    ensures Balanced(restored, insts[j := i], excess, base, lost.Plus(moved), counted)
    ensures Balanced(restored, insts[j := i], excess, base, lost, counted.Plus(moved))
  {
    TotalUpdate(insts, j, i);
  }

  // ------------------------------------------------------------------
  // Every step keeps the invariant
  // ------------------------------------------------------------------

  lemma CancelCheckKeeps(s: State, op: Op, ok: bool, t: State)
    requires Inv(s) && s.holder == Some(op) && op.pc.CancelCheck? && OpNext(s, op, ok) == Some(t)
    ensures Inv(t)
  {
    CancelBlock(s.rec, s.loops);
  }

  lemma AwaitChecksKeeps(s: State, op: Op, ok: bool, t: State)
    requires Inv(s) && s.holder == Some(op) && op.pc.AwaitChecks? && OpNext(s, op, ok) == Some(t)
    ensures Inv(t)
  {
    NoneLive(s.loops);
  }

  lemma NoneLive(loops: seq<Loop>)
    requires LiveCount(loops) == 0
    ensures forall k | 0 <= k < |loops| :: !Live(loops[k].pc)
  {
    forall k | 0 <= k < |loops|
      ensures !Live(loops[k].pc)
    {
      SumAtLeast(Counts, loops, k);
    }
  }

  lemma ReadInstKeeps(s: State, op: Op, ok: bool, t: State)
    requires Inv(s) && s.holder == Some(op) && op.pc.ReadInst? && OpNext(s, op, ok) == Some(t)
    ensures Inv(t)
  {
  }

  lemma DeleteEntryKeeps(s: State, op: Op, ok: bool, t: State)
    requires Inv(s) && s.holder == Some(op) && op.pc.DeleteEntry? && OpNext(s, op, ok) == Some(t)
    ensures Inv(t)
  {
    if s.rec.present {
      assert t.holder == Some(op.(inst := s.rec.inst, pc := DropInst));
    }
  }

  lemma HoldKeeps(s: State, op: Op, ok: bool, t: State)
    requires Inv(s) && s.holder == Some(op) && op.pc.Hold? && OpNext(s, op, ok) == Some(t)
    ensures Inv(t)
  {
  }

  lemma RearrangeKeeps(s: State, op: Op, ok: bool, t: State)
    requires Inv(s) && s.holder == Some(op) && op.pc.Rearrange? && OpNext(s, op, ok) == Some(t)
    ensures Inv(t)
  {
  }

  lemma ReadStatsKeeps(s: State, op: Op, ok: bool, t: State)
    requires Inv(s) && s.holder == Some(op) && op.pc.ReadStats? && OpNext(s, op, ok) == Some(t)
    ensures Inv(t)
  {
  }

  lemma FoldKeeps(s: State, op: Op, ok: bool, t: State)
    requires Inv(s) && s.holder == Some(op) && op.pc.Fold? && OpNext(s, op, ok) == Some(t)
    ensures Inv(t)
  {
  }

  lemma DropInstKeeps(s: State, op: Op, ok: bool, t: State)
    requires Inv(s) && s.holder == Some(op) && op.pc.DropInst? && OpNext(s, op, ok) == Some(t)
    ensures Inv(t)
  {
    TotalUpdate(s.insts, op.inst, s.insts[op.inst].(dropped := true));
  }

  lemma ReAddKeeps(s: State, op: Op, ok: bool, t: State)
    requires Inv(s) && s.holder == Some(op) && op.pc.ReAdd? && OpNext(s, op, ok) == Some(t)
    ensures Inv(t)
  {
    TotalSnoc(s.insts, Inst(NO_BYTES, false));
  }

  lemma SwapKeeps(s: State, op: Op, ok: bool, t: State)
    requires Inv(s) && s.holder == Some(op) && op.pc.Swap? && OpNext(s, op, ok) == Some(t)
    ensures Inv(t)
  {
  }

  lemma AddCheckKeeps(s: State, op: Op, ok: bool, t: State)
    requires Inv(s) && s.holder == Some(op) && op.pc.AddCheck? && OpNext(s, op, ok) == Some(t)
    ensures Inv(t)
  {
    var begun := Loop(true, Added, 0, false);
    BeginBlock(s.rec, s.loops, begun);
    SumSnoc(Counts, s.loops, begun);
    if s.rec.checking {
      var k :| 0 <= k < |s.loops| && Unwinding(s.loops[k].pc);
      assert Unwinding(t.loops[k].pc);
    }
  }

  lemma RegisterCheckKeeps(s: State, op: Op, ok: bool, t: State)
    requires Inv(s) && s.holder == Some(op) && op.pc.RegisterCheck? && OpNext(s, op, ok) == Some(t)
    ensures Inv(t)
  {
    RegisterBlock(s.rec, s.loops, op.loop);
    SumUpdate(Counts, s.loops, op.loop, t.loops[op.loop]);
    assert Unwinding(t.loops[op.loop].pc);
    RegisterCheckHolder(s, op, ok, t);
  }

  lemma RegisterCheckHolder(s: State, op: Op, ok: bool, t: State)
    requires s.holder == Some(op) && op.pc.RegisterCheck? && OpNext(s, op, ok) == Some(t)
    requires OpWell(op, s.rec.inst, s.loops) && HoldWell(op, s)
    ensures t.holder == Some(op.(pc := SpawnLoop))
    ensures OpWell(op.(pc := SpawnLoop), t.rec.inst, t.loops) && HoldWell(op.(pc := SpawnLoop), t)
  {
  }

  lemma SpawnLoopKeeps(s: State, op: Op, ok: bool, t: State)
    requires Inv(s) && s.holder == Some(op) && op.pc.SpawnLoop? && OpNext(s, op, ok) == Some(t)
    ensures Inv(t)
  {
    AdvanceBlock(s.rec, s.loops, op.loop, t.loops[op.loop]);
    SumUpdate(Counts, s.loops, op.loop, t.loops[op.loop]);
    assert Unwinding(t.loops[op.loop].pc);
  }

  lemma UnlockKeeps(s: State, op: Op, ok: bool, t: State)
    requires Inv(s) && s.holder == Some(op) && op.pc.Unlock? && OpNext(s, op, ok) == Some(t)
    ensures Inv(t)
  {
  }

  lemma RequestedLoopKeeps(s: State, k: nat, more: bool, t: State)
    requires Inv(s) && k < |s.loops| && s.loops[k].pc.Requested? && LoopNext(s, k, more) == Some(t)
    ensures Inv(t)
  {
    AdvanceBlock(s.rec, s.loops, k, t.loops[k]);
    SumUpdate(Counts, s.loops, k, t.loops[k]);
    if s.rec.checking {
      UnwindingKept(s.loops, k, t.loops[k]);
    }
  }

  lemma AddedLoopKeeps(s: State, k: nat, more: bool, t: State)
    requires Inv(s) && k < |s.loops| && s.loops[k].pc.Added? && LoopNext(s, k, more) == Some(t)
    ensures Inv(t)
  {
    RegisterBlock(s.rec, s.loops, k);
    SumUpdate(Counts, s.loops, k, t.loops[k]);
    assert Unwinding(t.loops[k].pc);
    assert t == s.(rec := t.rec, loops := s.loops[k := s.loops[k].(pc := Listed)]);
    if s.holder.Some? {
      AddedLoopHolder(s, s.holder.value, k, t);
    }
  }

  lemma AddedLoopHolder(s: State, op: Op, k: nat, t: State)
    requires k < |s.loops| && s.loops[k].pc.Added? && !s.loops[k].byMove
    requires t == s.(rec := Registered(s.rec, k), loops := s.loops[k := s.loops[k].(pc := Listed)])
    requires OpWell(op, s.rec.inst, s.loops) && HoldWell(op, s)
    ensures OpWell(op, t.rec.inst, t.loops) && HoldWell(op, t)
  {
  }

  lemma ListedLoopKeeps(s: State, k: nat, more: bool, t: State)
    requires Inv(s) && k < |s.loops| && s.loops[k].pc.Listed? && LoopNext(s, k, more) == Some(t)
    ensures Inv(t)
  {
    AdvanceBlock(s.rec, s.loops, k, t.loops[k]);
    SumUpdate(Counts, s.loops, k, t.loops[k]);
    assert Unwinding(t.loops[k].pc);
  }

  lemma SpawnedLoopKeeps(s: State, k: nat, more: bool, t: State)
    requires Inv(s) && k < |s.loops| && s.loops[k].pc.Spawned? && LoopNext(s, k, more) == Some(t)
    ensures Inv(t)
  {
    AdvanceBlock(s.rec, s.loops, k, t.loops[k]);
    SumUpdate(Counts, s.loops, k, t.loops[k]);
    assert Unwinding(t.loops[k].pc);
  }

  lemma TestingLoopKeeps(s: State, k: nat, more: bool, t: State)
    requires Inv(s) && k < |s.loops| && s.loops[k].pc.Testing? && LoopNext(s, k, more) == Some(t)
    ensures Inv(t)
  {
    AdvanceBlock(s.rec, s.loops, k, t.loops[k]);
    SumUpdate(Counts, s.loops, k, t.loops[k]);
    assert Unwinding(t.loops[k].pc);
  }

  lemma HashingLoopKeeps(s: State, k: nat, more: bool, t: State)
    requires Inv(s) && k < |s.loops| && s.loops[k].pc.Hashing? && LoopNext(s, k, more) == Some(t)
    ensures Inv(t)
  {
    AdvanceBlock(s.rec, s.loops, k, t.loops[k]);
    SumUpdate(Counts, s.loops, k, t.loops[k]);
    assert Unwinding(t.loops[k].pc);
  }

  lemma ClearingLoopKeeps(s: State, k: nat, more: bool, t: State)
    requires Inv(s) && k < |s.loops| && s.loops[k].pc.Clearing? && LoopNext(s, k, more) == Some(t)
    ensures Inv(t)
  {
    ClearBlock(s, k);
    ClearCount(s, k);
  }

  lemma FinishingLoopKeeps(s: State, k: nat, more: bool, t: State)
    requires Inv(s) && k < |s.loops| && s.loops[k].pc.Finishing? && LoopNext(s, k, more) == Some(t)
    ensures Inv(t)
  {
    AdvanceBlock(s.rec, s.loops, k, t.loops[k]);
    SumUpdate(Counts, s.loops, k, t.loops[k]);
    if s.rec.checking {
      UnwindingKept(s.loops, k, t.loops[k]);
    }
  }

  lemma EpilogueLoopKeeps(s: State, k: nat, more: bool, t: State)
    requires Inv(s) && k < |s.loops| && s.loops[k].pc.Epilogue? && LoopNext(s, k, more) == Some(t)
    ensures Inv(t)
  {
    AdvanceBlock(s.rec, s.loops, k, t.loops[k]);
    SumUpdate(Counts, s.loops, k, t.loops[k]);
    if s.rec.checking {
      UnwindingKept(s.loops, k, t.loops[k]);
    }
  }

  lemma LoopStepKeeps(s: State, k: nat, more: bool, t: State)
    requires Inv(s) && k < |s.loops| && LoopNext(s, k, more) == Some(t)
    ensures Inv(t)
  {
    match s.loops[k].pc
    case Requested => RequestedLoopKeeps(s, k, more, t);
    case Added => AddedLoopKeeps(s, k, more, t);
    case Listed => ListedLoopKeeps(s, k, more, t);
    case Spawned => SpawnedLoopKeeps(s, k, more, t);
    case Testing => TestingLoopKeeps(s, k, more, t);
    case Hashing => HashingLoopKeeps(s, k, more, t);
    case Clearing => ClearingLoopKeeps(s, k, more, t);
    case Finishing => FinishingLoopKeeps(s, k, more, t);
    case Epilogue => EpilogueLoopKeeps(s, k, more, t);
    case Over =>
  }

  lemma OpStepKeeps(s: State, op: Op, ok: bool, t: State)
    requires Inv(s) && s.holder == Some(op) && OpNext(s, op, ok) == Some(t)
    ensures Inv(t)
  {
    match op.pc
    case CancelCheck => CancelCheckKeeps(s, op, ok, t);
    case AwaitChecks => AwaitChecksKeeps(s, op, ok, t);
    case ReadInst => ReadInstKeeps(s, op, ok, t);
    case DeleteEntry => DeleteEntryKeeps(s, op, ok, t);
    case Hold => HoldKeeps(s, op, ok, t);
    case Rearrange => RearrangeKeeps(s, op, ok, t);
    case ReadStats => ReadStatsKeeps(s, op, ok, t);
    case Fold => FoldKeeps(s, op, ok, t);
    case DropInst => DropInstKeeps(s, op, ok, t);
    case ReAdd => ReAddKeeps(s, op, ok, t);
    case Swap => SwapKeeps(s, op, ok, t);
    case AddCheck => AddCheckKeeps(s, op, ok, t);
    case RegisterCheck => RegisterCheckKeeps(s, op, ok, t);
    case SpawnLoop => SpawnLoopKeeps(s, op, ok, t);
    case Unlock => UnlockKeeps(s, op, ok, t);
  }

  lemma StartRecheckKeeps(s: State, t: State)
    requires Inv(s) && Step(s, StartRecheck) == Some(t)
    ensures Inv(t)
  {
    var asked := Loop(false, Requested, 0, false);
    BeginBlock(s.rec, s.loops, asked);
    SumSnoc(Counts, s.loops, asked);
    if s.rec.checking {
      var k :| 0 <= k < |s.loops| && Unwinding(s.loops[k].pc);
      assert Unwinding(t.loops[k].pc);
    }
  }

  lemma PauseKeeps(s: State, paused: bool, t: State)
    requires Inv(s) && Step(s, Pause(paused)) == Some(t)
    ensures Inv(t)
  {
    CancelBlock(s.rec, s.loops);
  }

  lemma CancelAllKeeps(s: State, t: State)
    requires Inv(s) && Step(s, CancelAll) == Some(t)
    ensures Inv(t)
  {
    CancelBlock(s.rec, s.loops);
  }

  lemma TransferKeeps(s: State, j: nat, moved: Bytes, t: State)
    requires Inv(s) && Step(s, Transfer(j, moved)) == Some(t)
    ensures Inv(t)
  {
    var counted := Counted(s.insts, s.rec.inst, s.holder);
    TransferBalance(s.restored, s.insts, j, t.insts[j], moved, s.excess, s.rec.base, s.lost, counted);
  }

  lemma StepKeeps(s: State, e: Event)
    requires Inv(s) && Step(s, e).Some?
    ensures Inv(Step(s, e).value)
  {
    var t := Step(s, e).value;
    match e
    case StartOp(kind) =>
    case EnterOp(kind) =>
    case OpStep(ok) => OpStepKeeps(s, s.holder.value, ok, t);
    case StartRecheck => StartRecheckKeeps(s, t);
    case LoopStep(k, more) => LoopStepKeeps(s, k, more, t);
    case Pause(paused) => PauseKeeps(s, paused, t);
    case CancelAll => CancelAllKeeps(s, t);
    case Transfer(j, moved) => TransferKeeps(s, j, moved, t);
  }

  // The invariant after any run.
  lemma Always(paused: bool, restored: Bytes, events: seq<Event>)
    requires Run(Step, Init(paused, restored), events).Some?
    ensures Inv(Run(Step, Init(paused, restored), events).value)
  {
    InitInv(paused, restored);
    forall s, e | Inv(s) && Step(s, e).Some?
      ensures Inv(Step(s, e).value)
    {
      StepKeeps(s, e);
    }
    InvariantOverRuns(Inv, Step, Init(paused, restored), events);
  }
}
