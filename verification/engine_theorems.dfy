// The engine's promises about one torrent's threads, over every run.
module EngineTheorems {
  import opened Runs
  import opened Sums
  import opened TrackedRecord
  import opened EngineSteps
  import opened EngineSafety

  // ------------------------------------------------------------------
  // Verifications and the drop of an instance
  // ------------------------------------------------------------------

  // checkWG counts exactly the live verifications, and a torrent that says
  // it is being checked has one that has not unwound.
  lemma ChecksAreCounted(paused: bool, restored: Bytes, events: seq<Event>)
    requires Run(Step, Init(paused, restored), events).Some?
    ensures var s := Run(Step, Init(paused, restored), events).value;
            && s.rec.checks == LiveCount(s.loops)
            && (s.rec.checking ==> exists k :: 0 <= k < |s.loops| && Live(s.loops[k].pc))
  {
    Always(paused, restored, events);
    var s := Run(Step, Init(paused, restored), events).value;
    if s.rec.checking {
      var k :| 0 <= k < |s.loops| && Unwinding(s.loops[k].pc);
      assert Live(s.loops[k].pc);
    }
  }

  // When an operation is about to drop an instance, the verifications that
  // are live are exactly the rechecks added since it waited for them that
  // have not ended.
  lemma NoDropUnderACheck(paused: bool, restored: Bytes, events: seq<Event>, k: nat)
    requires Run(Step, Init(paused, restored), events).Some?
    requires var s := Run(Step, Init(paused, restored), events).value;
             s.holder.Some? && s.holder.value.pc.DropInst? && k < |s.loops|
    ensures var s := Run(Step, Init(paused, restored), events).value;
            Live(s.loops[k].pc) <==> k in s.begun && !s.loops[k].pc.Epilogue? && !s.loops[k].pc.Over?
  {
    Always(paused, restored, events);
  }

  // A verification's step leaves everything but its own record alone.
  lemma LoopStepFrame(s: State, j: nat, more: bool, t: State)
    requires j < |s.loops| && LoopNext(s, j, more) == Some(t)
    ensures t.insts == s.insts && t.holder == s.holder && t.waiting == s.waiting && t.restored == s.restored
    ensures t.rec.present == s.rec.present && t.rec.inst == s.rec.inst && |t.loops| == |s.loops|
  {
    match s.loops[j].pc
    case Requested =>
    case Added =>
    case Listed =>
    case Spawned =>
    case Testing =>
    case Hashing =>
    case Clearing =>
    case Finishing =>
    case Epilogue =>
    case Over =>
  }

  // What cancelCheck reaches: of the verifications that are under way when
  // an operation cancels, exactly the orphans go on uncancelled.
  lemma CancelMissesOrphans(paused: bool, restored: Bytes, events: seq<Event>, ok: bool, k: nat)
    requires Run(Step, Init(paused, restored), events).Some?
    requires var s := Run(Step, Init(paused, restored), events).value;
             s.holder.Some? && s.holder.value.pc.CancelCheck? && k < |s.loops| && Unwinding(s.loops[k].pc)
    ensures var s := Run(Step, Init(paused, restored), events).value;
            var t := Step(s, OpStep(ok));
            t.Some? && (k !in t.value.rec.cancelled <==> s.loops[k].orphan)
  {
    Always(paused, restored, events);
  }

  // A verification whose wait group has been raised and which has not been
  // registered yet is live, so the operation waits for it, and no
  // cancellation reaches it before it registers.
  lemma CancelMissesUnregistered(paused: bool, restored: Bytes, events: seq<Event>, ok: bool, k: nat)
    requires Run(Step, Init(paused, restored), events).Some?
    requires var s := Run(Step, Init(paused, restored), events).value;
             s.holder.Some? && s.holder.value.pc.CancelCheck? && k < |s.loops| && s.loops[k].pc.Added?
    ensures var t := Step(Run(Step, Init(paused, restored), events).value, OpStep(ok));
            t.Some? && k !in t.value.rec.cancelled && t.value.rec.checks > 0
  {
    Always(paused, restored, events);
    SumAtLeast(Counts, Run(Step, Init(paused, restored), events).value.loops, k);
  }

  ghost predicate OrphanRuns(s: State, k: nat) {
    Inv(s) && k < |s.loops| && Unwinding(s.loops[k].pc) && s.loops[k].orphan
  }

  // Nothing that happens later cancels an orphan: it is an orphan until it
  // has ended by itself.
  lemma OrphanAfterLoopStep(s: State, j: nat, more: bool, t: State, k: nat)
    requires k < |s.loops| && j < |s.loops| && s.loops[k].orphan && LoopNext(s, j, more) == Some(t)
    ensures |t.loops| == |s.loops| && t.loops[k].orphan
  {
    match s.loops[j].pc
    case Requested =>
    case Added =>
    case Listed =>
    case Spawned =>
    case Testing =>
    case Hashing =>
    case Clearing =>
    case Finishing =>
    case Epilogue =>
    case Over =>
  }

  lemma OrphanAfterOpStep(s: State, op: Op, ok: bool, t: State, k: nat)
    requires k < |s.loops| && s.loops[k].orphan && OpNext(s, op, ok) == Some(t)
    ensures k < |t.loops| && t.loops[k].orphan
  {
    if op.pc.RegisterCheck? || op.pc.SpawnLoop? {
      assert t.loops == s.loops[op.loop := t.loops[op.loop]];
    } else if op.pc.AddCheck? {
    } else {
      assert t.loops == s.loops;
    }
  }

  lemma OrphanStep(s: State, e: Event, k: nat)
    requires OrphanRuns(s, k) && Step(s, e).Some?
    ensures var t := Step(s, e).value;
            k < |t.loops| && (Unwinding(t.loops[k].pc) ==> OrphanRuns(t, k) && k !in t.rec.cancelled)
  {
    StepKeeps(s, e);
    if e.LoopStep? {
      OrphanAfterLoopStep(s, e.loop, e.more, Step(s, e).value, k);
    } else if e.OpStep? {
      OrphanAfterOpStep(s, s.holder.value, e.ok, Step(s, e).value, k);
    }
  }

  // ------------------------------------------------------------------
  // Totals
  // ------------------------------------------------------------------

  // What the operation inside opMu has put into the totals and is still
  // counted by the instance: a fold's, until the swap.
  function Doubled(s: State): Bytes
    requires s.rec.inst < |s.insts|
  {
    if s.holder.Some? && Doubling(s.holder.value) then s.insts[s.rec.inst].bytes else NO_BYTES
  }

  predicate Doubling(op: Op) {
    !op.kind.Remove? && (op.pc.DropInst? || op.pc.ReAdd? || op.pc.Swap?)
  }

  // What the instance about to be swapped in has moved already.
  function Unswapped(s: State): Bytes {
    if s.holder.Some? && s.holder.value.pc.Swap? && s.holder.value.added < |s.insts|
    then s.insts[s.holder.value.added].bytes
    else NO_BYTES
  }

  // At every point of every run, what is reported is what was ever moved,
  // less what was moved while nobody counted it, plus what is counted twice:
  // by a fold until its swap, and for good by a re-add that failed.
  lemma ReportedTotals(s: State)
    requires Inv(s)
    ensures Reported(s).Plus(s.lost).Plus(Unswapped(s)) == Ever(s).Plus(s.excess).Plus(Doubled(s))
  {
    var inst := s.insts[s.rec.inst].bytes;
    var counted := Counted(s.insts, s.rec.inst, s.holder);
    assert counted.Plus(Doubled(s)) == inst.Plus(Unswapped(s)) by {
      if s.holder.Some? {
        CountedInOperation(s, s.holder.value);
      }
    }
  }

  lemma CountedInOperation(s: State, op: Op)
    requires Inv(s) && s.holder == Some(op)
    ensures Counted(s.insts, s.rec.inst, s.holder).Plus(Doubled(s)) == s.insts[s.rec.inst].bytes.Plus(Unswapped(s))
  {
    match op.pc
    case DropInst =>
    case ReAdd =>
    case Swap =>
    case _ =>
  }

  lemma TotalsAlways(paused: bool, restored: Bytes, events: seq<Event>)
    requires Run(Step, Init(paused, restored), events).Some?
    ensures var s := Run(Step, Init(paused, restored), events).value;
            && s.rec.inst < |s.insts|
            && Reported(s).Plus(s.lost).Plus(Unswapped(s)) == Ever(s).Plus(s.excess).Plus(Doubled(s))
  {
    Always(paused, restored, events);
    ReportedTotals(Run(Step, Init(paused, restored), events).value);
  }

  // In the middle of an operation the same holds up to the fold, and again
  // from the swap on.
  lemma TotalsDuringOperation(paused: bool, restored: Bytes, events: seq<Event>)
    requires Run(Step, Init(paused, restored), events).Some?
    requires var s := Run(Step, Init(paused, restored), events).value; s.holder.Some? && !Doubling(s.holder.value)
    ensures var s := Run(Step, Init(paused, restored), events).value;
            s.rec.inst < |s.insts| && Reported(s).Plus(s.lost) == Ever(s).Plus(s.excess)
  {
    Always(paused, restored, events);
    TotalsAlways(paused, restored, events);
  }

  // While no operation is inside opMu the totals are right exactly when as
  // much was lost between a fold and its drop as failed re-adds count twice.
  lemma TotalsConserved(paused: bool, restored: Bytes, events: seq<Event>)
    requires Run(Step, Init(paused, restored), events).Some?
    requires Run(Step, Init(paused, restored), events).value.holder.None?
    ensures var s := Run(Step, Init(paused, restored), events).value;
            && s.rec.inst < |s.insts|
            && Reported(s).Plus(s.lost) == Ever(s).Plus(s.excess)
            && (Reported(s) == Ever(s) <==> s.lost == s.excess)
  {
    TotalsAlways(paused, restored, events);
  }

  // Between the fold and the swap every byte of the old instance is
  // reported twice, and at the swap none of the new one's.
  lemma FoldedTwice(paused: bool, restored: Bytes, events: seq<Event>)
    requires Run(Step, Init(paused, restored), events).Some?
    requires var s := Run(Step, Init(paused, restored), events).value; s.holder.Some? && Doubling(s.holder.value)
    ensures var s := Run(Step, Init(paused, restored), events).value;
            var op := s.holder.value;
            && s.rec.inst < |s.insts| && (op.pc.Swap? ==> op.added < |s.insts|)
            && Reported(s).Plus(s.lost).Plus(if op.pc.Swap? then s.insts[op.added].bytes else NO_BYTES)
               == Ever(s).Plus(s.excess).Plus(s.insts[s.rec.inst].bytes)
  {
    Always(paused, restored, events);
    TotalsAlways(paused, restored, events);
  }

  // ------------------------------------------------------------------
  // Instances
  // ------------------------------------------------------------------

  // However operations queue up, the library never runs two instances of
  // one torrent.
  lemma OneInstanceRuns(paused: bool, restored: Bytes, events: seq<Event>, i: nat, j: nat)
    requires Run(Step, Init(paused, restored), events).Some?
    requires var s := Run(Step, Init(paused, restored), events).value;
             i < |s.insts| && j < |s.insts| && !s.insts[i].dropped && !s.insts[j].dropped
    ensures i == j
  {
    Always(paused, restored, events);
  }

  // ------------------------------------------------------------------
  // The hold on data during a move or a purge
  // ------------------------------------------------------------------

  // An operation that finds every earlier move's goroutine over keeps its
  // hold until it lets go of it itself; and the hold is lost exactly when
  // such a goroutine has let go of it.
  lemma HoldLasts(paused: bool, restored: Bytes, events: seq<Event>)
    requires Run(Step, Init(paused, restored), events).Some?
    requires var s := Run(Step, Init(paused, restored), events).value; s.holder.Some? && Holding(s.holder.value)
    ensures var s := Run(Step, Init(paused, restored), events).value;
            (s.rec.hold <==> !s.staleRelease) && (!s.pendingRelease ==> s.rec.hold)
  {
    Always(paused, restored, events);
  }

  // ------------------------------------------------------------------
  // How far a verification goes
  // ------------------------------------------------------------------

  // One that nobody cancels hashes as many pieces as there are: each takes it
  // to the next test with nothing else changed, and the last to its end.
  lemma {:induction false} HashesEveryPiece(s: State, k: nat, pieces: nat)
    requires k < |s.loops| && s.loops[k].pc.Testing? && k !in s.rec.cancelled
    ensures Run(Step, s, Same(LoopStep(k, true), 2 * pieces)) == Some(s)
    ensures Step(s, LoopStep(k, false)) == Some(SetLoop(s, k, Clearing))
  {
    if pieces == 0 {
      assert Same(LoopStep(k, true), 0) == [];
    } else {
      HashesEveryPiece(s, k, pieces - 1);
      var hashing := SetLoop(s, k, Hashing);
      OnceMore(Step, s, LoopStep(k, true), 2 * pieces - 2, s, hashing);
      assert hashing.loops[k := hashing.loops[k].(pc := Testing)] == s.loops;
      OnceMore(Step, s, LoopStep(k, true), 2 * pieces - 1, hashing, s);
    }
  }

  // A cancelled one hashes no further piece than the one it is at, however
  // many are left.
  lemma CancelledStops(s: State, k: nat, more: bool)
    requires k < |s.loops| && k in s.rec.cancelled
    ensures s.loops[k].pc.Testing? ==> Step(s, LoopStep(k, more)) == Some(SetLoop(s, k, Clearing))
    ensures s.loops[k].pc.Hashing? ==>
              Run(Step, s, [LoopStep(k, true), LoopStep(k, more)]) == Some(SetLoop(s, k, Clearing))
  {
    if s.loops[k].pc.Hashing? {
      assert Run(Step, s, []) == Some(s);
      RunSnoc(Step, s, [], LoopStep(k, true));
      RunSnoc(Step, s, [] + [LoopStep(k, true)], LoopStep(k, more));
      assert [] + [LoopStep(k, true)] + [LoopStep(k, more)] == [LoopStep(k, true), LoopStep(k, more)];
      var testing := SetLoop(s, k, Testing);
      assert SetLoop(testing, k, Clearing).loops == SetLoop(s, k, Clearing).loops;
    }
  }

  // ------------------------------------------------------------------
  // Runs that show each side condition is needed
  // ------------------------------------------------------------------

  ghost predicate Reaches(s: State) {
    exists events :: Run(Step, Init(false, NO_BYTES), events) == Some(s)
  }

  // The reachable states as a set, known by these two facts alone, so that
  // the runs below can be followed one step at a time.
  lemma Reachable() returns (r: iset<State>)
    ensures Closed(r) && Init(false, NO_BYTES) in r
    ensures forall s {:trigger Reaches(s)} :: s in r ==> Reaches(s)
  {
    r := iset s | Reaches(s);
    assert Run(Step, Init(false, NO_BYTES), []) == Some(Init(false, NO_BYTES));
    forall s, e | s in r && Step(s, e).Some?
      ensures Step(s, e).value in r
    {
      var events :| Run(Step, Init(false, NO_BYTES), events) == Some(s);
      RunSnoc(Step, Init(false, NO_BYTES), events, e);
      assert Run(Step, Init(false, NO_BYTES), events + [e]) == Some(Step(s, e).value);
    }
  }

  ghost predicate Closed(r: iset<State>) {
    forall s, e {:trigger Step(s, e)} :: s in r && Step(s, e).Some? ==> Step(s, e).value in r
  }

  lemma Then(r: iset<State>, s: State, e: Event) returns (t: State)
    requires Closed(r) && s in r && Step(s, e).Some?
    ensures t == Step(s, e).value && t in r
  {
    t := Step(s, e).value;
  }

  // No step of an operation moves data.
  lemma OpStepMoves(s: State, op: Op, ok: bool, t: State)
    requires OpNext(s, op, ok) == Some(t)
    ensures Total(t.insts) == Total(s.insts) && t.restored == s.restored
  {
    if op.pc.DropInst? {
      DropMoves(s, op, ok, t);
    } else if op.pc.ReAdd? {
      ReAddMoves(s, op, ok, t);
    } else {
      OpKeepsInsts(s, op, ok, t);
    }
  }

  lemma DropMoves(s: State, op: Op, ok: bool, t: State)
    requires op.pc.DropInst? && OpNext(s, op, ok) == Some(t)
    ensures Total(t.insts) == Total(s.insts) && t.restored == s.restored
  {
    TotalUpdate(s.insts, op.inst, t.insts[op.inst]);
  }

  lemma ReAddMoves(s: State, op: Op, ok: bool, t: State)
    requires op.pc.ReAdd? && OpNext(s, op, ok) == Some(t)
    ensures Total(t.insts) == Total(s.insts) && t.restored == s.restored
  {
    AddingNothing(s.insts, Inst(NO_BYTES, false));
  }

  lemma OpKeepsInsts(s: State, op: Op, ok: bool, t: State)
    requires !op.pc.DropInst? && !op.pc.ReAdd? && OpNext(s, op, ok) == Some(t)
    ensures t.insts == s.insts && t.restored == s.restored
  {
    match op.pc
    case CancelCheck =>
    case AwaitChecks =>
    case ReadInst =>
    case DeleteEntry =>
    case Hold =>
    case Rearrange =>
    case ReadStats =>
    case Fold =>
    case DropInst =>
    case ReAdd =>
    case Swap =>
    case AddCheck =>
    case RegisterCheck =>
    case SpawnLoop =>
    case Unlock =>
  }

  lemma OpThen(r: iset<State>, s: State, op: Op, ok: bool) returns (t: State)
    requires Closed(r) && s in r && s.holder == Some(op) && OpNext(s, op, ok).Some?
    ensures t == OpNext(s, op, ok).value && t in r && Total(t.insts) == Total(s.insts)
  {
    t := Then(r, s, OpStep(ok));
    OpStepMoves(s, op, ok, t);
  }

  lemma LoopThen(r: iset<State>, s: State, k: nat, more: bool) returns (t: State)
    requires Closed(r) && s in r && k < |s.loops| && LoopNext(s, k, more).Some?
    ensures t == LoopNext(s, k, more).value && t in r
  {
    t := Then(r, s, LoopStep(k, more));
  }

  // An operation queues, enters and cancels.
  lemma Enters(r: iset<State>, s: State, kind: Kind) returns (t: State)
    requires Closed(r) && s in r && s.rec.present && s.holder.None? && s.waiting == multiset{}
    ensures t in r
    ensures t == s.(holder := Some(Op(kind, AwaitChecks, 0, 0, NO_BYTES, 0)), rec := Cancelled(s.rec))
  {
    t := Then(r, s, StartOp(kind));
    t := Then(r, t, EnterOp(kind));
    t := Then(r, t, OpStep(true));
    assert t.waiting == s.waiting;
  }

  // It waits, and reads the instance it is going to rearrange.
  lemma Waits(r: iset<State>, s: State, op: Op) returns (t: State)
    requires Closed(r) && s in r && s.holder == Some(op) && op.pc.AwaitChecks? && s.rec.checks == 0 && !op.kind.Remove?
    ensures t in r
    ensures t == s.(holder := Some(op.(pc := Hold, inst := s.rec.inst)), begun := {})
  {
    t := OpThen(r, s, op, true);
    t := OpThen(r, t, op.(pc := ReadInst), true);
  }

  // It holds the data and reads the counters.
  lemma ReadsStats(r: iset<State>, s: State, op: Op) returns (t: State)
    requires Closed(r) && s in r && s.holder == Some(op) && op.pc.Hold? && op.inst < |s.insts|
    ensures t in r
    ensures t.holder == Some(op.(pc := Fold, seen := s.insts[op.inst].bytes)) && t.rec == Held(s.rec, op.kind.Purge?)
    ensures t.insts == s.insts && t.loops == s.loops && t.waiting == s.waiting
    ensures t.restored == s.restored && t.lost == s.lost && t.excess == s.excess && t.begun == s.begun
  {
    t := OpThen(r, s, op, true);
    if op.kind.Move? {
      t := OpThen(r, t, op.(pc := Rearrange), true);
    }
    t := OpThen(r, t, op.(pc := ReadStats), true);
  }

  // It folds the counters and drops the instance.
  lemma Drops(r: iset<State>, s: State, op: Op) returns (t: State)
    requires Closed(r) && s in r && s.holder == Some(op) && op.pc.Fold? && op.inst < |s.insts| && !op.kind.Remove?
    requires op.seen == s.insts[op.inst].bytes
    ensures t in r
    ensures t == s.(holder := Some(op.(pc := ReAdd)), rec := s.rec.(base := s.rec.base.Plus(op.seen)),
                    insts := s.insts[op.inst := s.insts[op.inst].(dropped := true)])
  {
    assert s.lost.Plus(op.seen.Beyond(op.seen)) == s.lost;
    t := OpThen(r, s, op, true);
    t := OpThen(r, t, op.(pc := DropInst), true);
  }

  // ---- a recheck behind the wait ----

  // The instance dropped next is the one verification k is hashing.
  ghost predicate DropsUnderHash(s: State, k: nat) {
    && s.holder.Some? && s.holder.value.pc.DropInst?
    && k < |s.loops| && s.loops[k].pc.Hashing? && s.loops[k].inst == s.holder.value.inst
    && s.loops[k].inst < |s.insts| && !s.insts[s.loops[k].inst].dropped
  }

  // A recheck begins and is registered.
  lemma RecheckBegins(r: iset<State>, s: State) returns (t: State)
    requires Closed(r) && s in r && s.rec.present && |s.loops| !in s.rec.cancelled
    ensures t in r && t.holder == s.holder && t.insts == s.insts && t.waiting == s.waiting
    ensures t.loops == s.loops + [Loop(false, Listed, 0, false)]
    ensures t.rec == Registered(s.rec, |s.loops|).(checks := s.rec.checks + 1)
  {
    var k := |s.loops|;
    t := Then(r, s, StartRecheck);
    t := LoopThen(r, t, k, true);
    t := LoopThen(r, t, k, true);
  }

  // A registered recheck reads the instance and hashes its first piece.
  lemma RecheckHashes(r: iset<State>, s: State, k: nat) returns (t: State)
    requires Closed(r) && s in r && k < |s.loops| && s.loops[k] == Loop(false, Listed, 0, false)
    requires k !in s.rec.cancelled
    ensures t in r && t.holder == s.holder && t.insts == s.insts && t.waiting == s.waiting && t.rec == s.rec
    ensures t.loops == s.loops[k := Loop(false, Hashing, s.rec.inst, false)]
  {
    t := LoopThen(r, s, k, true);
    t := LoopThen(r, t, k, true);
    t := LoopThen(r, t, k, true);
  }

  // A recheck that begins between a purge's wait and its drop is hashing
  // the instance that the purge drops.
  lemma RecheckReachesDrop()
    ensures exists s :: Reaches(s) && DropsUnderHash(s, 0)
  {
    var r := Reachable();
    var a := Init(false, NO_BYTES);
    var b := Enters(r, a, Purge);
    var c := Waits(r, b, b.holder.value);
    var d := RecheckBegins(r, c);
    var e := RecheckHashes(r, d, 0);
    var f := ReadsStats(r, e, e.holder.value);
    var g := OpThen(r, f, f.holder.value, true);
    assert Reaches(g) && DropsUnderHash(g, 0);
  }

  // ---- overlapping rechecks ----

  // An operation waits for a live verification that cancelCheck does not
  // reach and that has not been cancelled.
  ghost predicate WaitsForOrphan(s: State, k: nat) {
    && s.holder.Some? && s.holder.value.pc.AwaitChecks? && s.rec.checks > 0
    && k < |s.loops| && s.loops[k].pc.Hashing? && s.loops[k].orphan && k !in s.rec.cancelled && s.rec.cancel.None?
  }

  // A recheck started during another is orphaned when the older one ends,
  // and a purge then waits for all of it.
  lemma OverlapOrphans()
    ensures exists s :: Reaches(s) && WaitsForOrphan(s, 1)
  {
    var r := Reachable();
    var a := Init(false, NO_BYTES);
    var b := RecheckBegins(r, a);
    var c := RecheckHashes(r, b, 0);
    var d := RecheckBegins(r, c);
    var e := RecheckHashes(r, d, 1);
    var f := LoopThen(r, e, 0, false);
    var g := LoopThen(r, f, 0, false);
    assert g.loops[1].orphan && g.rec.cancel == None;
    var h := Enters(r, g, Purge);
    assert Reaches(h) && WaitsForOrphan(h, 1);
  }

  // ---- totals ----

  // A purge from its wait to the point where it adds the torrent again.
  lemma PurgeDrops(r: iset<State>, s: State) returns (t: State)
    requires Closed(r) && s in r && |s.insts| == 1 && s.rec.inst == 0 && s.rec.checks == 0
    requires s.holder == Some(Op(Purge, AwaitChecks, 0, 0, NO_BYTES, 0))
    ensures t in r && t.holder == Some(Op(Purge, ReAdd, 0, 0, s.insts[0].bytes, 0)) && t.rec.inst == 0
    ensures |t.insts| == 1 && t.insts[0] == Inst(s.insts[0].bytes, true)
    ensures t.rec.base == s.rec.base.Plus(s.insts[0].bytes)
    ensures t.rec.present == s.rec.present && t.waiting == s.waiting && t.lost == s.lost && t.restored == s.restored
  {
    var op := Op(Purge, AwaitChecks, 0, 0, NO_BYTES, 0);
    t := Waits(r, s, op);
    t := ReadsStats(r, t, op.(pc := Hold));
    t := Drops(r, t, op.(pc := Fold, seen := s.insts[0].bytes));
  }

  // The counters of a torrent whose re-add fails stay counted twice.
  lemma FailedReAddCountsTwice()
    ensures exists s :: Reaches(s) && s.holder.None? && s.rec.inst < |s.insts| && s.lost == NO_BYTES
                     && Ever(s) == Bytes(1, 2) && Reported(s) == Bytes(2, 4)
  {
    var r := Reachable();
    var a := Init(false, NO_BYTES);
    var b := Then(r, a, Transfer(0, Bytes(1, 2)));
    var c := Enters(r, b, Purge);
    var d := PurgeDrops(r, c);
    var op := Op(Purge, ReAdd, 0, 0, Bytes(1, 2), 0);
    var e := OpThen(r, d, op, false);
    var f := OpThen(r, e, op.(pc := Unlock), true);
    TotalOne(Inst(Bytes(1, 2), true));
    assert f.insts == [Inst(Bytes(1, 2), true)];
    assert Ever(f) == Bytes(1, 2);
    assert Reported(f) == Bytes(2, 4);
    assert Reaches(f);
  }

  // ---- the hold of a second move ----

  // A move from its wait to the point where it adds the torrent again.
  lemma MoveDrops(r: iset<State>, s: State) returns (t: State)
    requires Closed(r) && s in r && |s.insts| == 1 && s.rec.inst == 0 && s.rec.checks == 0
    requires s.holder == Some(Op(Move, AwaitChecks, 0, 0, NO_BYTES, 0))
    ensures t in r && t.waiting == s.waiting && t.loops == s.loops && |t.insts| == 1
    ensures t.holder == Some(Op(Move, ReAdd, 0, 0, s.insts[0].bytes, 0))
    ensures t.rec == Held(s.rec, false).(base := s.rec.base.Plus(s.insts[0].bytes))
    ensures Total(t.insts) == Total(s.insts) && t.insts[0].bytes == s.insts[0].bytes
    ensures t.lost == s.lost && t.excess == s.excess && t.restored == s.restored
  {
    var op := Op(Move, AwaitChecks, 0, 0, NO_BYTES, 0);
    t := Waits(r, s, op);
    t := ReadsStats(r, t, op.(pc := Hold));
    t := Drops(r, t, op.(pc := Fold, seen := s.insts[0].bytes));
  }

  // It adds the new instance and swaps it in.
  lemma MoveSwaps(r: iset<State>, s: State, seen: Bytes) returns (t: State)
    requires Closed(r) && s in r && |s.insts| == 1
    requires s.holder == Some(Op(Move, ReAdd, 0, 0, seen, 0))
    ensures t in r && t.waiting == s.waiting && t.loops == s.loops
    ensures t.holder == Some(Op(Move, AddCheck, 0, 1, seen, 0)) && t.rec == s.rec.(inst := 1)
    ensures Total(t.insts) == Total(s.insts)
  {
    t := OpThen(r, s, Op(Move, ReAdd, 0, 0, seen, 0), true);
    t := OpThen(r, t, Op(Move, Swap, 0, 1, seen, 0), true);
  }

  // It begins the check of the new instance and leaves it running.
  lemma Spawns(r: iset<State>, s: State, seen: Bytes) returns (t: State)
    requires Closed(r) && s in r && s.loops == [] && s.holder == Some(Op(Move, AddCheck, 0, 1, seen, 0))
    ensures t in r && t.waiting == s.waiting && t.holder.None?
    ensures |t.loops| == 1 && t.loops[0].byMove && t.loops[0].pc.Spawned?
    ensures t.rec == Registered(s.rec, 0).(checks := s.rec.checks + 1)
    ensures Total(t.insts) == Total(s.insts)
  {
    t := Registers(r, s, seen);
    t := OpThen(r, t, Op(Move, SpawnLoop, 0, 1, seen, 0), true);
    t := OpThen(r, t, Op(Move, Unlock, 0, 1, seen, 0), true);
  }

  lemma Registers(r: iset<State>, s: State, seen: Bytes) returns (t: State)
    requires Closed(r) && s in r && s.loops == [] && s.holder == Some(Op(Move, AddCheck, 0, 1, seen, 0))
    ensures t in r && t.waiting == s.waiting && t.holder == Some(Op(Move, SpawnLoop, 0, 1, seen, 0))
    ensures |t.loops| == 1 && t.loops[0].byMove && t.loops[0].pc.Listed?
    ensures t.rec == Registered(s.rec, 0).(checks := s.rec.checks + 1)
    ensures Total(t.insts) == Total(s.insts)
  {
    t := OpThen(r, s, Op(Move, AddCheck, 0, 1, seen, 0), true);
    t := OpThen(r, t, Op(Move, RegisterCheck, 0, 1, seen, 0), true);
  }

  lemma LoopEnds(r: iset<State>, s: State) returns (t: State)
    requires Closed(r) && s in r && |s.loops| == 1 && s.loops[0].byMove && s.loops[0].pc.Spawned? && s.rec.checks == 1
    requires s.rec.cancel == Some(0)
    ensures t in r && |t.loops| == 1 && t.loops[0].byMove && t.loops[0].pc.Epilogue?
    ensures t.rec == Cleared(s.rec, 0).(checks := 0) && t.holder == s.holder && t.waiting == s.waiting
  {
    t := LoopThen(r, s, 0, false);
    t := LoopThen(r, t, 0, false);
    t := LoopThen(r, t, 0, false);
    t := LoopThen(r, t, 0, false);
  }

  // The goroutine of an earlier move, between telling checkWG it is done
  // and letting go of its hold, lets go of the next move's hold instead.
  lemma EarlierMoveReleasesHold()
    ensures exists s :: Reaches(s) && s.holder.Some? && s.holder.value.pc.Rearrange? && !s.rec.hold
  {
    var r := Reachable();
    var a := Init(false, NO_BYTES);
    var b := Enters(r, a, Move);
    var c := MoveDrops(r, b);
    var d := MoveSwaps(r, c, b.insts[0].bytes);
    var e := Spawns(r, d, b.insts[0].bytes);
    var f := LoopEnds(r, e);
    var g := SecondMoveLosesHold(r, f);
    assert Reaches(g);
  }

  lemma SecondMoveLosesHold(r: iset<State>, s: State) returns (t: State)
    requires Closed(r) && s in r && s.rec.present && s.holder.None? && s.waiting == multiset{} && s.rec.checks == 0
    requires |s.loops| == 1 && s.loops[0].byMove && s.loops[0].pc.Epilogue?
    ensures t in r && t.holder.Some? && t.holder.value.pc.Rearrange? && !t.rec.hold
  {
    t := Enters(r, s, Move);
    t := Waits(r, t, Op(Move, AwaitChecks, 0, 0, NO_BYTES, 0));
    t := OpThen(r, t, Op(Move, Hold, s.rec.inst, 0, NO_BYTES, 0), true);
    t := LoopThen(r, t, 0, true);
  }
}
