// Whether a removed torrent stays removed: what the operations that looked
// it up before the removal can still do to it.
module EngineRemoval {
  import opened Runs
  import opened Sums
  import opened TrackedRecord
  import opened EngineSteps
  import opened EngineSafety
  import opened EngineTheorems

  ghost predicate SomeRuns(s: State) {
    exists j :: 0 <= j < |s.insts| && !s.insts[j].dropped
  }

  // Some run from here has an instance of the torrent running.
  ghost predicate ComesBack(s: State) {
    exists more :: RunsAfter(s, more)
  }

  ghost predicate RunsAfter(s: State, more: seq<Event>) {
    Run(Step, s, more).Some? && SomeRuns(Run(Step, s, more).value)
  }

  // ------------------------------------------------------------------
  // Nothing but removals left
  // ------------------------------------------------------------------

  // The torrent is out of the list, no instance runs, and what is inside
  // or behind opMu are other removals of it.
  ghost predicate Emptied(s: State) {
    && !s.rec.present && Move !in s.waiting && Purge !in s.waiting && !SomeRuns(s)
    && (s.holder.Some? ==> s.holder.value.kind.Remove? && FindsNothing(s.holder.value.pc))
  }

  predicate FindsNothing(pc: OpPc) {
    pc.CancelCheck? || pc.AwaitChecks? || pc.DeleteEntry? || pc.Unlock?
  }

  lemma EmptiedOpStep(s: State, op: Op, ok: bool, t: State)
    requires Emptied(s) && s.holder == Some(op) && OpNext(s, op, ok) == Some(t)
    ensures Emptied(t)
  {
    assert t.insts == s.insts && t.waiting == s.waiting;
  }

  lemma EmptiedStep(s: State, e: Event)
    requires Emptied(s) && Step(s, e).Some?
    ensures Emptied(Step(s, e).value)
  {
    var t := Step(s, e).value;
    if e.OpStep? {
      EmptiedOpStep(s, s.holder.value, e.ok, t);
    } else if e.LoopStep? {
      LoopStepFrame(s, e.loop, e.more, t);
    } else if e.EnterOp? {
      assert e.kind.Remove? && t.insts == s.insts;
    } else {
      assert t.insts == s.insts;
    }
  }

  // Once only removals can still find the torrent it stays removed: no run
  // brings an instance of it back.
  lemma RemovedStaysRemoved(s: State, more: seq<Event>)
    requires Emptied(s) && Run(Step, s, more).Some?
    ensures Emptied(Run(Step, s, more).value)
  {
    forall a, e | Emptied(a) && Step(a, e).Some?
      ensures Emptied(Step(a, e).value)
    {
      EmptiedStep(a, e);
    }
    InvariantOverRuns(Emptied, Step, s, more);
  }

  // A removal that is about to drop the instance has taken the torrent out.
  predicate TakenOut(s: State) {
    s.holder.Some? && s.holder.value.kind.Remove? ==>
      FindsNothing(s.holder.value.pc) || (s.holder.value.pc.DropInst? && !s.rec.present)
  }

  lemma TakenOutOp(s: State, op: Op, ok: bool, t: State)
    requires TakenOut(s) && s.holder == Some(op) && OpNext(s, op, ok) == Some(t)
    ensures TakenOut(t)
  {
    if op.kind.Remove? {
      RemovalStep(s, op, ok, t);
    } else {
      KindKept(s, op, ok, t);
    }
  }

  lemma RemovalStep(s: State, op: Op, ok: bool, t: State)
    requires FindsNothing(op.pc) || op.pc.DropInst?
    requires op.kind.Remove? && OpNext(s, op, ok) == Some(t)
    ensures TakenOut(t)
  {
  }

  lemma KindKept(s: State, op: Op, ok: bool, t: State)
    requires OpNext(s, op, ok) == Some(t)
    ensures t.holder.Some? ==> t.holder.value.kind == op.kind
  {
    match op.pc
    case CancelCheck =>
    case AwaitChecks =>
    case ReadInst =>
    case DeleteEntry =>
    case Hold =>
    case Rearrange =>
    case ReadStats =>
    case Fold =>
    case DropInst =>
    case ReAdd =>
    case Swap =>
    case AddCheck =>
    case RegisterCheck =>
    case SpawnLoop =>
    case Unlock =>
  }

  lemma TakenOutStep(s: State, e: Event)
    requires TakenOut(s) && Step(s, e).Some?
    ensures TakenOut(Step(s, e).value)
  {
    if e.OpStep? {
      TakenOutOp(s, s.holder.value, e.ok, Step(s, e).value);
    } else if e.LoopStep? {
      LoopStepFrame(s, e.loop, e.more, Step(s, e).value);
    } else {
      assert Step(s, e).value.rec.present == s.rec.present;
    }
  }

  lemma TakenOutAlways(paused: bool, restored: Bytes, events: seq<Event>)
    requires Run(Step, Init(paused, restored), events).Some?
    ensures TakenOut(Run(Step, Init(paused, restored), events).value)
  {
    forall s, e | TakenOut(s) && Step(s, e).Some?
      ensures TakenOut(Step(s, e).value)
    {
      TakenOutStep(s, e);
    }
    InvariantOverRuns(TakenOut, Step, Init(paused, restored), events);
  }

  // ------------------------------------------------------------------
  // Verifications can always be run to their end
  // ------------------------------------------------------------------

  // A move's check that is not its goroutine's yet is stepped by the move.
  ghost predicate MoveStepsIt(s: State) {
    forall k | 0 <= k < |s.loops| && s.loops[k].byMove :: SteppedByMove(s.loops[k].pc, s.holder, k)
  }

  predicate SteppedByMove(pc: LoopPc, holder: Option<Op>, k: nat) {
    && !pc.Requested?
    && (pc.Added? ==> holder.Some? && holder.value.loop == k && holder.value.pc.RegisterCheck?)
    && (pc.Listed? ==> holder.Some? && holder.value.loop == k && holder.value.pc.SpawnLoop?)
  }

  lemma MoveStepsItOp(s: State, op: Op, ok: bool, t: State)
    requires MoveStepsIt(s) && s.holder == Some(op) && OpNext(s, op, ok) == Some(t)
    ensures MoveStepsIt(t)
  {
    if op.pc.AddCheck? {
      MoveAddsCheck(s, op, ok, t);
    } else if op.pc.RegisterCheck? || op.pc.SpawnLoop? {
      MoveStepsCheck(s, op, ok, t);
    } else {
      assert t.loops == s.loops;
    }
  }

  lemma MoveAddsCheck(s: State, op: Op, ok: bool, t: State)
    requires MoveStepsIt(s) && s.holder == Some(op) && OpNext(s, op, ok) == Some(t) && op.pc.AddCheck?
    ensures MoveStepsIt(t)
  {
    assert forall k | 0 <= k < |s.loops| :: t.loops[k] == s.loops[k];
  }

  lemma MoveStepsCheck(s: State, op: Op, ok: bool, t: State)
    requires MoveStepsIt(s) && s.holder == Some(op) && OpNext(s, op, ok) == Some(t)
    requires op.pc.RegisterCheck? || op.pc.SpawnLoop?
    ensures MoveStepsIt(t)
  {
    assert forall k | 0 <= k < |s.loops| && k != op.loop :: t.loops[k] == s.loops[k];
  }

  lemma MoveStepsItLoop(s: State, j: nat, more: bool, t: State)
    requires MoveStepsIt(s) && j < |s.loops| && LoopNext(s, j, more) == Some(t)
    ensures MoveStepsIt(t)
  {
    LoopStepFrame(s, j, more, t);
    match s.loops[j].pc
    case Requested =>
    case Added =>
    case Listed =>
    case Spawned =>
    case Testing =>
    case Hashing =>
    case Clearing =>
    case Finishing =>
    case Epilogue =>
    case Over =>
  }

  lemma MoveStepsItStep(s: State, e: Event)
    requires MoveStepsIt(s) && Step(s, e).Some?
    ensures MoveStepsIt(Step(s, e).value)
  {
    var t := Step(s, e).value;
    if e.OpStep? {
      MoveStepsItOp(s, s.holder.value, e.ok, t);
    } else if e.LoopStep? {
      MoveStepsItLoop(s, e.loop, e.more, t);
    } else if e.StartRecheck? {
      assert forall k | 0 <= k < |s.loops| :: t.loops[k] == s.loops[k];
    } else {
      assert t.loops == s.loops;
    }
  }

  ghost predicate Sane(s: State) {
    Inv(s) && MoveStepsIt(s)
  }

  lemma SaneAlways(paused: bool, restored: Bytes, events: seq<Event>)
    requires Run(Step, Init(paused, restored), events).Some?
    ensures Sane(Run(Step, Init(paused, restored), events).value)
  {
    Always(paused, restored, events);
    forall s, e | MoveStepsIt(s) && Step(s, e).Some?
      ensures MoveStepsIt(Step(s, e).value)
    {
      MoveStepsItStep(s, e);
    }
    InvariantOverRuns(MoveStepsIt, Step, Init(paused, restored), events);
  }

  // How many steps a verification that finds no more pieces has left.
  function Left(l: Loop): nat {
    match l.pc
    case Requested => 0
    case Added => 6
    case Listed => 5
    case Spawned => 4
    case Testing => 3
    case Hashing => 3
    case Clearing => 2
    case Finishing => 1
    case Epilogue => 0
    case Over => 0
  }

  // A verification ahead of its end takes a step towards it.
  lemma LoopGoesOn(s: State, k: nat)
    requires k < |s.loops| && Live(s.loops[k].pc) && s.rec.checks > 0
    requires s.loops[k].byMove ==> !s.loops[k].pc.Added? && !s.loops[k].pc.Listed?
    ensures var t := LoopNext(s, k, false);
            t.Some? && |t.value.loops| == |s.loops| && Sum(Left, t.value.loops) < Sum(Left, s.loops)
  {
    if s.loops[k].pc.Clearing? {
      ClearingGoesOn(s, k);
    } else {
      LoopNearsItsEnd(s, k);
    }
  }

  lemma LoopNearsItsEnd(s: State, k: nat)
    requires k < |s.loops| && Live(s.loops[k].pc) && s.rec.checks > 0 && !s.loops[k].pc.Clearing?
    requires s.loops[k].byMove ==> !s.loops[k].pc.Added? && !s.loops[k].pc.Listed?
    ensures var t := LoopNext(s, k, false);
            t.Some? && |t.value.loops| == |s.loops| && Sum(Left, t.value.loops) < Sum(Left, s.loops)
  {
    var after := LoopNext(s, k, false).value.loops;
    LoopStepsAlone(s, k);
    SumUpdate(Left, s.loops, k, after[k]);
  }

  lemma LoopStepsAlone(s: State, k: nat)
    requires k < |s.loops| && Live(s.loops[k].pc) && s.rec.checks > 0 && !s.loops[k].pc.Clearing?
    requires s.loops[k].byMove ==> !s.loops[k].pc.Added? && !s.loops[k].pc.Listed?
    ensures var t := LoopNext(s, k, false);
            && t.Some? && |t.value.loops| == |s.loops| && t.value.loops == s.loops[k := t.value.loops[k]]
            && Left(t.value.loops[k]) < Left(s.loops[k])
  {
    match s.loops[k].pc
    case Requested =>
    case Added =>
    case Listed =>
    case Spawned =>
    case Testing =>
    case Hashing =>
    case Clearing =>
    case Finishing =>
    case Epilogue =>
    case Over =>
  }

  lemma ClearingGoesOn(s: State, k: nat)
    requires k < |s.loops| && s.loops[k].pc.Clearing?
    ensures |AfterClear(s, k)| == |s.loops| && Sum(Left, AfterClear(s, k)) < Sum(Left, s.loops)
  {
    var finished := s.loops[k].(pc := Finishing);
    var loops := s.loops[k := finished];
    SumUpdate(Left, s.loops, k, finished);
    if s.rec.cancel.Some? && s.rec.cancel.value < |loops| {
      var j := s.rec.cancel.value;
      SumUpdate(Left, loops, j, loops[j].(orphan := true));
    }
  }

  // An operation's wait is as short as the verifications are made to be.
  lemma {:induction false} Drains(r: iset<State>, s: State, op: Op) returns (t: State)
    requires Closed(r) && s in r && Sane(s) && s.holder == Some(op) && op.pc.AwaitChecks?
    ensures t in r && t.holder == s.holder && t.rec.checks == 0 && t.rec.inst < |t.insts|
    decreases Sum(Left, s.loops)
  {
    if s.rec.checks == 0 {
      t := s;
    } else {
      var k := SumPositive(Counts, s.loops);
      LoopGoesOn(s, k);
      var u := Then(r, s, LoopStep(k, false));
      StepKeeps(s, LoopStep(k, false));
      MoveStepsItStep(s, LoopStep(k, false));
      LoopStepFrame(s, k, false, u);
      t := Drains(r, u, op);
    }
  }

  // ------------------------------------------------------------------
  // Brought back
  // ------------------------------------------------------------------

  lemma From(s: State) returns (r: iset<State>)
    ensures Closed(r) && s in r
    ensures forall t {:trigger t in r} :: t in r && SomeRuns(t) ==> ComesBack(s)
  {
    r := iset t | ReachedFrom(s, t);
    assert Run(Step, s, []) == Some(s);
    forall t, e | t in r && Step(t, e).Some?
      ensures Step(t, e).value in r
    {
      var more :| Run(Step, s, more) == Some(t);
      RunSnoc(Step, s, more, e);
      assert Run(Step, s, more + [e]) == Some(Step(t, e).value);
    }
    forall t | t in r && SomeRuns(t)
      ensures ComesBack(s)
    {
      var more :| Run(Step, s, more) == Some(t);
      assert RunsAfter(s, more);
    }
  }

  ghost predicate ReachedFrom(s: State, t: State) {
    exists more :: Run(Step, s, more) == Some(t)
  }

  // A move or purge that waits behind a removal goes all the way, and puts
  // an instance into the library again.
  lemma AddsAgain(r: iset<State>, s: State, op: Op) returns (t: State)
    requires Closed(r) && s in r && s.holder == Some(op) && op.pc.AwaitChecks? && !op.kind.Remove?
    requires s.rec.checks == 0 && s.rec.inst < |s.insts|
    ensures t in r && SomeRuns(t)
  {
    t := Waits(r, s, op);
    var holds := op.(pc := Hold, inst := s.rec.inst);
    var u := ReadsStats(r, t, holds);
    var folds := holds.(pc := Fold, seen := t.insts[holds.inst].bytes);
    t := Drops(r, u, folds);
    u := OpThen(r, t, folds.(pc := ReAdd), true);
    assert !u.insts[|t.insts|].dropped;
    t := u;
  }

  lemma QueuedEnters(r: iset<State>, s: State, kind: Kind) returns (t: State)
    requires Closed(r) && s in r && Sane(s) && s.holder.Some? && s.holder.value.pc.Unlock? && kind in s.waiting
    ensures t in r && Sane(t) && t.holder == Some(Op(kind, AwaitChecks, 0, 0, NO_BYTES, 0))
  {
    t := SaneThen(r, s, OpStep(true));
    t := SaneThen(r, t, EnterOp(kind));
    t := SaneThen(r, t, OpStep(true));
  }

  lemma SaneThen(r: iset<State>, s: State, e: Event) returns (t: State)
    requires Closed(r) && s in r && Sane(s) && Step(s, e).Some?
    ensures t in r && Sane(t) && t == Step(s, e).value
  {
    t := Then(r, s, e);
    StepKeeps(s, e);
    MoveStepsItStep(s, e);
  }

  lemma QueuedBringsBack(s: State, kind: Kind)
    requires Sane(s) && s.holder.Some? && s.holder.value.pc.Unlock? && kind in s.waiting && !kind.Remove?
    ensures ComesBack(s)
  {
    var r := From(s);
    var a := QueuedEnters(r, s, kind);
    var b := Drains(r, a, a.holder.value);
    var c := AddsAgain(r, b, b.holder.value);
  }

  // A removal that has taken the torrent out of the list drops its instance
  // and has then only to unlock. From there, on some run an instance of the
  // removed torrent runs again exactly when a move or a purge had looked
  // the torrent up and is waiting for its turn.
  lemma RemovedComesBackExactly(paused: bool, restored: Bytes, events: seq<Event>, ok: bool)
    requires Run(Step, Init(paused, restored), events).Some?
    requires var s := Run(Step, Init(paused, restored), events).value;
             s.holder.Some? && s.holder.value.kind.Remove? && s.holder.value.pc.DropInst?
    ensures var t := Step(Run(Step, Init(paused, restored), events).value, OpStep(ok));
            && t.Some? && t.value.holder.Some? && t.value.holder.value.pc.Unlock? && !SomeRuns(t.value)
            && (ComesBack(t.value) <==> Move in t.value.waiting || Purge in t.value.waiting)
  {
    SaneAlways(paused, restored, events);
    TakenOutAlways(paused, restored, events);
    var s := Run(Step, Init(paused, restored), events).value;
    var t := Step(s, OpStep(ok)).value;
    StepKeeps(s, OpStep(ok));
    MoveStepsItStep(s, OpStep(ok));
    if Move in t.waiting {
      QueuedBringsBack(t, Move);
    } else if Purge in t.waiting {
      QueuedBringsBack(t, Purge);
    } else if ComesBack(t) {
      var more :| RunsAfter(t, more);
      RemovedStaysRemoved(t, more);
    }
  }

  // ------------------------------------------------------------------
  // A purge behind a removal, as a run from the start
  // ------------------------------------------------------------------

  // Nobody is working on the torrent, it is not in the list, and it runs.
  ghost predicate RunsUnlisted(s: State) {
    s.holder.None? && !s.rec.present && s.rec.inst < |s.insts| && !s.insts[s.rec.inst].dropped
  }

  // A purge that had looked the torrent up before a remove finished puts a
  // removed torrent's instance back.
  lemma RemovedComesBack()
    ensures exists s :: Reaches(s) && RunsUnlisted(s)
  {
    var r := Reachable();
    var a := Init(false, NO_BYTES);
    var b := Then(r, a, StartOp(Purge));
    var c := RemoveRuns(r, b);
    var d := QueuedPurgeEnters(r, c);
    var e := PurgeDrops(r, d);
    var f := PurgeAddsAgain(r, e, d.insts[0].bytes);
    assert Reaches(f) && RunsUnlisted(f);
  }

  lemma QueuedPurgeEnters(r: iset<State>, s: State) returns (t: State)
    requires Closed(r) && s in r && s.holder.None? && s.waiting == multiset{Purge} && s.rec.cancel.None?
    ensures t in r && t.holder == Some(Op(Purge, AwaitChecks, 0, 0, NO_BYTES, 0)) && t.rec == s.rec
    ensures t.insts == s.insts
  {
    t := Then(r, s, EnterOp(Purge));
    t := OpThen(r, t, Op(Purge, CancelCheck, 0, 0, NO_BYTES, 0), true);
  }

  lemma PurgeAddsAgain(r: iset<State>, s: State, seen: Bytes) returns (t: State)
    requires Closed(r) && s in r && s.holder == Some(Op(Purge, ReAdd, 0, 0, seen, 0))
    ensures t in r && (!s.rec.present ==> RunsUnlisted(t))
  {
    var op := Op(Purge, ReAdd, 0, 0, seen, 0);
    t := OpThen(r, s, op, true);
    t := OpThen(r, t, op.(pc := Swap, added := |s.insts|), true);
    t := OpThen(r, t, op.(pc := Unlock, added := |s.insts|), true);
  }

  lemma RemoveRuns(r: iset<State>, s: State) returns (t: State)
    requires Closed(r) && s in r && s.rec == Init(false, NO_BYTES).rec && s.holder.None?
    requires s.waiting == multiset{Purge} && |s.insts| == 1
    ensures t in r && t.holder.None? && t.waiting == s.waiting && t.lost == s.lost
    ensures t.rec == s.rec.(present := false) && |t.insts| == 1
  {
    t := Then(r, s, StartOp(Remove));
    t := Then(r, t, EnterOp(Remove));
    assert t.waiting == s.waiting;
    t := RemoveWaits(r, t);
    t := RemoveDrops(r, t);
  }

  lemma RemoveWaits(r: iset<State>, s: State) returns (t: State)
    requires Closed(r) && s in r && s.rec == Init(false, NO_BYTES).rec
    requires s.holder == Some(Op(Remove, CancelCheck, 0, 0, NO_BYTES, 0))
    ensures t in r && t == s.(holder := Some(Op(Remove, DeleteEntry, 0, 0, NO_BYTES, 0)), begun := {})
  {
    t := OpThen(r, s, Op(Remove, CancelCheck, 0, 0, NO_BYTES, 0), true);
    t := OpThen(r, t, Op(Remove, AwaitChecks, 0, 0, NO_BYTES, 0), true);
  }

  lemma RemoveDrops(r: iset<State>, s: State) returns (t: State)
    requires Closed(r) && s in r && s.rec == Init(false, NO_BYTES).rec && |s.insts| == 1
    requires s.holder == Some(Op(Remove, DeleteEntry, 0, 0, NO_BYTES, 0))
    ensures t in r && t.holder.None? && t.waiting == s.waiting && t.lost == s.lost
    ensures t.rec == s.rec.(present := false) && |t.insts| == 1
  {
    t := OpThen(r, s, Op(Remove, DeleteEntry, 0, 0, NO_BYTES, 0), true);
    t := OpThen(r, t, Op(Remove, DropInst, 0, 0, NO_BYTES, 0), true);
    t := OpThen(r, t, Op(Remove, Unlock, 0, 0, NO_BYTES, 0), true);
  }
}
