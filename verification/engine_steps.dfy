// The threads that share one tracked torrent: move, purge, remove, recheck,
// pause, and the verification loops a move and a recheck leave running.
// A step is one block under e.mu, one library call, or one blocking wait.
module EngineSteps {
  import opened Runs
  import opened Sums
  import opened TrackedRecord

  datatype Kind = Move | Purge | Remove

  // Where the operation inside tr.opMu stands.
  datatype OpPc =
    | CancelCheck | AwaitChecks | ReadInst | DeleteEntry | Hold | Rearrange | ReadStats | Fold
    | DropInst | ReAdd | Swap | AddCheck | RegisterCheck | SpawnLoop | Unlock

  //  inst   the instance read under the lock, dropped later
  //  added  the instance the library handed back
  //  seen   what Stats() said before the fold
  //  loop   the verification this operation started
  datatype Op = Op(kind: Kind, pc: OpPc, inst: nat, added: nat, seen: Bytes, loop: nat)

  // Where a verification stands. It is counted by checkWG from Added to
  // Finishing; Requested is a recheck that has looked the torrent up and
  // has not called beginCheck yet.
  datatype LoopPc =
    | Requested | Added | Listed | Spawned | Testing | Hashing | Clearing | Finishing
    | Epilogue | Over

  //  byMove  started by a move, so it releases holdData when it ends
  //  orphan  another verification's end took it out of cancelCheck
  datatype Loop = Loop(byMove: bool, pc: LoopPc, inst: nat, orphan: bool)

  // A library instance: its counters, and whether it has been dropped.
  datatype Inst = Inst(bytes: Bytes, dropped: bool)

  // The shared state: the record, the library's instances, the operations
  // waiting for tr.opMu, the one inside it, and every verification ever
  // begun. After that, the history the theorems speak of:
  //  restored      the totals the session file gave the torrent at the start
  //  lost          bytes moved on an instance between Stats and Drop
  //  excess        counters left counted twice by a re-add that failed
  //  begun         the rechecks added since the last operation's wait
  //  staleRelease  an earlier move's loop cleared the present hold
  //  pendingRelease  some move's loop was unfinished when the hold was set
  datatype State = State(
    rec: Record, insts: seq<Inst>, waiting: multiset<Kind>, holder: Option<Op>, loops: seq<Loop>,
    restored: Bytes, lost: Bytes, excess: Bytes, begun: set<nat>, staleRelease: bool, pendingRelease: bool)

  datatype Event =
    | StartOp(kind: Kind)
    | EnterOp(kind: Kind)
    | OpStep(ok: bool)
    | StartRecheck
    | LoopStep(loop: nat, more: bool)
    | Pause(paused: bool)
    | CancelAll
    | Transfer(inst: nat, moved: Bytes)

  function Init(paused: bool, restored: Bytes): State {
    State(Record(true, 0, restored, paused, false, 0, None, {}, false),
          [Inst(NO_BYTES, false)], multiset{}, None, [], restored, NO_BYTES, NO_BYTES, {}, false, false)
  }

  predicate Live(pc: LoopPc) {
    !pc.Requested? && !pc.Epilogue? && !pc.Over?
  }

  // Between setting tr.holdData and the point that ends it: the swap of a
  // purge, the spawned goroutine of a move.
  predicate Holding(op: Op) {
    && !op.kind.Remove?
    && (op.pc.Rearrange? || op.pc.ReadStats? || op.pc.Fold? || op.pc.DropInst? || op.pc.ReAdd?
        || op.pc.Swap? || op.pc.AddCheck? || op.pc.RegisterCheck? || op.pc.SpawnLoop?)
  }

  // Bytes that arrive here are counted by nobody: the counters have been
  // folded away.
  predicate Folded(op: Op, inst: nat) {
    !op.kind.Remove? && op.pc.DropInst? && op.inst == inst
  }

  predicate MoveLoopsOver(loops: seq<Loop>) {
    forall k | 0 <= k < |loops| :: loops[k].byMove ==> loops[k].pc.Over?
  }

  function At(s: State, op: Op, pc: OpPc): State {
    s.(holder := Some(op.(pc := pc)))
  }

  function SetLoop(s: State, k: nat, pc: LoopPc): State
    requires k < |s.loops|
  {
    s.(loops := s.loops[k := s.loops[k].(pc := pc)])
  }

  // One step of the operation inside opMu. `ok` is the outcome of the call
  // the step makes, where that call can fail.
  function OpNext(s: State, op: Op, ok: bool): Option<State> {
    match op.pc
    case CancelCheck =>
      Some(At(s, op, AwaitChecks).(rec := Cancelled(s.rec)))
    case AwaitChecks =>
      if s.rec.checks > 0 then None
      else Some(At(s, op, if op.kind.Remove? then DeleteEntry else ReadInst).(begun := {}))
    case DeleteEntry =>
      if !s.rec.present then Some(At(s, op, Unlock))
      else Some(At(s, op.(inst := s.rec.inst), DropInst).(rec := s.rec.(present := false)))
    case ReadInst =>
      Some(At(s, op.(inst := s.rec.inst), if ok then Hold else Unlock))
    case Hold =>
      Some(At(s, op, if op.kind.Move? then Rearrange else ReadStats).(
           rec := Held(s.rec, op.kind.Purge?), staleRelease := false, pendingRelease := !MoveLoopsOver(s.loops)))
    case Rearrange =>
      if ok then Some(At(s, op, ReadStats)) else Some(At(s, op, Unlock).(rec := s.rec.(hold := false)))
    case ReadStats =>
      if op.inst >= |s.insts| then None else Some(At(s, op.(seen := s.insts[op.inst].bytes), Fold))
    case Fold =>
      if op.inst >= |s.insts| then None
      else Some(At(s, op, DropInst).(rec := s.rec.(base := s.rec.base.Plus(op.seen)),
                                     lost := s.lost.Plus(s.insts[op.inst].bytes.Beyond(op.seen))))
    case DropInst =>
      if op.inst >= |s.insts| then None
      else Some(At(s, op, if op.kind.Remove? then Unlock else ReAdd).(
                insts := s.insts[op.inst := s.insts[op.inst].(dropped := true)]))
    case ReAdd =>
      if ok then Some(At(s, op.(added := |s.insts|), Swap).(insts := s.insts + [Inst(NO_BYTES, false)]))
      else if op.inst >= |s.insts| then None
      else Some(At(s, op, Unlock).(rec := s.rec.(hold := false), excess := s.excess.Plus(s.insts[op.inst].bytes)))
    case Swap =>
      Some(At(s, op, if op.kind.Move? then AddCheck else Unlock).(
           rec := s.rec.(inst := op.added, hold := s.rec.hold && op.kind.Move?)))
    case AddCheck =>
      Some(At(s, op.(loop := |s.loops|), RegisterCheck).(
           loops := s.loops + [Loop(true, Added, 0, false)], rec := s.rec.(checks := s.rec.checks + 1)))
    case RegisterCheck =>
      if op.loop >= |s.loops| then None
      else Some(SetLoop(At(s, op, SpawnLoop), op.loop, Listed).(rec := Registered(s.rec, op.loop)))
    case SpawnLoop =>
      if op.loop >= |s.loops| then None else Some(SetLoop(At(s, op, Unlock), op.loop, Spawned))
    case Unlock =>
      Some(s.(holder := None))
  }

  // The loops after verification k has ended: whichever other one was in
  // cancelCheck, and not cancelled yet, can no longer be reached.
  function AfterClear(s: State, k: nat): seq<Loop>
    requires k < |s.loops|
  {
    var loops := s.loops[k := s.loops[k].(pc := Finishing)];
    if s.rec.cancel.Some? && s.rec.cancel.value < |loops| && s.rec.cancel.value != k
       && s.rec.cancel.value !in s.rec.cancelled
    then loops[s.rec.cancel.value := loops[s.rec.cancel.value].(orphan := true)]
    else loops
  }

  // One step of verification k. `more` says whether there is another piece
  // to hash, or whether the library's wait returned without an error.
  function LoopNext(s: State, k: nat, more: bool): Option<State>
    requires k < |s.loops|
  {
    var l := s.loops[k];
    match l.pc
    case Requested =>
      Some(SetLoop(s, k, Added).(rec := s.rec.(checks := s.rec.checks + 1), begun := s.begun + {k}))
    case Added =>
      if l.byMove then None else Some(SetLoop(s, k, Listed).(rec := Registered(s.rec, k)))
    case Listed =>
      if l.byMove then None else Some(SetLoop(s, k, Spawned))
    case Spawned =>
      Some(s.(loops := s.loops[k := l.(pc := Testing, inst := s.rec.inst)]))
    case Testing =>
      Some(SetLoop(s, k, if k in s.rec.cancelled || !more then Clearing else Hashing))
    case Hashing =>
      Some(SetLoop(s, k, if more then Testing else Clearing))
    case Clearing =>
      Some(s.(loops := AfterClear(s, k), rec := Cleared(s.rec, k)))
    case Finishing =>
      if s.rec.checks == 0 then None
      else Some(SetLoop(s, k, if l.byMove then Epilogue else Over).(rec := s.rec.(checks := s.rec.checks - 1)))
    case Epilogue =>
      Some(SetLoop(s, k, Over).(rec := s.rec.(hold := false), staleRelease := true))
    case Over => None
  }

  function Moved(s: State, inst: nat, moved: Bytes): Option<State> {
    if inst >= |s.insts| || s.insts[inst].dropped then None
    else
      var uncounted := s.holder.Some? && Folded(s.holder.value, inst);
      Some(s.(insts := s.insts[inst := s.insts[inst].(bytes := s.insts[inst].bytes.Plus(moved))],
              lost := if uncounted then s.lost.Plus(moved) else s.lost))
  }

  function Step(s: State, e: Event): Option<State> {
    match e
    case StartOp(kind) =>
      if s.rec.present then Some(s.(waiting := s.waiting + multiset{kind})) else None
    case EnterOp(kind) =>
      if s.holder.Some? || kind !in s.waiting then None
      else Some(s.(waiting := s.waiting - multiset{kind}, holder := Some(Op(kind, CancelCheck, 0, 0, NO_BYTES, 0))))
    case OpStep(ok) => if s.holder.Some? then OpNext(s, s.holder.value, ok) else None
    case StartRecheck =>
      if s.rec.present then Some(s.(loops := s.loops + [Loop(false, Requested, 0, false)])) else None
    case LoopStep(loop, more) => if loop < |s.loops| then LoopNext(s, loop, more) else None
    case Pause(paused) => Some(s.(rec := PausedAs(s.rec, paused)))
    case CancelAll => Some(s.(rec := Cancelled(s.rec)))
    case Transfer(inst, moved) => Moved(s, inst, moved)
  }

  function Counts(l: Loop): nat {
    if Live(l.pc) then 1 else 0
  }

  // How many verifications are live.
  function LiveCount(loops: seq<Loop>): nat {
    Sum(Counts, loops)
  }

  // Everything the library's instances have moved.
  function Total(insts: seq<Inst>): Bytes {
    Bytes(Sum(Down, insts), Sum(Up, insts))
  }

  function Down(i: Inst): nat {
    i.bytes.down
  }

  function Up(i: Inst): nat {
    i.bytes.up
  }

  // The same with what the torrent was restored with.
  function Ever(s: State): Bytes {
    s.restored.Plus(Total(s.insts))
  }

  // What a snapshot or a session record says has been moved.
  function Reported(s: State): Bytes
    requires s.rec.inst < |s.insts|
  {
    s.rec.base.Plus(s.insts[s.rec.inst].bytes)
  }
}
