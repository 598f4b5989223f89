// One torrent's totals across saves, crashes and restarts: the threads of
// EngineSteps, a session file that any thread may write at any point
// (recordLocked in internal/engine/session.go), and daemons that start from
// what it says (restoreOne).
module EngineRestarts {
  import opened Runs
  import opened TrackedRecord
  import opened EngineSteps
  import opened EngineSafety
  import opened EngineTheorems

  // The torrent's line of the file. After the totals and the pause, what
  // history says of that save: everything moved until then, what of it the
  // totals have not, what they have twice, and whether nothing was doubled.
  datatype Saved = Saved(totals: Bytes, paused: bool, ever: Bytes, missed: Bytes, twice: Bytes, clean: bool)

  //  now     the daemon that runs
  //  file    what the session file has for the torrent
  // and as history:
  //  past    what the library moved for it under earlier daemons
  //  missed  what of that the totals it was restored with have not
  //  twice   what of that they have twice
  //  clean   every save it was restored from was a clean one
  //  since   what has been moved since the file was written
  datatype Life = Life(
    now: State, file: Option<Saved>, past: Bytes, missed: Bytes, twice: Bytes, clean: bool, since: Bytes)

  datatype LifeEvent = Act(e: Event) | Save | Restart

  function Begin(paused: bool): Life {
    Life(Init(paused, NO_BYTES), None, NO_BYTES, NO_BYTES, NO_BYTES, true, NO_BYTES)
  }

  // Everything the library ever moved for the torrent.
  function EverMoved(l: Life): Bytes {
    l.past.Plus(Total(l.now.insts))
  }

  // A save is clean unless it is taken after a failed re-add that counts
  // bytes twice, or between an operation's fold and its swap of an instance
  // that has moved bytes.
  predicate CleanSave(s: State) {
    && s.excess == NO_BYTES
    && (s.holder.Some? && Doubling(s.holder.value) && s.rec.inst < |s.insts| ==> s.insts[s.rec.inst].bytes == NO_BYTES)
  }

  // The line recordLocked writes; a torrent that is not in the list has none.
  function LineOf(l: Life): Option<Saved> {
    if !l.now.rec.present || l.now.rec.inst >= |l.now.insts| then None
    else Some(Saved(Reported(l.now), l.now.rec.paused, EverMoved(l), l.missed.Plus(l.now.lost).Plus(Unswapped(l.now)),
                    l.twice.Plus(l.now.excess).Plus(Doubled(l.now)), l.clean && CleanSave(l.now)))
  }

  function MovedBy(e: Event): Bytes {
    if e.Transfer? then e.moved else NO_BYTES
  }

  function LifeStep(l: Life, e: LifeEvent): Option<Life> {
    match e
    case Act(e) =>
      (match Step(l.now, e)
       case None => None
       case Some(t) => Some(l.(now := t, since := l.since.Plus(MovedBy(e)))))
    case Save => Some(l.(file := LineOf(l), since := NO_BYTES))
    // The daemon stops or dies, and the next one restores the torrent.
    case Restart =>
      match l.file
      case None => None
      case Some(f) =>
        Some(Life(Init(f.paused, f.totals), l.file, EverMoved(l), f.missed.Plus(l.since), f.twice, f.clean, l.since))
  }

  // ------------------------------------------------------------------
  // What the rest needs to know of one daemon
  // ------------------------------------------------------------------

  // Only a transfer adds to what the instances have moved.
  ghost predicate Moves(s: State, e: Event, t: State) {
    Total(t.insts) == Total(s.insts).Plus(MovedBy(e)) && t.restored == s.restored
  }

  lemma StepMoves(s: State, e: Event)
    requires Step(s, e).Some?
    ensures Moves(s, e, Step(s, e).value)
  {
    var t := Step(s, e).value;
    if e.Transfer? {
      TransferMoves(s, e.inst, e.moved, t);
    } else {
      OthersMoveNothing(s, e, t);
      PlusNothing(Total(s.insts));
    }
  }

  lemma OthersMoveNothing(s: State, e: Event, t: State)
    requires Step(s, e) == Some(t) && !e.Transfer?
    ensures Total(t.insts) == Total(s.insts) && t.restored == s.restored
  {
    if e.OpStep? {
      OpStepMoves(s, s.holder.value, e.ok, t);
    } else if e.LoopStep? {
      LoopStepFrame(s, e.loop, e.more, t);
    } else {
      OthersKeepInsts(s, e, t);
    }
  }

  lemma TransferMoves(s: State, inst: nat, moved: Bytes, t: State)
    requires Moved(s, inst, moved) == Some(t)
    ensures Total(t.insts) == Total(s.insts).Plus(moved) && t.restored == s.restored
  {
    TotalUpdate(s.insts, inst, t.insts[inst]);
  }

  lemma OthersKeepInsts(s: State, e: Event, t: State)
    requires Step(s, e) == Some(t) && !e.OpStep? && !e.LoopStep? && !e.Transfer?
    ensures t.insts == s.insts && t.restored == s.restored
  {
    match e
    case StartOp(kind) =>
    case EnterOp(kind) =>
    case OpStep(ok) =>
    case StartRecheck =>
    case LoopStep(loop, more) =>
    case Pause(paused) =>
    case CancelAll =>
    case Transfer(inst, moved) =>
  }

  ghost predicate Agrees(s: State) {
    && s.rec.inst < |s.insts|
    && Reported(s).Plus(s.lost).Plus(Unswapped(s)) == Ever(s).Plus(s.excess).Plus(Doubled(s))
  }

  // The states a daemon can be in, known by these facts alone.
  ghost predicate Sound(good: iset<State>) {
    && (forall paused, restored :: Init(paused, restored) in good)
    && (forall s | s in good :: Agrees(s))
    && (forall s, e {:trigger Step(s, e)} | s in good && Step(s, e).Some? ::
          Step(s, e).value in good && Moves(s, e, Step(s, e).value))
  }

  lemma GoodStates() returns (good: iset<State>)
    ensures Sound(good)
  {
    good := iset s | Inv(s);
    forall paused, restored
      ensures Init(paused, restored) in good
    {
      InitInv(paused, restored);
    }
    forall s | s in good
      ensures Agrees(s)
    {
      ReportedTotals(s);
    }
    forall s, e | s in good && Step(s, e).Some?
      ensures Step(s, e).value in good && Moves(s, e, Step(s, e).value)
    {
      StepKeeps(s, e);
      StepMoves(s, e);
    }
  }

  lemma FreshInstances(paused: bool, restored: Bytes)
    ensures Total(Init(paused, restored).insts) == NO_BYTES
  {
    TotalOne(Inst(NO_BYTES, false));
  }

  // ------------------------------------------------------------------
  // What every step keeps
  // ------------------------------------------------------------------

  predicate FileWell(f: Saved) {
    && f.totals.Plus(f.missed) == f.ever.Plus(f.twice)
    && (f.clean <==> f.twice == NO_BYTES)
  }

  ghost predicate LifeWell(l: Life, good: iset<State>) {
    l.now in good && Books(l)
  }

  predicate Books(l: Life) {
    && l.now.restored.Plus(l.missed) == l.past.Plus(l.twice)
    && (l.clean <==> l.twice == NO_BYTES)
    && (l.file.Some? ==> FileWell(l.file.value) && l.file.value.ever.Plus(l.since) == EverMoved(l))
  }

  lemma ActKeeps(l: Life, e: Event, good: iset<State>)
    requires Sound(good) && LifeWell(l, good) && LifeStep(l, Act(e)).Some?
    ensures LifeWell(LifeStep(l, Act(e)).value, good)
  {
    assert Moves(l.now, e, Step(l.now, e).value);
  }

  ghost predicate LineWell(l: Life, f: Saved) {
    FileWell(f) && f.ever == EverMoved(l)
  }

  lemma LineKeeps(l: Life, f: Saved)
    requires Agrees(l.now) && LineOf(l) == Some(f)
    requires l.now.restored.Plus(l.missed) == l.past.Plus(l.twice) && (l.clean <==> l.twice == NO_BYTES)
    ensures LineWell(l, f)
  {
    var s := l.now;
    AccountsAdd(Reported(s), s.lost, Unswapped(s), s.restored, Total(s.insts), s.excess, Doubled(s), l.missed,
                l.past, l.twice);
    CleanExactly(s);
    NothingInSum(l.twice, s.excess, Doubled(s));
  }

  lemma CleanExactly(s: State)
    requires s.rec.inst < |s.insts|
    ensures CleanSave(s) <==> s.excess == NO_BYTES && Doubled(s) == NO_BYTES
  {
  }

  lemma SaveKeeps(l: Life, good: iset<State>)
    requires Agrees(l.now) && LifeWell(l, good)
    ensures LifeWell(LifeStep(l, Save).value, good)
  {
    var f := LineOf(l);
    if f.Some? {
      LineKeeps(l, f.value);
    }
  }

  lemma RestartKeeps(l: Life, good: iset<State>)
    requires LifeWell(l, good) && l.file.Some? && Init(l.file.value.paused, l.file.value.totals) in good
    ensures LifeWell(LifeStep(l, Restart).value, good)
  {
    FreshInstances(l.file.value.paused, l.file.value.totals);
  }

  lemma LifeStepKeeps(l: Life, e: LifeEvent, good: iset<State>)
    requires Sound(good) && LifeWell(l, good) && LifeStep(l, e).Some?
    ensures LifeWell(LifeStep(l, e).value, good)
  {
    match e
    case Act(e) => ActKeeps(l, e, good);
    case Save =>
      assert Agrees(l.now);
      SaveKeeps(l, good);
    case Restart =>
      assert Init(l.file.value.paused, l.file.value.totals) in good;
      RestartKeeps(l, good);
  }

  lemma BeginWell(paused: bool, good: iset<State>)
    requires Init(paused, NO_BYTES) in good
    ensures LifeWell(Begin(paused), good)
  {
    FreshInstances(paused, NO_BYTES);
  }

  lemma LifeIn(good: iset<State>, paused: bool, events: seq<LifeEvent>)
    requires Sound(good) && LifeWell(Begin(paused), good) && Run(LifeStep, Begin(paused), events).Some?
    ensures LifeWell(Run(LifeStep, Begin(paused), events).value, good)
  {
    forall l, e | LifeWell(l, good) && LifeStep(l, e).Some?
      ensures LifeWell(LifeStep(l, e).value, good)
    {
      LifeStepKeeps(l, e, good);
    }
    InvariantOverRuns(l => LifeWell(l, good), LifeStep, Begin(paused), events);
  }

  lemma LifeAlways(paused: bool, events: seq<LifeEvent>)
    requires Run(LifeStep, Begin(paused), events).Some?
    ensures var l := Run(LifeStep, Begin(paused), events).value; Books(l) && Agrees(l.now)
  {
    var good := GoodStates();
    BeginWell(paused, good);
    LifeIn(good, paused, events);
  }

  // ------------------------------------------------------------------
  // Lifetime totals
  // ------------------------------------------------------------------

  // Moved, and at present in nobody's count.
  function MissedNow(l: Life): Bytes {
    l.missed.Plus(l.now.lost).Plus(Unswapped(l.now))
  }

  lemma TotalsOf(l: Life)
    requires Books(l) && Agrees(l.now) && l.now.holder.None?
    ensures Reported(l.now).Plus(MissedNow(l)) == EverMoved(l).Plus(l.twice.Plus(l.now.excess))
    ensures MissedNow(l) == NO_BYTES ==>
              (Reported(l.now) == EverMoved(l) <==> l.clean && l.now.excess == NO_BYTES)
  {
    var s := l.now;
    AccountsAdd(Reported(s), s.lost, Unswapped(s), s.restored, Total(s.insts), s.excess, Doubled(s), l.missed,
                l.past, l.twice);
    NothingTwice(l.twice, s.excess);
    PlusNothing(l.twice.Plus(s.excess));
    RightExactly(Reported(s), MissedNow(l), EverMoved(l), l.twice.Plus(s.excess));
  }

  // The totals of a save that missed nothing.
  lemma LineRight(l: Life, f: Saved)
    requires LineOf(l) == Some(f) && LineWell(l, f) && MissedNow(l) == NO_BYTES
    ensures f.totals == EverMoved(l) <==> l.clean && CleanSave(l.now)
  {
    RightExactly(f.totals, f.missed, f.ever, f.twice);
  }

  lemma RestartedTotals(l: Life, f: Saved)
    requires l.file == Some(f)
    ensures LifeStep(l, Restart).Some?
    ensures var r := LifeStep(l, Restart).value; r.now.rec.inst < |r.now.insts| && Reported(r.now) == f.totals
  {
  }

  // Across any sequence of moves, purges, saves, crashes and restarts, with
  // nobody inside opMu: what is reported is everything ever moved, less what
  // was missed, plus what was counted twice. If nothing was missed it is
  // right exactly when no failed re-add doubled anything and every save the
  // torrent was restored from was clean.
  lemma LifetimeTotals(paused: bool, events: seq<LifeEvent>)
    requires Run(LifeStep, Begin(paused), events).Some?
    requires Run(LifeStep, Begin(paused), events).value.now.holder.None?
    ensures var l := Run(LifeStep, Begin(paused), events).value;
            && l.now.rec.inst < |l.now.insts|
            && Reported(l.now).Plus(MissedNow(l)) == EverMoved(l).Plus(l.twice.Plus(l.now.excess))
            && (MissedNow(l) == NO_BYTES ==>
                  (Reported(l.now) == EverMoved(l) <==> l.clean && l.now.excess == NO_BYTES))
  {
    LifeAlways(paused, events);
    TotalsOf(Run(LifeStep, Begin(paused), events).value);
  }

  ghost predicate RightAfter(r: Option<Life>, ever: Bytes, clean: bool) {
    r.Some? && r.value.now.rec.inst < |r.value.now.insts| && (Reported(r.value.now) == ever <==> clean)
  }

  lemma SavedAndRestarted(l: Life)
    requires Books(l) && Agrees(l.now) && l.now.rec.present && MissedNow(l) == NO_BYTES
    ensures RightAfter(LifeStep(LifeStep(l, Save).value, Restart), EverMoved(l), l.clean && CleanSave(l.now))
  {
    var f := LineOf(l).value;
    LineKeeps(l, f);
    LineRight(l, f);
    RestartedTotals(LifeStep(l, Save).value, f);
  }

  // Saved at any point of any run, and restarted from that: the new daemon
  // reports everything ever moved exactly when the save was clean, and so
  // was every one before it that a daemon was restored from - provided
  // nothing was missed.
  lemma RestartKeepsTotals(paused: bool, events: seq<LifeEvent>)
    requires Run(LifeStep, Begin(paused), events).Some?
    requires var l := Run(LifeStep, Begin(paused), events).value; l.now.rec.present && MissedNow(l) == NO_BYTES
    ensures var l := Run(LifeStep, Begin(paused), events).value;
            RightAfter(Run(LifeStep, Begin(paused), events + [Save] + [Restart]), EverMoved(l),
                       l.clean && CleanSave(l.now))
  {
    LifeAlways(paused, events);
    SavedAndRestarted(Run(LifeStep, Begin(paused), events).value);
    RunSnoc(LifeStep, Begin(paused), events, Save);
    RunSnoc(LifeStep, Begin(paused), events + [Save], Restart);
  }

  // ------------------------------------------------------------------
  // Saves that are not clean
  // ------------------------------------------------------------------

  ghost predicate LifeReaches(l: Life) {
    exists events :: Run(LifeStep, Begin(false), events) == Some(l)
  }

  ghost predicate LifeClosed(r: iset<Life>) {
    forall l, e {:trigger LifeStep(l, e)} :: l in r && LifeStep(l, e).Some? ==> LifeStep(l, e).value in r
  }

  lemma LifeReachable() returns (r: iset<Life>)
    ensures LifeClosed(r) && Begin(false) in r
    ensures forall l {:trigger LifeReaches(l)} :: l in r ==> LifeReaches(l)
  {
    r := iset l | LifeReaches(l);
    assert Run(LifeStep, Begin(false), []) == Some(Begin(false));
    forall l, e | l in r && LifeStep(l, e).Some?
      ensures LifeStep(l, e).value in r
    {
      var events :| Run(LifeStep, Begin(false), events) == Some(l);
      RunSnoc(LifeStep, Begin(false), events, e);
      assert Run(LifeStep, Begin(false), events + [e]) == Some(LifeStep(l, e).value);
    }
  }

  function Later(l: Life, s: State, since: Bytes): Life {
    l.(now := s, since := since)
  }

  // The states one daemon comes to while nothing is saved.
  ghost function Unsaved(r: iset<Life>, l: Life): iset<State> {
    iset s | ComesTo(r, l, s)
  }

  ghost predicate ComesTo(r: iset<Life>, l: Life, s: State) {
    exists since :: Later(l, s, since) in r
  }

  lemma UnsavedClosed(r: iset<Life>, l: Life)
    requires LifeClosed(r) && l in r
    ensures Closed(Unsaved(r, l)) && l.now in Unsaved(r, l)
  {
    assert Later(l, l.now, l.since) == l;
    forall s, e | s in Unsaved(r, l) && Step(s, e).Some?
      ensures Step(s, e).value in Unsaved(r, l)
    {
      var since :| Later(l, s, since) in r;
      var before := Later(l, s, since);
      var after := LifeStep(before, Act(e)).value;
      assert after == Later(l, after.now, after.since);
    }
  }

  // Restored with its bytes counted twice, and nobody at work on it.
  ghost predicate RestoredDoubled(l: Life) {
    && l.now.holder.None? && l.now.excess == NO_BYTES && l.now.rec.inst < |l.now.insts|
    && EverMoved(l) == Bytes(1, 2) && Reported(l.now) == Bytes(2, 4)
  }

  lemma RestartsDoubled(r: iset<Life>, l: Life)
    requires LifeClosed(r) && l in r && l.file.Some? && l.file.value.totals == Bytes(2, 4)
    requires EverMoved(l) == Bytes(1, 2)
    ensures var t := LifeStep(l, Restart); t.Some? && t.value in r && RestoredDoubled(t.value)
  {
    RestartedTotals(l, l.file.value);
    FreshInstances(l.file.value.paused, l.file.value.totals);
  }

  lemma Transferred(r: iset<State>, s: State) returns (t: State)
    requires Closed(r) && s in r && s == Init(false, NO_BYTES)
    ensures t in r && t == s.(insts := [Inst(Bytes(1, 2), false)]) && Total(t.insts) == Bytes(1, 2)
  {
    t := Then(r, s, Transfer(0, Bytes(1, 2)));
    TotalOne(Inst(Bytes(1, 2), false));
    assert t.insts == [Inst(Bytes(1, 2), false)];
  }

  // A move folds the counters.
  lemma MoveFolds(q: iset<State>, s: State) returns (t: State)
    requires Closed(q) && s in q && s == Init(false, NO_BYTES)
    ensures t in q && t.holder == Some(Op(Move, ReAdd, 0, 0, Bytes(1, 2), 0)) && |t.insts| == 1
    ensures t.rec == Held(s.rec, false).(base := Bytes(1, 2)) && t.loops == []
    ensures Total(t.insts) == Bytes(1, 2) && t.insts[0].bytes == Bytes(1, 2)
  {
    t := Transferred(q, s);
    t := Enters(q, t, Move);
    t := MoveDrops(q, t);
    assert t.rec.base == NO_BYTES.Plus(Bytes(1, 2));
  }

  // The rest of that move, with nobody saving.
  lemma MoveFinishes(q: iset<State>, s: State) returns (t: State)
    requires Closed(q) && s in q && |s.insts| == 1 && s.loops == []
    requires s.holder == Some(Op(Move, ReAdd, 0, 0, Bytes(1, 2), 0))
    ensures t in q && t.holder.None? && t.rec.inst == 1 && Total(t.insts) == Total(s.insts)
  {
    t := MoveSwaps(q, s, Bytes(1, 2));
    t := Spawns(q, t, Bytes(1, 2));
  }

  // Any thread's save between a move's fold and its swap writes the totals
  // doubled. The move ends well and saves nothing; after a crash, the next
  // daemon keeps the doubled totals for good.
  lemma SavedInAMove()
    ensures exists l :: LifeReaches(l) && RestoredDoubled(l)
  {
    var r := LifeReachable();
    var a := Begin(false);
    UnsavedClosed(r, a);
    var s := MoveFolds(Unsaved(r, a), a.now);
    var since :| Later(a, s, since) in r;
    var b := Later(a, s, since);
    var c := LifeStep(b, Save).value;
    assert c.file.value.totals == Bytes(2, 4);
    UnsavedClosed(r, c);
    var t := MoveFinishes(Unsaved(r, c), c.now);
    var later :| Later(c, t, later) in r;
    var d := Later(c, t, later);
    RestartsDoubled(r, d);
    assert LifeReaches(LifeStep(d, Restart).value);
  }

  // So does the save that follows a re-add that failed.
  lemma SavedAfterAFailedReAdd()
    ensures exists l :: LifeReaches(l) && RestoredDoubled(l)
  {
    var r := LifeReachable();
    var a := Begin(false);
    UnsavedClosed(r, a);
    var q := Unsaved(r, a);
    var s := MoveFolds(q, a.now);
    var op := Op(Move, ReAdd, 0, 0, Bytes(1, 2), 0);
    var t := OpThen(q, s, op, false);
    t := OpThen(q, t, op.(pc := Unlock), true);
    var since :| Later(a, t, since) in r;
    var b := Later(a, t, since);
    var c := LifeStep(b, Save).value;
    assert c.file.value.totals == Bytes(2, 4);
    RestartsDoubled(r, c);
    assert LifeReaches(LifeStep(c, Restart).value);
  }
}
