// The engine's locks and wait groups, and why no interleaving of its
// operations is a deadlock. An operation is the list of what it does to
// them on one path through its code; what it does in between is left out.
module LockOrder {
  import opened Runs
  import opened Sums

  // opMu and checkWG belong to one tracked torrent, named by a number. Once
  // is held by the first call of Close; later calls wait for it.
  datatype Lock = Once | OpMu(torrent: nat) | SaveMu | Mu
  datatype Group = Checks(torrent: nat) | Engine

  //  Add, Spawn   raise a wait group; start the goroutine that lowers the
  //               groups this thread has raised
  //  Await        wait for metadata or closeCh, whichever is first
  //  CloseCh      close closeCh
  datatype Action =
    | Acquire(lock: Lock) | Release(lock: Lock)
    | Add(group: Group) | Done(group: Group) | Wait(group: Group)
    | Spawn(body: seq<Action>) | Await | CloseCh

  // What a thread holds, which groups wait for it, and whether it has
  // closed closeCh.
  datatype Context = Context(held: set<Lock>, owes: set<Group>, closed: bool)

  const FREE := Context({}, {}, false)

  // The order: Once, the engine's group, opMu, checkWG, saveMu, e.mu.
  const SAVE_LEVEL := 4
  const MU_LEVEL := 5

  function LockLevel(l: Lock): nat {
    match l
    case Once => 0
    case OpMu(_) => 2
    case SaveMu => SAVE_LEVEL
    case Mu => MU_LEVEL
  }

  function GroupLevel(g: Group): nat {
    match g
    case Engine => 1
    case Checks(_) => 3
  }

  // A thread in this context may block on something of this level.
  ghost predicate Below(c: Context, level: nat) {
    (forall l | l in c.held :: LockLevel(l) < level) && (forall g | g in c.owes :: GroupLevel(g) < level)
  }

  // The context after one action, or None when the action breaks the order.
  ghost function Obeys(a: Action, c: Context): Option<Context>
    decreases a, 0
  {
    match a
    case Acquire(l) => if Below(c, LockLevel(l)) then Some(c.(held := c.held + {l})) else None
    case Release(l) => if l in c.held then Some(c.(held := c.held - {l})) else None
    case Add(g) => if g !in c.owes then Some(c.(owes := c.owes + {g})) else None
    case Done(g) => if g in c.owes then Some(c.(owes := c.owes - {g})) else None
    case Wait(g) => if Below(c, GroupLevel(g)) && (g == Engine ==> c.closed) then Some(c) else None
    case Spawn(body) => if Ordered(body, Context({}, c.owes, false)) then Some(c.(owes := {})) else None
    case Await => if c.held == {} && c.owes <= {Engine} then Some(c) else None
    case CloseCh => Some(c.(closed := true))
  }

  ghost function After(p: seq<Action>, c: Context): Option<Context>
    decreases p, 1
  {
    if p == [] then Some(c)
    else
      match Obeys(p[0], c)
      case None => None
      case Some(d) => After(p[1..], d)
  }

  // A program that obeys the order to its end and leaves nothing behind.
  ghost predicate Ordered(p: seq<Action>, c: Context)
    decreases p, 2
  {
    var d := After(p, c);
    d.Some? && d.value.held == {} && d.value.owes == {}
  }

  // ------------------------------------------------------------------
  // Threads
  // ------------------------------------------------------------------

  datatype Thread = Thread(todo: seq<Action>, ctx: Context)

  datatype System = System(threads: seq<Thread>, closed: bool)

  datatype Event = Start(program: seq<Action>, owes: set<Group>) | Advance(thread: nat)

  predicate HeldByOther(s: System, i: nat, l: Lock) {
    exists j | 0 <= j < |s.threads| :: j != i && l in s.threads[j].ctx.held
  }

  predicate OwedByOther(s: System, i: nat, g: Group) {
    exists j | 0 <= j < |s.threads| :: j != i && g in s.threads[j].ctx.owes
  }

  // What thread i does next can be done now. Await is possible at any
  // time, since metadata can arrive; see CanStep.
  predicate Possible(s: System, i: nat)
    requires i < |s.threads| && s.threads[i].todo != []
  {
    match s.threads[i].todo[0]
    case Acquire(l) => l !in s.threads[i].ctx.held && !HeldByOther(s, i, l)
    case Wait(g) => g !in s.threads[i].ctx.owes && !OwedByOther(s, i, g)
    case _ => true
  }

  ghost function Step(s: System, e: Event): Option<System> {
    match e
    case Start(program, owes) =>
      if Ordered(program, Context({}, owes, false)) && owes <= {Engine}
      then Some(s.(threads := s.threads + [Thread(program, Context({}, owes, false))]))
      else None
    case Advance(i) =>
      if i >= |s.threads| || s.threads[i].todo == [] || !Possible(s, i) then None
      else
        var t := s.threads[i];
        var d := Obeys(t.todo[0], t.ctx);
        if d.None? then None
        else
          var moved := s.threads[i := Thread(t.todo[1..], d.value)];
          Some(System(
            if t.todo[0].Spawn? then moved + [Thread(t.todo[0].body, Context({}, t.ctx.owes, false))] else moved,
            s.closed || t.todo[0].CloseCh?))
  }

  // Thread i is unfinished and needs nothing from outside to go on.
  predicate CanStep(s: System, i: nat) {
    i < |s.threads| && s.threads[i].todo != [] && Possible(s, i) && (s.threads[i].todo[0].Await? ==> s.closed)
  }

  // Thread i waits for metadata that may never arrive, while nobody has
  // closed the engine.
  predicate Parked(s: System, i: nat) {
    i < |s.threads| && s.threads[i].todo != [] && s.threads[i].todo[0].Await? && !s.closed
  }

  ghost predicate Inv(s: System) {
    && (forall i | 0 <= i < |s.threads| :: Ordered(s.threads[i].todo, s.threads[i].ctx))
    && (forall i | 0 <= i < |s.threads| :: s.threads[i].ctx.closed ==> s.closed)
    && (forall i, j | 0 <= i < j < |s.threads| :: s.threads[i].ctx.held !! s.threads[j].ctx.held)
  }

  lemma OrderedHead(p: seq<Action>, c: Context)
    requires Ordered(p, c) && p != []
    ensures Obeys(p[0], c).Some? && Ordered(p[1..], Obeys(p[0], c).value)
  {
    assert After(p, c).Some?;
    assert Obeys(p[0], c).Some?;
    assert After(p, c) == After(p[1..], Obeys(p[0], c).value);
  }

  lemma OrderedEnd(c: Context)
    requires Ordered([], c)
    ensures c.held == {} && c.owes == {}
  {
    assert After([], c) == Some(c);
  }

  lemma OrderedBody(body: seq<Action>, c: Context)
    requires Obeys(Spawn(body), c).Some?
    ensures Ordered(body, Context({}, c.owes, false))
  {
  }

  lemma AdvanceKeeps(s: System, i: nat)
    requires Inv(s) && Step(s, Advance(i)).Some?
    ensures Inv(Step(s, Advance(i)).value)
  {
    var t := s.threads[i];
    OrderedHead(t.todo, t.ctx);
    if t.todo[0].Spawn? {
      OrderedBody(t.todo[0].body, t.ctx);
    }
  }

  lemma StepKeeps(s: System, e: Event)
    requires Inv(s) && Step(s, e).Some?
    ensures Inv(Step(s, e).value)
  {
    if e.Advance? {
      AdvanceKeeps(s, e.thread);
    }
  }

  // The level of what the thread is blocked on.
  function NextLevel(a: Action): nat
  {
    match a
    case Acquire(l) => LockLevel(l)
    case Wait(g) => GroupLevel(g)
    case _ => 0
  }

  // From a thread that is blocked, the threads that block it lead up the
  // order to one that is not.
  lemma {:induction false} BlockedLeadsToStep(s: System, i: nat) returns (k: nat)
    requires Inv(s) && i < |s.threads| && s.threads[i].todo != [] && !Parked(s, i)
    ensures CanStep(s, k)
    decreases MU_LEVEL + 1 - NextLevel(s.threads[i].todo[0]), !CanStep(s, i)
  {
    if CanStep(s, i) {
      return i;
    }
    var t := s.threads[i];
    OrderedHead(t.todo, t.ctx);
    var j: nat;
    if t.todo[0].Acquire? {
      j :| j < |s.threads| && j != i && t.todo[0].lock in s.threads[j].ctx.held;
    } else {
      j :| j < |s.threads| && j != i && t.todo[0].group in s.threads[j].ctx.owes;
    }
    var u := s.threads[j];
    if u.todo == [] {
      OrderedEnd(u.ctx);
    }
    OrderedHead(u.todo, u.ctx);
    if CanStep(s, j) {
      return j;
    }
    k := BlockedLeadsToStep(s, j);
  }

  // The order is enough: after any run in which every thread obeys it,
  // either some thread can go on, or every unfinished one waits for
  // metadata in an engine that has not been closed.
  lemma NoDeadlock(events: seq<Event>, i: nat)
    requires Run(Step, System([], false), events).Some?
    requires var s := Run(Step, System([], false), events).value;
             i < |s.threads| && s.threads[i].todo != [] && !Parked(s, i)
    ensures exists k :: CanStep(Run(Step, System([], false), events).value, k)
  {
    forall s, e | Inv(s) && Step(s, e).Some?
      ensures Inv(Step(s, e).value)
    {
      StepKeeps(s, e);
    }
    InvariantOverRuns(Inv, Step, System([], false), events);
    var k := BlockedLeadsToStep(Run(Step, System([], false), events).value, i);
  }

  // A thread that can go on does go on: the order never stops it.
  lemma CanStepSteps(s: System, i: nat)
    requires Inv(s) && CanStep(s, i)
    ensures Step(s, Advance(i)).Some?
  {
    OrderedHead(s.threads[i].todo, s.threads[i].ctx);
  }

  // How much a program, and the goroutines it starts, still has to do.
  function Size(p: seq<Action>): nat
    decreases p
  {
    if p == [] then 0
    else Size(p[1..]) + 1 + if p[0].Spawn? then Size(p[0].body) else 0
  }

  function ThreadSize(t: Thread): nat {
    Size(t.todo)
  }

  // Every step leaves less to do, so threads that are let run all end, but
  // for those that wait for metadata in an engine nobody has closed.
  lemma AdvanceShrinks(s: System, i: nat)
    requires Step(s, Advance(i)).Some?
    ensures Sum(ThreadSize, Step(s, Advance(i)).value.threads) < Sum(ThreadSize, s.threads)
  {
    var t := s.threads[i];
    var next := Thread(t.todo[1..], Obeys(t.todo[0], t.ctx).value);
    SumUpdate(ThreadSize, s.threads, i, next);
    if t.todo[0].Spawn? {
      var child := Thread(t.todo[0].body, Context({}, t.ctx.owes, false));
      SumSnoc(ThreadSize, s.threads[i := next], child);
    }
  }

  // ------------------------------------------------------------------
  // The paths of the engine's operations
  // ------------------------------------------------------------------

  // One block under e.mu, and n of them in a row. snapshotAndBroadcastNow
  // is two.
  const BLOCK := [Acquire(Mu), Release(Mu)]

  function Blocks(n: nat): seq<Action> {
    if n == 0 then [] else Blocks(n - 1) + BLOCK
  }

  // persist: suppressed during a restore; otherwise SaveSession, whose
  // second block, in saveMetainfo, is not reached when the state directory
  // cannot be created.
  datatype Saving = Suppressed | NoStateDir | Unwritable | Saved

  function Persist(how: Saving): seq<Action> {
    match how
    case Suppressed => Blocks(1)
    case NoStateDir => Blocks(1)
    case Unwritable => Blocks(1) + [Acquire(SaveMu)] + Blocks(1) + [Release(SaveMu)]
    case Saved => Blocks(1) + [Acquire(SaveMu)] + Blocks(2) + [Release(SaveMu)]
  }

  // lookup, then a block that changes something, then persist and publish:
  // pause, label, limits, seed limits, file priorities. SetPaused(false)
  // has one block more, in chosenFilesOf.
  function Setter(resuming: bool, how: Saving): seq<Action> {
    Blocks(if resuming then 3 else 2) + Persist(how) + Blocks(2)
  }

  // A recheck reads how far it got before its end, and records a failure
  // after it; a move lets go of its hold after it.
  function Verification(torrent: nat, pieces: nat, byMove: bool, failed: bool): seq<Action> {
    Blocks(pieces + if byMove then 2 else 3) + [Done(Checks(torrent))]
    + Blocks(if byMove || failed then 3 else 2) + [Done(Engine)]
  }

  // beginCheck, and the goroutine that follows it.
  function Begin(torrent: nat): seq<Action> {
    [Add(Checks(torrent))] + Blocks(1)
  }

  function Goroutine(torrent: nat, pieces: nat, byMove: bool, failed: bool): seq<Action> {
    [Add(Engine)] + [Spawn(Verification(torrent, pieces, byMove, failed))]
  }

  function Recheck(torrent: nat, pieces: nat, failed: bool): seq<Action> {
    Blocks(1) + Begin(torrent) + Blocks(2) + Goroutine(torrent, pieces, false, failed)
  }

  // lookup, opMu, quiesceCheck, and then the operation's own work.
  function Inside(torrent: nat, work: seq<Action>): seq<Action> {
    Blocks(1) + [Acquire(OpMu(torrent))] + Blocks(1) + [Wait(Checks(torrent))] + work + [Release(OpMu(torrent))]
  }

  datatype MoveEnd = NoMetadata | FilesFailed | ReAddFailed(how: Saving) | Moved(pieces: nat, failed: bool)

  function Moving(torrent: nat, end: MoveEnd): seq<Action> {
    match end
    case NoMetadata => Blocks(1)
    case FilesFailed => Blocks(5)
    case ReAddFailed(how) => Blocks(4) + Persist(how) + Blocks(3)
    case Moved(pieces, failed) => Blocks(4) + Begin(torrent) + Goroutine(torrent, pieces, true, failed) + Blocks(2)
  }

  function Purging(hasInfo: bool, how: Saving): seq<Action> {
    if hasInfo then Blocks(4) + Persist(how) + Blocks(2) else Blocks(1)
  }

  function Removing(listed: bool, how: Saving): seq<Action> {
    if listed then Blocks(1) + Persist(how) + Blocks(2) else Blocks(1)
  }

  // An add leaves a goroutine waiting for metadata. It ends when closeCh is
  // what comes; else one block, under e.mu, copies the chosen files or
  // records the selection, unless a paused add asked for no files.
  datatype WaiterEnd = EngineClosed | FilesMarked(how: Saving) | FilesLeft(how: Saving)

  function Waited(end: WaiterEnd): seq<Action> {
    match end
    case EngineClosed => []
    case FilesMarked(how) => Blocks(1) + Persist(how) + Blocks(2)
    case FilesLeft(how) => Persist(how) + Blocks(2)
  }

  function Waiter(end: WaiterEnd): seq<Action> {
    [Await] + Waited(end) + [Done(Engine)]
  }

  function AddTorrent(end: WaiterEnd, now: Saving): seq<Action> {
    Blocks(1) + [Add(Engine)] + [Spawn(Waiter(end))] + Persist(now) + Blocks(2)
  }

  // RestoreSession: the torrents that come back, each with its limits and
  // its file priorities, none of it saved; then one save for all. A priority
  // that is refused has only been looked up.
  datatype Restored = Restored(end: WaiterEnd, limited: bool, priorities: seq<bool>)

  function Priorities(taken: seq<bool>): seq<Action> {
    if taken == [] then []
    else Priorities(taken[..|taken| - 1]) + if taken[|taken| - 1] then Setter(false, Suppressed) else Blocks(1)
  }

  function RestoreOne(r: Restored): seq<Action> {
    AddTorrent(r.end, Suppressed) + (if r.limited then Setter(false, Suppressed) else []) + Priorities(r.priorities)
        + Blocks(1)
  }

  function RestoreAll(rs: seq<Restored>): seq<Action> {
    if rs == [] then [] else RestoreAll(rs[..|rs| - 1]) + RestoreOne(rs[|rs| - 1])
  }

  function Restore(rs: seq<Restored>, how: Saving): seq<Action> {
    Blocks(1) + RestoreAll(rs) + Blocks(1) + Persist(how)
  }

  // One tick: the two guards, the main block, a save if a seeding clock
  // started, a pause for every torrent at its limit, and the event.
  function Pauses(n: nat, how: Saving): seq<Action> {
    if n == 0 then [] else Pauses(n - 1, how) + Setter(false, how)
  }

  function Tick(clockStarted: bool, how: Saving, stopped: nat): seq<Action> {
    Blocks(3) + (if clockStarted then Persist(how) else []) + Pauses(stopped, how) + Blocks(1)
  }

  function CloseNow(how: Saving): seq<Action> {
    Persist(how) + Blocks(1) + [CloseCh] + [Wait(Engine)] + Blocks(1)
  }

  // Only the first call does anything, and the others wait until it has.
  function Close(first: bool, how: Saving): seq<Action> {
    [Acquire(Once)] + (if first then CloseNow(how) else []) + [Release(Once)]
  }

  // ---- composition ----

  lemma {:induction false} AfterAppend(p: seq<Action>, q: seq<Action>, c: Context)
    ensures After(p + q, c) == if After(p, c).None? then None else After(q, After(p, c).value)
    decreases |p|
  {
    if p == [] {
      assert p + q == q;
    } else {
      assert (p + q)[0] == p[0] && (p + q)[1..] == p[1..] + q;
      if Obeys(p[0], c).Some? {
        AfterAppend(p[1..], q, Obeys(p[0], c).value);
      }
    }
  }

  // After of a concatenation, wherever one is met.
  lemma Appends()
    ensures forall p: seq<Action>, q: seq<Action>, c: Context {:trigger After(p + q, c)} ::
              After(p + q, c) == if After(p, c).None? then None else After(q, After(p, c).value)
  {
    forall p: seq<Action>, q: seq<Action>, c: Context
      ensures After(p + q, c) == if After(p, c).None? then None else After(q, After(p, c).value)
    {
      AfterAppend(p, q, c);
    }
  }

  lemma One(a: Action, c: Context)
    ensures After([a], c) == Obeys(a, c)
  {
    if Obeys(a, c).Some? {
      assert After([a][1..], Obeys(a, c).value) == Some(Obeys(a, c).value);
    }
  }

  lemma BlockKeeps(c: Context)
    requires Below(c, MU_LEVEL)
    ensures After(BLOCK, c) == Some(c)
  {
    var d := c.(held := c.held + {Mu});
    assert BLOCK[1..] == [Release(Mu)];
    One(Release(Mu), d);
    assert d.held - {Mu} == c.held;
  }

  lemma {:induction false} BlocksKeep(n: nat, c: Context)
    requires Below(c, MU_LEVEL)
    ensures After(Blocks(n), c) == Some(c)
  {
    if n > 0 {
      BlocksKeep(n - 1, c);
      BlockKeeps(c);
      AfterAppend(Blocks(n - 1), BLOCK, c);
    }
  }

  lemma AllBlocks(c: Context)
    requires Below(c, MU_LEVEL)
    ensures forall n :: After(Blocks(n), c) == Some(c)
  {
    forall n
      ensures After(Blocks(n), c) == Some(c)
    {
      BlocksKeep(n, c);
    }
  }

  lemma PersistKeeps(how: Saving, c: Context)
    requires Below(c, SAVE_LEVEL)
    ensures After(Persist(how), c) == Some(c)
  {
    Appends();
    AllBlocks(c);
    var d := c.(held := c.held + {SaveMu});
    AllBlocks(d);
    One(Acquire(SaveMu), c);
    One(Release(SaveMu), d);
    assert d.held - {SaveMu} == c.held;
  }

  lemma SetterKeeps(resuming: bool, how: Saving, c: Context)
    requires Below(c, SAVE_LEVEL)
    ensures After(Setter(resuming, how), c) == Some(c)
  {
    Appends();
    AllBlocks(c);
    PersistKeeps(how, c);
  }

  lemma {:induction false} PausesKeep(n: nat, how: Saving, c: Context)
    requires Below(c, SAVE_LEVEL)
    ensures After(Pauses(n, how), c) == Some(c)
  {
    if n > 0 {
      PausesKeep(n - 1, how, c);
      SetterKeeps(false, how, c);
      AfterAppend(Pauses(n - 1, how), Setter(false, how), c);
    }
  }

  lemma VerificationOrdered(torrent: nat, pieces: nat, byMove: bool, failed: bool)
    ensures Ordered(Verification(torrent, pieces, byMove, failed), Context({}, {Checks(torrent), Engine}, false))
  {
    var c := Context({}, {Checks(torrent), Engine}, false);
    var d := Context({}, {Engine}, false);
    var hashing := Blocks(pieces + if byMove then 2 else 3);
    var after := Blocks(if byMove || failed then 3 else 2);
    AllBlocks(c);
    AllBlocks(d);
    One(Done(Checks(torrent)), c);
    assert c.owes - {Checks(torrent)} == d.owes;
    One(Done(Engine), d);
    AfterAppend(hashing, [Done(Checks(torrent))], c);
    AfterAppend(hashing + [Done(Checks(torrent))], after, c);
    AfterAppend(hashing + [Done(Checks(torrent))] + after, [Done(Engine)], c);
  }

  // Started by a thread that holds at most its opMu and owes nothing.
  lemma GoroutineKeeps(torrent: nat, pieces: nat, byMove: bool, failed: bool, c: Context)
    requires c.owes == {Checks(torrent)}
    ensures After(Goroutine(torrent, pieces, byMove, failed), c) == Some(c.(owes := {}))
  {
    var d := c.(owes := {Checks(torrent), Engine});
    assert c.owes + {Engine} == d.owes;
    VerificationOrdered(torrent, pieces, byMove, failed);
    var body := Verification(torrent, pieces, byMove, failed);
    One(Add(Engine), c);
    One(Spawn(body), d);
    AfterAppend([Add(Engine)], [Spawn(body)], c);
  }

  lemma BeginKeeps(torrent: nat, c: Context)
    requires Below(c, MU_LEVEL) && c.owes == {}
    ensures After(Begin(torrent), c) == Some(c.(owes := {Checks(torrent)}))
  {
    var d := c.(owes := {Checks(torrent)});
    assert c.owes + {Checks(torrent)} == d.owes;
    One(Add(Checks(torrent)), c);
    AllBlocks(d);
    AfterAppend([Add(Checks(torrent))], BLOCK, c);
  }

  lemma RecheckOrdered(torrent: nat, pieces: nat, failed: bool)
    ensures Ordered(Recheck(torrent, pieces, failed), FREE)
  {
    Appends();
    AllBlocks(FREE);
    BeginKeeps(torrent, FREE);
    var d := FREE.(owes := {Checks(torrent)});
    GoroutineKeeps(torrent, pieces, false, failed, d);
  }

  // Work that is in order inside opMu makes an operation that is in order.
  lemma InsideOrdered(torrent: nat, work: seq<Action>)
    requires After(work, Context({OpMu(torrent)}, {}, false)) == Some(Context({OpMu(torrent)}, {}, false))
    ensures Ordered(Inside(torrent, work), FREE)
  {
    Appends();
    var c := Context({OpMu(torrent)}, {}, false);
    BlocksKeep(1, FREE);
    assert FREE.held + {OpMu(torrent)} == c.held && c.held - {OpMu(torrent)} == {};
    One(Acquire(OpMu(torrent)), FREE);
    BlocksKeep(1, c);
    One(Wait(Checks(torrent)), c);
    One(Release(OpMu(torrent)), c);
  }

  lemma MoveOrdered(torrent: nat, end: MoveEnd)
    ensures Ordered(Inside(torrent, Moving(torrent, end)), FREE)
  {
    Appends();
    var c := Context({OpMu(torrent)}, {}, false);
    AllBlocks(c);
    match end {
      case ReAddFailed(how) => PersistKeeps(how, c);
      case Moved(pieces, failed) =>
        BeginKeeps(torrent, c);
        GoroutineKeeps(torrent, pieces, true, failed, c.(owes := {Checks(torrent)}));
      case _ =>
    }
    InsideOrdered(torrent, Moving(torrent, end));
  }

  lemma PurgeOrdered(torrent: nat, hasInfo: bool, how: Saving)
    ensures Ordered(Inside(torrent, Purging(hasInfo, how)), FREE)
  {
    Appends();
    var c := Context({OpMu(torrent)}, {}, false);
    AllBlocks(c);
    PersistKeeps(how, c);
    InsideOrdered(torrent, Purging(hasInfo, how));
  }

  lemma RemoveOrdered(torrent: nat, listed: bool, how: Saving)
    ensures Ordered(Inside(torrent, Removing(listed, how)), FREE)
  {
    Appends();
    var c := Context({OpMu(torrent)}, {}, false);
    AllBlocks(c);
    PersistKeeps(how, c);
    InsideOrdered(torrent, Removing(listed, how));
  }

  lemma WaiterOrdered(end: WaiterEnd)
    ensures Ordered(Waiter(end), Context({}, {Engine}, false))
  {
    Appends();
    var c := Context({}, {Engine}, false);
    One(Await, c);
    WaitedKeeps(end, c);
    One(Done(Engine), c);
  }

  lemma WaitedKeeps(end: WaiterEnd, c: Context)
    requires Below(c, SAVE_LEVEL)
    ensures After(Waited(end), c) == Some(c)
  {
    Appends();
    AllBlocks(c);
    match end
    case EngineClosed =>
    case FilesMarked(how) => PersistKeeps(how, c);
    case FilesLeft(how) => PersistKeeps(how, c);
  }

  lemma AddKeeps(end: WaiterEnd, now: Saving)
    ensures After(AddTorrent(end, now), FREE) == Some(FREE)
  {
    var d := Context({}, {Engine}, false);
    assert FREE.owes + {Engine} == d.owes;
    var waiter := Waiter(end);
    AllBlocks(FREE);
    WaiterOrdered(end);
    One(Add(Engine), FREE);
    One(Spawn(waiter), d);
    PersistKeeps(now, FREE);
    AfterAppend(Blocks(1), [Add(Engine)], FREE);
    AfterAppend(Blocks(1) + [Add(Engine)], [Spawn(waiter)], FREE);
    AfterAppend(Blocks(1) + [Add(Engine)] + [Spawn(waiter)], Persist(now), FREE);
    AfterAppend(Blocks(1) + [Add(Engine)] + [Spawn(waiter)] + Persist(now), Blocks(2), FREE);
  }

  lemma {:induction false} PrioritiesKeep(taken: seq<bool>, c: Context)
    requires Below(c, SAVE_LEVEL)
    ensures After(Priorities(taken), c) == Some(c)
    decreases |taken|
  {
    if taken != [] {
      var n := |taken| - 1;
      PrioritiesKeep(taken[..n], c);
      SetterKeeps(false, Suppressed, c);
      BlocksKeep(1, c);
      AfterAppend(Priorities(taken[..n]), if taken[n] then Setter(false, Suppressed) else Blocks(1), c);
    }
  }

  lemma RestoreOneKeeps(r: Restored)
    ensures After(RestoreOne(r), FREE) == Some(FREE)
  {
    Appends();
    AddKeeps(r.end, Suppressed);
    SetterKeeps(false, Suppressed, FREE);
    PrioritiesKeep(r.priorities, FREE);
    BlocksKeep(1, FREE);
  }

  lemma {:induction false} RestoreAllKeeps(rs: seq<Restored>)
    ensures After(RestoreAll(rs), FREE) == Some(FREE)
    decreases |rs|
  {
    if rs != [] {
      var n := |rs| - 1;
      RestoreAllKeeps(rs[..n]);
      RestoreOneKeeps(rs[n]);
      AfterAppend(RestoreAll(rs[..n]), RestoreOne(rs[n]), FREE);
    }
  }

  lemma RestoreOrdered(rs: seq<Restored>, how: Saving)
    ensures Ordered(Restore(rs, how), FREE)
  {
    Appends();
    AllBlocks(FREE);
    RestoreAllKeeps(rs);
    PersistKeeps(how, FREE);
  }

  // The tick runs in the loop that e.wg waits for.
  lemma TickKeeps(clockStarted: bool, how: Saving, stopped: nat, c: Context)
    requires Below(c, SAVE_LEVEL)
    ensures After(Tick(clockStarted, how, stopped), c) == Some(c)
  {
    AllBlocks(c);
    PersistKeeps(how, c);
    PausesKeep(stopped, how, c);
    var save := if clockStarted then Persist(how) else [];
    AfterAppend(Blocks(3), save, c);
    AfterAppend(Blocks(3) + save, Pauses(stopped, how), c);
    AfterAppend(Blocks(3) + save + Pauses(stopped, how), Blocks(1), c);
  }

  lemma CloseNowKeeps(how: Saving, c: Context)
    requires c == Context({Once}, {}, false)
    ensures After(CloseNow(how), c) == Some(c.(closed := true))
  {
    var d := c.(closed := true);
    PersistKeeps(how, c);
    AllBlocks(c);
    AllBlocks(d);
    One(CloseCh, c);
    One(Wait(Engine), d);
    AfterAppend(Persist(how), Blocks(1), c);
    AfterAppend(Persist(how) + Blocks(1), [CloseCh], c);
    AfterAppend(Persist(how) + Blocks(1) + [CloseCh], [Wait(Engine)], c);
    AfterAppend(Persist(how) + Blocks(1) + [CloseCh] + [Wait(Engine)], Blocks(1), c);
  }

  lemma CloseOrdered(first: bool, how: Saving)
    ensures Ordered(Close(first, how), FREE)
  {
    Appends();
    var c := Context({Once}, {}, false);
    var d := c.(closed := first);
    assert FREE.held + {Once} == c.held && c.held - {Once} == {};
    One(Acquire(Once), FREE);
    CloseNowKeeps(how, c);
    assert After([], c) == Some(c);
    One(Release(Once), d);
  }

  // ------------------------------------------------------------------
  // The engine
  // ------------------------------------------------------------------

  // The tick loop that New starts: some ticks, then the end of closeCh's
  // wait. It is a thread that e.wg waits for.
  function TickLoop(ticks: seq<(bool, Saving, nat)>): seq<Action> {
    if ticks == [] then [Await] + [Done(Engine)]
    else Tick(ticks[0].0, ticks[0].1, ticks[0].2) + TickLoop(ticks[1..])
  }

  lemma {:induction false} TickLoopOrdered(ticks: seq<(bool, Saving, nat)>)
    ensures Ordered(TickLoop(ticks), Context({}, {Engine}, false))
    decreases |ticks|
  {
    var c := Context({}, {Engine}, false);
    if ticks == [] {
      One(Await, c);
      One(Done(Engine), c);
      AfterAppend([Await], [Done(Engine)], c);
    } else {
      TickKeeps(ticks[0].0, ticks[0].1, ticks[0].2, c);
      TickLoopOrdered(ticks[1..]);
      AfterAppend(Tick(ticks[0].0, ticks[0].1, ticks[0].2), TickLoop(ticks[1..]), c);
    }
  }

  // Every way a thread of the engine begins.
  datatype Operation =
    | Publish(blocks: nat)
    | Set(resuming: bool, how: Saving)
    | DoAdd(end: WaiterEnd, now: Saving)
    | DoRestore(records: seq<Restored>, how: Saving)
    | DoRecheck(torrent: nat, pieces: nat, failed: bool)
    | DoMove(torrent: nat, moveEnd: MoveEnd)
    | DoPurge(torrent: nat, hasInfo: bool, how: Saving)
    | DoRemove(torrent: nat, listed: bool, how: Saving)
    | DoClose(first: bool, how: Saving)
    | DoTicks(ticks: seq<(bool, Saving, nat)>)

  function Program(op: Operation): seq<Action> {
    match op
    case Publish(blocks) => Blocks(blocks)
    case Set(resuming, how) => Setter(resuming, how)
    case DoAdd(end, now) => AddTorrent(end, now)
    case DoRestore(records, how) => Restore(records, how)
    case DoRecheck(torrent, pieces, failed) => Recheck(torrent, pieces, failed)
    case DoMove(torrent, end) => Inside(torrent, Moving(torrent, end))
    case DoPurge(torrent, hasInfo, how) => Inside(torrent, Purging(hasInfo, how))
    case DoRemove(torrent, listed, how) => Inside(torrent, Removing(listed, how))
    case DoClose(first, how) => Close(first, how)
    case DoTicks(ticks) => TickLoop(ticks)
  }

  function Owes(op: Operation): set<Group> {
    if op.DoTicks? then {Engine} else {}
  }

  // Every path of every operation obeys the order, so the system may start
  // it at any time; with NoDeadlock, the engine never deadlocks.
  lemma OperationsAreOrdered(s: System, op: Operation)
    ensures Step(s, Start(Program(op), Owes(op))).Some?
  {
    match op
    case Publish(blocks) => BlocksKeep(blocks, FREE);
    case Set(resuming, how) => SetterKeeps(resuming, how, FREE);
    case DoAdd(end, now) => AddKeeps(end, now);
    case DoRestore(records, how) => RestoreOrdered(records, how);
    case DoRecheck(torrent, pieces, failed) => RecheckOrdered(torrent, pieces, failed);
    case DoMove(torrent, end) => MoveOrdered(torrent, end);
    case DoPurge(torrent, hasInfo, how) => PurgeOrdered(torrent, hasInfo, how);
    case DoRemove(torrent, listed, how) => RemoveOrdered(torrent, listed, how);
    case DoClose(first, how) => CloseOrdered(first, how);
    case DoTicks(ticks) => TickLoopOrdered(ticks);
  }

  // ------------------------------------------------------------------
  // What locks and waits are for
  // ------------------------------------------------------------------

  ghost predicate Exclusive(s: System) {
    forall i, j, l | 0 <= i < j < |s.threads| && l in s.threads[i].ctx.held :: l !in s.threads[j].ctx.held
  }

  lemma StepKeepsExclusive(s: System, e: Event)
    requires Exclusive(s) && Step(s, e).Some?
    ensures Exclusive(Step(s, e).value)
  {
    if e.Advance? && s.threads[e.thread].todo[0].Acquire? {
      NobodyElseHolds(s, e.thread, s.threads[e.thread].todo[0].lock);
    }
  }

  lemma NobodyElseHolds(s: System, i: nat, l: Lock)
    requires i < |s.threads| && s.threads[i].todo != [] && s.threads[i].todo[0] == Acquire(l) && Possible(s, i)
    ensures forall j | 0 <= j < |s.threads| :: l !in s.threads[j].ctx.held
  {
    forall j | 0 <= j < |s.threads|
      ensures l !in s.threads[j].ctx.held
    {
    }
  }

  // In every run a lock is held by one thread at a time.
  lemma LocksExclude(events: seq<Event>, i: nat, j: nat, l: Lock)
    requires Run(Step, System([], false), events).Some?
    requires var s := Run(Step, System([], false), events).value;
             i < |s.threads| && j < |s.threads| && l in s.threads[i].ctx.held && l in s.threads[j].ctx.held
    ensures i == j
  {
    forall s, e | Exclusive(s) && Step(s, e).Some?
      ensures Exclusive(Step(s, e).value)
    {
      StepKeepsExclusive(s, e);
    }
    InvariantOverRuns(Exclusive, Step, System([], false), events);
  }

  // And a wait for a group goes on only when nobody owes it anything.
  lemma WaitsForEverybody(s: System, i: nat, g: Group, j: nat)
    requires i < |s.threads| && s.threads[i].todo != [] && s.threads[i].todo[0] == Wait(g)
    requires Step(s, Advance(i)).Some? && j < |s.threads|
    ensures g !in s.threads[j].ctx.owes
  {
    if j != i {
      assert !OwedByOther(s, i, g);
    }
  }

  // ------------------------------------------------------------------
  // Which paths save the session
  // ------------------------------------------------------------------

  predicate Writes(how: Saving) {
    how.Unwritable? || how.Saved?
  }

  // How often a path, without the goroutines it starts, takes saveMu.
  function Saves(p: seq<Action>): nat {
    multiset(p)[Acquire(SaveMu)]
  }

  lemma SavesAppend(a: seq<Action>, b: seq<Action>)
    ensures Saves(a + b) == Saves(a) + Saves(b)
  {
  }

  lemma {:induction false} BlocksSaveNothing(n: nat)
    ensures Saves(Blocks(n)) == 0
  {
    if n > 0 {
      BlocksSaveNothing(n - 1);
      SavesAppend(Blocks(n - 1), BLOCK);
    }
  }

  lemma PersistSaves(how: Saving)
    ensures Saves(Persist(how)) == if Writes(how) then 1 else 0
  {
    BlocksSaveNothing(1);
    BlocksSaveNothing(2);
    assert Saves([Acquire(SaveMu)]) == 1 && Saves([Release(SaveMu)]) == 0;
  }

  lemma SetterSaves(resuming: bool, how: Saving)
    ensures Saves(Setter(resuming, how)) == if Writes(how) then 1 else 0
  {
    BlocksSaveNothing(2);
    BlocksSaveNothing(3);
    PersistSaves(how);
  }

  lemma InsideSaves(torrent: nat, work: seq<Action>)
    ensures Saves(Inside(torrent, work)) == Saves(work)
  {
    BlocksSaveNothing(1);
    assert Saves([Acquire(OpMu(torrent))]) == Saves([Wait(Checks(torrent))]) == Saves([Release(OpMu(torrent))]) == 0;
  }

  lemma PurgingSaves(hasInfo: bool, how: Saving)
    ensures Saves(Purging(hasInfo, how)) == if hasInfo && Writes(how) then 1 else 0
  {
    BlocksSaveNothing(1);
    BlocksSaveNothing(2);
    BlocksSaveNothing(4);
    PersistSaves(how);
  }

  lemma RemovingSaves(listed: bool, how: Saving)
    ensures Saves(Removing(listed, how)) == if listed && Writes(how) then 1 else 0
  {
    BlocksSaveNothing(1);
    BlocksSaveNothing(2);
    PersistSaves(how);
  }

  lemma RecheckSaves(torrent: nat, pieces: nat, failed: bool)
    ensures Saves(Recheck(torrent, pieces, failed)) == 0
  {
    BlocksSaveNothing(1);
    BlocksSaveNothing(2);
    GoroutineSaves(torrent, pieces, false, failed);
  }

  lemma GoroutineSaves(torrent: nat, pieces: nat, byMove: bool, failed: bool)
    ensures Saves(Begin(torrent)) == 0 && Saves(Goroutine(torrent, pieces, byMove, failed)) == 0
  {
    BlocksSaveNothing(1);
    assert Saves([Add(Checks(torrent))]) == 0 && Saves([Add(Engine)]) == 0;
    assert Saves([Spawn(Verification(torrent, pieces, byMove, failed))]) == 0;
  }

  lemma MovingSaves(torrent: nat, end: MoveEnd)
    ensures Saves(Moving(torrent, end)) == if end.ReAddFailed? && Writes(end.how) then 1 else 0
  {
    BlocksSaveNothing(1);
    BlocksSaveNothing(2);
    BlocksSaveNothing(3);
    BlocksSaveNothing(4);
    BlocksSaveNothing(5);
    match end
    case NoMetadata =>
    case FilesFailed =>
    case ReAddFailed(how) => PersistSaves(how);
    case Moved(pieces, failed) => GoroutineSaves(torrent, pieces, true, failed);
  }

  // A setter saves what it changed, and so does a purge, or a removal, that
  // had something to do; a recheck saves nothing; and a move saves when it
  // failed to add the torrent again, and not when it ended well.
  lemma OperationsSave(torrent: nat, how: Saving, end: MoveEnd, did: bool, pieces: nat, failed: bool)
    ensures Saves(Setter(did, how)) == if Writes(how) then 1 else 0
    ensures Saves(Inside(torrent, Purging(did, how))) == if did && Writes(how) then 1 else 0
    ensures Saves(Inside(torrent, Removing(did, how))) == if did && Writes(how) then 1 else 0
    ensures Saves(Recheck(torrent, pieces, failed)) == 0
    ensures Saves(Inside(torrent, Moving(torrent, end))) == if end.ReAddFailed? && Writes(end.how) then 1 else 0
  {
    SetterSaves(did, how);
    PurgingSaves(did, how);
    InsideSaves(torrent, Purging(did, how));
    RemovingSaves(did, how);
    InsideSaves(torrent, Removing(did, how));
    RecheckSaves(torrent, pieces, failed);
    MovingSaves(torrent, end);
    InsideSaves(torrent, Moving(torrent, end));
  }

  lemma {:induction false} PrioritiesSave(taken: seq<bool>)
    ensures Saves(Priorities(taken)) == 0
    decreases |taken|
  {
    if taken != [] {
      PrioritiesSave(taken[..|taken| - 1]);
      SetterSaves(false, Suppressed);
      BlocksSaveNothing(1);
    }
  }

  lemma {:induction false} RestoredSave(rs: seq<Restored>)
    ensures Saves(RestoreAll(rs)) == 0
    decreases |rs|
  {
    if rs != [] {
      var r := rs[|rs| - 1];
      RestoredSave(rs[..|rs| - 1]);
      PrioritiesSave(r.priorities);
      SetterSaves(false, Suppressed);
      PersistSaves(Suppressed);
      BlocksSaveNothing(1);
      BlocksSaveNothing(2);
      assert Saves([Add(Engine)]) == 0 && Saves([Spawn(Waiter(r.end))]) == 0;
    }
  }

  // A restore saves once, at its end, however many torrents it brings back.
  lemma RestoreSavesOnce(rs: seq<Restored>, how: Saving)
    ensures Saves(Restore(rs, how)) == if Writes(how) then 1 else 0
  {
    RestoredSave(rs);
    PersistSaves(how);
    BlocksSaveNothing(1);
  }
}
