// Who owns the daemon socket (internal/ipc/lock_unix.go, and Serve and Close
// in internal/ipc/server.go): daemons that start, serve, stop and crash, and
// probes that ask whether one is running, around one exclusive file lock.
module DaemonLock {
  import opened Runs

  const ATTEMPTS := 5

  //  Trying(n)   the n-th attempt at the lock
  //  Truncating, Stamping    has the lock and writes its pid into the file
  //  Unlinking .. Releasing  past acquireDaemonLock, lock still held
  //  Failed      gave up: another process held the lock every time
  //  Peeking     a probe that has taken the lock and will drop it
  //  Reading     a probe that was refused and will read the pid
  datatype Pc =
    | Trying(n: nat) | Truncating | Stamping | Unlinking | Binding | Serving | ClosingListener | UnlinkingAgain
    | Releasing
    | Ended | Failed | Dead
    | Asking | Peeking | Reading | Answered(running: bool, pid: Option<nat>)

  //  lock    the process that has the file locked
  //  file    the process that bound the socket file, if the file exists
  //  stamp   the pid in the lock file
  //  signed  the lock's holder has written its pid there
  datatype State = State(procs: seq<Pc>, lock: Option<nat>, file: Option<nat>, stamp: Option<nat>, signed: bool)

  const INIT := State([], None, None, None, false)

  datatype Event =
    | StartDaemon | StartProbe
    | Next(i: nat, ok: bool)
    | Crash(i: nat)

  predicate Owns(pc: Pc) {
    pc.Truncating? || pc.Stamping? || pc.Unlinking? || pc.Binding? || pc.Serving? || pc.ClosingListener?
        || pc.UnlinkingAgain? || pc.Releasing?
  }

  // The steps that remove whatever is at the socket's path.
  predicate Unlinks(pc: Pc) {
    pc.Unlinking? || pc.ClosingListener? || pc.UnlinkingAgain?
  }

  function Put(s: State, i: nat, pc: Pc): State
    requires i < |s.procs|
  {
    s.(procs := s.procs[i := pc])
  }

  // One step of process i. `ok` is whether its system call succeeds when
  // nothing of this protocol's stands in its way.
  function ProcNext(s: State, i: nat, ok: bool): Option<State>
    requires i < |s.procs|
  {
    match s.procs[i]
    case Trying(n) =>
      if s.lock.None? then Some(Put(s, i, Truncating).(lock := Some(i), signed := false))
      else if n + 1 >= ATTEMPTS then Some(Put(s, i, Failed))
      else Some(Put(s, i, Trying(n + 1)))
    case Truncating => if ok then Some(Put(s, i, Stamping).(stamp := None)) else Some(Put(s, i, Unlinking))
    case Stamping =>
      var t := Put(s, i, Unlinking);
      Some(if ok then t.(stamp := Some(i), signed := true) else t)
    case Unlinking => Some(Put(s, i, Binding).(file := None))
    case Binding =>
      if ok && s.file.None? then Some(Put(s, i, Serving).(file := Some(i))) else Some(Put(s, i, Releasing))
    case Serving => Some(Put(s, i, ClosingListener))
    case ClosingListener => Some(Put(s, i, UnlinkingAgain).(file := None))
    case UnlinkingAgain => Some(Put(s, i, Releasing).(file := None))
    case Releasing => Some(Put(s, i, Ended).(lock := None))
    case Asking =>
      if s.lock.None? then Some(Put(s, i, Peeking).(lock := Some(i), signed := false)) else Some(Put(s, i, Reading))
    case Peeking => Some(Put(s, i, Answered(false, None)).(lock := None))
    case Reading => Some(Put(s, i, Answered(true, s.stamp)))
    case _ => None
  }

  function Step(s: State, e: Event): Option<State> {
    match e
    case StartDaemon => Some(s.(procs := s.procs + [Trying(0)]))
    case StartProbe => Some(s.(procs := s.procs + [Asking]))
    case Next(i, ok) => if i < |s.procs| then ProcNext(s, i, ok) else None
    // A process that dies loses its lock; its socket file stays.
    case Crash(i) =>
      if i < |s.procs| then Some(Put(s, i, Dead).(lock := if s.lock == Some(i) then None else s.lock)) else None
  }

  ghost predicate Inv(s: State) {
    && (s.lock.Some? ==> s.lock.value < |s.procs| && (Owns(s.procs[s.lock.value]) || s.procs[s.lock.value].Peeking?))
    && (forall i | 0 <= i < |s.procs| && (Owns(s.procs[i]) || s.procs[i].Peeking?) :: s.lock == Some(i))
    && (s.file.Some? ==> s.file.value < |s.procs| && FileWell(s, s.file.value))
    && (forall i | 0 <= i < |s.procs| && s.procs[i].Binding? :: s.file.None?)
    && (s.signed && s.lock.Some? ==>
          s.stamp == s.lock && !s.procs[s.lock.value].Truncating? && !s.procs[s.lock.value].Stamping?)
  }

  // A socket file that exists was bound by a process that is dead, or by
  // the one that holds the lock.
  ghost predicate FileWell(s: State, binder: nat)
    requires binder < |s.procs|
  {
    s.procs[binder].Dead? || (s.lock == Some(binder) && (s.procs[binder].Serving? || s.procs[binder].ClosingListener?))
  }

  // Taking and dropping the lock.
  lemma LockStepKeeps(s: State, i: nat, ok: bool, t: State)
    requires Inv(s) && i < |s.procs| && ProcNext(s, i, ok) == Some(t)
    requires s.procs[i].Trying? || s.procs[i].Asking? || s.procs[i].Peeking? || s.procs[i].Reading?
              || s.procs[i].Releasing?
    ensures Inv(t)
  {
    match s.procs[i]
    case Trying(n) =>
    case Asking =>
    case Peeking =>
    case Reading =>
    case Releasing =>
  }

  // What a daemon does while it has the lock.
  lemma OwnerStepKeeps(s: State, i: nat, ok: bool, t: State)
    requires Inv(s) && i < |s.procs| && ProcNext(s, i, ok) == Some(t) && Owns(s.procs[i]) && !s.procs[i].Releasing?
    ensures Inv(t)
  {
    assert s.lock == Some(i) && t.lock == s.lock;
    match s.procs[i]
    case Truncating =>
    case Stamping =>
    case Unlinking =>
    case Binding =>
    case Serving =>
    case ClosingListener =>
    case UnlinkingAgain =>
  }

  lemma StepKeeps(s: State, e: Event)
    requires Inv(s) && Step(s, e).Some?
    ensures Inv(Step(s, e).value)
  {
    match e
    case Next(i, ok) =>
      if Owns(s.procs[i]) && !s.procs[i].Releasing? {
        OwnerStepKeeps(s, i, ok, Step(s, e).value);
      } else {
        LockStepKeeps(s, i, ok, Step(s, e).value);
      }
    case _ =>
  }

  lemma Always(events: seq<Event>)
    requires Run(Step, INIT, events).Some?
    ensures Inv(Run(Step, INIT, events).value)
  {
    forall s, e | Inv(s) && Step(s, e).Some?
      ensures Inv(Step(s, e).value)
    {
      StepKeeps(s, e);
    }
    InvariantOverRuns(Inv, Step, INIT, events);
  }

  // ------------------------------------------------------------------
  // Exclusion
  // ------------------------------------------------------------------

  // Over any run of starts, stops, crashes and probes, at most one process
  // is past acquireDaemonLock and has not released it.
  lemma OneDaemonAtATime(events: seq<Event>, i: nat, j: nat)
    requires Run(Step, INIT, events).Some?
    requires var s := Run(Step, INIT, events).value;
             i < |s.procs| && j < |s.procs| && Owns(s.procs[i]) && Owns(s.procs[j])
    ensures i == j
  {
    Always(events);
  }

  // The socket file is absent, or left by a dead process, or bound by the
  // daemon that holds the lock.
  lemma SocketHasItsOwner(events: seq<Event>)
    requires Run(Step, INIT, events).Some?
    requires Run(Step, INIT, events).value.file.Some?
    ensures var s := Run(Step, INIT, events).value; s.file.value < |s.procs| && FileWell(s, s.file.value)
  {
    Always(events);
  }

  // No daemon unlinks another live daemon's socket: what it removes is its
  // own, or a dead process's.
  lemma UnlinksOnlyStaleSockets(events: seq<Event>, i: nat)
    requires Run(Step, INIT, events).Some?
    requires var s := Run(Step, INIT, events).value;
             i < |s.procs| && Unlinks(s.procs[i]) && s.file.Some? && s.file.value != i
    ensures var s := Run(Step, INIT, events).value; s.file.value < |s.procs| && s.procs[s.file.value].Dead?
  {
    Always(events);
  }

  // Once a daemon has unlinked, nothing is in the way of its socket, not
  // even a dead process's file: it binds exactly when the system lets it.
  lemma NothingInTheWay(events: seq<Event>, i: nat)
    requires Run(Step, INIT, events).Some?
    requires var s := Run(Step, INIT, events).value; i < |s.procs| && s.procs[i].Binding?
    ensures var s := Run(Step, INIT, events).value;
            && s.file.None?
            && (forall ok :: Step(s, Next(i, ok)).Some? && (Step(s, Next(i, ok)).value.procs[i].Serving? <==> ok))
            && Step(s, Next(i, true)).value.file == Some(i)
  {
    Always(events);
  }

  // ------------------------------------------------------------------
  // What a probe can say
  // ------------------------------------------------------------------

  // Some daemon is past acquireDaemonLock.
  ghost predicate Running(s: State) {
    exists i :: 0 <= i < |s.procs| && Owns(s.procs[i])
  }

  // A probe that is refused is right that a daemon runs exactly when the
  // lock is not just another probe's; one that is not refused is right.
  lemma ProbeAnswers(events: seq<Event>, i: nat, ok: bool)
    requires Run(Step, INIT, events).Some?
    requires var s := Run(Step, INIT, events).value; i < |s.procs| && s.procs[i].Asking?
    ensures var s := Run(Step, INIT, events).value;
            var t := Step(s, Next(i, ok));
            && t.Some?
            && (t.value.procs[i].Peeking? ==> !Running(s))
            && (t.value.procs[i].Reading? ==>
                  s.lock.Some? && s.lock.value < |s.procs| && (Running(s) <==> !s.procs[s.lock.value].Peeking?))
  {
    Always(events);
    var s := Run(Step, INIT, events).value;
    if s.lock.Some? && !s.procs[s.lock.value].Peeking? {
      assert Owns(s.procs[s.lock.value]);
    }
  }

  // The pid a refused probe reads is the daemon's, if the daemon has
  // managed to write it.
  lemma ProbeReadsTheHolder(events: seq<Event>, i: nat, ok: bool)
    requires Run(Step, INIT, events).Some?
    requires var s := Run(Step, INIT, events).value;
             i < |s.procs| && s.procs[i].Reading? && s.lock.Some? && s.signed
    ensures var s := Run(Step, INIT, events).value;
            Step(s, Next(i, ok)).Some? && Step(s, Next(i, ok)).value.procs[i] == Answered(true, s.lock)
  {
    Always(events);
  }

  ghost predicate Reaches(s: State) {
    exists events :: Run(Step, INIT, events) == Some(s)
  }

  // Every state a run reaches.
  lemma Reachable() returns (r: iset<State>)
    ensures INIT in r && Closed(r)
    ensures forall s :: s in r <==> Reaches(s)
  {
    r := iset s | Reaches(s);
    assert Run(Step, INIT, []) == Some(INIT);
    forall s, e | s in r && Step(s, e).Some?
      ensures Step(s, e).value in r
    {
      var events :| Run(Step, INIT, events) == Some(s);
      RunSnoc(Step, INIT, events, e);
    }
  }

  ghost predicate Closed(r: iset<State>) {
    forall s, e :: s in r && Step(s, e).Some? ==> Step(s, e).value in r
  }

  // Two probes at once: the second reports a daemon that is not there.
  lemma ProbesSeeEachOther()
    ensures exists s :: Reaches(s) && !Running(s) && |s.procs| == 2 && s.procs[1] == Answered(true, None)
  {
    var r := Reachable();
    var s := TwoProbes(r);
    var t := Step(s, Next(0, true)).value;
    var u := Step(t, Next(1, true)).value;
    var v := Step(u, Next(1, true)).value;
    assert Reaches(v) && !Running(v);
  }

  lemma TwoProbes(r: iset<State>) returns (s: State)
    requires INIT in r && Closed(r)
    ensures s in r && |s.procs| == 2 && s.procs[0].Asking? && s.procs[1].Asking? && s.lock.None? && s.stamp.None?
  {
    var t := Step(INIT, StartProbe).value;
    s := Step(t, StartProbe).value;
  }

  // A daemon gives up only at an attempt at which another process has the
  // lock; without probes that process is a daemon.
  lemma GivesUpOnlyWhenRefused(events: seq<Event>, i: nat, ok: bool)
    requires Run(Step, INIT, events).Some?
    requires var s := Run(Step, INIT, events).value;
             i < |s.procs| && s.procs[i].Trying? && Step(s, Next(i, ok)).Some?
             && Step(s, Next(i, ok)).value.procs[i].Failed?
    ensures var s := Run(Step, INIT, events).value;
            && s.lock.Some? && s.lock.value < |s.procs| && s.procs[i].n + 1 >= ATTEMPTS
            && (Running(s) || s.procs[s.lock.value].Peeking?)
  {
    Always(events);
    var s := Run(Step, INIT, events).value;
    if Owns(s.procs[s.lock.value]) {
      assert Running(s);
    }
  }

  // ------------------------------------------------------------------
  // A process with nobody in its way
  // ------------------------------------------------------------------

  // k steps of process i, all of whose system calls succeed.
  ghost function Alone(s: State, i: nat, k: nat): Option<State> {
    Run(Step, s, Same(Next(i, true), k))
  }

  // Process i is at pc, and no other process has moved.
  predicate Moved(s: State, t: State, i: nat, pc: Pc) {
    && i < |s.procs| == |t.procs| && t.procs[i] == pc
    && forall j | 0 <= j < |s.procs| && j != i :: t.procs[j] == s.procs[j]
  }

  lemma Further(s: State, i: nat, k: nat, x: State)
    requires Alone(s, i, k) == Some(x) && Step(x, Next(i, true)).Some?
    ensures Alone(s, i, k + 1) == Step(x, Next(i, true))
  {
    OnceMore(Step, s, Next(i, true), k, x, Step(x, Next(i, true)).value);
  }

  lemma NotYet(s: State, i: nat)
    ensures Alone(s, i, 0) == Some(s)
  {
  }

  // With the lock free a daemon that starts is serving five steps later, at
  // whatever attempt: the lock, the pid and the socket are its own, a stale
  // socket is gone, and nobody else is touched.
  lemma StartsAlone(s: State, i: nat)
    requires i < |s.procs| && s.procs[i].Trying? && s.lock.None?
    ensures Alone(s, i, 5).Some?
    ensures var t := Alone(s, i, 5).value;
            Moved(s, t, i, Serving) && t.lock == t.file == t.stamp == Some(i) && t.signed
  {
    NotYet(s, i);
    Further(s, i, 0, s);
    var a := Step(s, Next(i, true)).value;
    Further(s, i, 1, a);
    var b := Step(a, Next(i, true)).value;
    Further(s, i, 2, b);
    var c := Step(b, Next(i, true)).value;
    Further(s, i, 3, c);
    var d := Step(c, Next(i, true)).value;
    Further(s, i, 4, d);
  }

  // So with the lock free anybody who starts a daemon gets one that serves,
  // and anybody who asks is told that none runs.
  lemma LaunchServes(s: State)
    requires s.lock.None?
    ensures var u := Step(s, StartDaemon);
            u.Some? && Alone(u.value, |s.procs|, 5).Some?
            && var t := Alone(u.value, |s.procs|, 5).value;
               |t.procs| == |s.procs| + 1 && t.procs[|s.procs|] == Serving && t.lock == t.file == Some(|s.procs|)
    ensures var u := Step(s, StartProbe);
            u.Some? && Alone(u.value, |s.procs|, 2).Some?
            && Alone(u.value, |s.procs|, 2).value.procs == s.procs + [Answered(false, None)]
  {
    StartsAlone(Step(s, StartDaemon).value, |s.procs|);
    ProbesAlone(Step(s, StartProbe).value, |s.procs|);
  }

  // One that stops takes its socket with it and gives the lock back; the pid
  // stays in the file.
  lemma StopsAlone(s: State, i: nat)
    requires i < |s.procs| && s.procs[i].Serving?
    ensures Alone(s, i, 4).Some?
    ensures var t := Alone(s, i, 4).value;
            Moved(s, t, i, Ended) && t.lock.None? && t.file.None? && t.stamp == s.stamp && t.signed == s.signed
  {
    NotYet(s, i);
    Further(s, i, 0, s);
    var a := Step(s, Next(i, true)).value;
    Further(s, i, 1, a);
    var b := Step(a, Next(i, true)).value;
    Further(s, i, 2, b);
    var c := Step(b, Next(i, true)).value;
    Further(s, i, 3, c);
  }

  // While somebody else has the lock a daemon tries five times, and fails at
  // the fifth, having touched nothing.
  lemma {:induction false} RefusedAlone(s: State, i: nat, k: nat)
    requires i < |s.procs| && s.procs[i] == Trying(0) && s.lock.Some? && k <= 5
    ensures Alone(s, i, k).Some?
    ensures var t := Alone(s, i, k).value;
            t == s.(procs := t.procs) && Moved(s, t, i, if k == 5 then Failed else Trying(k))
  {
    NotYet(s, i);
    if k > 0 {
      RefusedAlone(s, i, k - 1);
      Further(s, i, k - 1, Alone(s, i, k - 1).value);
    }
  }

  // A daemon that cannot write its pid serves all the same, and the lock file
  // says nothing it did not say before.
  lemma ServesUnsigned(s: State, i: nat)
    requires i < |s.procs| && s.procs[i].Truncating? && s.lock == Some(i)
    ensures var u := Step(s, Next(i, false));
            && u.Some? && Alone(u.value, i, 2).Some?
            && var t := Alone(u.value, i, 2).value;
               t == s.(procs := t.procs, file := Some(i)) && Moved(s, t, i, Serving)
  {
    var u := Step(s, Next(i, false)).value;
    NotYet(u, i);
    Further(u, i, 0, u);
    Further(u, i, 1, Step(u, Next(i, true)).value);
  }

  // One whose write of the pid fails half way goes on, with the file empty;
  // one that cannot bind gives the lock back.
  lemma FailsAlone(s: State, i: nat)
    requires i < |s.procs| && s.lock == Some(i)
    ensures s.procs[i].Stamping? ==>
              var t := Step(s, Next(i, false));
              t.Some? && t.value == s.(procs := t.value.procs) && Moved(s, t.value, i, Unlinking)
    ensures s.procs[i].Binding? ==>
              var u := Step(s, Next(i, false));
              && u.Some? && Alone(u.value, i, 1).Some?
              && var t := Alone(u.value, i, 1).value;
                 t == s.(procs := t.procs, lock := None) && Moved(s, t, i, Ended)
  {
    if s.procs[i].Binding? {
      var u := Step(s, Next(i, false)).value;
      NotYet(u, i);
      Further(u, i, 0, u);
    }
  }

  // A probe leaves the lock as it found it: free, and it says that nothing
  // runs; or held, and it says so, with the pid in the file.
  lemma ProbesAlone(s: State, i: nat)
    requires i < |s.procs| && s.procs[i].Asking?
    ensures Alone(s, i, 2).Some?
    ensures var t := Alone(s, i, 2).value;
            && t.lock == s.lock && t.file == s.file && t.stamp == s.stamp
            && Moved(s, t, i, if s.lock.None? then Answered(false, None) else Answered(true, s.stamp))
  {
    NotYet(s, i);
    Further(s, i, 0, s);
    Further(s, i, 1, Step(s, Next(i, true)).value);
  }
}
