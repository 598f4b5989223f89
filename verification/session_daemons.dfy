// Several daemons and one session file (cmd/torrnado/daemon.go,
// internal/engine/session.go): each restores from the file and saves it
// before it asks for the lock, serves while it has the lock, and saves once
// more after it has given the lock up or been refused it.
module SessionDaemons {
  import opened Runs

  // A change some client made; numbered in the order they were made.
  type Change = nat

  //  Starting   has not read the file yet
  //  Restored   has read it, and saves what it restored
  //  Asking     that save is over; it asks for the lock next
  //  Leaving    without the lock; its last save is still to come
  datatype Pc = Starting | Restored | Asking | Serving | Leaving | Over

  //  found    the changes that were in the file when it read it
  //  list     the changes in its torrent list
  //  saving   what the save under way is going to put into the file
  //  written  what its last save put there
  datatype Daemon = Daemon(
    pc: Pc, found: set<Change>, list: set<Change>, saving: Option<set<Change>>, written: Option<set<Change>>)

  //  file    the changes the session file has
  //  lock    the daemon that has the lock
  //  makers  which daemon made each change
  datatype State = State(daemons: seq<Daemon>, file: set<Change>, lock: Option<nat>, makers: seq<nat>)

  const INIT := State([], {}, None, [])

  datatype Event =
    | Launch
    | Read(p: nat)
    | Make(p: nat)
    | Build(p: nat)
    | Rename(p: nat, ok: bool)
    | Lock(p: nat)
    | Unlock(p: nat)
    | Crash(p: nat)

  function Put(s: State, p: nat, d: Daemon): State
    requires p < |s.daemons|
  {
    s.(daemons := s.daemons[p := d])
  }

  // Where a daemon stands once a save it has made is over.
  function Next(pc: Pc): Pc {
    if pc.Restored? then Asking else if pc.Leaving? then Over else pc
  }

  function Step(s: State, e: Event): Option<State> {
    if e.Launch? then Some(s.(daemons := s.daemons + [Daemon(Starting, {}, {}, None, None)]))
    else if e.p >= |s.daemons| then None
    else
      var d := s.daemons[e.p];
      match e
      case Read(p) =>
        if d.pc.Starting? then Some(Put(s, p, d.(pc := Restored, found := s.file, list := s.file))) else None
      case Make(p) =>
        if d.pc.Serving? then Some(Put(s, p, d.(list := d.list + {|s.makers|})).(makers := s.makers + [p])) else None
      case Build(p) =>
        if d.saving.None? && (d.pc.Restored? || d.pc.Serving? || d.pc.Leaving?)
        then Some(Put(s, p, d.(saving := Some(d.list)))) else None
      case Rename(p, ok) =>
        if d.saving.None? then None
        else if !ok then Some(Put(s, p, d.(saving := None, pc := Next(d.pc))))
        else Some(Put(s, p, d.(saving := None, written := d.saving, pc := Next(d.pc))).(file := d.saving.value))
      case Lock(p) =>
        if !d.pc.Asking? then None
        else if s.lock.Some? then Some(Put(s, p, d.(pc := Leaving)))
        else Some(Put(s, p, d.(pc := Serving)).(lock := Some(p)))
      case Unlock(p) =>
        if d.pc.Serving? && d.saving.None? then Some(Put(s, p, d.(pc := Leaving)).(lock := None)) else None
      case Crash(p) =>
        Some(Put(s, p, d.(pc := Over, saving := None)).(lock := if s.lock == Some(p) then None else s.lock))
  }

  // ------------------------------------------------------------------
  // Which changes a save keeps
  // ------------------------------------------------------------------

  // Of the changes others made, these are the ones daemon p found.
  ghost predicate KnowsFound(s: State, p: nat, changes: set<Change>)
    requires p < |s.daemons|
  {
    forall v: nat | v < |s.makers| && s.makers[v] != p :: v in changes <==> v in s.daemons[p].found
  }

  ghost predicate DaemonWell(s: State, p: nat)
    requires p < |s.daemons|
  {
    var d := s.daemons[p];
    && KnowsFound(s, p, d.list) && (d.saving.Some? ==> KnowsFound(s, p, d.saving.value))
    && (forall v | v in d.list || v in d.found :: v < |s.makers|) && (d.saving.Some? ==> d.saving.value <= d.list)
    && (d.pc.Starting? ==> d.saving.None?)
  }

  ghost predicate Inv(s: State) {
    && (forall v | v in s.file :: v < |s.makers|)
    && (forall p | 0 <= p < |s.daemons| :: DaemonWell(s, p))
    && (forall p | 0 <= p < |s.daemons| && s.daemons[p].pc.Serving? :: s.lock == Some(p))
  }

  lemma StepKeeps(s: State, e: Event)
    requires Inv(s) && Step(s, e).Some?
    ensures Inv(Step(s, e).value)
  {
    var t := Step(s, e).value;
    if !e.Launch? {
      assert DaemonWell(s, e.p);
    }
    forall p | 0 <= p < |t.daemons|
      ensures DaemonWell(t, p)
    {
      DaemonKept(s, e, t, p);
    }
  }

  lemma DaemonKept(s: State, e: Event, t: State, p: nat)
    requires Inv(s) && Step(s, e) == Some(t) && p < |t.daemons|
    ensures DaemonWell(t, p)
  {
    if p < |s.daemons| {
      assert DaemonWell(s, p);
    }
  }

  lemma Always(events: seq<Event>)
    requires Run(Step, INIT, events).Some?
    ensures Inv(Run(Step, INIT, events).value)
  {
    forall s, e | Inv(s) && Step(s, e).Some?
      ensures Inv(Step(s, e).value)
    {
      StepKeeps(s, e);
    }
    InvariantOverRuns(Inv, Step, INIT, events);
  }

  // Among any number of daemons: a change another daemon made is in the file
  // after p's save exactly when p found it there when it read the file,
  // however often it has been saved since.
  lemma ChangeSurvivesExactly(events: seq<Event>, p: nat, v: Change)
    requires Run(Step, INIT, events).Some?
    requires var s := Run(Step, INIT, events).value;
             p < |s.daemons| && v < |s.makers| && s.makers[v] != p && Step(s, Rename(p, true)).Some?
    ensures var s := Run(Step, INIT, events).value;
            v in Step(s, Rename(p, true)).value.file <==> v in s.daemons[p].found
  {
    Always(events);
    assert DaemonWell(Run(Step, INIT, events).value, p);
  }

  ghost predicate LockWell(s: State) {
    forall p: nat :: s.lock == Some(p) <==> p < |s.daemons| && s.daemons[p].pc.Serving?
  }

  // In every run exactly the daemon that serves has the lock: one that stops
  // or dies leaves it to the next.
  lemma LockHasItsServer(events: seq<Event>, p: nat)
    requires Run(Step, INIT, events).Some?
    ensures var s := Run(Step, INIT, events).value; s.lock == Some(p) <==> p < |s.daemons| && s.daemons[p].pc.Serving?
  {
    forall s, e | LockWell(s) && Step(s, e).Some?
      ensures LockWell(Step(s, e).value)
    {
    }
    InvariantOverRuns(LockWell, Step, INIT, events);
  }

  // A daemon's save, well or not.
  ghost function Saved(s: State, p: nat, ok: bool): Option<State> {
    Run(Step, s, [Build(p), Rename(p, ok)])
  }

  lemma SavesAlone(s: State, p: nat, ok: bool)
    requires p < |s.daemons| && s.daemons[p].saving.None?
    requires s.daemons[p].pc.Restored? || s.daemons[p].pc.Serving? || s.daemons[p].pc.Leaving?
    ensures Saved(s, p, ok).Some?
    ensures var t := Saved(s, p, ok).value;
            && |t.daemons| == |s.daemons| && t.lock == s.lock && t.makers == s.makers
            && t.file == (if ok then s.daemons[p].list else s.file)
            && t.daemons[p] == s.daemons[p].(pc := t.daemons[p].pc, written := t.daemons[p].written)
            && t.daemons[p].pc == match s.daemons[p].pc case Restored => Asking case Leaving => Over case _ => Serving
  {
    assert Run(Step, s, []) == Some(s);
    RunSnoc(Step, s, [], Build(p));
    RunSnoc(Step, s, [] + [Build(p)], Rename(p, ok));
    assert [] + [Build(p)] + [Rename(p, ok)] == [Build(p), Rename(p, ok)];
  }

  // A save that fails holds no daemon up: one that has restored goes on to
  // the lock, and serves what it found if it gets it; one that is leaving
  // ends.
  lemma GoesOnUnsaved(s: State, p: nat, ok: bool)
    requires p < |s.daemons| && s.daemons[p].saving.None?
    ensures s.daemons[p].pc.Restored? ==>
              && Saved(s, p, ok).Some? && Step(Saved(s, p, ok).value, Lock(p)).Some?
              && var t := Step(Saved(s, p, ok).value, Lock(p)).value;
                 && p < |t.daemons| && t.daemons[p].list == s.daemons[p].list
                 && if s.lock.None? then t.daemons[p].pc.Serving? && t.lock == Some(p) else t.daemons[p].pc.Leaving?
    ensures s.daemons[p].pc.Leaving? ==>
              Saved(s, p, ok).Some? && p < |Saved(s, p, ok).value.daemons| && Saved(s, p, ok).value.daemons[p].pc.Over?
  {
    if s.daemons[p].pc.Restored? || s.daemons[p].pc.Leaving? {
      SavesAlone(s, p, ok);
    }
  }

  // ------------------------------------------------------------------
  // One daemon at a time
  // ------------------------------------------------------------------

  predicate Idle(d: Daemon) {
    d.pc.Starting? || d.pc.Over?
  }

  predicate OthersIdle(s: State, p: nat) {
    forall q | 0 <= q < |s.daemons| && q != p :: Idle(s.daemons[q])
  }

  // As if the file were read only when no other daemon is between its own
  // reading and its last save.
  function SerialStep(s: State, e: Event): Option<State> {
    if e.Read? && !OthersIdle(s, e.p) then None else Step(s, e)
  }

  // One that is not idle has everything the file has, and will write it.
  ghost predicate HasAll(d: Daemon, file: set<Change>) {
    if Idle(d) then d.saving.None?
    else file <= d.list && (d.saving.Some? ==> file <= d.saving.value <= d.list)
  }

  ghost predicate Serial(s: State) {
    && (forall p | 0 <= p < |s.daemons| && !Idle(s.daemons[p]) :: OthersIdle(s, p))
    && (forall p | 0 <= p < |s.daemons| :: HasAll(s.daemons[p], s.file))
  }

  lemma SerialStepKeeps(s: State, e: Event)
    requires Serial(s) && SerialStep(s, e).Some?
    ensures Serial(SerialStep(s, e).value) && s.file <= SerialStep(s, e).value.file
  {
    var t := Step(s, e).value;
    if e.Launch? {
      assert forall p | 0 <= p < |s.daemons| :: t.daemons[p] == s.daemons[p];
    } else {
      assert HasAll(s.daemons[e.p], s.file);
      assert forall q | 0 <= q < |s.daemons| && q != e.p :: t.daemons[q] == s.daemons[q];
      assert HasAll(t.daemons[e.p], t.file);
    }
  }

  // Then no change that was saved is ever lost from the file, through any
  // crashes and failed saves.
  lemma {:induction false} SerialKeepsChanges(before: seq<Event>, after: seq<Event>)
    requires Run(SerialStep, INIT, before).Some? && Run(SerialStep, INIT, before + after).Some?
    ensures Run(SerialStep, INIT, before).value.file <= Run(SerialStep, INIT, before + after).value.file
    decreases |after|
  {
    SerialAlways(before + after);
    if after == [] {
      assert before + after == before;
    } else {
      var n := |after| - 1;
      assert (before + after)[..|before| + n] == before + after[..n];
      SerialAlways(before + after[..n]);
      SerialKeepsChanges(before, after[..n]);
      SerialStepKeeps(Run(SerialStep, INIT, before + after[..n]).value, after[n]);
    }
  }

  lemma SerialAlways(events: seq<Event>)
    requires Run(SerialStep, INIT, events).Some?
    ensures Serial(Run(SerialStep, INIT, events).value)
  {
    forall s, e | Serial(s) && SerialStep(s, e).Some?
      ensures Serial(SerialStep(s, e).value)
    {
      SerialStepKeeps(s, e);
    }
    InvariantOverRuns(Serial, SerialStep, INIT, events);
  }

  // ------------------------------------------------------------------
  // As the code is: two runs that lose a saved change
  // ------------------------------------------------------------------

  ghost predicate Reaches(s: State) {
    exists events :: Run(Step, INIT, events) == Some(s)
  }

  ghost predicate Closed(r: iset<State>) {
    INIT in r && forall s, e {:trigger Step(s, e)} :: s in r && Step(s, e).Some? ==> Step(s, e).value in r
  }

  lemma Reachable() returns (r: iset<State>)
    ensures Closed(r)
    ensures forall s {:trigger Reaches(s)} :: s in r ==> Reaches(s)
  {
    r := iset s | Reaches(s);
    assert Run(Step, INIT, []) == Some(INIT);
    forall s, e | s in r && Step(s, e).Some?
      ensures Step(s, e).value in r
    {
      var events :| Run(Step, INIT, events) == Some(s);
      RunSnoc(Step, INIT, events, e);
    }
  }

  // Daemon p saves, alone.
  lemma Saves(r: iset<State>, s: State, p: nat) returns (t: State)
    requires Closed(r) && s in r && p < |s.daemons| && s.daemons[p].saving.None?
    requires s.daemons[p].pc.Restored? || s.daemons[p].pc.Serving? || s.daemons[p].pc.Leaving?
    ensures t in r
    ensures var d := s.daemons[p];
            t == Put(s, p, d.(written := Some(d.list), pc := Next(d.pc))).(file := d.list)
  {
    var a := Step(s, Build(p)).value;
    t := Step(a, Rename(p, true)).value;
    assert t.daemons == s.daemons[p := t.daemons[p]];
  }

  // Started on the file as it is, up to the lock.
  lemma Starts(r: iset<State>, s: State, p: nat) returns (t: State)
    requires Closed(r) && s in r && p < |s.daemons| && s.daemons[p] == Daemon(Starting, {}, {}, None, None)
    ensures t in r && t == Put(s, p, Daemon(Asking, s.file, s.file, None, Some(s.file)))
  {
    var a := Step(s, Read(p)).value;
    t := Saves(r, a, p);
    assert t.daemons == s.daemons[p := t.daemons[p]];
  }

  // The one that has the lock makes a change, and saves it.
  lemma MakesAndSaves(r: iset<State>, s: State, p: nat) returns (t: State)
    requires Closed(r) && s in r && p < |s.daemons| && s.daemons[p].saving.None? && s.daemons[p].pc.Serving?
    ensures t in r
    ensures var list := s.daemons[p].list + {|s.makers|};
            t == State(s.daemons[p := s.daemons[p].(list := list, written := Some(list))], list, s.lock, s.makers + [p])
  {
    var a := Step(s, Make(p)).value;
    t := Saves(r, a, p);
    assert t.daemons == s.daemons[p := t.daemons[p]];
  }

  // The change that daemon p made and saved last is not in the file, with p
  // serving, everybody else gone and nothing under way.
  ghost predicate Undone(s: State, p: nat) {
    && p < |s.daemons| && s.lock == Some(p) && s.daemons[p].pc.Serving? && s.daemons[p].saving.None?
    && s.daemons[p].written == Some(s.daemons[p].list) && s.file < s.daemons[p].list
    && forall q | 0 <= q < |s.daemons| && q != p :: s.daemons[q].pc.Over?
  }

  // A second daemon reads the file, the first saves a change, and the second
  // - which the lock refuses - puts back what it had read.
  lemma RefusedDaemonUndoes()
    ensures exists s :: Reaches(s) && Undone(s, 0)
  {
    var r := Reachable();
    var a := Step(INIT, Launch).value;
    var b := Starts(r, a, 0);
    var c := Step(b, Lock(0)).value;
    var d := Step(c, Launch).value;
    var e := Starts(r, d, 1);
    var f := MakesAndSaves(r, e, 0);
    var g := Step(f, Lock(1)).value;
    var h := Saves(r, g, 1);
    assert Reaches(h) && Undone(h, 0);
  }

  // A daemon that is stopped gives up the lock before its last save: the
  // next one, started meanwhile, loses what it has saved.
  lemma LateSaveUndoes()
    ensures exists s :: Reaches(s) && Undone(s, 1)
  {
    var r := Reachable();
    var a := Step(INIT, Launch).value;
    var b := Starts(r, a, 0);
    var c := Step(b, Lock(0)).value;
    var d := Step(c, Launch).value;
    var e := Step(d, Unlock(0)).value;
    var f := Starts(r, e, 1);
    var g := Step(f, Lock(1)).value;
    var h := MakesAndSaves(r, g, 1);
    var i := Saves(r, h, 0);
    assert Reaches(i) && Undone(i, 1);
  }
}
