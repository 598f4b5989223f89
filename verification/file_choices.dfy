// The goroutines that mark a torrent's files wanted - one for an add, one
// for every resume - against anybody setting priorities meanwhile
// (internal/engine/ops.go): each copies the set of chosen files once, then
// writes the others one at a time, while a choice writes its file first and
// is recorded afterwards.
module FileChoices {
  import opened Runs
  import opened SaveRestore

  // Where one walk over the files stands.
  datatype Walker = Copying | Writing(picked: set<nat>, next: nat) | Finished

  //  pending  choices whose file is written and which are not recorded yet
  //  last     the level last chosen for a file
  //  lost     files a walk wrote after somebody had chosen their level
  datatype State = State(
    files: seq<LibPriority>, chosen: set<nat>, pending: multiset<nat>, walkers: seq<Walker>,
    last: map<nat, LibPriority>, lost: set<nat>)

  datatype Event = Choose(file: nat, level: Priority) | Record(file: nat) | StartWalk | Walk(k: nat)

  // Any torrent: the chosen files are at the levels chosen for them.
  function Init(files: seq<LibPriority>, chosen: set<nat>): State {
    State(files, chosen, multiset{}, [], map i | i in chosen && i < |files| :: files[i], {})
  }

  function WalkNext(s: State, k: nat): Option<State>
    requires k < |s.walkers|
  {
    match s.walkers[k]
    case Copying => Some(s.(walkers := s.walkers[k := Writing(s.chosen, 0)]))
    case Writing(picked, next) =>
      if next >= |s.files| then Some(s.(walkers := s.walkers[k := Finished]))
      else
        var t := s.(walkers := s.walkers[k := Writing(picked, next + 1)]);
        Some(if next in picked then t
             else t.(files := s.files[next := LIB_NORMAL], lost := if next in s.last then s.lost + {next} else s.lost))
    case Finished => None
  }

  function Step(s: State, e: Event): Option<State> {
    match e
    case Choose(i, p) =>
      if i >= |s.files| then None
      else Some(s.(files := s.files[i := ToLib(p)], pending := s.pending + multiset{i},
                   last := s.last[i := ToLib(p)], lost := s.lost - {i}))
    case Record(i) =>
      if i !in s.pending then None
      else Some(s.(pending := s.pending - multiset{i}, chosen := s.chosen + {i}))
    case StartWalk => Some(s.(walkers := s.walkers + [Copying]))
    case Walk(k) => if k < |s.walkers| then WalkNext(s, k) else None
  }

  // ------------------------------------------------------------------
  // What each file stands at
  // ------------------------------------------------------------------

  // The walk has passed file i.
  predicate Passed(w: Walker, i: nat) {
    w.Finished? || (w.Writing? && i < w.next)
  }

  predicate SomePassed(walkers: seq<Walker>, i: nat) {
    exists k :: 0 <= k < |walkers| && Passed(walkers[k], i)
  }

  ghost predicate FileWell(s: State, i: nat, initial: seq<LibPriority>)
    requires i < |s.files| == |initial|
  {
    if i in s.lost then s.files[i] == LIB_NORMAL
    else if i in s.last then s.files[i] == s.last[i]
    else s.files[i] == if SomePassed(s.walkers, i) then LIB_NORMAL else initial[i]
  }

  ghost predicate ChosenWell(s: State) {
    && (forall i | i in s.chosen || i in s.pending :: i in s.last)
    && (forall i | i in s.last :: i < |s.files| && (i in s.chosen || i in s.pending))
    && (forall i | i in s.lost :: i in s.last)
    && (forall k | 0 <= k < |s.walkers| && s.walkers[k].Writing? :: s.walkers[k].picked <= s.chosen)
  }

  ghost predicate Inv(s: State, initial: seq<LibPriority>) {
    |s.files| == |initial| && ChosenWell(s) && forall i | 0 <= i < |s.files| :: FileWell(s, i, initial)
  }

  lemma ChooseKeeps(s: State, i: nat, p: Priority, initial: seq<LibPriority>)
    requires Inv(s, initial) && Step(s, Choose(i, p)).Some?
    ensures Inv(Step(s, Choose(i, p)).value, initial)
  {
    var t := Step(s, Choose(i, p)).value;
    forall j | 0 <= j < |t.files|
      ensures FileWell(t, j, initial)
    {
      assert FileWell(s, j, initial);
    }
  }

  lemma RecordKeeps(s: State, i: nat, initial: seq<LibPriority>)
    requires Inv(s, initial) && Step(s, Record(i)).Some?
    ensures Inv(Step(s, Record(i)).value, initial)
  {
    var t := Step(s, Record(i)).value;
    forall j | 0 <= j < |t.files|
      ensures FileWell(t, j, initial)
    {
      assert FileWell(s, j, initial);
    }
  }

  lemma PassedAfterStart(walkers: seq<Walker>, i: nat)
    ensures SomePassed(walkers + [Copying], i) <==> SomePassed(walkers, i)
  {
    if k :| 0 <= k < |walkers| && Passed(walkers[k], i) {
      assert Passed((walkers + [Copying])[k], i);
    }
  }

  lemma StartKeeps(s: State, initial: seq<LibPriority>)
    requires Inv(s, initial)
    ensures Inv(Step(s, StartWalk).value, initial)
  {
    var t := Step(s, StartWalk).value;
    forall j | 0 <= j < |t.files|
      ensures FileWell(t, j, initial)
    {
      assert FileWell(s, j, initial);
      PassedAfterStart(s.walkers, j);
    }
  }

  lemma PassedAfterWalk(walkers: seq<Walker>, k: nat, w: Walker, i: nat)
    requires k < |walkers| && (Passed(walkers[k], i) ==> Passed(w, i))
    ensures SomePassed(walkers[k := w], i) <==> SomePassed(walkers, i) || Passed(w, i)
  {
    if SomePassed(walkers, i) {
      var j :| 0 <= j < |walkers| && Passed(walkers[j], i);
      assert Passed(walkers[k := w][j], i);
    }
    if Passed(w, i) {
      assert walkers[k := w][k] == w;
    }
  }

  lemma WalkKeeps(s: State, k: nat, initial: seq<LibPriority>)
    requires Inv(s, initial) && Step(s, Walk(k)).Some?
    ensures Inv(Step(s, Walk(k)).value, initial)
  {
    var t := Step(s, Walk(k)).value;
    forall j | 0 <= j < |t.files|
      ensures FileWell(t, j, initial)
    {
      assert FileWell(s, j, initial);
      PassedAfterWalk(s.walkers, k, t.walkers[k], j);
    }
  }

  lemma StepKeeps(s: State, e: Event, initial: seq<LibPriority>)
    requires Inv(s, initial) && Step(s, e).Some?
    ensures Inv(Step(s, e).value, initial)
  {
    match e
    case Choose(i, p) => ChooseKeeps(s, i, p, initial);
    case Record(i) => RecordKeeps(s, i, initial);
    case StartWalk => StartKeeps(s, initial);
    case Walk(k) => WalkKeeps(s, k, initial);
  }

  // A chosen file is one of the torrent's.
  predicate InRange(files: seq<LibPriority>, chosen: set<nat>) {
    forall i | i in chosen :: i < |files|
  }

  lemma Always(files: seq<LibPriority>, chosen: set<nat>, events: seq<Event>)
    requires InRange(files, chosen) && Run(Step, Init(files, chosen), events).Some?
    ensures Inv(Run(Step, Init(files, chosen), events).value, files)
  {
    var inv := s => Inv(s, files);
    forall s, e | inv(s) && Step(s, e).Some?
      ensures inv(Step(s, e).value)
    {
      StepKeeps(s, e, files);
    }
    InvariantOverRuns(inv, Step, Init(files, chosen), events);
  }

  // When a walk is done, a file stands at the level last chosen for it, or
  // at normal when nobody chose one, unless its choice was overwritten.
  lemma FilesAtTheEnd(files: seq<LibPriority>, chosen: set<nat>, events: seq<Event>, i: nat, k: nat)
    requires InRange(files, chosen) && i < |files| && Run(Step, Init(files, chosen), events).Some?
    requires var s := Run(Step, Init(files, chosen), events).value; k < |s.walkers| && s.walkers[k].Finished?
    ensures var s := Run(Step, Init(files, chosen), events).value;
            i < |s.files| && s.files[i] == if i in s.last && i !in s.lost then s.last[i] else LIB_NORMAL
  {
    Always(files, chosen, events);
    var s := Run(Step, Init(files, chosen), events).value;
    assert FileWell(s, i, files);
    assert Passed(s.walkers[k], i);
  }

  // ------------------------------------------------------------------
  // Exactly which choices are overwritten
  // ------------------------------------------------------------------

  // The walk is going to write file i: it copied the set without it and has
  // not come to it yet.
  predicate Threatens(w: Walker, i: nat) {
    w.Writing? && i !in w.picked && w.next <= i
  }

  predicate ThreatIn(walkers: seq<Walker>, i: nat) {
    exists k :: 0 <= k < |walkers| && Threatens(walkers[k], i)
  }

  predicate Threatened(s: State, i: nat) {
    ThreatIn(s.walkers, i)
  }

  // Overwritten, or going to be.
  predicate Doomed(s: State, i: nat) {
    i in s.lost || Threatened(s, i)
  }

  // This step copies the set of chosen files, and i is not in it.
  predicate CopiesWithout(s: State, e: Event, i: nat) {
    e.Walk? && e.k < |s.walkers| && s.walkers[e.k].Copying? && i !in s.chosen
  }

  // Some step of the run does.
  ghost predicate CopiedWithout(s: State, events: seq<Event>, i: nat)
    decreases |events|
  {
    events != [] &&
    var n := |events| - 1;
    CopiedWithout(s, events[..n], i)
    || (Run(Step, s, events[..n]).Some? && CopiesWithout(Run(Step, s, events[..n]).value, events[n], i))
  }

  predicate NobodyChooses(events: seq<Event>, i: nat) {
    forall e | e in events && e.Choose? :: e.file != i
  }

  predicate AllFinished(s: State) {
    forall k | 0 <= k < |s.walkers| :: s.walkers[k].Finished?
  }

  // A threat by another walk than the k-th.
  predicate OtherThreat(walkers: seq<Walker>, k: nat, i: nat) {
    exists j :: 0 <= j < |walkers| && j != k && Threatens(walkers[j], i)
  }

  lemma ThreatAfterWalk(walkers: seq<Walker>, k: nat, w: Walker, i: nat)
    requires k < |walkers|
    ensures ThreatIn(walkers[k := w], i) <==> Threatens(w, i) || OtherThreat(walkers, k, i)
  {
    var moved := walkers[k := w];
    if Threatens(w, i) {
      assert moved[k] == w;
    }
    if OtherThreat(walkers, k, i) {
      var j :| 0 <= j < |walkers| && j != k && Threatens(walkers[j], i);
      assert moved[j] == walkers[j];
    }
    if ThreatIn(moved, i) {
      var j :| 0 <= j < |moved| && Threatens(moved[j], i);
      assert j == k || moved[j] == walkers[j];
    }
  }

  lemma DoomAfterWalk(s: State, k: nat, i: nat, t: State)
    requires i in s.last && i < |s.files| && Step(s, Walk(k)) == Some(t)
    ensures Doomed(t, i) <==> Doomed(s, i) || CopiesWithout(s, Walk(k), i)
  {
    ThreatAfterWalk(s.walkers, k, t.walkers[k], i);
    ThreatAfterWalk(s.walkers, k, s.walkers[k], i);
    assert s.walkers[k := s.walkers[k]] == s.walkers && t.walkers == s.walkers[k := t.walkers[k]];
  }

  // Once a level has been chosen for i, a step that is not another choice
  // dooms it exactly by copying the set without it.
  lemma DoomStep(s: State, e: Event, i: nat, t: State)
    requires i in s.last && i < |s.files| && Step(s, e) == Some(t) && (e.Choose? ==> e.file != i)
    ensures i in t.last && t.last[i] == s.last[i] && |t.files| == |s.files|
    ensures Doomed(t, i) <==> Doomed(s, i) || CopiesWithout(s, e, i)
  {
    match e
    case Choose(j, p) => assert t.walkers == s.walkers;
    case Record(j) => assert t.walkers == s.walkers;
    case StartWalk =>
      assert forall k | 0 <= k < |s.walkers| :: t.walkers[k] == s.walkers[k];
    case Walk(k) => DoomAfterWalk(s, k, i, t);
  }

  lemma {:induction false} DoomExactly(s: State, events: seq<Event>, i: nat)
    requires i in s.last && i < |s.files| && Run(Step, s, events).Some? && NobodyChooses(events, i)
    ensures var t := Run(Step, s, events).value;
            && i in t.last && t.last[i] == s.last[i] && |t.files| == |s.files|
            && (Doomed(t, i) <==> Doomed(s, i) || CopiedWithout(s, events, i))
    decreases |events|
  {
    if events != [] {
      var n := |events| - 1;
      DoomExactly(s, events[..n], i);
      DoomStep(Run(Step, s, events[..n]).value, events[n], i, Run(Step, s, events).value);
    }
  }

  // The level chosen last for a file, once every walk is done: overwritten
  // exactly when, at the choice, some walk had copied the set without the
  // file and not come to it yet, or when some walk copied the set after the
  // choice and before the choice was recorded.
  lemma ChoiceStandsExactly(files: seq<LibPriority>, chosen: set<nat>, before: seq<Event>, i: nat, p: Priority,
                            after: seq<Event>)
    requires InRange(files, chosen) && Run(Step, Init(files, chosen), before + [Choose(i, p)]).Some?
    requires Run(Step, Init(files, chosen), before + [Choose(i, p)] + after).Some? && NobodyChooses(after, i)
    requires AllFinished(Run(Step, Init(files, chosen), before + [Choose(i, p)] + after).value)
    ensures var s := Run(Step, Init(files, chosen), before + [Choose(i, p)]).value;
            var t := Run(Step, Init(files, chosen), before + [Choose(i, p)] + after).value;
            i < |t.files| && t.files[i] == if Threatened(s, i) || CopiedWithout(s, after, i) then LIB_NORMAL
                else ToLib(p)
  {
    var chose := before + [Choose(i, p)];
    RunAppend(Step, Init(files, chosen), chose, after);
    Always(files, chosen, chose);
    Always(files, chosen, chose + after);
    assert chose[..|chose| - 1] == before;
    var s := Run(Step, Init(files, chosen), chose).value;
    var t := Run(Step, Init(files, chosen), chose + after).value;
    assert i in s.last && s.last[i] == ToLib(p) && i !in s.lost;
    DoomExactly(s, after, i);
    assert FileWell(t, i, files);
  }

  // So of a choice made while no walk is under way but one that has still to
  // copy the set, or that is started later: it stands exactly when every
  // copy has it.
  lemma EarlyChoiceExactly(files: seq<LibPriority>, chosen: set<nat>, before: seq<Event>, i: nat, p: Priority,
                           after: seq<Event>)
    requires InRange(files, chosen) && Run(Step, Init(files, chosen), before + [Choose(i, p)]).Some?
    requires Run(Step, Init(files, chosen), before + [Choose(i, p)] + after).Some? && NobodyChooses(after, i)
    requires AllFinished(Run(Step, Init(files, chosen), before + [Choose(i, p)] + after).value)
    requires var s := Run(Step, Init(files, chosen), before + [Choose(i, p)]).value;
             forall k | 0 <= k < |s.walkers| :: !s.walkers[k].Writing?
    ensures var s := Run(Step, Init(files, chosen), before + [Choose(i, p)]).value;
            var t := Run(Step, Init(files, chosen), before + [Choose(i, p)] + after).value;
            i < |t.files| && t.files[i] == if CopiedWithout(s, after, i) then LIB_NORMAL else ToLib(p)
  {
    ChoiceStandsExactly(files, chosen, before, i, p, after);
  }

  lemma {:induction false} RecordedInEveryCopy(s: State, events: seq<Event>, i: nat)
    requires i in s.chosen && Run(Step, s, events).Some?
    ensures i in Run(Step, s, events).value.chosen && !CopiedWithout(s, events, i)
    decreases |events|
  {
    if events != [] {
      RecordedInEveryCopy(s, events[..|events| - 1], i);
    }
  }

  // And of one for a file that has been recorded as chosen before: it stands
  // exactly when no walk under way is still to write the file.
  lemma RecordedChoiceExactly(files: seq<LibPriority>, chosen: set<nat>, before: seq<Event>, i: nat, p: Priority,
                              after: seq<Event>)
    requires InRange(files, chosen) && Run(Step, Init(files, chosen), before + [Choose(i, p)]).Some?
    requires Run(Step, Init(files, chosen), before + [Choose(i, p)] + after).Some? && NobodyChooses(after, i)
    requires AllFinished(Run(Step, Init(files, chosen), before + [Choose(i, p)] + after).value)
    requires i in Run(Step, Init(files, chosen), before + [Choose(i, p)]).value.chosen
    ensures var s := Run(Step, Init(files, chosen), before + [Choose(i, p)]).value;
            var t := Run(Step, Init(files, chosen), before + [Choose(i, p)] + after).value;
            i < |t.files| && t.files[i] == if Threatened(s, i) then LIB_NORMAL else ToLib(p)
  {
    ChoiceStandsExactly(files, chosen, before, i, p, after);
    RunAppend(Step, Init(files, chosen), before + [Choose(i, p)], after);
    RecordedInEveryCopy(Run(Step, Init(files, chosen), before + [Choose(i, p)]).value, after, i);
  }

  // A file recorded as chosen, which no walk under way is to write, is never
  // overwritten again, whatever is chosen and whatever walks are started.
  lemma RecordedChoiceStands(files: seq<LibPriority>, chosen: set<nat>, before: seq<Event>, after: seq<Event>, i: nat)
    requires InRange(files, chosen) && Run(Step, Init(files, chosen), before).Some?
    requires Run(Step, Init(files, chosen), before + after).Some?
    requires var s := Run(Step, Init(files, chosen), before).value; i in s.chosen && !Doomed(s, i)
    ensures i !in Run(Step, Init(files, chosen), before + after).value.lost
  {
    Always(files, chosen, before);
    RunAppend(Step, Init(files, chosen), before, after);
    SafeStays(Run(Step, Init(files, chosen), before).value, after, i);
  }

  lemma {:induction false} SafeStays(s: State, events: seq<Event>, i: nat)
    requires i in s.chosen && i in s.last && i < |s.files| && !Doomed(s, i) && Run(Step, s, events).Some?
    ensures var t := Run(Step, s, events).value; i in t.chosen && i in t.last && |t.files| == |s.files| && !Doomed(t, i)
    decreases |events|
  {
    if events != [] {
      var n := |events| - 1;
      SafeStays(s, events[..n], i);
      if !events[n].Choose? {
        DoomStep(Run(Step, s, events[..n]).value, events[n], i, Run(Step, s, events).value);
      }
    }
  }

  // Nor is one made after every walk has written its file, while no other is
  // started.
  lemma LateChoiceStands(files: seq<LibPriority>, chosen: set<nat>, before: seq<Event>, after: seq<Event>, i: nat)
    requires Run(Step, Init(files, chosen), before).Some? && Run(Step, Init(files, chosen), before + after).Some?
    requires forall e | e in after :: !e.StartWalk?
    requires var s := Run(Step, Init(files, chosen), before).value; AllPassed(s, i) && i !in s.lost
    ensures i !in Run(Step, Init(files, chosen), before + after).value.lost
  {
    RunAppend(Step, Init(files, chosen), before, after);
    PassedStays(Run(Step, Init(files, chosen), before).value, after, i);
  }

  predicate AllPassed(s: State, i: nat) {
    forall k | 0 <= k < |s.walkers| :: Passed(s.walkers[k], i)
  }

  lemma {:induction false} PassedStays(s: State, events: seq<Event>, i: nat)
    requires AllPassed(s, i) && i !in s.lost && Run(Step, s, events).Some?
    requires forall e | e in events :: !e.StartWalk?
    ensures var t := Run(Step, s, events).value; AllPassed(t, i) && i !in t.lost
    decreases |events|
  {
    if events != [] {
      PassedStays(s, events[..|events| - 1], i);
    }
  }

  // ------------------------------------------------------------------
  // Two runs that overwrite a choice
  // ------------------------------------------------------------------

  ghost predicate Closed(r: iset<State>) {
    forall s, e {:trigger Step(s, e)} :: s in r && Step(s, e).Some? ==> Step(s, e).value in r
  }

  ghost predicate Reaches(files: seq<LibPriority>, s: State) {
    exists events :: Run(Step, Init(files, {}), events) == Some(s)
  }

  lemma Reachable(files: seq<LibPriority>) returns (r: iset<State>)
    ensures Closed(r) && Init(files, {}) in r
    ensures forall s {:trigger Reaches(files, s)} :: s in r ==> Reaches(files, s)
  {
    r := iset s | Reaches(files, s);
    assert Run(Step, Init(files, {}), []) == Some(Init(files, {}));
    forall s, e | s in r && Step(s, e).Some?
      ensures Step(s, e).value in r
    {
      var events :| Run(Step, Init(files, {}), events) == Some(s);
      RunSnoc(Step, Init(files, {}), events, e);
    }
  }

  // One walk, which copied an empty set and stands at file i.
  predicate WalksAt(s: State, i: nat, fileCount: nat) {
    s.walkers == [Writing({}, i)] && |s.files| == fileCount && s.chosen == {}
  }

  // The walk alone, up to file i.
  lemma {:induction false} WalkTo(r: iset<State>, s: State, i: nat, fileCount: nat) returns (t: State)
    requires Closed(r) && s in r && WalksAt(s, 0, fileCount) && i < fileCount
    ensures t in r && WalksAt(t, i, fileCount) && t.pending == s.pending && t.last == s.last
  {
    if i == 0 {
      t := s;
    } else {
      t := WalkTo(r, s, i - 1, fileCount);
      t := Step(t, Walk(0)).value;
    }
  }

  ghost predicate Overwritten(s: State, i: nat) {
    i < |s.files| && i in s.chosen && i in s.last && s.last[i] == LIB_NONE && s.files[i] == LIB_NORMAL
  }

  // A file chosen off between the copy and its own turn ends up wanted.
  lemma ChoiceOverwritten(files: seq<LibPriority>, i: nat)
    requires i < |files|
    ensures exists s :: Reaches(files, s) && Overwritten(s, i)
  {
    var r := Reachable(files);
    var a := Step(Init(files, {}), StartWalk).value;
    var b := Step(a, Walk(0)).value;
    assert a.walkers == [Copying] && b.walkers == [Writing({}, 0)];
    var c := WalkTo(r, b, i, |files|);
    var d := Step(c, Choose(i, Off)).value;
    var e := Step(d, Record(i)).value;
    var f := Step(e, Walk(0)).value;
    assert Reaches(files, f);
  }

  // So does one that is written before the copy and recorded after it.
  lemma UnrecordedChoiceOverwritten(files: seq<LibPriority>, i: nat)
    requires i < |files|
    ensures exists s :: Reaches(files, s) && Overwritten(s, i)
  {
    var r := Reachable(files);
    var a := Step(Init(files, {}), StartWalk).value;
    var b := Step(a, Choose(i, Off)).value;
    var c := Step(b, Walk(0)).value;
    assert a.walkers == [Copying] && c.walkers == [Writing({}, 0)];
    var d := WalkTo(r, c, i, |files|);
    var e := Step(d, Record(i)).value;
    var f := Step(e, Walk(0)).value;
    assert Reaches(files, f);
  }
}
