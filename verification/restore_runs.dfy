// A restart of one torrent: its record is saved, the next daemon re-adds it
// and makes the saved choices again (restoreOne), while the goroutine that
// the add has started marks its files wanted (internal/engine/session.go,
// ops.go). The two run side by side, on the files of FileChoices.
module RestoreRuns {
  import opened Runs
  import opened TrackedRecord
  import opened SaveRestore
  import FileChoices

  // What the daemon that restores finds: how many files the saved metainfo
  // says there are, when it is there, its data directory and the time.
  datatype Daemon = Daemon(metainfo: Option<nat>, dataDir: string, now: nat)

  //  added    the torrent as it was added, with its limits, nothing chosen
  //  choices  the saved ones; `next` of them have been tried
  //  missed   how many were tried, and refused, before there was metadata
  //  writing  the file whose level has been set and not been recorded yet
  //  core     the files, and the add's goroutine once it has the metadata
  datatype Restore = Restore(
    added: Torrent, choices: seq<FileChoice>, next: nat, missed: nat, writing: Option<nat>, core: FileChoices.State)

  // A step of restoreOne, metadata from a peer, a step of the goroutine.
  datatype Event = Next | Metadata(fileCount: nat) | Goroutine

  // The files of an added torrent. The goroutine of a paused one, and of one
  // without metadata, has nothing to do yet.
  function Files(added: Torrent): FileChoices.State {
    var core := FileChoices.Init(added.files, {});
    if added.hasInfo && !added.paused then core.(walkers := [FileChoices.Copying]) else core
  }

  function Begin(rec: SessionRecord, d: Daemon): Restore {
    var added := LimitsSet(AddedFrom(rec, d.metainfo, d.dataDir, d.now), rec);
    Restore(added, rec.files, 0, 0, None, Files(added))
  }

  // The next saved choice is one SetFilePriority does not refuse.
  predicate CanChoose(s: Restore) {
    && s.next < |s.choices| && ParsePriority(s.choices[s.next].priority).Some?
    && s.added.hasInfo && 0 <= s.choices[s.next].index < |s.core.files|
  }

  function WithCore(s: Restore, writing: Option<nat>, e: FileChoices.Event): Option<Restore> {
    match FileChoices.Step(s.core, e)
    case None => None
    case Some(core) => Some(s.(core := core, writing := writing))
  }

  function NextStep(s: Restore): Option<Restore> {
    if s.writing.Some? then WithCore(s, None, FileChoices.Record(s.writing.value))
    else if s.next >= |s.choices| then None
    else
      var tried := s.(next := s.next + 1, missed := if s.added.hasInfo then s.missed else s.next + 1);
      if !CanChoose(s) then Some(tried)
      else
        var i: nat := s.choices[s.next].index;
        WithCore(tried, Some(i), FileChoices.Choose(i, ParsePriority(s.choices[s.next].priority).value))
  }

  function Step(s: Restore, e: Event): Option<Restore> {
    match e
    case Next => NextStep(s)
    case Metadata(n) =>
      if s.added.hasInfo then None
      else Some(s.(added := Arrived(s.added, n), core := Files(Arrived(s.added, n))))
    case Goroutine => WithCore(s, s.writing, FileChoices.Walk(0))
  }

  // restoreOne has returned, and the goroutine has, if it had anything to do.
  predicate Ended(s: Restore) {
    s.next == |s.choices| && s.writing.None? && FileChoices.AllFinished(s.core)
  }

  // The torrent as it then stands.
  function Result(s: Restore, rec: SessionRecord): Torrent {
    Backdated(s.added.(files := s.core.files, chosen := s.core.chosen), rec)
  }

  // ------------------------------------------------------------------
  // What every step keeps
  // ------------------------------------------------------------------

  // The choices recorded and pending are those the sequential code makes.
  ghost predicate Follows(core: FileChoices.State, r: Torrent) {
    && |r.files| == |core.files| && r.chosen == core.last.Keys
    && forall i | 0 <= i < |r.files| :: r.files[i] == if i in core.last then core.last[i] else LIB_NONE
  }

  ghost predicate Inv(s: Restore) {
    && s.missed <= s.next <= |s.choices|
    && s.added.chosen == {} && (forall i | 0 <= i < |s.added.files| :: s.added.files[i] == LIB_NONE)
    && FileChoices.Inv(s.core, s.added.files)
    && s.core.pending == (if s.writing.None? then multiset{} else multiset{s.writing.value})
    && |s.core.walkers| == (if s.added.hasInfo && !s.added.paused then 1 else 0)
    && (s.added.paused ==> s.core.lost == {})
    && (!s.added.hasInfo ==> s.missed == s.next && s.writing.None? && s.added.files == [] && s.core.last == map[])
    && Follows(s.core, ChoseAll(s.added, s.choices[s.missed..s.next]))
  }

  lemma {:induction false} ChoicesTouchFilesOnly(t: Torrent, choices: seq<FileChoice>)
    ensures ChoseAll(t, choices) == t.(files := ChoseAll(t, choices).files, chosen := ChoseAll(t, choices).chosen)
    ensures |ChoseAll(t, choices).files| == |t.files|
    decreases |choices|
  {
    if choices != [] {
      ChoicesTouchFilesOnly(t, choices[..|choices| - 1]);
    }
  }

  lemma FilesInv(added: Torrent)
    requires added.chosen == {} && forall i | 0 <= i < |added.files| :: added.files[i] == LIB_NONE
    ensures FileChoices.Inv(Files(added), added.files) && Follows(Files(added), ChoseAll(added, []))
  {
  }

  lemma RefusalKeeps(s: Restore, t: Restore)
    requires Inv(s) && s.writing.None? && !CanChoose(s) && NextStep(s) == Some(t)
    ensures Inv(t)
  {
    if s.added.hasInfo {
      TriedNext(s.added, s.choices, s.missed, s.next);
    }
  }

  lemma ChoiceKeeps(s: Restore, t: Restore)
    requires Inv(s) && s.writing.None? && CanChoose(s) && NextStep(s) == Some(t)
    ensures Inv(t)
  {
    var choice := s.choices[s.next];
    TriedNext(s.added, s.choices, s.missed, s.next);
    FileChoices.ChooseKeeps(s.core, choice.index, ParsePriority(choice.priority).value, s.added.files);
  }

  lemma TriedNext(added: Torrent, choices: seq<FileChoice>, missed: nat, next: nat)
    requires missed <= next < |choices|
    ensures var before := ChoseAll(added, choices[missed..next]);
            && ChoseAll(added, choices[missed..next + 1]) == ChoseSaved(before, choices[next])
            && before.hasInfo == added.hasInfo
  {
    assert choices[missed..next + 1][..next - missed] == choices[missed..next];
    ChoicesTouchFilesOnly(added, choices[missed..next]);
  }

  lemma RecordKeeps(s: Restore, t: Restore)
    requires Inv(s) && s.writing.Some? && NextStep(s) == Some(t)
    ensures Inv(t)
  {
    FileChoices.RecordKeeps(s.core, s.writing.value, s.added.files);
  }

  // A step of the goroutine touches the files and its own place only.
  lemma WalkFrame(core: FileChoices.State, next: FileChoices.State)
    requires FileChoices.Step(core, FileChoices.Walk(0)) == Some(next)
    ensures next.pending == core.pending && next.last == core.last && next.chosen == core.chosen
    ensures |next.walkers| == |core.walkers| > 0 && |next.files| == |core.files|
  {
  }

  lemma GoroutineKeeps(s: Restore, t: Restore)
    requires Inv(s) && Step(s, Goroutine) == Some(t)
    ensures Inv(t)
  {
    FileChoices.WalkKeeps(s.core, 0, s.added.files);
    WalkFrame(s.core, t.core);
    assert t == s.(core := t.core);
  }

  lemma MetadataKeeps(s: Restore, n: nat, t: Restore)
    requires Inv(s) && Step(s, Metadata(n)) == Some(t)
    ensures Inv(t)
  {
    FilesInv(Arrived(s.added, n));
    assert s.choices[s.missed..s.next] == [];
  }

  lemma StepKeeps(s: Restore, e: Event)
    requires Inv(s) && Step(s, e).Some?
    ensures Inv(Step(s, e).value)
  {
    var t := Step(s, e).value;
    match e
    case Next =>
      if s.writing.Some? {
        RecordKeeps(s, t);
      } else if CanChoose(s) {
        ChoiceKeeps(s, t);
      } else {
        RefusalKeeps(s, t);
      }
    case Metadata(n) => MetadataKeeps(s, n, t);
    case Goroutine => GoroutineKeeps(s, t);
  }

  // What of a restore stays as it began.
  ghost predicate From(s: Restore, b: Restore) {
    && s.choices == b.choices && s.added == b.added.(hasInfo := s.added.hasInfo, files := s.added.files)
    && (b.added.hasInfo ==> s.added == b.added && s.missed == 0)
  }

  ghost predicate Kept(s: Restore, b: Restore) {
    Inv(s) && From(s, b)
  }

  lemma StepKeepsFrom(s: Restore, b: Restore, e: Event)
    requires From(s, b) && Step(s, e).Some?
    ensures From(Step(s, e).value, b)
  {
  }

  lemma KeptOverRuns(b: Restore, events: seq<Event>)
    requires Kept(b, b) && Run(Step, b, events).Some?
    ensures Kept(Run(Step, b, events).value, b)
  {
    forall s, e | Kept(s, b) && Step(s, e).Some?
      ensures Kept(Step(s, e).value, b)
    {
      StepKeeps(s, e);
      StepKeepsFrom(s, b, e);
    }
    InvariantOverRuns(s => Kept(s, b), Step, b, events);
  }

  lemma Always(rec: SessionRecord, d: Daemon, events: seq<Event>)
    requires Run(Step, Begin(rec, d), events).Some?
    ensures var s := Run(Step, Begin(rec, d), events).value;
            Inv(s) && From(s, Begin(rec, d))
  {
    FilesInv(Begin(rec, d).added);
    KeptOverRuns(Begin(rec, d), events);
  }

  // ------------------------------------------------------------------
  // The choices that are lost
  // ------------------------------------------------------------------

  // This step sets the level of file i.
  predicate Sets(s: Restore, e: Event, i: nat) {
    e.Next? && s.writing.None? && CanChoose(s) && s.choices[s.next].index == i
  }

  // This step copies the set of chosen files between the setting of i's
  // level and its recording.
  predicate CopiesBetween(s: Restore, e: Event, i: nat) {
    e.Goroutine? && FileChoices.CopiesWithout(s.core, FileChoices.Walk(0), i) && s.writing == Some(i)
  }

  // The level last set for file i was set after the goroutine had copied the
  // chosen files without it and before it came to it; or the goroutine copied
  // them before that choice was recorded.
  ghost predicate Overtaken(b: Restore, events: seq<Event>, i: nat)
    decreases |events|
  {
    events != [] &&
    var n := |events| - 1;
    Run(Step, b, events[..n]).Some? &&
    var s := Run(Step, b, events[..n]).value;
    if Sets(s, events[n], i) then FileChoices.Threatened(s.core, i)
    else Overtaken(b, events[..n], i) || CopiesBetween(s, events[n], i)
  }

  lemma OvertakenStep(s: Restore, e: Event, i: nat, t: Restore)
    requires Inv(s) && Step(s, e) == Some(t) && !e.Metadata?
    ensures i in t.core.last <==> i in s.core.last || Sets(s, e, i)
    ensures Sets(s, e, i) ==> (FileChoices.Doomed(t.core, i) <==> FileChoices.Threatened(s.core, i))
    ensures !Sets(s, e, i) && i in s.core.last ==>
              (FileChoices.Doomed(t.core, i) <==> FileChoices.Doomed(s.core, i) || CopiesBetween(s, e, i))
    ensures CopiesBetween(s, e, i) ==> i in s.core.last
  {
    if e.Goroutine? {
      if i in s.core.last {
        FileChoices.DoomStep(s.core, FileChoices.Walk(0), i, t.core);
        if i !in s.core.chosen {
          assert i in s.core.pending;
        }
      }
    } else if s.writing.Some? {
      if i in s.core.last {
        FileChoices.DoomStep(s.core, FileChoices.Record(s.writing.value), i, t.core);
      }
    } else if CanChoose(s) {
      assert t.core.walkers == s.core.walkers;
    }
  }

  // A choice is lost, or going to be, exactly when it was overtaken.
  lemma {:induction false} LostExactly(rec: SessionRecord, d: Daemon, events: seq<Event>, i: nat)
    requires Run(Step, Begin(rec, d), events).Some?
    ensures var b := Begin(rec, d);
            var s := Run(Step, b, events).value;
            && (Overtaken(b, events, i) ==> i in s.core.last)
            && (i in s.core.last ==> (FileChoices.Doomed(s.core, i) <==> Overtaken(b, events, i)))
    decreases |events|
  {
    if events != [] {
      var n := |events| - 1;
      LostExactly(rec, d, events[..n], i);
      Always(rec, d, events[..n]);
      var b := Begin(rec, d);
      if !events[n].Metadata? {
        OvertakenStep(Run(Step, b, events[..n]).value, events[n], i, Run(Step, b, events).value);
      }
    }
  }

  // ------------------------------------------------------------------
  // The restore against its sequential code
  // ------------------------------------------------------------------

  // Every file wanted but the chosen ones and, of those, the lost.
  function Settled(t: Torrent, lost: set<nat>): Torrent {
    if t.paused then t else t.(files := MarkedWanted(t.files, t.chosen - lost))
  }

  // However the restore and the goroutine interleave, and whenever metadata
  // comes: the torrent is the one restoreOne would make alone, of the choices
  // tried once there were files, and then every other file is marked wanted -
  // and with them exactly the chosen files that were overtaken.
  lemma RestoreAsWritten(rec: SessionRecord, d: Daemon, events: seq<Event>)
    requires Run(Step, Begin(rec, d), events).Some?
    requires Ended(Run(Step, Begin(rec, d), events).value)
    ensures var b := Begin(rec, d);
            var s := Run(Step, b, events).value;
            && s.missed <= |rec.files|
            && Result(s, rec) == Settled(Backdated(ChoseAll(s.added, rec.files[s.missed..]), rec), s.core.lost)
            && forall i :: i in s.core.lost <==> Overtaken(b, events, i)
  {
    Always(rec, d, events);
    var b := Begin(rec, d);
    var s := Run(Step, b, events).value;
    forall i: nat
      ensures i in s.core.lost <==> Overtaken(b, events, i)
    {
      LostExactly(rec, d, events, i);
      assert i in s.core.last ==> (FileChoices.Doomed(s.core, i) <==> i in s.core.lost);
    }
    assert s.choices[s.missed..s.next] == rec.files[s.missed..];
    ChoicesTouchFilesOnly(s.added, rec.files[s.missed..]);
    EndsSettled(s, ChoseAll(s.added, rec.files[s.missed..]));
  }

  lemma EndsSettled(s: Restore, r: Torrent)
    requires Inv(s) && Ended(s) && Follows(s.core, r)
    requires r == s.added.(files := r.files, chosen := r.chosen)
    ensures s.added.(files := s.core.files, chosen := s.core.chosen) == Settled(r, s.core.lost)
  {
    assert s.core.chosen == s.core.last.Keys by {
      assert forall i :: i !in s.core.pending;
    }
    forall i | 0 <= i < |s.core.files|
      ensures s.core.files[i] == Settled(r, s.core.lost).files[i]
    {
      assert FileChoices.FileWell(s.core, i, s.added.files);
      if !s.added.paused && s.added.hasInfo {
        assert FileChoices.Passed(s.core.walkers[0], i);
      }
    }
    assert s.core.files == Settled(r, s.core.lost).files;
  }
}
