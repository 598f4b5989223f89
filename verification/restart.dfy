// What one torrent keeps across a restart, in every interleaving of the
// restore with the goroutine its add has started (internal/engine/session.go,
// ops.go).
module Restart {
  import opened Runs
  import opened TrackedRecord
  import opened SaveRestore
  import opened RestoreRuns
  import FileChoices

  // A whole restore of t's record, where there is anything to restore from.
  ghost predicate Complete(t: Torrent, d: Daemon, events: seq<Event>) {
    ComesBack(RecordOf(t), d.metainfo) ==>
      Run(Step, Begin(RecordOf(t), d), events).Some? && Ended(Run(Step, Begin(RecordOf(t), d), events).value)
  }

  ghost function EndOf(t: Torrent, d: Daemon, events: seq<Event>): Restore
    requires ComesBack(RecordOf(t), d.metainfo) && Complete(t, d, events)
  {
    Run(Step, Begin(RecordOf(t), d), events).value
  }

  // Saved, and restored by the next daemon.
  ghost function Restarted(t: Torrent, d: Daemon, events: seq<Event>): Option<Torrent>
    requires Complete(t, d, events)
  {
    if ComesBack(RecordOf(t), d.metainfo) then Some(Result(EndOf(t, d, events), RecordOf(t))) else None
  }

  // The choice saved for file i was made again, and stands.
  ghost predicate BackAgain(t: Torrent, d: Daemon, events: seq<Event>, i: nat)
    requires ComesBack(RecordOf(t), d.metainfo) && Complete(t, d, events)
  {
    && EndOf(t, d, events).missed <= |RecordOf(t).files|
    && Tried(RecordOf(t).files[EndOf(t, d, events).missed..], i)
    && !Overtaken(Begin(RecordOf(t), d), events, i)
  }

  predicate Tried(choices: seq<FileChoice>, i: nat) {
    exists c :: c in choices && c.index == i
  }

  // Without metadata there are no files.
  predicate Sound(t: Torrent) {
    !t.hasInfo ==> t.files == []
  }

  // ------------------------------------------------------------------
  // The saved choices, made again
  // ------------------------------------------------------------------

  // The line saved for a file not at normal.
  predicate LineOf(files: seq<LibPriority>, c: FileChoice) {
    0 <= c.index < |files| && FromLib(files[c.index]) != Normal && c.priority == Name(FromLib(files[c.index]))
  }

  lemma {:induction false} ListedLines(files: seq<LibPriority>)
    ensures forall c | c in Listed(files) :: LineOf(files, c)
    decreases |files|
  {
    if files != [] {
      ListedLines(files[..|files| - 1]);
    }
  }

  lemma {:induction false} LineListed(files: seq<LibPriority>, i: nat)
    requires i < |files| && FromLib(files[i]) != Normal
    ensures Tried(Listed(files), i)
    decreases |files|
  {
    var n := |files| - 1;
    if i == n {
      assert FileChoice(n, Name(FromLib(files[n]))) in Listed(files);
    } else {
      LineListed(files[..n], i);
      var c :| c in Listed(files[..n]) && c.index == i;
      assert c in Listed(files);
    }
  }

  lemma ListedIs(files: seq<LibPriority>)
    ensures forall c | c in Listed(files) :: LineOf(files, c)
    ensures forall i: nat | i < |files| && FromLib(files[i]) != Normal :: Tried(Listed(files), i)
  {
    ListedLines(files);
    forall i: nat | i < |files| && FromLib(files[i]) != Normal
      ensures Tried(Listed(files), i)
    {
      LineListed(files, i);
    }
  }

  lemma TriedNext(choices: seq<FileChoice>, i: nat)
    requires choices != []
    ensures Tried(choices, i) <==> Tried(choices[..|choices| - 1], i) || choices[|choices| - 1].index == i
  {
    var n := |choices| - 1;
    if Tried(choices[..n], i) {
      var c :| c in choices[..n] && c.index == i;
      assert c in choices;
    }
    if Tried(choices, i) {
      var c :| c in choices && c.index == i;
      assert c in choices[..n] || c == choices[n];
    }
  }

  // r is `added` with saved choices of `files` made on it.
  ghost predicate MadeAgain(added: Torrent, files: seq<LibPriority>, choices: seq<FileChoice>, r: Torrent) {
    && r.hasInfo && |r.files| == |added.files| == |files|
    && (forall i: nat :: i in r.chosen <==> Tried(choices, i))
    && (forall i: nat | i < |files| ::
          r.files[i] == if Tried(choices, i) then ToLib(FromLib(files[i])) else added.files[i])
  }

  lemma {:induction false} ChoicesComeBack(added: Torrent, files: seq<LibPriority>, choices: seq<FileChoice>)
    requires added.hasInfo && |added.files| == |files| && added.chosen == {}
    requires forall c | c in choices :: LineOf(files, c)
    ensures MadeAgain(added, files, choices, ChoseAll(added, choices))
    decreases |choices|
  {
    if choices != [] {
      var n := |choices| - 1;
      ChoicesComeBack(added, files, choices[..n]);
      assert choices[n] in choices;
      PriorityRoundTrip(FromLib(files[choices[n].index]), LIB_NONE);
      forall i: nat
        ensures Tried(choices, i) <==> Tried(choices[..n], i) || choices[n].index == i
      {
        TriedNext(choices, i);
      }
    }
  }

  // ------------------------------------------------------------------
  // Every field, and every file's level
  // ------------------------------------------------------------------

  // What a restart leaves of each field but the files, from either source
  // and in every run.
  lemma RestartedFields(t: Torrent, d: Daemon, events: seq<Event>)
    requires ComesBack(RecordOf(t), d.metainfo) && Complete(t, d, events)
    ensures var r := Restarted(t, d, events).value;
            && r.hasInfo == EndOf(t, d, events).added.hasInfo && (d.metainfo.Some? ==> r.hasInfo)
            && r.paused == t.paused && r.magnet == (if d.metainfo.Some? then "" else t.magnet)
            && r.upLimit == (if t.upLimit >= 0 then t.upLimit else 0)
            && r.downLimit == (if t.downLimit >= 0 then t.downLimit else 0)
            && r.savePath == (if t.savePath != "" then t.savePath else d.dataDir)
            && r.addedAt == (if t.addedAt != 0 then t.addedAt else d.now)
            && r.base == t.base.Plus(t.stats) && r.stats == NO_BYTES
            && r.seedRatio == t.seedRatio && r.seedTime == t.seedTime && r.completedAt == t.completedAt
            && r.category == t.category && r.completeLogged == (t.completedAt != 0)
  {
    Always(RecordOf(t), d, events);
  }

  // What a file that nobody chose reads after a restart.
  function Untouched(paused: bool): Priority {
    if paused then Off else Normal
  }

  // A file reads its level again exactly when its choice was made again and
  // stands, and what an untouched file reads otherwise; it counts as chosen
  // when its choice was made again, lost or not.
  lemma RestartedFiles(t: Torrent, d: Daemon, events: seq<Event>)
    requires ComesBack(RecordOf(t), d.metainfo) && Complete(t, d, events) && Sound(t)
    ensures var s := EndOf(t, d, events);
            var r := Restarted(t, d, events).value;
            && s.missed <= |RecordOf(t).files|
            && |r.files| == |s.core.files| && (!r.hasInfo ==> r.files == [] && r.chosen == {})
            && (d.metainfo.Some? ==> |r.files| == d.metainfo.value && s.missed == 0)
            && (r.hasInfo && |r.files| == |t.files| ==>
                  && (forall i: nat :: i in r.chosen <==> Tried(RecordOf(t).files[s.missed..], i))
                  && forall i: nat | i < |t.files| :: FromLib(r.files[i]) ==
                       if BackAgain(t, d, events, i) then FromLib(t.files[i]) else Untouched(t.paused))
  {
    Always(RecordOf(t), d, events);
    RestoreAsWritten(RecordOf(t), d, events);
    var s := EndOf(t, d, events);
    var r := Restarted(t, d, events).value;
    if r.hasInfo && |r.files| == |t.files| {
      var choices := RecordOf(t).files[s.missed..];
      ListedIs(t.files);
      ChoicesComeBack(s.added, t.files, choices);
      LevelsSettle(s, t, choices, events, d, r);
    }
  }

  lemma LevelsSettle(s: Restore, t: Torrent, choices: seq<FileChoice>, events: seq<Event>, d: Daemon, r: Torrent)
    requires MadeAgain(s.added, t.files, choices, ChoseAll(s.added, choices)) && Inv(s) && s.added.paused == t.paused
    requires forall c | c in choices :: LineOf(t.files, c)
    requires r == Settled(Backdated(ChoseAll(s.added, choices), RecordOf(t)), s.core.lost)
    requires ChoseAll(s.added, choices).paused == t.paused && (t.paused ==> s.core.lost == {})
    requires forall i :: i in s.core.lost <==> Overtaken(Begin(RecordOf(t), d), events, i)
    ensures |r.files| == |t.files|
    ensures forall i: nat | i < |t.files| :: FromLib(r.files[i]) ==
              if Tried(choices, i) && !Overtaken(Begin(RecordOf(t), d), events, i) then FromLib(t.files[i])
              else Untouched(t.paused)
  {
    forall i: nat | i < |t.files|
      ensures FromLib(r.files[i]) ==
              if Tried(choices, i) && !Overtaken(Begin(RecordOf(t), d), events, i) then FromLib(t.files[i])
              else Untouched(t.paused)
    {
      PriorityRoundTrip(Off, t.files[i]);
    }
  }

  // ------------------------------------------------------------------
  // When a restart changes nothing
  // ------------------------------------------------------------------

  function Levels(files: seq<LibPriority>): (r: seq<Priority>)
    ensures |r| == |files| && forall i | 0 <= i < |r| :: r[i] == FromLib(files[i])
  {
    seq(|files|, i requires 0 <= i < |files| => FromLib(files[i]))
  }

  // What a client can see of a torrent that a restart is to keep.
  datatype Seen = Seen(
    paused: bool, upLimit: int, downLimit: int, savePath: string, category: string, addedAt: nat, seedRatio: real,
    seedTime: int, completedAt: nat, moved: Bytes, levels: seq<Priority>)

  function See(t: Torrent): Seen {
    Seen(t.paused, t.upLimit, t.downLimit, t.savePath, t.category, t.addedAt, t.seedRatio, t.seedTime, t.completedAt,
         t.base.Plus(t.stats), Levels(t.files))
  }

  // The engine's own invariants: limits are never negative, a torrent has a
  // path and a time.
  predicate FieldsKeepable(t: Torrent, d: Daemon) {
    && t.upLimit >= 0 && t.downLimit >= 0
    && (t.savePath != "" || d.dataDir == "") && (t.addedAt != 0 || d.now == 0)
  }

  // Each file's choice is made again and stands, or the file reads what an
  // untouched one will.
  ghost predicate LevelsKeepable(t: Torrent, d: Daemon, events: seq<Event>)
    requires ComesBack(RecordOf(t), d.metainfo) && Complete(t, d, events)
  {
    forall i: nat | i < |t.files| :: FromLib(t.files[i]) == Untouched(t.paused) || BackAgain(t, d, events, i)
  }

  lemma LevelsKept(t: Torrent, d: Daemon, events: seq<Event>)
    requires ComesBack(RecordOf(t), d.metainfo) && Complete(t, d, events) && Sound(t)
    requires |Restarted(t, d, events).value.files| == |t.files|
    ensures Levels(Restarted(t, d, events).value.files) == Levels(t.files) <==> LevelsKeepable(t, d, events)
  {
    RestartedFiles(t, d, events);
    var r := Restarted(t, d, events).value;
    if LevelsKeepable(t, d, events) {
      assert Levels(r.files) == Levels(t.files);
    } else {
      var i: nat :| i < |t.files| && FromLib(t.files[i]) != Untouched(t.paused) && !BackAgain(t, d, events, i);
      assert Levels(r.files)[i] != Levels(t.files)[i];
    }
  }

  lemma FieldsSeen(t: Torrent, d: Daemon, events: seq<Event>)
    requires ComesBack(RecordOf(t), d.metainfo) && Complete(t, d, events)
    ensures See(Restarted(t, d, events).value).(levels := []) == See(t).(levels := []) <==> FieldsKeepable(t, d)
  {
    RestartedFields(t, d, events);
  }

  // Save then restore is the identity exactly on those, in every run of the
  // restore, with as many files as there were: all of them from the metainfo;
  // from the magnet, those of metadata that comes meanwhile.
  lemma RestartIsIdentity(t: Torrent, d: Daemon, events: seq<Event>)
    requires Sound(t) && Complete(t, d, events)
    ensures var r := Restarted(t, d, events);
            r.Some? && See(r.value) == See(t) <==>
            && ComesBack(RecordOf(t), d.metainfo) && |EndOf(t, d, events).core.files| == |t.files|
            && FieldsKeepable(t, d) && LevelsKeepable(t, d, events)
  {
    if ComesBack(RecordOf(t), d.metainfo) {
      FieldsSeen(t, d, events);
      var r := Restarted(t, d, events).value;
      assert See(r) == See(t) <==>
             See(r).(levels := []) == See(t).(levels := []) && Levels(r.files) == Levels(t.files);
      if |r.files| == |t.files| {
        LevelsKept(t, d, events);
      } else {
        assert |Levels(r.files)| != |Levels(t.files)|;
      }
    }
  }

  // From the metainfo, a paused torrent comes back as it was exactly when no
  // file of it was at normal; a running one exactly when no choice of it was
  // overtaken.
  lemma FromMetainfoExactly(t: Torrent, d: Daemon, events: seq<Event>)
    requires t.hasInfo && d.metainfo == Some(|t.files|) && FieldsKeepable(t, d) && Complete(t, d, events)
    ensures See(Restarted(t, d, events).value) == See(t) <==>
            forall i: nat | i < |t.files| ::
              if t.paused then FromLib(t.files[i]) != Normal else !Overtaken(Begin(RecordOf(t), d), events, i)
  {
    RestartedFields(t, d, events);
    RestartedFiles(t, d, events);
    RestartIsIdentity(t, d, events);
    forall i: nat | i < |t.files|
      ensures FromLib(t.files[i]) == Untouched(t.paused) || BackAgain(t, d, events, i) <==>
              if t.paused then FromLib(t.files[i]) != Normal else !Overtaken(Begin(RecordOf(t), d), events, i)
    {
      BackFromMetainfo(t, d, events, i);
    }
  }

  lemma BackFromMetainfo(t: Torrent, d: Daemon, events: seq<Event>, i: nat)
    requires t.hasInfo && d.metainfo == Some(|t.files|) && Complete(t, d, events) && i < |t.files|
    ensures BackAgain(t, d, events, i) <==>
            FromLib(t.files[i]) != Normal && !Overtaken(Begin(RecordOf(t), d), events, i)
    ensures Overtaken(Begin(RecordOf(t), d), events, i) ==> !t.paused && FromLib(t.files[i]) != Normal
  {
    RestartedFiles(t, d, events);
    ListedIs(t.files);
    assert RecordOf(t).files[0..] == Listed(t.files);
    if Overtaken(Begin(RecordOf(t), d), events, i) {
      OvertakenIsListed(t, d, events, i);
    }
  }

  // Only a saved choice of a running torrent can be overtaken.
  lemma OvertakenIsListed(t: Torrent, d: Daemon, events: seq<Event>, i: nat)
    requires t.hasInfo && d.metainfo == Some(|t.files|) && Complete(t, d, events) && i < |t.files|
    requires Overtaken(Begin(RecordOf(t), d), events, i)
    ensures !t.paused && FromLib(t.files[i]) != Normal
  {
    Always(RecordOf(t), d, events);
    RestoreAsWritten(RecordOf(t), d, events);
    LostExactly(RecordOf(t), d, events, i);
    RestartedFiles(t, d, events);
    ListedIs(t.files);
  }

  // ------------------------------------------------------------------
  // When a second save writes what the first did
  // ------------------------------------------------------------------

  // What the second save may differ in: a torrent restored from its metainfo
  // has no magnet.
  function AsSaved(t: Torrent, d: Daemon): SessionRecord {
    if d.metainfo.Some? then RecordOf(t).(magnet := "") else RecordOf(t)
  }

  lemma {:induction false} ListedByLevels(a: seq<LibPriority>, b: seq<LibPriority>)
    requires Levels(a) == Levels(b)
    ensures Listed(a) == Listed(b)
    decreases |a|
  {
    assert |Levels(a)| == |a| && |Levels(b)| == |b|;
    if a != [] {
      var n := |a| - 1;
      assert Levels(a)[n] == Levels(b)[n];
      assert Levels(a[..n]) == Levels(a)[..n] == Levels(b[..n]);
      ListedByLevels(a[..n], b[..n]);
    }
  }

  // Of files as many, the same lines mean the same levels.
  lemma ListedTells(a: seq<LibPriority>, b: seq<LibPriority>)
    requires |a| == |b| && Listed(a) == Listed(b)
    ensures Levels(a) == Levels(b)
  {
    ListedIs(a);
    ListedIs(b);
    forall i | 0 <= i < |a|
      ensures FromLib(a[i]) == FromLib(b[i])
    {
      if FromLib(a[i]) != Normal {
        SameLine(a, b, i);
      } else if FromLib(b[i]) != Normal {
        SameLine(b, a, i);
      }
    }
  }

  lemma SameLine(a: seq<LibPriority>, b: seq<LibPriority>, i: nat)
    requires i < |a| == |b| && Listed(a) == Listed(b) && FromLib(a[i]) != Normal
    ensures FromLib(a[i]) == FromLib(b[i])
  {
    ListedIs(a);
    ListedIs(b);
    var c :| c in Listed(a) && c.index == i;
    PriorityRoundTrip(FromLib(a[i]), LIB_NONE);
    PriorityRoundTrip(FromLib(b[i]), LIB_NONE);
  }

  lemma NothingListed(files: seq<LibPriority>)
    ensures Listed(files) == [] <==> forall i | 0 <= i < |files| :: FromLib(files[i]) == Normal
  {
    ListedIs(files);
    if Listed(files) != [] {
      assert Listed(files)[0] in Listed(files);
    }
    if i :| 0 <= i < |files| && FromLib(files[i]) != Normal {
      assert Tried(Listed(files), i);
    }
  }

  // What of the files a second save writes again. With the files known both
  // times, the levels that are kept; with none known now, nothing, so nothing
  // must have been written; of files known only now, nothing unless their
  // torrent is paused, which leaves them off.
  ghost predicate FilesRewritten(t: Torrent, d: Daemon, events: seq<Event>)
    requires ComesBack(RecordOf(t), d.metainfo) && Complete(t, d, events)
  {
    var s := EndOf(t, d, events);
    if !s.added.hasInfo then forall i | 0 <= i < |t.files| :: FromLib(t.files[i]) == Normal
    else if t.hasInfo then LevelsKeepable(t, d, events)
    else t.paused ==> s.core.files == []
  }

  // The second save writes what the first did exactly on those.
  lemma SecondSaveIsFixpoint(t: Torrent, d: Daemon, events: seq<Event>)
    requires Sound(t) && ComesBack(RecordOf(t), d.metainfo) && Complete(t, d, events)
    requires t.hasInfo && EndOf(t, d, events).added.hasInfo ==> |EndOf(t, d, events).core.files| == |t.files|
    ensures RecordOf(Restarted(t, d, events).value) == AsSaved(t, d) <==>
            FieldsKeepable(t, d) && FilesRewritten(t, d, events)
  {
    RestartedFields(t, d, events);
    RestartedFiles(t, d, events);
    var r := Restarted(t, d, events).value;
    assert RecordOf(t).files == Listed(t.files) && RecordOf(r).files == Listed(r.files);
    ListedAgain(t, d, events);
  }

  lemma ListedAgain(t: Torrent, d: Daemon, events: seq<Event>)
    requires Sound(t) && ComesBack(RecordOf(t), d.metainfo) && Complete(t, d, events)
    requires t.hasInfo && EndOf(t, d, events).added.hasInfo ==> |EndOf(t, d, events).core.files| == |t.files|
    ensures Listed(Restarted(t, d, events).value.files) == Listed(t.files) <==> FilesRewritten(t, d, events)
  {
    RestartedFields(t, d, events);
    RestartedFiles(t, d, events);
    var r := Restarted(t, d, events).value;
    if !r.hasInfo {
      NothingListed(t.files);
    } else if t.hasInfo {
      LevelsKept(t, d, events);
      if LevelsKeepable(t, d, events) {
        ListedByLevels(r.files, t.files);
      } else if Listed(r.files) == Listed(t.files) {
        ListedTells(r.files, t.files);
      }
    } else {
      NewFilesUntouched(t, d, events);
      NothingListed(r.files);
    }
  }

  // Files first heard of in the restore were in no record.
  lemma NewFilesUntouched(t: Torrent, d: Daemon, events: seq<Event>)
    requires !t.hasInfo && Sound(t) && ComesBack(RecordOf(t), d.metainfo) && Complete(t, d, events)
    ensures var r := Restarted(t, d, events).value;
            r.chosen == {} && forall i | 0 <= i < |r.files| :: FromLib(r.files[i]) == Untouched(t.paused)
  {
    Always(RecordOf(t), d, events);
    RestoreAsWritten(RecordOf(t), d, events);
    var s := EndOf(t, d, events);
    assert RecordOf(t).files[s.missed..] == [];
  }

  // ------------------------------------------------------------------
  // What resuming fetches afterwards
  // ------------------------------------------------------------------

  // Resuming after a restart, once the files are known, wants what resuming
  // before it would have, exactly when each file not at normal is one that
  // somebody had chosen and whose choice is made again and stands, or one
  // that nobody had chosen and whose saved level is not.
  lemma RestartKeepsWanted(t: Torrent, fileCount: nat, d: Daemon, events: seq<Event>)
    requires Sound(t) && (!t.hasInfo ==> t.chosen == {}) && ComesBack(RecordOf(t), d.metainfo) && Complete(t, d, events)
    requires t.hasInfo ==> fileCount == |t.files|
    requires EndOf(t, d, events).added.hasInfo ==> fileCount == |EndOf(t, d, events).core.files|
    ensures Levels(Resumed(Arrived(Restarted(t, d, events).value, fileCount))) ==
            Levels(Resumed(Arrived(t, fileCount))) <==>
            forall i: nat | i < |t.files| ::
              FromLib(t.files[i]) == Normal || (i in t.chosen <==> BackAgain(t, d, events, i))
  {
    RestartedFields(t, d, events);
    var a, b := Resumed(Arrived(Restarted(t, d, events).value, fileCount)), Resumed(Arrived(t, fileCount));
    forall i: nat | i < fileCount
      ensures Levels(a)[i] == Levels(b)[i] <==>
              !t.hasInfo || FromLib(t.files[i]) == Normal || (i in t.chosen <==> BackAgain(t, d, events, i))
    {
      WantedAlike(t, fileCount, d, events, i);
    }
    SameLevels(Levels(a), Levels(b));
  }

  lemma SameLevels(a: seq<Priority>, b: seq<Priority>)
    requires |a| == |b|
    ensures a == b <==> forall i: nat | i < |a| :: a[i] == b[i]
  {
  }

  lemma WantedAlike(t: Torrent, fileCount: nat, d: Daemon, events: seq<Event>, i: nat)
    requires Sound(t) && (!t.hasInfo ==> t.chosen == {}) && ComesBack(RecordOf(t), d.metainfo) && Complete(t, d, events)
    requires i < fileCount && (t.hasInfo ==> fileCount == |t.files|)
    requires EndOf(t, d, events).added.hasInfo ==> fileCount == |EndOf(t, d, events).core.files|
    ensures var after := Resumed(Arrived(Restarted(t, d, events).value, fileCount));
            var before := Resumed(Arrived(t, fileCount));
            && |after| == |before| == fileCount
            && (Levels(after)[i] == Levels(before)[i] <==>
                !t.hasInfo || FromLib(t.files[i]) == Normal || (i in t.chosen <==> BackAgain(t, d, events, i)))
  {
    RestartedFields(t, d, events);
    WantedAfter(t, fileCount, d, events, i);
    WantedLevel(Arrived(t, fileCount), i);
  }

  // What resuming makes of file i.
  lemma WantedLevel(t: Torrent, i: nat)
    requires i < |t.files|
    ensures |Resumed(t)| == |t.files|
    ensures Levels(Resumed(t))[i] == if i in t.chosen then FromLib(t.files[i]) else Normal
  {
  }

  lemma WantedAfter(t: Torrent, fileCount: nat, d: Daemon, events: seq<Event>, i: nat)
    requires Sound(t) && ComesBack(RecordOf(t), d.metainfo) && Complete(t, d, events)
    requires i < fileCount && (t.hasInfo ==> fileCount == |t.files|)
    requires EndOf(t, d, events).added.hasInfo ==> fileCount == |EndOf(t, d, events).core.files|
    ensures var after := Resumed(Arrived(Restarted(t, d, events).value, fileCount));
            && |after| == fileCount && Levels(after)[i] ==
               if t.hasInfo && BackAgain(t, d, events, i) then FromLib(t.files[i]) else Normal
  {
    RestartedFields(t, d, events);
    RestartedFiles(t, d, events);
    var r := Restarted(t, d, events).value;
    WantedLevel(Arrived(r, fileCount), i);
    if !t.hasInfo {
      NewFilesUntouched(t, d, events);
    } else if !r.hasInfo {
      AllMissed(t, d, events);
    } else if t.paused {
      PausedKeepsAll(t, d, events, i);
    }
  }

  // A paused torrent's choices are not overtaken.
  lemma PausedKeepsAll(t: Torrent, d: Daemon, events: seq<Event>, i: nat)
    requires ComesBack(RecordOf(t), d.metainfo) && Complete(t, d, events) && t.paused
    ensures !Overtaken(Begin(RecordOf(t), d), events, i)
  {
    Always(RecordOf(t), d, events);
    RestoreAsWritten(RecordOf(t), d, events);
  }

  // Without metadata every choice was refused.
  lemma AllMissed(t: Torrent, d: Daemon, events: seq<Event>)
    requires ComesBack(RecordOf(t), d.metainfo) && Complete(t, d, events) && !EndOf(t, d, events).added.hasInfo
    ensures forall i: nat :: !BackAgain(t, d, events, i)
  {
    Always(RecordOf(t), d, events);
    assert RecordOf(t).files[EndOf(t, d, events).missed..] == [];
  }

  // A torrent paused with a file at normal, restarted twice and resumed: the
  // file stays off, though after one restart it would not have.
  lemma SecondRestartSwitchesOff(t: Torrent, i: nat, d: Daemon, events: seq<Event>, later: Daemon, again: seq<Event>)
    requires t.hasInfo && t.paused && i < |t.files| && FromLib(t.files[i]) == Normal
    requires d.metainfo == Some(|t.files|) == later.metainfo && Complete(t, d, events)
    requires Complete(Restarted(t, d, events).value, later, again)
    ensures var once := Restarted(t, d, events).value;
            && |Resumed(once)| == |t.files| && FromLib(Resumed(once)[i]) == Normal
            && var twice := Restarted(once, later, again).value;
               |Resumed(twice)| == |t.files| && FromLib(Resumed(twice)[i]) == Off
  {
    RestartedFields(t, d, events);
    RestartedFiles(t, d, events);
    BackFromMetainfo(t, d, events, i);
    var once := Restarted(t, d, events).value;
    ListedIs(t.files);
    RestartedFields(once, later, again);
    RestartedFiles(once, later, again);
    BackFromMetainfo(once, later, again, i);
    ListedIs(once.files);
    assert RecordOf(once).files[0..] == Listed(once.files);
  }

  // A saved line for file i whose level has a name.
  predicate ReadableIn(choices: seq<FileChoice>, i: nat) {
    exists c :: c in choices && c.index == i && ParsePriority(c.priority).Some?
  }

  // A torrent restored from its magnet keeps the magnet, and of the saved
  // choices those that were tried once its metadata had come.
  lemma MagnetRestoreExactly(rec: SessionRecord, d: Daemon, events: seq<Event>, i: nat)
    requires rec.magnet != "" && d.metainfo.None? && Run(Step, Begin(rec, d), events).Some?
    requires Ended(Run(Step, Begin(rec, d), events).value)
    ensures var s := Run(Step, Begin(rec, d), events).value;
            var r := Result(s, rec);
            && s.missed <= |rec.files| && r.magnet == rec.magnet && (!r.hasInfo ==> s.missed == |rec.files|)
            && (i in r.chosen <==> i < |r.files| && ReadableIn(rec.files[s.missed..], i))
  {
    Always(rec, d, events);
    RestoreAsWritten(rec, d, events);
    var s := Run(Step, Begin(rec, d), events).value;
    ChosenExactly(s.added, rec.files[s.missed..], i);
    ChoicesTouchFilesOnly(s.added, rec.files[s.missed..]);
  }

  lemma {:induction false} ChosenExactly(added: Torrent, choices: seq<FileChoice>, i: nat)
    requires added.chosen == {} && (!added.hasInfo ==> added.files == [])
    ensures i in ChoseAll(added, choices).chosen <==> i < |added.files| && ReadableIn(choices, i)
    decreases |choices|
  {
    if choices != [] {
      var n := |choices| - 1;
      ChosenExactly(added, choices[..n], i);
      ChoicesTouchFilesOnly(added, choices[..n]);
      assert forall c :: c in choices <==> c in choices[..n] || c == choices[n];
    }
  }

  // ------------------------------------------------------------------
  // Runs that end, with every choice standing and with none
  // ------------------------------------------------------------------

  function Left(s: Restore): int {
    2 * (|s.choices| - s.next) + if s.writing.Some? then 1 else 0
  }

  // restoreOne alone, to its end.
  lemma {:induction false} RestoreRunsOn(b: Restore, events: seq<Event>) returns (all: seq<Event>)
    requires Kept(b, b) && Run(Step, b, events).Some?
    ensures Run(Step, b, all).Some?
    ensures var s := Run(Step, b, events).value;
            var t := Run(Step, b, all).value;
            && t.next == |t.choices| && t.writing.None? && t.added == s.added && t.core.walkers == s.core.walkers
            && (forall i :: FileChoices.Threatened(s.core, i) || (Overtaken(b, all, i) ==> Overtaken(b, events, i)))
    decreases Left(Run(Step, b, events).value)
  {
    KeptOverRuns(b, events);
    var s := Run(Step, b, events).value;
    if s.next == |s.choices| && s.writing.None? {
      all := events;
    } else {
      RunSnoc(Step, b, events, Next);
      NextAlone(s);
      var longer := events + [Next];
      assert longer[..|events|] == events;
      all := RestoreRunsOn(b, longer);
    }
  }

  lemma NextAlone(s: Restore)
    requires Inv(s) && (s.next < |s.choices| || s.writing.Some?)
    ensures NextStep(s).Some?
    ensures var t := NextStep(s).value;
            t.added == s.added && t.choices == s.choices && t.core.walkers == s.core.walkers && 0 <= Left(t) < Left(s)
  {
  }

  // What the goroutine has left to do.
  function WalkLeft(core: FileChoices.State): nat {
    if |core.walkers| == 0 || core.walkers[0].Finished? then 0
    else if core.walkers[0].Copying? then |core.files| + 2
    else if core.walkers[0].next <= |core.files| then |core.files| - core.walkers[0].next + 1 else 1
  }

  // The goroutine alone, after the restore, to its end.
  lemma {:induction false} GoroutineRunsOn(b: Restore, events: seq<Event>) returns (all: seq<Event>)
    requires Kept(b, b) && Run(Step, b, events).Some?
    requires var s := Run(Step, b, events).value; s.next == |s.choices| && s.writing.None?
    ensures Run(Step, b, all).Some? && Ended(Run(Step, b, all).value)
    ensures forall i :: Overtaken(b, all, i) <==> Overtaken(b, events, i)
    decreases WalkLeft(Run(Step, b, events).value.core)
  {
    KeptOverRuns(b, events);
    var s := Run(Step, b, events).value;
    if FileChoices.AllFinished(s.core) {
      all := events;
    } else {
      RunSnoc(Step, b, events, Goroutine);
      GoroutineAlone(s);
      var longer := events + [Goroutine];
      assert longer[..|events|] == events;
      all := GoroutineRunsOn(b, longer);
    }
  }

  lemma GoroutineAlone(s: Restore)
    requires Inv(s) && s.next == |s.choices| && s.writing.None? && !FileChoices.AllFinished(s.core)
    ensures Step(s, Goroutine).Some?
    ensures var t := Step(s, Goroutine).value;
            t.next == |t.choices| && t.writing.None? && WalkLeft(t.core) < WalkLeft(s.core)
  {
  }

  lemma BeginKept(rec: SessionRecord, d: Daemon)
    ensures Kept(Begin(rec, d), Begin(rec, d)) && Run(Step, Begin(rec, d), []) == Some(Begin(rec, d))
  {
    FilesInv(Begin(rec, d).added);
  }

  ghost predicate NothingLost(b: Restore, events: seq<Event>) {
    forall i :: !Overtaken(b, events, i)
  }

  // Every restore has a run in which it comes first, and nothing is lost.
  lemma RestoreFirst(t: Torrent, d: Daemon)
    ensures exists events :: Complete(t, d, events) && NothingLost(Begin(RecordOf(t), d), events)
  {
    var b := Begin(RecordOf(t), d);
    BeginKept(RecordOf(t), d);
    var restored := RestoreRunsOn(b, []);
    var all := GoroutineRunsOn(b, restored);
    assert Complete(t, d, all);
    forall i: nat
      ensures !Overtaken(b, all, i)
    {
      assert !FileChoices.Threatened(b.core, i);
    }
  }

  // And that of a running torrent's metainfo has one in which the goroutine
  // copies the chosen files before it and writes after it: no choice stands.
  lemma GoroutineCopiesFirst(t: Torrent, d: Daemon)
    requires t.hasInfo && !t.paused && d.metainfo == Some(|t.files|)
    ensures exists events ::
              && Complete(t, d, events) && |Restarted(t, d, events).value.files| == |t.files|
              && forall i: nat | i < |t.files| :: FromLib(Restarted(t, d, events).value.files[i]) == Normal
  {
    var all := OvertakesAll(t, d);
    RestartedFiles(t, d, all);
    forall i: nat | i < |t.files|
      ensures FromLib(Restarted(t, d, all).value.files[i]) == Normal
    {
      BackFromMetainfo(t, d, all, i);
    }
  }

  lemma OvertakesAll(t: Torrent, d: Daemon) returns (all: seq<Event>)
    requires t.hasInfo && !t.paused && d.metainfo == Some(|t.files|)
    ensures Complete(t, d, all)
    ensures forall i: nat | i < |t.files| && FromLib(t.files[i]) != Normal :: Overtaken(Begin(RecordOf(t), d), all, i)
  {
    var b := Begin(RecordOf(t), d);
    BeginKept(RecordOf(t), d);
    RunSnoc(Step, b, [], Goroutine);
    var copied := [] + [Goroutine];
    CopiedFirst(t, d);
    var restored := RestoreRunsOn(b, copied);
    all := GoroutineRunsOn(b, restored);
    forall i: nat | i < |t.files| && FromLib(t.files[i]) != Normal
      ensures Overtaken(b, all, i)
    {
      ThreatenedLine(t, d, restored, i);
    }
  }

  lemma CopiedFirst(t: Torrent, d: Daemon)
    requires t.hasInfo && !t.paused && d.metainfo == Some(|t.files|)
    ensures var s := Step(Begin(RecordOf(t), d), Goroutine);
            s.Some? && s.value.core.walkers == [FileChoices.Writing({}, 0)]
  {
  }

  lemma ThreatenedLine(t: Torrent, d: Daemon, events: seq<Event>, i: nat)
    requires t.hasInfo && d.metainfo == Some(|t.files|) && i < |t.files| && FromLib(t.files[i]) != Normal
    requires Run(Step, Begin(RecordOf(t), d), events).Some?
    requires var s := Run(Step, Begin(RecordOf(t), d), events).value;
             s.next == |s.choices| && s.core.walkers == [FileChoices.Writing({}, 0)]
    ensures Overtaken(Begin(RecordOf(t), d), events, i)
  {
    Always(RecordOf(t), d, events);
    LostExactly(RecordOf(t), d, events, i);
    var s := Run(Step, Begin(RecordOf(t), d), events).value;
    ListedIs(t.files);
    assert s.choices[0..|s.choices|] == Listed(t.files);
    ChoicesComeBack(s.added, t.files, Listed(t.files));
    assert FileChoices.Threatens(s.core.walkers[0], i);
  }
}
