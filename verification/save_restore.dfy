// What one torrent keeps across a restart: its session record
// (recordLocked), the torrent a restore makes of it (restoreOne, addSpec),
// and the goroutine that marks files wanted once the metadata is there
// (internal/engine/session.go, ops.go, types.go).
module SaveRestore {
  import opened Runs
  import opened TrackedRecord

  datatype Priority = Off | Low | Normal | High | Now

  // The library's scale: None, Normal, High, Readahead, Next, Now.
  type LibPriority = n: nat | n < 6 witness 0
  const LIB_NONE: LibPriority := 0
  const LIB_NORMAL: LibPriority := 1
  const LIB_HIGH: LibPriority := 2
  const LIB_NOW: LibPriority := 5

  function Name(p: Priority): string {
    match p
    case Off => "none"
    case Low => "low"
    case Normal => "normal"
    case High => "high"
    case Now => "now"
  }

  function ParsePriority(s: string): Option<Priority> {
    if s == "none" || s == "skip" then Some(Off)
    else if s == "low" then Some(Low)
    else if s == "normal" || s == "" then Some(Normal)
    else if s == "high" then Some(High)
    else if s == "now" || s == "max" then Some(Now)
    else None
  }

  function ToLib(p: Priority): LibPriority {
    match p
    case Off => LIB_NONE
    case Low => LIB_NORMAL
    case Normal => LIB_NORMAL
    case High => LIB_HIGH
    case Now => LIB_NOW
  }

  function FromLib(p: LibPriority): Priority {
    if p == LIB_NONE then Off else if p >= LIB_NOW then Now else if p >= LIB_HIGH then High else Normal
  }

  // What is written is read back, and "low" is the only level that the
  // library's scale cannot hold.
  lemma PriorityRoundTrip(p: Priority, lib: LibPriority)
    ensures ParsePriority(Name(p)) == Some(p)
    ensures FromLib(ToLib(p)) == p <==> p != Low
    ensures ToLib(FromLib(lib)) == lib <==> lib in {LIB_NONE, LIB_NORMAL, LIB_HIGH, LIB_NOW}
    ensures FromLib(ToLib(FromLib(lib))) == FromLib(lib)
  {
    assert Name(p)[0] == 'n' || Name(p)[0] == 'l' || Name(p)[0] == 'h';
    match p
    case Off => assert Name(p) == "none";
    case Low => assert Name(p) == "low" && Name(p)[0] == 'l';
    case Normal => assert Name(p) == "normal" && |Name(p)| == 6;
    case High => assert Name(p) == "high" && Name(p)[0] == 'h';
    case Now => assert Name(p) == "now" && |Name(p)| == 3 && Name(p)[1] == 'o' && Name(p)[0] == 'n';
  }

  // Every name a level may be written by, and no other.
  const NAMES: map<string, Priority> := map[
    "none" := Off, "skip" := Off, "low" := Low, "normal" := Normal, "" := Normal, "high" := High, "now" := Now,
    "max" := Now]

  lemma NamesAreParsed(s: string)
    ensures ParsePriority(s) == if s in NAMES then Some(NAMES[s]) else None
  {
  }

  // How badly a level wants a file.
  function Rank(p: Priority): nat {
    match p
    case Off => 0
    case Low => 1
    case Normal => 2
    case High => 3
    case Now => 4
  }

  // Both ways keep the order of the levels, and only "low" and "normal" fall
  // together; and each step of the library's scale reads as the level whose
  // stretch of it that is: None off, Normal normal, Now now, and High,
  // Readahead and Next high.
  lemma LevelsKeepOrder(p: Priority, q: Priority, a: LibPriority, b: LibPriority)
    ensures ToLib(p) < ToLib(q) <==> Rank(p) < Rank(q) && !(p == Low && q == Normal)
    ensures a <= b ==> Rank(FromLib(a)) <= Rank(FromLib(b))
    ensures FromLib(a) == [Off, Normal, High, High, High, Now][a]
  {
    assert a == 0 || a == 1 || a == 2 || a == 3 || a == 4 || a == 5;
  }

  datatype FileChoice = FileChoice(index: int, priority: string)

  // A line of session.json; times are counts, 0 being "never".
  datatype SessionRecord = SessionRecord(
    magnet: string, savePath: string, paused: bool, upLimit: int, downLimit: int, moved: Bytes,
    addedAt: nat, seedRatio: real, seedTime: int, completedAt: nat, category: string, files: seq<FileChoice>)

  //  files    the library's priority of each file, when hasInfo
  //  chosen   the files somebody has set a priority on
  //  stats    the present instance's counters
  datatype Torrent = Torrent(
    hasInfo: bool, magnet: string, savePath: string, paused: bool, upLimit: int, downLimit: int,
    base: Bytes, stats: Bytes, addedAt: nat, seedRatio: real, seedTime: int, completedAt: nat,
    completeLogged: bool, category: string, files: seq<LibPriority>, chosen: set<nat>)

  // ------------------------------------------------------------------
  // Saving
  // ------------------------------------------------------------------

  // The files that are not at normal, in order.
  function Listed(files: seq<LibPriority>): seq<FileChoice> {
    if files == [] then []
    else
      var n := |files| - 1;
      var p := FromLib(files[n]);
      if p == Normal then Listed(files[..n]) else Listed(files[..n]) + [FileChoice(n, Name(p))]
  }

  function RecordOf(t: Torrent): SessionRecord {
    SessionRecord(t.magnet, t.savePath, t.paused, t.upLimit, t.downLimit, t.base.Plus(t.stats), t.addedAt, t.seedRatio,
                  t.seedTime, t.completedAt, t.category, if t.hasInfo then Listed(t.files) else [])
  }

  // ------------------------------------------------------------------
  // Restoring
  // ------------------------------------------------------------------

  // A torrent the engine has just added.
  function Added(hasInfo: bool, fileCount: nat, magnet: string, savePath: string, paused: bool, now: nat): Torrent {
    Torrent(hasInfo, magnet, savePath, paused, 0, 0, NO_BYTES, NO_BYTES, now, 0.0, 0, 0, false, "",
            if hasInfo then seq(fileCount, _ => LIB_NONE) else [], {})
  }

  function Limited(t: Torrent, up: int, down: int): Torrent {
    t.(upLimit := if up >= 0 then up else t.upLimit, downLimit := if down >= 0 then down else t.downLimit)
  }

  // SetFilePriority, which refuses a file that is not there.
  function Chose(t: Torrent, index: int, p: Priority): Torrent {
    if !t.hasInfo || index < 0 || index >= |t.files| then t
    else t.(files := t.files[index := ToLib(p)], chosen := t.chosen + {index})
  }

  function ChoseSaved(t: Torrent, choice: FileChoice): Torrent {
    match ParsePriority(choice.priority)
    case None => t
    case Some(p) => Chose(t, choice.index, p)
  }

  function ChoseAll(t: Torrent, choices: seq<FileChoice>): Torrent {
    if choices == [] then t else ChoseSaved(ChoseAll(t, choices[..|choices| - 1]), choices[|choices| - 1])
  }

  // The fields restoreOne sets directly.
  function Backdated(t: Torrent, rec: SessionRecord): Torrent {
    t.(addedAt := if rec.addedAt != 0 then rec.addedAt else t.addedAt,
       base := rec.moved, seedRatio := rec.seedRatio, seedTime := rec.seedTime,
       completedAt := rec.completedAt, category := rec.category, completeLogged := rec.completedAt != 0)
  }

  // The limits restoreOne sets, when the record has any.
  function LimitsSet(t: Torrent, rec: SessionRecord): Torrent {
    if rec.upLimit != 0 || rec.downLimit != 0 then Limited(t, rec.upLimit, rec.downLimit) else t
  }

  // What restoreOne does to the torrent it has added.
  function Filled(t: Torrent, rec: SessionRecord): Torrent {
    Backdated(ChoseAll(LimitsSet(t, rec), rec.files), rec)
  }

  predicate ComesBack(rec: SessionRecord, metainfo: Option<nat>) {
    metainfo.Some? || rec.magnet != ""
  }

  // The torrent restoreOne adds: from the saved metainfo when there is one,
  // which says how many files there are, else from the magnet.
  function AddedFrom(rec: SessionRecord, metainfo: Option<nat>, dataDir: string, now: nat): Torrent {
    var savePath := if rec.savePath != "" && rec.savePath != dataDir then rec.savePath else dataDir;
    if metainfo.Some? then Added(true, metainfo.value, "", savePath, rec.paused, now)
    else Added(false, 0, rec.magnet, savePath, rec.paused, now)
  }

  // Every file wanted at normal but the chosen ones.
  function MarkedWanted(files: seq<LibPriority>, chosen: set<nat>): (r: seq<LibPriority>)
    ensures |r| == |files|
    ensures forall i | 0 <= i < |r| :: r[i] == if i in chosen then files[i] else LIB_NORMAL
  {
    seq(|files|, i requires 0 <= i < |files| => if i in chosen then files[i] else LIB_NORMAL)
  }

  // What a torrent's metadata, when it arrives, makes of its files.
  function Arrived(t: Torrent, fileCount: nat): Torrent {
    if t.hasInfo then t else t.(hasInfo := true, files := seq(fileCount, _ => LIB_NONE))
  }

  // What resuming it makes of its files.
  function Resumed(t: Torrent): seq<LibPriority> {
    MarkedWanted(t.files, t.chosen)
  }

  // ------------------------------------------------------------------
  // The torrent as an object
  // ------------------------------------------------------------------

  class TrackedTorrent {
    var hasInfo: bool
    var magnet: string
    var savePath: string
    var paused: bool
    var upLimit: int
    var downLimit: int
    var base: Bytes
    var stats: Bytes
    var addedAt: nat
    var seedRatio: real
    var seedTime: int
    var completedAt: nat
    var completeLogged: bool
    var category: string
    var files: seq<LibPriority>
    var chosen: set<nat>

    function View(): Torrent
      reads this
    {
      Torrent(hasInfo, magnet, savePath, paused, upLimit, downLimit, base, stats, addedAt, seedRatio, seedTime,
              completedAt, completeLogged, category, files, chosen)
    }

    constructor (hasInfo: bool, fileCount: nat, magnet: string, savePath: string, paused: bool, now: nat)
      ensures View() == Added(hasInfo, fileCount, magnet, savePath, paused, now)
    {
      this.hasInfo, this.magnet, this.savePath, this.paused := hasInfo, magnet, savePath, paused;
      upLimit, downLimit, base, stats, addedAt := 0, 0, NO_BYTES, NO_BYTES, now;
      seedRatio, seedTime, completedAt, completeLogged, category := 0.0, 0, 0, false, "";
      files := if hasInfo then seq(fileCount, _ => LIB_NONE) else [];
      chosen := {};
    }

    method Record() returns (rec: SessionRecord)
      ensures rec == RecordOf(View())
    {
      var choices: seq<FileChoice> := [];
      if hasInfo {
        var i := 0;
        while i < |files|
          invariant 0 <= i <= |files| && choices == Listed(files[..i])
        {
          assert files[..i + 1][..i] == files[..i];
          var p := FromLib(files[i]);
          if p != Normal {
            choices := choices + [FileChoice(i, Name(p))];
          }
          i := i + 1;
        }
        assert files[..|files|] == files;
      }
      rec := SessionRecord(magnet, savePath, paused, upLimit, downLimit, base.Plus(stats), addedAt, seedRatio, seedTime,
                           completedAt, category, choices);
    }

    method SetFilePriority(index: int, p: Priority) returns (ok: bool)
      modifies this`files, this`chosen
      ensures View() == Chose(old(View()), index, p)
      ensures ok <==> hasInfo && 0 <= index < |files|
    {
      ok := hasInfo && 0 <= index < |files|;
      if ok {
        files := files[index := ToLib(p)];
        chosen := chosen + {index};
      }
    }

    // A negative limit leaves that direction as it is.
    method SetRateLimit(up: int, down: int)
      modifies this`upLimit, this`downLimit
      ensures View() == Limited(old(View()), up, down)
      ensures old(upLimit >= 0 && downLimit >= 0) ==> upLimit >= 0 && downLimit >= 0
    {
      if up >= 0 {
        upLimit := up;
      }
      if down >= 0 {
        downLimit := down;
      }
    }

    method SetSavedPriorities(choices: seq<FileChoice>)
      modifies this`files, this`chosen
      ensures View() == ChoseAll(old(View()), choices)
    {
      var i := 0;
      while i < |choices|
        invariant 0 <= i <= |choices| && View() == ChoseAll(old(View()), choices[..i])
      {
        assert choices[..i + 1][..i] == choices[..i];
        var p := ParsePriority(choices[i].priority);
        if p.Some? {
          var _ := SetFilePriority(choices[i].index, p.value);
        }
        i := i + 1;
      }
      assert choices[..|choices|] == choices;
    }

    method Fill(rec: SessionRecord)
      modifies this
      ensures View() == Filled(old(View()), rec)
    {
      if rec.upLimit != 0 || rec.downLimit != 0 {
        SetRateLimit(rec.upLimit, rec.downLimit);
      }
      SetSavedPriorities(rec.files);
      Backdate(rec);
    }

    method Backdate(rec: SessionRecord)
      modifies this`addedAt, this`base, this`seedRatio, this`seedTime, this`completedAt, this`category,
          this`completeLogged
      ensures View() == Backdated(old(View()), rec)
    {
      if rec.addedAt != 0 {
        addedAt := rec.addedAt;
      }
      base := rec.moved;
      seedRatio, seedTime, completedAt, category := rec.seedRatio, rec.seedTime, rec.completedAt, rec.category;
      completeLogged := rec.completedAt != 0;
    }

    method DownloadUnchosen(picked: set<nat>)
      modifies this`files
      ensures files == MarkedWanted(old(files), picked)
    {
      var i := 0;
      while i < |files|
        invariant 0 <= i <= |files| == |old(files)|
        invariant forall j | 0 <= j < |files| :: files[j] == if j < i && j !in picked then LIB_NORMAL else old(files)[j]
      {
        if i !in picked {
          files := files[i := LIB_NORMAL];
        }
        i := i + 1;
      }
    }
  }

  method RestoreOne(rec: SessionRecord, metainfo: Option<nat>, dataDir: string, now: nat)
    returns (t: Option<TrackedTorrent>)
    ensures t.Some? <==> ComesBack(rec, metainfo)
    ensures t.Some? ==> t.value.View() == Filled(AddedFrom(rec, metainfo, dataDir, now), rec)
  {
    var savePath := if rec.savePath != "" && rec.savePath != dataDir then rec.savePath else dataDir;
    var added: TrackedTorrent;
    if metainfo.Some? {
      added := new TrackedTorrent(true, metainfo.value, "", savePath, rec.paused, now);
    } else if rec.magnet != "" {
      added := new TrackedTorrent(false, 0, rec.magnet, savePath, rec.paused, now);
    } else {
      return None;
    }
    added.Fill(rec);
    t := Some(added);
  }
}
