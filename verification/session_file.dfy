// The session file over whole runs (internal/engine/session.go): any number
// of operations that change the torrent list and then save it, metadata that
// arrives, removals that delete a saved metainfo, restores, and a process
// that may die between any two steps.
module SessionFile {
  import opened Runs

  type Id = nat

  //  magnet  it was added from a magnet link, which the record keeps
  //  info    its metadata is here, so its metainfo can be written
  //  data    everything else a record holds
  datatype Torrent = Torrent(magnet: bool, info: bool, data: nat)
  datatype Record = Record(magnet: bool, data: nat)
  type Torrents = map<Id, Torrent>

  //  ver      which version of the torrent list the file was built from
  datatype File = File(ver: nat, records: map<Id, Record>)

  // A caller of persist. A removal deletes the saved metainfo first.
  datatype Pc = Unlinking | Calling | Waiting | Saving | Saved | SaveFailed | Suppressed

  //  want      the version its own change made
  //  removing  the torrent it removed
  datatype Thread = Thread(want: nat, removing: Option<Id>, pc: Pc)

  // Where the caller inside saveMu stands. From CreatingTemp on it is in
  // writeFileAtomic: `left` are the records not in the temporary file yet.
  datatype SavePc =
    | Building | MakingDirs | Listing | WritingMeta(todo: set<Id>)
    | CreatingTemp | WritingTemp(left: set<Id>) | ClosingTemp | Renaming
    | Releasing(ok: bool)
  datatype Save = Save(thread: nat, pc: SavePc, ver: nat)

  // Restoring: persist is suppressed. Finishing: the restore's own save is
  // under way. No client is served before Running.
  datatype Phase = Restoring | Finishing(thread: nat) | Running

  //  hist     every version the torrent list has had; the last is the present
  //  temp     what the temporary file beside it holds; a crash leaves it
  //  metas    the torrents whose metainfo is on disk
  //  owed     the newest version whose maker calls persist
  //  damaged  torrents without a saved metainfo because writing it failed, or
  //           whose record a failed save left in the file after their removal
  datatype State = State(
    hist: seq<Torrents>, file: Option<File>, temp: Option<map<Id, Record>>, metas: set<Id>, threads: seq<Thread>,
    saver: Option<Save>, phase: Phase, owed: nat, damaged: set<Id>)

  const INIT := State([map[]], None, None, {}, [], None, Running, 0, {})

  datatype Event =
    | Add(id: Id, added: Torrent)
    | Change(id: Id, data: nat, saves: bool)
    | Metadata(id: Id)
    | Remove(id: Id)
    | ThreadStep(thread: nat, ok: bool)
    | SaveStep(id: Id, ok: bool)
    | RestoreOne(id: Id, data: nat)
    | RestoreDone
    | Serve
    | Restart(readable: bool)

  function Now(s: State): Torrents
    requires |s.hist| > 0
  {
    s.hist[|s.hist| - 1]
  }

  function RecordOf(t: Torrent): Record {
    Record(t.magnet, t.data)
  }

  function RecordsOf(ts: Torrents): map<Id, Record> {
    map id | id in ts :: RecordOf(ts[id])
  }

  predicate Over(pc: Pc) {
    pc.Saved? || pc.SaveFailed? || pc.Suppressed?
  }

  // A record a restore can re-add from.
  predicate Restorable(file: File, metas: set<Id>, id: Id)
    requires id in file.records
  {
    file.records[id].magnet || id in metas
  }

  // A new version, made by an operation that goes on to call persist.
  function Changed(s: State, ts: Torrents, removing: Option<Id>): State {
    s.(hist := s.hist + [ts], owed := |s.hist|,
       threads := s.threads + [Thread(|s.hist|, removing, if removing.Some? then Unlinking else Calling)])
  }

  function SetPc(s: State, k: nat, pc: Pc): State
    requires k < |s.threads|
  {
    s.(threads := s.threads[k := s.threads[k].(pc := pc)])
  }

  function ThreadNext(s: State, k: nat, ok: bool): Option<State>
    requires k < |s.threads|
  {
    match s.threads[k].pc
    case Unlinking =>
      if s.threads[k].removing.None? then None
      else Some(SetPc(s, k, Calling).(metas := if ok then s.metas - {s.threads[k].removing.value} else s.metas))
    case Calling => Some(SetPc(s, k, if s.phase.Restoring? then Suppressed else Waiting))
    case Waiting => if s.saver.Some? then None else Some(SetPc(s, k, Saving).(saver := Some(Save(k, Building, 0))))
    case _ => None
  }

  function WithInfo(ts: Torrents): set<Id> {
    set id | id in ts && ts[id].info
  }

  // The records this caller's save was to take out of the file, whose
  // metainfo is gone: of the torrent it removed, and of any not listed now.
  function LeftBehind(s: State, save: Save): set<Id>
    requires |s.hist| > 0
  {
    if s.file.None? then {}
    else
      var removed := if save.thread < |s.threads| then s.threads[save.thread].removing else None;
      set id | id in s.file.value.records && id !in s.metas && (removed == Some(id) || id !in Now(s))
  }

  function At(s: State, save: Save, pc: SavePc): State {
    s.(saver := Some(save.(pc := pc)))
  }

  // One step of the caller inside saveMu. The file itself is only ever
  // replaced, by the rename; any failure before that removes the temporary
  // file and leaves the old one in place.
  function SaveNext(s: State, save: Save, id: Id, ok: bool): Option<State>
    requires |s.hist| > 0
  {
    match save.pc
    case Building => Some(At(s, save.(ver := |s.hist| - 1), MakingDirs))
    case MakingDirs => Some(if ok then At(s, save, Listing) else Failed(s, save))
    case Listing => Some(At(s, save, WritingMeta(WithInfo(Now(s)))))
    case WritingMeta(todo) =>
      if todo == {} then Some(At(s, save, CreatingTemp))
      else if id !in todo then None
      else if ok || id in s.metas then
        Some(At(s, save, WritingMeta(todo - {id})).(metas := s.metas + {id}, damaged := s.damaged - {id}))
      else Some(At(s, save, WritingMeta(todo - {id})).(damaged := s.damaged + {id}))
    case CreatingTemp =>
      if !ok then Some(Failed(s, save))
      else if save.ver >= |s.hist| then None
      else Some(At(s, save, WritingTemp(s.hist[save.ver].Keys)).(temp := Some(map[])))
    case WritingTemp(left) =>
      if !ok then Some(Failed(s, save).(temp := None))
      else if left == {} then Some(At(s, save, ClosingTemp))
      else if id !in left || s.temp.None? || save.ver >= |s.hist| || id !in s.hist[save.ver] then None
      else
        var longer := s.temp.value[id := RecordOf(s.hist[save.ver][id])];
        Some(At(s, save, WritingTemp(left - {id})).(temp := Some(longer)))
    case ClosingTemp => Some(if ok then At(s, save, Renaming) else Failed(s, save).(temp := None))
    case Renaming =>
      if !ok then Some(Failed(s, save).(temp := None))
      else if s.temp.None? then None
      else Some(At(s, save, Releasing(true)).(file := Some(File(save.ver, s.temp.value)), temp := None))
    case Releasing(wrote) =>
      if save.thread >= |s.threads| then None
      else Some(SetPc(s, save.thread, if wrote then Saved else SaveFailed).(saver := None))
  }

  function Failed(s: State, save: Save): State
    requires |s.hist| > 0
  {
    At(s, save, Releasing(false)).(damaged := s.damaged + LeftBehind(s, save))
  }

  function Step(s: State, e: Event): Option<State> {
    if |s.hist| == 0 then None else
    match e
    case Add(id, added) =>
      if s.phase.Running? && id !in Now(s) && (added.magnet || added.info)
      then Some(Changed(s, Now(s)[id := added], None)) else None
    case Change(id, data, saves) =>
      if id !in Now(s) then None
      else
        var ts := Now(s)[id := Now(s)[id].(data := data)];
        Some(if saves then Changed(s, ts, None) else s.(hist := s.hist + [ts]))
    case Metadata(id) =>
      if id in Now(s) then Some(Changed(s, Now(s)[id := Now(s)[id].(info := true)], None)) else None
    case Remove(id) =>
      if s.phase.Running? && id in Now(s) then Some(Changed(s, Now(s) - {id}, Some(id))) else None
    case ThreadStep(k, ok) => if k < |s.threads| then ThreadNext(s, k, ok) else None
    case SaveStep(id, ok) => if s.saver.Some? then SaveNext(s, s.saver.value, id, ok) else None
    // From its metainfo when that is on disk, which forgets the magnet.
    case RestoreOne(id, data) =>
      if s.phase.Restoring? && s.file.Some? && id !in Now(s) && id in s.file.value.records
          && Restorable(s.file.value, s.metas, id)
      then Some(Changed(s, Now(s)[id := Torrent(id !in s.metas, id in s.metas, data)], None)) else None
    case RestoreDone =>
      if !s.phase.Restoring? then None
      else Some(s.(phase := Finishing(|s.threads|), owed := |s.hist| - 1,
                   threads := s.threads + [Thread(|s.hist| - 1, None, Calling)]))
    case Serve =>
      if s.phase.Finishing? && s.phase.thread < |s.threads| && Over(s.threads[s.phase.thread].pc)
      then Some(s.(phase := Running)) else None
    case Restart(readable) =>
      var file := if readable then s.file else None;
      Some(s.(hist := s.hist + [map[]], file := file, threads := [], saver := None,
              phase := if file.Some? then Restoring else Running))
  }

  // ------------------------------------------------------------------
  // Order: what every step keeps about versions
  // ------------------------------------------------------------------

  predicate Built(save: Save) {
    !save.pc.Building?
  }

  ghost predicate ThreadsWell(s: State) {
    && (forall k | 0 <= k < |s.threads| :: s.threads[k].want < |s.hist|)
    && (forall k | 0 <= k < |s.threads| :: s.threads[k].pc.Saving? ==> s.saver.Some? && s.saver.value.thread == k)
    && (forall k | 0 <= k < |s.threads| ::
          s.threads[k].pc.Saved? ==> s.file.Some? && s.threads[k].want <= s.file.value.ver)
    && (|s.threads| > 0 ==> s.threads[|s.threads| - 1].want == s.owed)
  }

  // The temporary file has the records of one version but those left; when
  // it is closed it has them all.
  ghost predicate TempWell(temp: Option<map<Id, Record>>, pc: SavePc, ts: Torrents) {
    match pc
    case WritingTemp(left) =>
      && temp.Some? && left <= ts.Keys && temp.value.Keys == ts.Keys - left
      && forall id | id in temp.value :: temp.value[id] == RecordOf(ts[id])
    case ClosingTemp => temp == Some(RecordsOf(ts))
    case Renaming => temp == Some(RecordsOf(ts))
    case _ => true
  }

  ghost predicate SaverWell(s: State) {
    s.saver.Some? ==>
      var save := s.saver.value;
      && save.thread < |s.threads| && s.threads[save.thread].pc.Saving?
      && (Built(save) ==> save.ver < |s.hist| && s.threads[save.thread].want <= save.ver)
      && (Built(save) ==> TempWell(s.temp, save.pc, s.hist[save.ver]))
      && (Built(save) && s.file.Some? ==> s.file.value.ver <= save.ver)
      && (save.pc == Releasing(true) ==> s.file.Some? && s.file.value.ver == save.ver)
  }

  ghost predicate FileWell(s: State) {
    s.file.Some? ==> s.file.value.ver < |s.hist| && s.file.value.records == RecordsOf(s.hist[s.file.value.ver])
  }

  // While a restore runs nothing is being saved or removed.
  ghost predicate PhaseWell(s: State) {
    && (s.phase.Restoring? ==> s.saver.None? && s.file.Some?)
    && (s.phase.Restoring? ==> forall k | 0 <= k < |s.threads| ::
          s.threads[k].removing.None? && (s.threads[k].pc.Calling? || s.threads[k].pc.Suppressed?))
    && (!s.phase.Restoring? && |s.threads| > 0 ==> !s.threads[|s.threads| - 1].pc.Suppressed?)
  }

  ghost predicate Order(s: State) {
    |s.hist| > 0 && ThreadsWell(s) && SaverWell(s) && FileWell(s) && PhaseWell(s)
  }

  lemma ThreadKeepsOrder(s: State, k: nat, ok: bool, t: State)
    requires Order(s) && k < |s.threads| && ThreadNext(s, k, ok) == Some(t)
    ensures Order(t)
  {
    match s.threads[k].pc
    case Unlinking =>
    case Calling =>
    case Waiting =>
    case _ =>
  }

  // A step inside a save that leaves the file alone.
  lemma InsideKeepsOrder(s: State, t: State)
    requires Order(s) && s.saver.Some? && t.saver.Some? && t.saver.value.thread == s.saver.value.thread && SaverWell(t)
    requires t == s.(saver := t.saver, temp := t.temp, metas := t.metas, damaged := t.damaged)
    ensures Order(t)
  {
  }

  lemma SaveKeepsOrder(s: State, id: Id, ok: bool, t: State)
    requires Order(s) && s.saver.Some? && SaveNext(s, s.saver.value, id, ok) == Some(t)
    ensures Order(t)
  {
    match s.saver.value.pc
    case Building => BeforeTempKeepsOrder(s, id, ok, t);
    case MakingDirs => BeforeTempKeepsOrder(s, id, ok, t);
    case Listing => BeforeTempKeepsOrder(s, id, ok, t);
    case WritingMeta(todo) => BeforeTempKeepsOrder(s, id, ok, t);
    case CreatingTemp => CreateKeepsOrder(s, id, ok, t);
    case WritingTemp(left) => TempKeepsOrder(s, left, id, ok, t);
    case ClosingTemp => CloseKeepsOrder(s, id, ok, t);
    case Renaming => RenameKeepsOrder(s, id, ok, t);
    case Releasing(wrote) => ReturnKeepsOrder(s, id, ok, t);
  }

  lemma BeforeTempKeepsOrder(s: State, id: Id, ok: bool, t: State)
    requires Order(s) && s.saver.Some? && SaveNext(s, s.saver.value, id, ok) == Some(t)
    requires var pc := s.saver.value.pc; pc.Building? || pc.MakingDirs? || pc.Listing? || pc.WritingMeta?
    ensures Order(t)
  {
    match s.saver.value.pc
    case Building => InsideKeepsOrder(s, t);
    case MakingDirs => InsideKeepsOrder(s, t);
    case Listing => InsideKeepsOrder(s, t);
    case WritingMeta(todo) => InsideKeepsOrder(s, t);
  }

  lemma CreateKeepsOrder(s: State, id: Id, ok: bool, t: State)
    requires Order(s) && s.saver.Some? && s.saver.value.pc.CreatingTemp?
    requires SaveNext(s, s.saver.value, id, ok) == Some(t)
    ensures Order(t)
  {
    InsideKeepsOrder(s, t);
  }

  lemma CloseKeepsOrder(s: State, id: Id, ok: bool, t: State)
    requires Order(s) && s.saver.Some? && s.saver.value.pc.ClosingTemp? && SaveNext(s, s.saver.value, id, ok) == Some(t)
    ensures Order(t)
  {
    InsideKeepsOrder(s, t);
  }

  lemma TempKeepsOrder(s: State, left: set<Id>, id: Id, ok: bool, t: State)
    requires Order(s) && s.saver.Some? && s.saver.value.pc == WritingTemp(left)
    requires SaveNext(s, s.saver.value, id, ok) == Some(t)
    ensures Order(t)
  {
    var ts := s.hist[s.saver.value.ver];
    if ok && left == {} {
      WholeTemp(s.temp, ts);
    } else if ok {
      RecordWritten(s.temp, left, ts, id);
    }
    InsideKeepsOrder(s, t);
  }

  lemma WholeTemp(temp: Option<map<Id, Record>>, ts: Torrents)
    requires TempWell(temp, WritingTemp({}), ts)
    ensures TempWell(temp, ClosingTemp, ts)
  {
    assert temp.value.Keys == RecordsOf(ts).Keys;
    assert forall id | id in temp.value :: temp.value[id] == RecordsOf(ts)[id];
    assert temp.value == RecordsOf(ts);
  }

  lemma RecordWritten(temp: Option<map<Id, Record>>, left: set<Id>, ts: Torrents, id: Id)
    requires TempWell(temp, WritingTemp(left), ts) && id in left
    ensures TempWell(Some(temp.value[id := RecordOf(ts[id])]), WritingTemp(left - {id}), ts)
  {
    var longer := temp.value[id := RecordOf(ts[id])];
    assert longer.Keys == temp.value.Keys + {id} == ts.Keys - (left - {id});
  }

  // Only here does the file change, and to what the temporary file holds.
  lemma RenameKeepsOrder(s: State, id: Id, ok: bool, t: State)
    requires Order(s) && s.saver.Some? && s.saver.value.pc.Renaming? && SaveNext(s, s.saver.value, id, ok) == Some(t)
    ensures Order(t)
  {
  }

  lemma ReturnKeepsOrder(s: State, id: Id, ok: bool, t: State)
    requires Order(s) && s.saver.Some? && s.saver.value.pc.Releasing? && SaveNext(s, s.saver.value, id, ok) == Some(t)
    ensures Order(t)
  {
  }

  lemma ChangedKeepsOrder(s: State, ts: Torrents, removing: Option<Id>)
    requires Order(s) && (s.phase.Restoring? ==> removing.None?)
    ensures Order(Changed(s, ts, removing))
  {
  }

  lemma StepKeepsOrder(s: State, e: Event)
    requires Order(s) && Step(s, e).Some?
    ensures Order(Step(s, e).value)
  {
    var now := Now(s);
    match e
    case Add(id, added) => ChangedKeepsOrder(s, now[id := added], None);
    case Change(id, data, saves) =>
      if saves {
        ChangedKeepsOrder(s, now[id := now[id].(data := data)], None);
      }
    case Metadata(id) => ChangedKeepsOrder(s, now[id := now[id].(info := true)], None);
    case Remove(id) => ChangedKeepsOrder(s, now - {id}, Some(id));
    case ThreadStep(k, ok) => ThreadKeepsOrder(s, k, ok, Step(s, e).value);
    case SaveStep(id, ok) => SaveKeepsOrder(s, id, ok, Step(s, e).value);
    case RestoreOne(id, data) => ChangedKeepsOrder(s, now[id := Torrent(id !in s.metas, id in s.metas, data)], None);
    case RestoreDone =>
    case Serve =>
    case Restart(readable) =>
  }

  lemma OrderAlways(events: seq<Event>)
    requires Run(Step, INIT, events).Some?
    ensures Order(Run(Step, INIT, events).value)
  {
    forall s, e | Order(s) && Step(s, e).Some?
      ensures Order(Step(s, e).value)
    {
      StepKeepsOrder(s, e);
    }
    InvariantOverRuns(Order, Step, INIT, events);
  }

  // Each content of the file, wherever between the steps of a save the
  // process died, is one complete version of the torrent list.
  lemma FileIsOneVersion(events: seq<Event>)
    requires Run(Step, INIT, events).Some? && Run(Step, INIT, events).value.file.Some?
    ensures var s := Run(Step, INIT, events).value;
            s.file.value.ver < |s.hist| && s.file.value.records == RecordsOf(s.hist[s.file.value.ver])
  {
    OrderAlways(events);
  }

  // From here on the file is never built from a version before v.
  ghost predicate NotBefore(s: State, v: nat) {
    && Order(s) && v < |s.hist|
    && (s.file.Some? ==> v <= s.file.value.ver)
    && (s.saver.Some? && Built(s.saver.value) ==> v <= s.saver.value.ver)
  }

  lemma StepNotBefore(s: State, e: Event, v: nat)
    requires NotBefore(s, v) && Step(s, e).Some?
    ensures NotBefore(Step(s, e).value, v)
  {
    StepKeepsOrder(s, e);
    if e.ThreadStep? {
    } else if e.SaveStep? {
    }
  }

  // The file's versions never go backwards, whatever is interleaved,
  // through crashes and restarts.
  lemma FileNeverGoesBack(a: seq<Event>, b: seq<Event>)
    requires Run(Step, INIT, a).Some? && Run(Step, INIT, a + b).Some?
    requires Run(Step, INIT, a).value.file.Some? && Run(Step, INIT, a + b).value.file.Some?
    ensures Run(Step, INIT, a).value.file.value.ver <= Run(Step, INIT, a + b).value.file.value.ver
  {
    OrderAlways(a);
    RunAppend(Step, INIT, a, b);
    var s := Run(Step, INIT, a).value;
    var v := s.file.value.ver;
    forall t, e | NotBefore(t, v) && Step(t, e).Some?
      ensures NotBefore(Step(t, e).value, v)
    {
      StepNotBefore(t, e, v);
    }
    InvariantOverRuns(t => NotBefore(t, v), Step, s, b);
  }

  // A persist that returned without an error, outside a restore, has left a
  // file at least as new as its caller's change.
  lemma SavedIsOnDisk(events: seq<Event>, k: nat)
    requires Run(Step, INIT, events).Some?
    requires k < |Run(Step, INIT, events).value.threads| && Run(Step, INIT, events).value.threads[k].pc.Saved?
    ensures var s := Run(Step, INIT, events).value; s.file.Some? && s.threads[k].want <= s.file.value.ver
  {
    OrderAlways(events);
  }

  // Once a restore is over, with every persist returned and none failed, the
  // file is behind the torrent list by no change that calls persist - not
  // those of the restore either, whose own persists were suppressed.
  lemma NothingOwed(events: seq<Event>)
    requires Run(Step, INIT, events).Some?
    requires var s := Run(Step, INIT, events).value;
             && !s.phase.Restoring? && |s.threads| > 0
             && forall k | 0 <= k < |s.threads| :: s.threads[k].pc.Saved? || s.threads[k].pc.Suppressed?
    ensures var s := Run(Step, INIT, events).value; s.file.Some? && s.owed <= s.file.value.ver
  {
    OrderAlways(events);
    var s := Run(Step, INIT, events).value;
    assert s.threads[|s.threads| - 1].pc.Saved?;
  }

  // The temporary file is that of the save under way.
  ghost predicate TempOwned(s: State) {
    s.temp.Some? ==> s.saver.Some? && (s.saver.value.pc.WritingTemp? || s.saver.value.pc.ClosingTemp?
                                       || s.saver.value.pc.Renaming?)
  }

  // Until a crash leaves one, no temporary file outlives its save, failed or
  // not.
  lemma {:induction false} NoTempLeftBehind(events: seq<Event>)
    requires Run(Step, INIT, events).Some? && forall e | e in events :: !e.Restart?
    ensures TempOwned(Run(Step, INIT, events).value)
    decreases |events|
  {
    if events != [] {
      var n := |events| - 1;
      NoTempLeftBehind(events[..n]);
      assert events[n] in events;
      TempStep(Run(Step, INIT, events[..n]).value, events[n]);
    }
  }

  lemma TempStep(s: State, e: Event)
    requires TempOwned(s) && !e.Restart? && Step(s, e).Some?
    ensures TempOwned(Step(s, e).value)
  {
    if e.SaveStep? {
      match s.saver.value.pc
      case Building =>
      case MakingDirs =>
      case Listing =>
      case WritingMeta(todo) =>
      case CreatingTemp =>
      case WritingTemp(left) =>
      case ClosingTemp =>
      case Renaming =>
      case Releasing(wrote) =>
    }
  }

  // A restore writes neither the file nor a metainfo, however far it gets.
  lemma RestoreWritesNothing(events: seq<Event>, e: Event)
    requires Run(Step, INIT, events).Some? && Run(Step, INIT, events).value.phase.Restoring?
    requires Step(Run(Step, INIT, events).value, e).Some? && e != Restart(false)
    ensures var s := Run(Step, INIT, events).value;
            Step(s, e).value.file == s.file && Step(s, e).value.metas == s.metas
  {
    OrderAlways(events);
  }

  // ------------------------------------------------------------------
  // Crash safety: every record can be re-added
  // ------------------------------------------------------------------

  // A removal of id, other than by thread `but`, whose save is not over.
  ghost predicate Removing(threads: seq<Thread>, id: Id, but: Option<nat>) {
    exists k :: 0 <= k < |threads| && threads[k].removing == Some(id) && !Over(threads[k].pc) && but != Some(k)
  }

  ghost predicate Excused(s: State, id: Id, but: Option<nat>) {
    id in s.damaged || Removing(s.threads, id, but)
  }

  // The thread whose save is in the file already and only has to return.
  function Returning(s: State): Option<nat> {
    if s.saver.Some? && s.saver.value.pc.Releasing? then Some(s.saver.value.thread) else None
  }

  // The save at the end of a restore has written the file, or failed to.
  predicate RestoreWritten(s: State) {
    && s.phase.Finishing? && s.phase.thread < |s.threads|
    && (Over(s.threads[s.phase.thread].pc) || Returning(s) == Some(s.phase.thread))
  }

  ghost predicate FileSafe(s: State)
    requires |s.hist| > 0
  {
    s.file.Some? ==>
      forall id | id in s.file.value.records && (s.phase.Running? || RestoreWritten(s) || id in Now(s)) ::
        Excused(s, id, Returning(s)) || Restorable(s.file.value, s.metas, id)
  }

  // What the record a save is about to write can rely on at each stage.
  ghost predicate Supported(s: State, save: Save, id: Id)
    requires |s.hist| > 0
  {
    match save.pc
    case MakingDirs => id in Now(s) && Now(s)[id].info
    case Listing => id in Now(s) && Now(s)[id].info
    case WritingMeta(todo) => id in todo || id in s.metas
    case CreatingTemp => id in s.metas
    case WritingTemp(_) => id in s.metas
    case ClosingTemp => id in s.metas
    case Renaming => id in s.metas
    case _ => true
  }

  ghost predicate SaveSafe(s: State)
    requires |s.hist| > 0
  {
    s.saver.Some? && Built(s.saver.value) && s.saver.value.ver < |s.hist| ==>
      var save := s.saver.value;
      forall id | id in s.hist[save.ver] ::
        Excused(s, id, Some(save.thread)) || s.hist[save.ver][id].magnet || Supported(s, save, id)
  }

  ghost predicate AllBacked(s: State)
    requires |s.hist| > 0
  {
    forall id | id in Now(s) :: Now(s)[id].magnet || Now(s)[id].info
  }

  ghost predicate Safe(s: State) {
    Order(s) && FileSafe(s) && SaveSafe(s) && AllBacked(s)
  }

  // ---- removals stay in progress until their own save is over ----

  lemma RemovingKept(a: seq<Thread>, b: seq<Thread>, id: Id, but: Option<nat>)
    requires Removing(a, id, but) && |a| <= |b|
    requires forall k | 0 <= k < |a| && !Over(a[k].pc) && but != Some(k) ::
               b[k].removing == a[k].removing && !Over(b[k].pc)
    ensures Removing(b, id, but)
  {
    var k :| 0 <= k < |a| && a[k].removing == Some(id) && !Over(a[k].pc) && but != Some(k);
    assert b[k].removing == Some(id);
  }

  // What a change of the torrent list must respect to be safe.
  ghost predicate Respects(s: State, ts: Torrents, removing: Option<Id>)
    requires |s.hist| > 0
  {
    && (forall id | id in Now(s) :: removing == Some(id) || (id in ts && (Now(s)[id].info ==> ts[id].info)))
    && (forall id | id in ts :: ts[id].magnet || ts[id].info)
    && (!s.phase.Running? ==> forall id | id in ts && id !in Now(s) && s.file.Some? && id in s.file.value.records ::
          Restorable(s.file.value, s.metas, id))
  }

  lemma ChangeKeepsSafe(s: State, ts: Torrents, removing: Option<Id>, t: State)
    requires Safe(s) && Respects(s, ts, removing) && Order(t) && t == Changed(s, ts, removing)
    ensures Safe(t)
  {
    assert Now(t) == ts && t.saver == s.saver;
    forall id, but | Excused(s, id, but)
      ensures Excused(t, id, but)
    {
      if id !in s.damaged {
        RemovingKept(s.threads, t.threads, id, but);
      }
    }
    if removing.Some? && s.saver.Some? {
      assert t.threads[|s.threads|].removing == removing;
      assert Removing(t.threads, removing.value, Some(s.saver.value.thread));
    }
    forall id | id in ts && s.file.Some? && id in s.file.value.records
      ensures Excused(t, id, Returning(t)) || Restorable(s.file.value, s.metas, id)
    {
      assert Returning(t) == Returning(s);
      if id in Now(s) || s.phase.Running? {
        assert Excused(s, id, Returning(s)) || Restorable(s.file.value, s.metas, id);
      }
    }
  }

  // Excuses that survive a step.
  ghost predicate Excuses(s: State, t: State) {
    forall id, but :: Excused(s, id, but) ==> Excused(t, id, but)
  }

  lemma RestoringExcuses(s: State, t: State)
    requires Order(s) && s.phase.Restoring? && s.damaged <= t.damaged
    ensures Excuses(s, t)
  {
    forall id, but | Excused(s, id, but)
      ensures Excused(t, id, but)
    {
    }
  }

  lemma ThreadExcuses(s: State, k: nat, ok: bool, t: State)
    requires Order(s) && k < |s.threads| && ThreadNext(s, k, ok) == Some(t)
    ensures Excuses(s, t)
  {
    if s.phase.Restoring? {
      RestoringExcuses(s, t);
    } else {
      forall id, but | Excused(s, id, but)
        ensures Excused(t, id, but)
      {
        if id !in s.damaged {
          RemovingKept(s.threads, t.threads, id, but);
        }
      }
    }
  }

  lemma ThreadKeepsSafe(s: State, k: nat, ok: bool, t: State)
    requires Safe(s) && Order(t) && k < |s.threads| && ThreadNext(s, k, ok) == Some(t)
    ensures Safe(t)
  {
    ThreadExcuses(s, k, ok, t);
    assert Now(t) == Now(s) && Returning(t) == Returning(s);
    if s.threads[k].pc.Unlinking? {
      UnlinkKeepsSafe(s, k, ok, t);
    }
  }

  lemma UnlinkKeepsSafe(s: State, k: nat, ok: bool, t: State)
    requires Safe(s) && Order(t) && k < |s.threads| && ThreadNext(s, k, ok) == Some(t) && s.threads[k].pc.Unlinking?
    requires Excuses(s, t)
    ensures Safe(t)
  {
    assert Now(t) == Now(s);
    var gone := s.threads[k].removing.value;
    assert t.threads[k].removing == Some(gone);
    assert s.saver.Some? ==> s.saver.value.thread != k && Excused(t, gone, Some(s.saver.value.thread));
    assert Excused(t, gone, Returning(t));
    forall id | id != gone
      ensures id in t.metas <==> id in s.metas
    {
    }
  }

  // A step inside a save that leaves the file alone, and takes away nobody's
  // way back or excuse.
  lemma InsideKeepsFileSafe(s: State, t: State)
    requires |s.hist| > 0 && FileSafe(s) && |t.hist| > 0 && Returning(s) == None && Returning(t) == None
    requires t.file == s.file && t.threads == s.threads && Now(t) == Now(s) && t.phase == s.phase
    requires s.metas <= t.metas && (forall id | id in s.damaged :: id in t.damaged || id in t.metas)
    ensures FileSafe(t)
  {
    if t.file.Some? {
      forall id | id in t.file.value.records && (t.phase.Running? || RestoreWritten(t) || id in Now(t))
        ensures Excused(t, id, None) || Restorable(t.file.value, t.metas, id)
      {
        assert Excused(s, id, None) || Restorable(s.file.value, s.metas, id);
      }
    }
  }

  // A save that fails excuses the records it was to take out.
  lemma FailureKeepsFileSafe(s: State, t: State)
    requires Safe(s) && s.saver.Some? && !s.saver.value.pc.Releasing? && t == Failed(s, s.saver.value).(temp := t.temp)
    ensures |t.hist| > 0 && FileSafe(t)
  {
    var k := s.saver.value.thread;
    if t.file.Some? {
      forall id | id in t.file.value.records && (t.phase.Running? || RestoreWritten(t) || id in Now(t))
        ensures Excused(t, id, Some(k)) || Restorable(t.file.value, t.metas, id)
      {
        if s.phase.Running? || RestoreWritten(s) || id in Now(s) {
          assert Excused(s, id, None) || Restorable(s.file.value, s.metas, id);
        }
      }
    }
  }

  lemma RenameKeepsFileSafe(s: State, id: Id, t: State)
    requires Safe(s) && Order(t) && s.saver.Some? && s.saver.value.pc.Renaming?
    requires SaveNext(s, s.saver.value, id, true) == Some(t)
    ensures FileSafe(t)
  {
    var save := s.saver.value;
    assert t.threads == s.threads && Returning(t) == Some(save.thread);
    assert t.file.value.records == RecordsOf(s.hist[save.ver]);
  }

  // What a step inside a save does not touch, and how it can end.
  lemma SaveShape(s: State, id: Id, ok: bool, t: State)
    requires |s.hist| > 0 && s.saver.Some? && SaveNext(s, s.saver.value, id, ok) == Some(t)
    requires !s.saver.value.pc.Releasing?
    ensures t.threads == s.threads && t.hist == s.hist && t.phase == s.phase && t.saver.Some?
    ensures t.saver.value.thread == s.saver.value.thread
    ensures t.saver.value.pc == Releasing(false) ==>
              t == Failed(s, s.saver.value).(temp := t.temp)
    ensures t.saver.value.pc == Releasing(true) ==> s.saver.value.pc.Renaming? && ok
    ensures !t.saver.value.pc.Releasing? ==>
              && t.file == s.file && s.metas <= t.metas
              && forall other | other in s.damaged :: other in t.damaged || other in t.metas
  {
    match s.saver.value.pc
    case Building =>
    case MakingDirs =>
    case Listing =>
    case WritingMeta(todo) =>
    case CreatingTemp =>
    case WritingTemp(left) =>
    case ClosingTemp =>
    case Renaming =>
    case Releasing(wrote) =>
  }

  lemma SaveKeepsFileSafe(s: State, id: Id, ok: bool, t: State)
    requires Safe(s) && Order(t) && s.saver.Some? && SaveNext(s, s.saver.value, id, ok) == Some(t)
    requires !s.saver.value.pc.Releasing?
    ensures FileSafe(t)
  {
    SaveShape(s, id, ok, t);
    if t.saver.value.pc == Releasing(false) {
      FailureKeepsFileSafe(s, t);
    } else if t.saver.value.pc.Releasing? {
      RenameKeepsFileSafe(s, id, t);
    } else {
      InsideKeepsFileSafe(s, t);
    }
  }

  // A step of a save that keeps what each record of it relies on.
  lemma InsideKeepsSaveSafe(s: State, t: State)
    requires |s.hist| > 0 && SaveSafe(s) && t.hist == s.hist && t.threads == s.threads
    requires s.damaged <= t.damaged + t.metas
    requires s.saver.Some? && t.saver.Some? && t.saver.value.thread == s.saver.value.thread
    requires Built(s.saver.value) && t.saver.value.ver == s.saver.value.ver
    requires forall id | Supported(s, s.saver.value, id) || id in s.damaged ::
               Supported(t, t.saver.value, id) || id in t.damaged
    ensures SaveSafe(t)
  {
    var save := s.saver.value;
    if save.ver < |s.hist| {
      forall id | id in s.hist[save.ver]
        ensures Excused(t, id, Some(save.thread)) || t.hist[save.ver][id].magnet || Supported(t, t.saver.value, id)
      {
        assert Excused(s, id, Some(save.thread)) || s.hist[save.ver][id].magnet || Supported(s, save, id);
      }
    }
  }

  lemma SaveKeepsSaveSafe(s: State, id: Id, ok: bool, t: State)
    requires Safe(s) && Order(t) && s.saver.Some? && SaveNext(s, s.saver.value, id, ok) == Some(t)
    requires !s.saver.value.pc.Releasing?
    ensures SaveSafe(t)
  {
    SaveShape(s, id, ok, t);
    if s.saver.value.pc.Building? {
      assert forall k | k in Now(s) :: Now(s)[k].magnet || Now(s)[k].info;
    } else {
      SupportKept(s, id, ok, t);
      InsideKeepsSaveSafe(s, t);
    }
  }

  lemma SupportKept(s: State, id: Id, ok: bool, t: State)
    requires |s.hist| > 0 && s.saver.Some? && SaveNext(s, s.saver.value, id, ok) == Some(t)
    requires !s.saver.value.pc.Releasing? && !s.saver.value.pc.Building?
    ensures t.saver.Some? && t.saver.value.ver == s.saver.value.ver && s.damaged <= t.damaged + t.metas
    ensures forall k | Supported(s, s.saver.value, k) || k in s.damaged ::
              Supported(t, t.saver.value, k) || k in t.damaged
  {
    match s.saver.value.pc
    case Building =>
    case MakingDirs =>
    case Listing =>
    case WritingMeta(todo) =>
    case CreatingTemp =>
    case WritingTemp(left) =>
    case ClosingTemp =>
    case Renaming =>
    case Releasing(wrote) =>
  }

  lemma ReturnKeepsSafe(s: State, id: Id, ok: bool, t: State)
    requires Safe(s) && Order(t) && s.saver.Some? && SaveNext(s, s.saver.value, id, ok) == Some(t)
    requires s.saver.value.pc.Releasing?
    ensures Safe(t)
  {
    assert Now(t) == Now(s);
    var k := s.saver.value.thread;
    forall id | Excused(s, id, Some(k))
      ensures Excused(t, id, None)
    {
      if id !in s.damaged {
        var j :| 0 <= j < |s.threads| && s.threads[j].removing == Some(id) && !Over(s.threads[j].pc) && j != k;
        assert t.threads[j] == s.threads[j];
      }
    }
  }

  lemma RestartKeepsSafe(s: State, readable: bool, t: State)
    requires Safe(s) && Order(t) && Step(s, Restart(readable)) == Some(t)
    ensures Safe(t)
  {
    assert Now(t) == map[];
  }

  lemma RestoreDoneKeepsSafe(s: State, t: State)
    requires Safe(s) && Order(t) && Step(s, RestoreDone) == Some(t)
    ensures Safe(t)
  {
    RestoringExcuses(s, t);
    assert Now(t) == Now(s) && Returning(t) == Returning(s) && !RestoreWritten(t);
  }

  lemma SaveKeepsSafe(s: State, id: Id, ok: bool, t: State)
    requires Safe(s) && Order(t) && s.saver.Some? && SaveNext(s, s.saver.value, id, ok) == Some(t)
    ensures Safe(t)
  {
    if s.saver.value.pc.Releasing? {
      ReturnKeepsSafe(s, id, ok, t);
    } else {
      SaveShape(s, id, ok, t);
      SaveKeepsFileSafe(s, id, ok, t);
      SaveKeepsSaveSafe(s, id, ok, t);
      SameListBacked(s, t);
    }
  }

  lemma SameListBacked(s: State, t: State)
    requires |s.hist| > 0 && t.hist == s.hist && AllBacked(s)
    ensures AllBacked(t)
  {
    assert Now(t) == Now(s);
  }

  lemma RestoreOneKeepsSafe(s: State, id: Id, data: nat, t: State)
    requires Safe(s) && Order(t) && Step(s, RestoreOne(id, data)) == Some(t)
    ensures Safe(t)
  {
    ChangeKeepsSafe(s, Now(s)[id := Torrent(id !in s.metas, id in s.metas, data)], None, t);
  }

  lemma StepKeepsSafe(s: State, e: Event)
    requires Safe(s) && Step(s, e).Some?
    ensures Safe(Step(s, e).value)
  {
    StepKeepsOrder(s, e);
    var t := Step(s, e).value;
    match e
    case Add(id, added) => ChangeKeepsSafe(s, Now(s)[id := added], None, t);
    case Change(id, data, saves) => EditKeepsSafe(s, id, data, saves, t);
    case Metadata(id) => ChangeKeepsSafe(s, Now(s)[id := Now(s)[id].(info := true)], None, t);
    case Remove(id) => ChangeKeepsSafe(s, Now(s) - {id}, Some(id), t);
    case ThreadStep(k, ok) => ThreadKeepsSafe(s, k, ok, t);
    case SaveStep(id, ok) => SaveKeepsSafe(s, id, ok, t);
    case RestoreOne(id, data) => RestoreOneKeepsSafe(s, id, data, t);
    case RestoreDone => RestoreDoneKeepsSafe(s, t);
    case Serve => ServeKeepsSafe(s, t);
    case Restart(readable) => RestartKeepsSafe(s, readable, t);
  }

  lemma EditKeepsSafe(s: State, id: Id, data: nat, saves: bool, t: State)
    requires Safe(s) && Order(t) && Step(s, Change(id, data, saves)) == Some(t)
    ensures Safe(t)
  {
    var ts := Now(s)[id := Now(s)[id].(data := data)];
    if saves {
      ChangeKeepsSafe(s, ts, None, t);
    } else {
      assert Now(t) == ts && t.threads == s.threads && Returning(t) == Returning(s);
    }
  }

  lemma ServeKeepsSafe(s: State, t: State)
    requires Safe(s) && Order(t) && Step(s, Serve) == Some(t)
    ensures Safe(t)
  {
    assert RestoreWritten(s) && Now(t) == Now(s) && t.threads == s.threads && Returning(t) == Returning(s);
  }

  lemma Always(events: seq<Event>)
    requires Run(Step, INIT, events).Some?
    ensures Safe(Run(Step, INIT, events).value)
  {
    forall s, e | Safe(s) && Step(s, e).Some?
      ensures Safe(Step(s, e).value)
    {
      StepKeepsSafe(s, e);
    }
    InvariantOverRuns(Safe, Step, INIT, events);
  }

  // Wherever a run is cut off, every record of a torrent that is tracked,
  // and has no removal in progress, can be re-added from its magnet or its
  // saved metainfo, unless a write to disk failed for it.
  lemma EveryRecordRestorable(events: seq<Event>, id: Id)
    requires Run(Step, INIT, events).Some?
    requires var s := Run(Step, INIT, events).value;
             |s.hist| > 0 && id in Now(s) && s.file.Some? && id in s.file.value.records
             && id !in s.damaged && !Removing(s.threads, id, None)
    ensures var s := Run(Step, INIT, events).value; Restorable(s.file.value, s.metas, id)
  {
    Always(events);
    var s := Run(Step, INIT, events).value;
    assert !Removing(s.threads, id, Returning(s));
  }

  lemma DamagedWithoutMetainfo(s: State, e: Event)
    requires Step(s, e).Some? && s.damaged !! s.metas
    ensures Step(s, e).value.damaged !! Step(s, e).value.metas
  {
  }

  // And of those, the ones without a way back are exactly the ones damaged
  // whose record has no magnet: a torrent's metainfo that could not be
  // written, or a record that a failed save left, costs it its way back until
  // a later save writes the metainfo.
  lemma NoWayBackExactly(events: seq<Event>, id: Id)
    requires Run(Step, INIT, events).Some?
    requires var s := Run(Step, INIT, events).value;
             && |s.hist| > 0 && id in Now(s) && s.file.Some? && id in s.file.value.records
             && !Removing(s.threads, id, None)
    ensures var s := Run(Step, INIT, events).value;
            !Restorable(s.file.value, s.metas, id) <==> id in s.damaged && !s.file.value.records[id].magnet
  {
    var apart := (s: State) => s.damaged !! s.metas;
    forall s, e | apart(s) && Step(s, e).Some?
      ensures apart(Step(s, e).value)
    {
      DamagedWithoutMetainfo(s, e);
    }
    InvariantOverRuns(apart, Step, INIT, events);
    if id !in Run(Step, INIT, events).value.damaged {
      EveryRecordRestorable(events, id);
    }
  }

  // Every write of the run succeeded.
  predicate WritesSucceed(events: seq<Event>) {
    forall e | e in events && e.SaveStep? :: e.ok
  }

  lemma GoodWriteDamagesNothing(s: State, e: Event)
    requires Step(s, e).Some? && s.damaged == {} && (e.SaveStep? ==> e.ok)
    ensures Step(s, e).value.damaged == {}
  {
  }

  // Only a failed write leaves damage: while none has failed, there is no
  // exception but the removals in progress.
  lemma {:induction false} NoDamageWithoutFailure(events: seq<Event>)
    requires Run(Step, INIT, events).Some? && WritesSucceed(events)
    ensures Run(Step, INIT, events).value.damaged == {}
    decreases |events|
  {
    if events != [] {
      var n := |events| - 1;
      NoDamageWithoutFailure(events[..n]);
      GoodWriteDamagesNothing(Run(Step, INIT, events[..n]).value, events[n]);
    }
  }

  lemma RestorableWhenWritesSucceed(events: seq<Event>, id: Id)
    requires Run(Step, INIT, events).Some? && WritesSucceed(events)
    requires var s := Run(Step, INIT, events).value;
             && |s.hist| > 0 && id in Now(s) && s.file.Some? && id in s.file.value.records
             && !Removing(s.threads, id, None)
    ensures var s := Run(Step, INIT, events).value; Restorable(s.file.value, s.metas, id)
  {
    NoDamageWithoutFailure(events);
    EveryRecordRestorable(events, id);
  }

  // ---- the restore after a crash ----

  // RestoreSession's loop over the records, in whatever order the file has
  // them: each that can be re-added is.
  function Restores(file: File, metas: set<Id>, order: seq<Id>, data: Id -> nat): seq<Event>
    requires forall id | id in order :: id in file.records
  {
    if order == [] then []
    else
      var n := |order| - 1;
      Restores(file, metas, order[..n], data)
          + if Restorable(file, metas, order[n]) then [RestoreOne(order[n], data(order[n]))] else []
  }

  // Restored so far: the records of `done` that can be re-added.
  ghost predicate RestoredFrom(s: State, file: File, metas: set<Id>, done: seq<Id>) {
    && |s.hist| > 0 && s.phase.Restoring? && s.file == Some(file) && s.metas == metas
    && forall id :: id in Now(s) <==> id in done && id in file.records && Restorable(file, metas, id)
  }

  lemma RestoresNext(s: State, file: File, metas: set<Id>, done: seq<Id>, id: Id, d: nat)
    requires RestoredFrom(s, file, metas, done) && id !in done && id in file.records
    ensures Restorable(file, metas, id) ==>
              Step(s, RestoreOne(id, d)).Some?
                  && RestoredFrom(Step(s, RestoreOne(id, d)).value, file, metas, done + [id])
    ensures !Restorable(file, metas, id) ==> RestoredFrom(s, file, metas, done + [id])
  {
    if Restorable(file, metas, id) {
      var t := Step(s, RestoreOne(id, d)).value;
      assert Now(t).Keys == Now(s).Keys + {id};
    }
  }

  lemma {:induction false} RestoresRun(s: State, file: File, metas: set<Id>, order: seq<Id>, data: Id -> nat)
    requires RestoredFrom(s, file, metas, []) && (forall id | id in order :: id in file.records)
    requires forall i, j | 0 <= i < j < |order| :: order[i] != order[j]
    ensures Run(Step, s, Restores(file, metas, order, data)).Some?
    ensures RestoredFrom(Run(Step, s, Restores(file, metas, order, data)).value, file, metas, order)
    decreases |order|
  {
    if order != [] {
      var n := |order| - 1;
      var before := Restores(file, metas, order[..n], data);
      RestoresRun(s, file, metas, order[..n], data);
      RestoresNext(Run(Step, s, before).value, file, metas, order[..n], order[n], data(order[n]));
      assert order[..n] + [order[n]] == order;
      if Restorable(file, metas, order[n]) {
        RunSnoc(Step, s, before, RestoreOne(order[n], data(order[n])));
      } else {
        assert before + [] == before;
      }
    }
  }

  lemma RestartBegins(s: State)
    requires |s.hist| > 0 && s.file.Some?
    ensures Step(s, Restart(true)).Some? && RestoredFrom(Step(s, Restart(true)).value, s.file.value, s.metas, [])
  {
    assert Now(Step(s, Restart(true)).value) == map[];
  }

  // The daemon that starts after a crash anywhere restores, in any order,
  // exactly the records that have a way back; so every torrent the crashed
  // one tracked and had saved comes back, but for a removal in progress and
  // what a failed write has damaged.
  lemma CrashBringsItBack(events: seq<Event>, order: seq<Id>, data: Id -> nat)
    requires Run(Step, INIT, events).Some?
    requires var s := Run(Step, INIT, events).value;
             s.file.Some? && (forall id :: id in order <==> id in s.file.value.records)
    requires forall i, j | 0 <= i < j < |order| :: order[i] != order[j]
    ensures var s := Run(Step, INIT, events).value;
            var r := Run(Step, INIT, events + ([Restart(true)] + Restores(s.file.value, s.metas, order, data)));
            && r.Some? && |s.hist| > 0 && |r.value.hist| > 0 && r.value.phase.Restoring?
            && (forall id :: id in Now(r.value) <==>
                  id in s.file.value.records && Restorable(s.file.value, s.metas, id))
            && (forall id | id in Now(s) && id in s.file.value.records ::
                  id in s.damaged || Removing(s.threads, id, None) || id in Now(r.value))
  {
    OrderAlways(events);
    var s := Run(Step, INIT, events).value;
    RestartBegins(s);
    var t := Step(s, Restart(true)).value;
    RestoresRun(t, s.file.value, s.metas, order, data);
    var restores := Restores(s.file.value, s.metas, order, data);
    assert Run(Step, s, []) == Some(s);
    RunSnoc(Step, s, [], Restart(true));
    assert [] + [Restart(true)] == [Restart(true)];
    RunAppend(Step, s, [Restart(true)], restores);
    RunAppend(Step, INIT, events, [Restart(true)] + restores);
    forall id | id in Now(s) && id in s.file.value.records && id !in s.damaged && !Removing(s.threads, id, None)
      ensures Restorable(s.file.value, s.metas, id)
    {
      EveryRecordRestorable(events, id);
    }
  }

  // ------------------------------------------------------------------
  // Why a removal in progress is excepted, and what is not saved at all
  // ------------------------------------------------------------------

  ghost predicate Reaches(s: State) {
    exists events :: Run(Step, INIT, events) == Some(s)
  }

  ghost predicate Closed(r: iset<State>) {
    INIT in r && forall s, e {:trigger Step(s, e)} :: s in r && Step(s, e).Some? ==> Step(s, e).value in r
  }

  lemma Reachable() returns (r: iset<State>)
    ensures Closed(r)
    ensures forall s {:trigger Reaches(s)} :: s in r ==> Reaches(s)
  {
    r := iset s | Reaches(s);
    assert Run(Step, INIT, []) == Some(INIT);
    forall s, e | s in r && Step(s, e).Some?
      ensures Step(s, e).value in r
    {
      var events :| Run(Step, INIT, events) == Some(s);
      RunSnoc(Step, INIT, events, e);
    }
  }

  // Thread k saves, alone, one torrent that has its metadata.
  lemma SaveAlone(r: iset<State>, s: State, k: nat) returns (t: State)
    requires Closed(r) && s in r && |s.hist| > 0 && s.phase.Running? && s.saver.None?
    requires k < |s.threads| && s.threads[k].pc.Calling? && Now(s).Keys == {0} && Now(s)[0].info
    ensures t in r && t.hist == s.hist && t.saver.None? && t.phase == s.phase && t.damaged == s.damaged - {0}
    ensures t.threads == s.threads[k := s.threads[k].(pc := Saved)] && t.metas == s.metas + {0}
    ensures t.file == Some(File(|s.hist| - 1, RecordsOf(Now(s))))
  {
    var a := Step(s, ThreadStep(k, true)).value;
    var b := Step(a, ThreadStep(k, true)).value;
    var c := SaveWrites(r, b, k);
    t := Step(c, SaveStep(0, true)).value;
    assert t.threads == s.threads[k := s.threads[k].(pc := Saved)];
  }

  lemma SaveWrites(r: iset<State>, s: State, k: nat) returns (t: State)
    requires Closed(r) && s in r && |s.hist| > 0 && s.saver == Some(Save(k, Building, 0)) && k < |s.threads|
    requires Now(s).Keys == {0} && Now(s)[0].info
    ensures t in r
    ensures t == s.(saver := Some(Save(k, Releasing(true), |s.hist| - 1)), metas := s.metas + {0},
                    damaged := s.damaged - {0}, temp := None, file := Some(File(|s.hist| - 1, RecordsOf(Now(s)))))
  {
    var a := Step(s, SaveStep(0, true)).value;
    var b := Step(a, SaveStep(0, true)).value;
    var c := Step(b, SaveStep(0, true)).value;
    assert WithInfo(Now(s)) == {0};
    var d := Step(c, SaveStep(0, true)).value;
    var e := Step(d, SaveStep(0, true)).value;
    t := TempWrites(r, e, k);
  }

  // writeFileAtomic, all of it.
  lemma TempWrites(r: iset<State>, s: State, k: nat) returns (t: State)
    requires Closed(r) && s in r && |s.hist| > 0 && s.saver == Some(Save(k, CreatingTemp, |s.hist| - 1))
    requires Now(s).Keys == {0}
    ensures t in r
    ensures t == s.(saver := Some(Save(k, Releasing(true), |s.hist| - 1)), temp := None,
                    file := Some(File(|s.hist| - 1, RecordsOf(Now(s)))))
  {
    var a := Step(s, SaveStep(0, true)).value;
    var b := Step(a, SaveStep(0, true)).value;
    assert {0} - {0} == {};
    var c := Step(b, SaveStep(0, true)).value;
    var d := Step(c, SaveStep(0, true)).value;
    t := Step(d, SaveStep(0, true)).value;
    assert b.temp.value == RecordsOf(Now(s));
  }

  // A removal deletes the metainfo of the same torrent added again: until
  // the removal's own save, a crash would lose it.
  lemma OlderRemovalExposes()
    ensures exists s :: Reaches(s) && |s.hist| > 0 && s.phase.Running? && s.damaged == {} && s.file.Some?
                     && 0 in Now(s) && 0 in s.file.value.records && !Restorable(s.file.value, s.metas, 0)
                     && forall k | 0 <= k < |s.threads| && s.threads[k].removing.None? :: s.threads[k].pc.Saved?
  {
    var r := Reachable();
    var added := Torrent(false, true, 0);
    var a := Step(INIT, Add(0, added)).value;
    var b := SaveAlone(r, a, 0);
    var c := Step(b, Remove(0)).value;
    var d := Step(c, Add(0, added)).value;
    var e := SaveAlone(r, d, 2);
    var f := Step(e, ThreadStep(1, true)).value;
    assert Reaches(f);
  }

  // A change whose maker never calls persist, which is what a move that
  // succeeds is, stays unsaved with nothing pending.
  lemma MoveIsNotSaved()
    ensures exists s :: Reaches(s) && |s.hist| > 0 && s.phase.Running? && s.damaged == {} && s.file.Some?
                     && 0 in Now(s) && 0 in s.file.value.records && s.file.value.records[0].data != Now(s)[0].data
                     && forall k | 0 <= k < |s.threads| :: s.threads[k].pc.Saved?
  {
    var r := Reachable();
    var a := Step(INIT, Add(0, Torrent(false, true, 0))).value;
    var b := SaveAlone(r, a, 0);
    var c := Step(b, Change(0, 1, false)).value;
    assert Reaches(c);
  }

  // A torrent added from a file, whose metainfo cannot be written, is saved
  // without a way back, though its session file is written well.
  lemma FailedMetainfoExposes()
    ensures exists s :: Reaches(s) && |s.hist| > 0 && s.phase.Running? && s.file.Some?
                     && 0 in Now(s) && 0 in s.file.value.records && !Restorable(s.file.value, s.metas, 0)
                     && forall k | 0 <= k < |s.threads| :: s.threads[k].removing.None? && s.threads[k].pc.Saved?
  {
    var r := Reachable();
    var a := Step(INIT, Add(0, Torrent(false, true, 0))).value;
    var b := Step(a, ThreadStep(0, true)).value;
    var c := Step(b, ThreadStep(0, true)).value;
    var d := MetainfoFails(r, c);
    var e := TempWrites(r, d, 0);
    var f := Step(e, SaveStep(0, true)).value;
    assert Reaches(f);
  }

  // The only torrent's metainfo is not written.
  lemma MetainfoFails(r: iset<State>, s: State) returns (t: State)
    requires Closed(r) && s in r && |s.hist| > 0 && s.saver == Some(Save(0, Building, 0)) && s.metas == {}
    requires Now(s).Keys == {0} && Now(s)[0].info
    ensures t in r && t == s.(saver := Some(Save(0, CreatingTemp, |s.hist| - 1)), damaged := s.damaged + {0})
  {
    var a := Step(s, SaveStep(0, true)).value;
    var b := Step(a, SaveStep(0, true)).value;
    var c := Step(b, SaveStep(0, true)).value;
    assert WithInfo(Now(s)) == {0};
    var d := Step(c, SaveStep(0, false)).value;
    assert {0} - {0} == {};
    t := Step(d, SaveStep(0, true)).value;
  }
}
