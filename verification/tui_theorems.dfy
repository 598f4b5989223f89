// What the terminal interface keeps over every message: the cursor stays
// inside the list, a mark stays on the list unless the daemon hides it, and
// an action reaches only rows that are there.
module TuiTheorems {
  import opened Runs
  import opened Labels
  import opened TuiModel
  import Geometry
  import Palette

  // ------------------------------------------------------------------
  // The list
  // ------------------------------------------------------------------

  lemma {:induction false} FilteredIs(env: Env, v: View, ts: seq<Torrent>)
    ensures forall t :: t in Filtered(env, v, ts) <==> t in ts && Shows(env, v, t)
    decreases |ts|
  {
    if ts != [] {
      var n := |ts| - 1;
      FilteredIs(env, v, ts[..n]);
      assert ts == ts[..n] + [ts[n]];
    }
  }

  // The list has exactly the torrents the filters let through.
  lemma VisibleIs(env: Env, v: View)
    requires Proper(env)
    ensures |Visible(env, v)| == |Filtered(env, v, v.torrents)|
    ensures forall t :: t in Visible(env, v) <==> t in v.torrents && Shows(env, v, t)
  {
    var f := Filtered(env, v, v.torrents);
    FilteredIs(env, v, v.torrents);
    assert SortKeepsRows(env, v.sortKey, f);
    assert |multiset(env.sort(v.sortKey, f))| == |multiset(f)|;
    forall t
      ensures t in env.sort(v.sortKey, f) <==> t in f
    {
      assert t in multiset(env.sort(v.sortKey, f)) <==> t in multiset(f);
    }
  }

  // A torrent of this id is on the list.
  ghost predicate Listed(env: Env, v: View, id: Id) {
    exists t :: t in v.torrents && t.id == id && Shows(env, v, t)
  }

  // ------------------------------------------------------------------
  // Invariants
  // ------------------------------------------------------------------

  predicate CursorIn(cursor: int, n: nat) {
    if n == 0 then cursor == 0 else 0 <= cursor < n
  }

  predicate DistinctIds(ts: seq<Torrent>) {
    forall i, j | 0 <= i < j < |ts| :: ts[i].id != ts[j].id
  }

  // A label filter means the All status, and a label some torrent carries.
  ghost predicate ViewOk(v: View) {
    && DistinctIds(v.torrents)
    && (v.labelFilter != "" ==> v.filter == All && exists t :: t in v.torrents && t.category == v.labelFilter)
  }

  ghost predicate Inv(env: Env, m: Model) {
    ViewOk(m.view) && CursorIn(m.cursor, |Visible(env, m.view)|)
  }

  ghost predicate MarksListed(env: Env, v: View, marks: set<Id>) {
    forall id | id in marks :: Listed(env, v, id)
  }

  // What a step that is not the daemon's comes to.
  ghost predicate Kept(env: Env, m: Model, r: Model) {
    Inv(env, r) && (MarksListed(env, m.view, m.selected) ==> MarksListed(env, r.view, r.selected))
  }

  // A step that leaves the list and the marks alone and moves the cursor
  // only inside it.
  lemma SameListKept(env: Env, m: Model, r: Model)
    requires Inv(env, m) && r.view == m.view && (r.selected == m.selected || r.selected == {})
    requires r.cursor == m.cursor || 0 <= r.cursor < |Visible(env, m.view)|
    ensures Kept(env, m, r)
  {
  }

  // One that changes the list and unmarks everything.
  lemma UnmarkedKept(env: Env, m: Model, x: Model)
    requires ViewOk(x.view) && x.selected == {}
    ensures Kept(env, m, ClampedToView(env, x))
  {
  }

  // One that only sorts anew.
  lemma ResortedKept(env: Env, m: Model, x: Model)
    requires Inv(env, m) && x.view == m.view.(sortKey := x.view.sortKey) && x.selected == m.selected
    ensures Kept(env, m, ClampedToView(env, x))
  {
    forall t
      ensures Shows(env, x.view, t) == Shows(env, m.view, t)
    {
    }
    if MarksListed(env, m.view, m.selected) {
      forall id | id in x.selected
        ensures Listed(env, x.view, id)
      {
        assert Listed(env, m.view, id);
      }
    }
  }

  // ------------------------------------------------------------------
  // The sidebar
  // ------------------------------------------------------------------

  // A label row is a label some torrent carries, and has a name.
  lemma LabelsAreCarried(env: Env, ts: seq<Torrent>, i: nat)
    requires Proper(env) && i < |env.labels(ts)|
    ensures var name := env.labels(ts)[i].name; name != "" && exists t :: t in ts && t.category == name
  {
    assert LabelsInOrder(env, ts);
    var uses := Uses(Categories(ts));
    UsesIsTheList(Categories(ts));
    assert uses[i] in uses;
    var k := CountedSomewhere(Categories(ts), uses[i].name);
    assert ts[k] in ts && ts[k].category == uses[i].name;
  }

  lemma {:induction false} CountedSomewhere(labels: seq<string>, name: string) returns (k: nat)
    requires CountOf(labels, name) > 0
    ensures k < |labels| && labels[k] == name
    decreases |labels|
  {
    if labels[|labels| - 1] == name {
      k := |labels| - 1;
    } else {
      k := CountedSomewhere(labels[..|labels| - 1], name);
    }
  }

  lemma {:induction false} CarriedIsCounted(labels: seq<string>, k: nat)
    requires k < |labels|
    ensures CountOf(labels, labels[k]) > 0
    decreases |labels|
  {
    if k < |labels| - 1 {
      CarriedIsCounted(labels[..|labels| - 1], k);
    }
  }

  // A label some torrent carries has a row.
  lemma CarriedHasRow(env: Env, ts: seq<Torrent>, t: Torrent) returns (i: nat)
    requires Proper(env) && t in ts && t.category != ""
    ensures i < |env.labels(ts)| && env.labels(ts)[i].name == t.category
  {
    assert LabelsInOrder(env, ts);
    var labels := Categories(ts);
    var k :| 0 <= k < |ts| && ts[k] == t;
    UsesIsTheList(labels);
    CarriedIsCounted(labels, k);
    var u := LabelUse(t.category, CountOf(labels, t.category));
    assert u in Uses(labels);
    i :| 0 <= i < |Uses(labels)| && Uses(labels)[i] == u;
  }

  lemma ApplyOk(env: Env, v: View, i: nat)
    requires Proper(env) && DistinctIds(v.torrents) && i < |Entries(env, v.torrents)|
    ensures ViewOk(ApplyEntry(v, Entries(env, v.torrents)[i]))
  {
    if i >= 5 {
      LabelsAreCarried(env, v.torrents, i - 5);
    }
  }

  lemma PickedKept(env: Env, m: Model, e: Entry, at: int)
    requires Inv(env, m) && ViewOk(ApplyEntry(m.view, e))
    ensures Kept(env, m, ClampedToView(env, Picked(m, e).(sidebarCursor := at)))
  {
    var x := Picked(m, e).(sidebarCursor := at);
    if x.selected == {} {
      UnmarkedKept(env, m, x);
    } else {
      assert x.view == m.view;
      ResortedKept(env, m, x);
    }
  }

  lemma SelectKept(env: Env, m: Model, i: int)
    requires Proper(env) && Inv(env, m)
    ensures Kept(env, m, SelectSidebar(env, m, i))
  {
    var entries := Entries(env, m.view.torrents);
    ApplyOk(env, m.view, Wrap(i, |entries|));
    PickedKept(env, m, entries[Wrap(i, |entries|)], Wrap(i, |entries|));
  }

  // ------------------------------------------------------------------
  // Keys
  // ------------------------------------------------------------------

  lemma ActKept(env: Env, m: Model, verb: Verb)
    requires Inv(env, m)
    ensures Kept(env, m, ActOnTargets(env, m, verb).m)
  {
    SameListKept(env, m, ActOnTargets(env, m, verb).m);
  }

  lemma BackKept(env: Env, m: Model)
    requires Inv(env, m)
    ensures Kept(env, m, Back(env, m))
  {
    var v := m.view;
    if m.ui.focus.OnList? && m.selected == {} {
      UnmarkedKept(env, m, SetView(m, v.(searchQuery := "")));
      var wider := v.(labelFilter := "");
      UnmarkedKept(env, m, SetView(m, wider).(sidebarCursor := CurrentIndex(env, wider)));
      if v.labelFilter == "" {
        UnmarkedKept(env, m, SetView(m, v.(filter := All)).(sidebarCursor := CurrentIndex(env, v.(filter := All))));
      }
    } else {
      SameListKept(env, m, Back(env, m));
    }
  }

  lemma MarkKept(env: Env, m: Model)
    requires Proper(env) && Inv(env, m)
    ensures Kept(env, m, ToggleMark(env, m))
  {
    var visible := Visible(env, m.view);
    VisibleIs(env, m.view);
    if |visible| > 0 {
      var t := visible[m.cursor];
      assert t in visible;
      assert Listed(env, m.view, t.id);
    }
  }

  lemma ListActionKept(env: Env, m: Model, key: Key)
    requires Proper(env) && Inv(env, m)
    ensures Kept(env, m, ListAction(env, m, key).m)
  {
    BackKept(env, m);
    MarkKept(env, m);
    var r := ListAction(env, m, key).m;
    if r != Back(env, m) && r != ToggleMark(env, m) {
      ListActionShape(env, m, key);
      SameListKept(env, m, r);
    }
  }

  lemma ListActionShape(env: Env, m: Model, key: Key)
    requires Inv(env, m)
    requires ListAction(env, m, key).m != Back(env, m) && ListAction(env, m, key).m != ToggleMark(env, m)
    ensures var r := ListAction(env, m, key).m;
            && r.view == m.view && (r.selected == m.selected || r.selected == {})
            && (r.cursor == m.cursor || 0 <= r.cursor < |Visible(env, m.view)|)
  {
  }

  lemma ListKeyKept(env: Env, m: Model, key: Key)
    requires Proper(env) && Inv(env, m)
    ensures Kept(env, m, ListKey(env, m, key).m)
  {
    ListActionKept(env, if key.name != "d" then m.(ui := m.ui.(pendingDD := false)) else m, key);
  }

  lemma SidebarKeyKept(env: Env, m: Model, key: Key)
    requires Proper(env) && Inv(env, m)
    ensures Kept(env, m, SidebarKey(env, m, key).m)
  {
    var km, k := env.km, key.name;
    if k == km.Up || k == "up" {
      SelectKept(env, m, CurrentIndex(env, m.view) - 1);
    } else if k == km.Down || k == "down" {
      SelectKept(env, m, CurrentIndex(env, m.view) + 1);
    } else if k == km.Top {
      SelectKept(env, m, 0);
    } else if k == km.Bottom {
      SelectKept(env, m, |Entries(env, m.view.torrents)| - 1);
    } else {
      ListKeyKept(env, m, key);
    }
  }

  lemma DetailKeyKept(env: Env, m: Model, key: Key)
    requires Proper(env) && Inv(env, m)
    ensures Kept(env, m, DetailKey(env, m, key).m)
  {
    ListKeyKept(env, m, key);
  }

  lemma SearchKeyKept(env: Env, m: Model, key: Key)
    requires Inv(env, m)
    ensures Kept(env, m, SearchKey(env, m, key))
  {
    var query := Typed(m.view.searchQuery, key);
    var ui := if key.kind.Enter? || key.kind.Esc? then m.ui.(mode := Normal) else m.ui;
    var typed := SetView(m, m.view.(searchQuery := query)).(ui := ui);
    if query != m.view.searchQuery {
      UnmarkedKept(env, m, typed.(selected := {}));
    } else {
      ResortedKept(env, m, typed);
    }
  }

  lemma ExecKept(env: Env, m: Model, line: string)
    requires Inv(env, m)
    ensures Kept(env, m, ExecCommand(env, m, line).m)
  {
    var fields := Palette.Args(line);
    if fields != [] {
      var name, args := fields[0], fields[1..];
      if CommandVerb(name).Some? {
        ActKept(env, m, CommandVerb(name).value);
      } else if name == "move" {
      } else if name == "sort" {
        SortKept(env, m, args);
      } else {
        SameListKept(env, m, m.(ui := UiCommand(env, m.ui, name, args)));
      }
    }
  }

  lemma SortKept(env: Env, m: Model, args: seq<string>)
    requires Inv(env, m)
    ensures Kept(env, m, SortCommand(env, m, args))
  {
    if args != [] {
      ResortedKept(env, m, SetView(m, m.view.(sortKey := SortKey(args[0], |args| > 1 && args[1] == "desc"))));
    }
  }

  lemma CommandKeyKept(env: Env, m: Model, key: Key)
    requires Inv(env, m)
    ensures Kept(env, m, CommandKey(env, m, key).m)
  {
    var ui := m.ui.(commandBuf := CommandTyped(m.ui.commandBuf, key),
                    mode := if key.kind.Enter? || key.kind.Esc? then Normal else m.ui.mode);
    SameListKept(env, m, m.(ui := ui));
    if key.kind.Enter? {
      ExecKept(env, m.(ui := ui), m.ui.commandBuf);
    }
  }

  lemma FocusedKeyKept(env: Env, m: Model, key: Key)
    requires Proper(env) && Inv(env, m)
    ensures Kept(env, m, FocusedKey(env, m, key).m)
  {
    match m.ui.focus
    case OnSidebar => SidebarKeyKept(env, m, key);
    case OnDetail => DetailKeyKept(env, m, key);
    case OnList => ListKeyKept(env, m, key);
  }

  lemma FilterKeyKept(env: Env, m: Model, step: int)
    requires Proper(env) && Inv(env, m)
    ensures Kept(env, m, FilterKey(env, m, step).m)
  {
    var i := CurrentIndex(env, m.view) + step;
    SelectKept(env, m, i);
    assert FilterKey(env, m, step) == Just(SelectSidebar(env, m, i));
  }

  lemma TabKeyKept(env: Env, m: Model, k: string)
    requires Inv(env, m)
    ensures Kept(env, m, m.(ui := TabKey(env.km, m.ui, k)))
  {
    SameListKept(env, m, m.(ui := TabKey(env.km, m.ui, k)));
  }

  lemma PaneKeyKept(env: Env, m: Model, key: Key)
    requires Proper(env) && Inv(env, m)
    ensures Kept(env, m, PaneKey(env, m, key).m)
  {
    TabKeyKept(env, m, key.name);
    FilterKeyKept(env, m, 1);
    FilterKeyKept(env, m, -1);
    FocusedKeyKept(env, m, key);
  }

  lemma KeyKept(env: Env, m: Model, key: Key)
    requires Proper(env) && Inv(env, m)
    ensures Kept(env, m, HandleKey(env, m, key).m)
  {
    if key.name != "ctrl+c" && m.ui.overlay.NoOverlay? {
      match m.ui.mode
      case Search => SearchKeyKept(env, m, key);
      case Command => CommandKeyKept(env, m, key);
      case FindPrompt =>
      case Normal => PaneKeyKept(env, m, key);
    }
  }

  // ------------------------------------------------------------------
  // The mouse
  // ------------------------------------------------------------------

  lemma ScrolledKept(env: Env, m: Model, target: Geometry.Target, delta: int)
    requires Proper(env) && Inv(env, m)
    ensures Kept(env, m, Scrolled(env, m, target, delta))
  {
    if target.OnSidebar? {
      SelectKept(env, m, CurrentIndex(env, m.view) + delta);
    } else {
      SameListKept(env, m, Scrolled(env, m, target, delta));
    }
  }

  lemma ClickedKept(env: Env, m: Model, x: int, y: int)
    requires Proper(env) && Inv(env, m)
    ensures Kept(env, m, Clicked(env, m, x, y))
  {
    var r := Clicked(env, m, x, y);
    if r.view == m.view && r.cursor == m.cursor && r.selected == m.selected {
      SameListKept(env, m, r);
    } else if Geometry.HitTest(Geometry.Layout(m.ui.width, m.ui.height), x, y).OnSidebar? {
      SelectKept(env, m.(ui := m.ui.(focus := OnSidebar)), ClickedRow(env, m, x, y));
    } else {
      SameListKept(env, m, r);
    }
  }

  function ClickedRow(env: Env, m: Model, x: int, y: int): int {
    var p := Geometry.Layout(m.ui.width, m.ui.height);
    var rows := Geometry.SidebarRows(p.sidebarContentH, |env.labels(m.view.torrents)|, m.ui.vpnRequired);
    match Geometry.HitTest(p, x, y)
    case OnSidebar(row) => if row < 0 || row >= |rows| || rows[row] < 0 then 0 else rows[row]
    case _ => 0
  }

  lemma MouseKept(env: Env, m: Model, button: Button, x: int, y: int)
    requires Proper(env) && Inv(env, m)
    ensures Kept(env, m, HandleMouse(env, m, button, x, y))
  {
    var target := Geometry.HitTest(Geometry.Layout(m.ui.width, m.ui.height), x, y);
    ScrolledKept(env, m, target, -1);
    ScrolledKept(env, m, target, 1);
    ClickedKept(env, m, x, y);
  }

  // ------------------------------------------------------------------
  // Snapshots
  // ------------------------------------------------------------------

  lemma DroppedOk(env: Env, m: Model)
    requires Proper(env) && DistinctIds(m.view.torrents) && (m.view.labelFilter != "" ==> m.view.filter == All)
    ensures ViewOk(DropVanishedLabel(env, m).view) && DropVanishedLabel(env, m).view.torrents == m.view.torrents
  {
    if m.view.labelFilter != "" && LabelListed(env, m.view) {
      var i :| 0 <= i < |env.labels(m.view.torrents)| && env.labels(m.view.torrents)[i].name == m.view.labelFilter;
      LabelsAreCarried(env, m.view.torrents, i);
    }
  }

  lemma SnapshotOk(env: Env, m: Model, torrents: seq<Torrent>, vpnRequired: bool)
    requires Proper(env) && Inv(env, m) && DistinctIds(torrents)
    ensures Inv(env, Snapshot(env, m, torrents, vpnRequired))
  {
    var taken := m.(view := m.view.(torrents := torrents), ui := m.ui.(vpnRequired := vpnRequired));
    DroppedOk(env, taken);
    RevealedOk(env, DropVanishedLabel(env, taken));
  }

  lemma RevealedOk(env: Env, m: Model)
    requires ViewOk(m.view)
    ensures ViewOk(Revealed(env, m).view)
  {
  }

  // ------------------------------------------------------------------
  // The theorems
  // ------------------------------------------------------------------

  lemma UpdateOk(env: Env, m: Model, msg: Msg)
    requires Proper(env) && Inv(env, m) && (msg.Event? ==> DistinctIds(msg.torrents))
    ensures Inv(env, Update(env, m, msg).m)
    ensures !msg.Event? ==> Kept(env, m, Update(env, m, msg).m)
  {
    match msg
    case Event(torrents, vpnRequired) => SnapshotOk(env, m, torrents, vpnRequired);
    case KeyPress(key) => KeyKept(env, m, key);
    case Mouse(button, x, y) => MouseKept(env, m, button, x, y);
    case Resize(width, height) =>
    case TorrentsAdded(ids) =>
  }

  // Messages one after another. The daemon's torrents come from a map, so
  // no two have the same id.
  function StepOf(env: Env): (Model, Msg) -> Option<Model> {
    (m: Model, msg: Msg) => if msg.Event? && !DistinctIds(msg.torrents) then None else Some(Update(env, m, msg).m)
  }

  lemma Always(env: Env, sortKey: SortKey, msgs: seq<Msg>)
    requires Proper(env) && Run(StepOf(env), Init(sortKey), msgs).Some?
    ensures Inv(env, Run(StepOf(env), Init(sortKey), msgs).value)
  {
    VisibleIs(env, Init(sortKey).view);
    forall m, msg | Inv(env, m) && StepOf(env)(m, msg).Some?
      ensures Inv(env, StepOf(env)(m, msg).value)
    {
      UpdateOk(env, m, msg);
    }
    InvariantOverRuns(m => Inv(env, m), StepOf(env), Init(sortKey), msgs);
  }

  // After any messages the cursor is on a row of the list, or at zero when
  // the list is empty; and a label filter means the All status and a label
  // that some torrent carries.
  lemma CursorStaysOnTheList(env: Env, sortKey: SortKey, msgs: seq<Msg>)
    requires Proper(env) && Run(StepOf(env), Init(sortKey), msgs).Some?
    ensures var m := Run(StepOf(env), Init(sortKey), msgs).value;
            var n := |Visible(env, m.view)|;
            && (n == 0 ==> m.cursor == 0) && (n > 0 ==> 0 <= m.cursor < n)
            && (m.view.labelFilter != "" ==>
                  m.view.filter == All && exists t :: t in m.view.torrents && t.category == m.view.labelFilter)
  {
    Always(env, sortKey, msgs);
  }

  // No key, click, scroll or command puts a mark out of sight.
  lemma OnlyTheDaemonHidesMarks(env: Env, sortKey: SortKey, msgs: seq<Msg>, msg: Msg)
    requires Proper(env) && Run(StepOf(env), Init(sortKey), msgs).Some? && !msg.Event?
    requires var m := Run(StepOf(env), Init(sortKey), msgs).value; MarksListed(env, m.view, m.selected)
    ensures var r := Update(env, Run(StepOf(env), Init(sortKey), msgs).value, msg).m;
            MarksListed(env, r.view, r.selected)
  {
    Always(env, sortKey, msgs);
    UpdateOk(env, Run(StepOf(env), Init(sortKey), msgs).value, msg);
  }

  lemma {:induction false} MarkedIs(ts: seq<Torrent>, selected: set<Id>)
    ensures forall t :: t in Marked(ts, selected) <==> t in ts && t.id in selected
    decreases |ts|
  {
    if ts != [] {
      var n := |ts| - 1;
      MarkedIs(ts[..n], selected);
      assert ts == ts[..n] + [ts[n]];
    }
  }

  // With every mark on the list, an action's targets are rows of the list:
  // exactly the marked ones, or with none marked the one under the cursor.
  lemma TargetsAreListed(env: Env, m: Model)
    requires Proper(env) && Inv(env, m) && MarksListed(env, m.view, m.selected)
    ensures forall t | t in Targets(env, m) :: t in Visible(env, m.view)
    ensures m.selected != {} ==> forall id :: id in m.selected <==> exists t :: t in Targets(env, m) && t.id == id
    ensures m.selected == {} ==> (Targets(env, m) == [] <==> Visible(env, m.view) == [])
  {
    VisibleIs(env, m.view);
    MarkedIs(m.view.torrents, m.selected);
    forall t | m.selected != {} && t in Targets(env, m)
      ensures Shows(env, m.view, t)
    {
      assert Listed(env, m.view, t.id);
      var u :| u in m.view.torrents && u.id == t.id && Shows(env, m.view, u);
    }
    forall id | m.selected != {} && id in m.selected
      ensures exists t :: t in Targets(env, m) && t.id == id
    {
      assert Listed(env, m.view, id);
      var u :| u in m.view.torrents && u.id == id && Shows(env, m.view, u);
      assert u in Targets(env, m);
    }
  }

  // A snapshot can hide a marked row and leave it armed: the next removal
  // reaches a torrent that is not on the list. From the start: a download
  // comes, the list is narrowed to downloads, the row is marked, and the
  // next snapshot says that it seeds.
  lemma EventHidesAMark(env: Env, sortKey: SortKey) returns (msgs: seq<Msg>, ts: seq<Torrent>)
    requires Proper(env) && env.km == DEFAULT_KEYS
    ensures DistinctIds(ts) && Run(StepOf(env), Init(sortKey), msgs).Some?
    ensures var m := Run(StepOf(env), Init(sortKey), msgs).value;
            && Inv(env, m) && MarksListed(env, m.view, m.selected)
            && HidesAMark(env, Update(env, m, Event(ts, false)).m)
  {
    ts := [Torrent(0, "", "", Seeding, false, 0, 0)];
    msgs := MarksADownload(env, sortKey);
    var m := MarkedDownload(sortKey);
    MarkedDownloadOk(env, sortKey);
    PlainSnapshot(env, m, ts, false);
    var x := m.(view := m.view.(torrents := ts), ui := m.ui.(vpnRequired := false));
    HiddenWhenSeeding(env, x, ts[0]);
  }

  const DOWNLOAD := Torrent(0, "", "", Downloading, false, 0, 0)

  function PressOf(name: string): Msg {
    KeyPress(Key(name, Runes, name, false, false))
  }

  lemma MarksADownload(env: Env, sortKey: SortKey) returns (msgs: seq<Msg>)
    requires Proper(env) && env.km == DEFAULT_KEYS
    ensures Run(StepOf(env), Init(sortKey), msgs) == Some(MarkedDownload(sortKey))
  {
    var step, start := StepOf(env), Init(sortKey);
    assert Run(step, start, []) == Some(start);
    DownloadComes(env, sortKey);
    RunSnoc(step, start, [], Event([DOWNLOAD], false));
    msgs := [] + [Event([DOWNLOAD], false)];
    var a := start.(view := start.view.(torrents := [DOWNLOAD]));
    NarrowsToDownloads(env, a);
    RunSnoc(step, start, msgs, PressOf("}"));
    msgs := msgs + [PressOf("}")];
    MarksTheRow(env, sortKey);
    RunSnoc(step, start, msgs, PressOf(" "));
    msgs := msgs + [PressOf(" ")];
  }

  lemma OnlyRow(env: Env, v: View)
    requires Proper(env) && v.torrents == [DOWNLOAD] && v.labelFilter == "" && v.searchQuery == ""
    requires v.filter == All || v.filter == OnlyDownloading
    ensures Visible(env, v) == [DOWNLOAD]
  {
    assert FindsAll(env, "");
    assert Filtered(env, v, [DOWNLOAD]) == [DOWNLOAD] by {
      assert v.torrents[..0] == [];
    }
    VisibleIs(env, v);
    assert DOWNLOAD in Visible(env, v);
  }

  lemma DownloadComes(env: Env, sortKey: SortKey)
    requires Proper(env)
    ensures var start := Init(sortKey);
            Update(env, start, Event([DOWNLOAD], false)).m == start.(view := start.view.(torrents := [DOWNLOAD]))
  {
    var start := Init(sortKey);
    PlainSnapshot(env, start, [DOWNLOAD], false);
    OnlyRow(env, start.view.(torrents := [DOWNLOAD]));
  }

  lemma NarrowsToDownloads(env: Env, m: Model)
    requires Proper(env) && env.km == DEFAULT_KEYS && m.view.torrents == [DOWNLOAD] && m.view.labelFilter == ""
    requires m.view.filter == All && m.view.searchQuery == "" && m.cursor == 0 && m.selected == {}
    requires m.ui.overlay == NoOverlay && m.ui.mode == Normal
    ensures Update(env, m, PressOf("}")).m == m.(view := m.view.(filter := OnlyDownloading), sidebarCursor := 1)
  {
    var entries := Entries(env, m.view.torrents);
    assert entries[0] == Status(All) && entries[1] == Status(OnlyDownloading);
    assert CurrentIndex(env, m.view) == 0;
    assert Wrap(1, |entries|) == 1;
    OnlyRow(env, m.view.(filter := OnlyDownloading));
    assert PaneKey(env, m, PressOf("}").key) == FilterKey(env, m, 1);
  }

  lemma MarksTheRow(env: Env, sortKey: SortKey)
    requires Proper(env) && env.km == DEFAULT_KEYS
    ensures var m := MarkedDownload(sortKey).(selected := {});
            Update(env, m, PressOf(" ")).m == MarkedDownload(sortKey)
  {
    var m := MarkedDownload(sortKey).(selected := {});
    OnlyRow(env, m.view);
    assert ToggleMark(env, m) == MarkedDownload(sortKey);
    assert ListAction(env, m, PressOf(" ").key) == Just(ToggleMark(env, m));
    assert PaneKey(env, m, PressOf(" ").key) == ListKey(env, m, PressOf(" ").key);
  }

  lemma HiddenWhenSeeding(env: Env, x: Model, t: Torrent)
    requires Proper(env) && x.view.torrents == [t] && x.view.filter == OnlyDownloading && x.selected == {0}
    requires t.id == 0 && t.state == Seeding
    ensures HidesAMark(env, ClampedToView(env, x))
  {
    assert !Shows(env, x.view, t);
    ListIsEmpty(env, x.view);
    MarkReached(env, ClampedToView(env, x), t);
  }

  // With no label filter and nothing to reveal a snapshot only takes over
  // the torrents.
  lemma PlainSnapshot(env: Env, m: Model, ts: seq<Torrent>, vpnRequired: bool)
    requires m.view.labelFilter == "" && m.pendingReveal == []
    ensures Snapshot(env, m, ts, vpnRequired)
         == ClampedToView(env, m.(view := m.view.(torrents := ts), ui := m.ui.(vpnRequired := vpnRequired)))
  {
  }

  lemma MarkReached(env: Env, r: Model, t: Torrent)
    requires r.view.torrents == [t] && r.selected == {t.id}
    ensures ActOnTargets(env, r, DoRemove).act == Some(Act(DoRemove, [t.id]))
  {
    assert [t][..0] == [];
    assert Marked([t], {t.id}) == [t];
    assert Targets(env, r) == [t] && IdsOf([t]) == [t.id];
  }

  // The list is empty, and a removal would act all the same.
  ghost predicate HidesAMark(env: Env, r: Model) {
    Visible(env, r.view) == [] && ActOnTargets(env, r, DoRemove).act == Some(Act(DoRemove, [0]))
  }

  function MarkedDownload(sortKey: SortKey): Model {
    var v := View([DOWNLOAD], OnlyDownloading, "", "", sortKey);
    Model(v, 0, {0}, 1, [], Init(sortKey).ui)
  }

  lemma MarkedDownloadOk(env: Env, sortKey: SortKey)
    requires Proper(env)
    ensures var m := MarkedDownload(sortKey); Inv(env, m) && MarksListed(env, m.view, m.selected)
  {
    var v := MarkedDownload(sortKey).view;
    OnlyRow(env, v);
    assert FindsAll(env, "");
    assert DOWNLOAD in v.torrents && Shows(env, v, DOWNLOAD);
    assert Listed(env, v, 0);
  }

  lemma ListIsEmpty(env: Env, v: View)
    requires Proper(env) && forall t | t in v.torrents :: !Shows(env, v, t)
    ensures Visible(env, v) == []
  {
    VisibleIs(env, v);
    FilteredNone(env, v, v.torrents);
  }

  lemma {:induction false} FilteredNone(env: Env, v: View, ts: seq<Torrent>)
    requires forall t | t in ts :: !Shows(env, v, t)
    ensures Filtered(env, v, ts) == []
    decreases |ts|
  {
    if ts != [] {
      FilteredNone(env, v, ts[..|ts| - 1]);
    }
  }
}
