// The list half of the terminal interface as a value (internal/tui/model.go,
// update.go, label.go, mouse.go, sidebar.go): the torrents the daemon last
// sent, the filters that narrow them, the cursor and the marks, and what
// each message makes of them. Overlays and prompts are kept as far as they
// take keystrokes; the detail pane's own state is not modelled.
module TuiModel {
  import opened Runs
  import opened Labels
  import Geometry
  import Palette

  type Id = nat

  datatype State = Checking | Queued | PausedState | Downloading | Seeding | Failed | Blocked | LowDisk

  datatype Torrent = Torrent(id: Id, name: string, category: string, state: State, paused: bool, total: nat,
                             completed: nat)

  datatype StatusFilter = All | OnlyDownloading | OnlySeeding | OnlyCompleted | OnlyStopped

  const STATUSES: seq<StatusFilter> := [All, OnlyDownloading, OnlySeeding, OnlyCompleted, OnlyStopped]

  predicate Matches(f: StatusFilter, t: Torrent) {
    match f
    case All => true
    case OnlyDownloading => t.state == Downloading
    case OnlySeeding => t.state == Seeding
    case OnlyCompleted => t.total > 0 && t.completed >= t.total
    case OnlyStopped => t.paused || t.state == Failed || t.state == Blocked || t.state == LowDisk
  }

  datatype Focus = OnList | OnDetail | OnSidebar
  datatype Mode = Normal | Search | Command | FindPrompt
  datatype Overlay = NoOverlay | Help | ThemePicker | FindResults
  datatype SortKey = SortKey(column: string, desc: bool)

  const TABS: seq<string> := ["Pieces", "Peers", "Files"]
  const FILES_TAB := 2

  // What the list is made from: the torrents the daemon last sent, the
  // filters that narrow them and the column they are sorted by.
  datatype View = View(torrents: seq<Torrent>, filter: StatusFilter, labelFilter: string, searchQuery: string,
                       sortKey: SortKey)

  // The rest of the interface: panes, prompts and overlays.
  datatype Ui = Ui(
    focus: Focus, detailTab: nat, mode: Mode, commandBuf: string, overlay: Overlay, mouseOff: bool, pendingDD: bool,
    quitting: bool, width: int, height: int, vpnRequired: bool)

  datatype Model = Model(view: View, cursor: int, selected: set<Id>, sidebarCursor: int, pendingReveal: seq<Id>, ui: Ui)

  datatype KeyMap = KeyMap(
    Up: string, Down: string, Top: string, Bottom: string, Select: string, Remove: string, RemoveData: string,
    Purge: string, Pause: string, Recheck: string, Detail: string, Back: string, Quit: string, Search: string,
    Command: string, Help: string, HelpAlt: string, Preview: string, Open: string, Find: string,
    FocusNext: string, FocusPrev: string, TabNext: string, TabPrev: string, FilterNext: string, FilterPrev: string,
    ToggleMouse: string, TabPieces: string, TabPeers: string, TabFiles: string)

  const DEFAULT_KEYS := KeyMap(
    "k", "j", "g", "G", " ", "x", "D",
    "X", "p", "r", "enter", "esc", "q", "/",
    ":", "h", "?", "v", "o", "f",
    "tab", "shift+tab", "]", "[", "}", "{",
    "m", "1", "2", "3")

  // What the model is given: the keys, whether a search finds a name, the
  // list's sort and the labels in use. Of these only what Proper says is
  // used.
  datatype Env = Env(
    km: KeyMap, finds: (string, string) -> bool, sort: (SortKey, seq<Torrent>) -> seq<Torrent>,
    labels: seq<Torrent> -> seq<LabelUse>, canFind: bool, hasThemes: bool)

  ghost predicate Proper(env: Env) {
    && (forall name: string :: FindsAll(env, name))
    && (forall k: SortKey, ts: seq<Torrent> :: SortKeepsRows(env, k, ts))
    && (forall ts: seq<Torrent> :: LabelsInOrder(env, ts))
  }

  predicate LabelsInOrder(env: Env, ts: seq<Torrent>) {
    env.labels(ts) == Uses(Categories(ts))
  }

  function Categories(ts: seq<Torrent>): (r: seq<string>)
    ensures |r| == |ts| && forall i | 0 <= i < |r| :: r[i] == ts[i].category
  {
    seq(|ts|, i requires 0 <= i < |ts| => ts[i].category)
  }

  predicate FindsAll(env: Env, name: string) {
    env.finds("", name)
  }

  predicate SortKeepsRows(env: Env, k: SortKey, ts: seq<Torrent>) {
    multiset(env.sort(k, ts)) == multiset(ts)
  }

  // ------------------------------------------------------------------
  // What is visible
  // ------------------------------------------------------------------

  predicate Contains(s: string, q: string) {
    exists i :: 0 <= i <= |s| && q <= s[i..]
  }

  // The search as the source has it, over Unicode's lower case.
  predicate SearchFinds(lower: string -> string, query: string, name: string) {
    var q := lower(Palette.TrimSpace(query));
    q == "" || Contains(lower(name), q)
  }

  // With it an environment is proper as far as the search goes.
  lemma SearchIsProper(env: Env, lower: string -> string, name: string)
    requires lower("") == "" && forall q: string, n: string :: env.finds(q, n) == SearchFinds(lower, q, n)
    ensures FindsAll(env, name)
  {
    assert Palette.TrimSpace("") == "";
  }

  predicate ByLabel(v: View, t: Torrent) {
    v.labelFilter == "" || t.category == v.labelFilter
  }

  predicate BySearch(env: Env, v: View, t: Torrent) {
    env.finds(v.searchQuery, t.name)
  }

  predicate Shows(env: Env, v: View, t: Torrent) {
    Matches(v.filter, t) && ByLabel(v, t) && BySearch(env, v, t)
  }

  function Filtered(env: Env, v: View, ts: seq<Torrent>): seq<Torrent> {
    if ts == [] then []
    else
      var rest, last := Filtered(env, v, ts[..|ts| - 1]), ts[|ts| - 1];
      if Shows(env, v, last) then rest + [last] else rest
  }

  lemma FilteredSnoc(env: Env, v: View, ts: seq<Torrent>, i: nat)
    requires i < |ts|
    ensures Filtered(env, v, ts[..i + 1]) == Filtered(env, v, ts[..i]) + if Shows(env, v, ts[i]) then [ts[i]] else []
  {
    assert ts[..i + 1][..i] == ts[..i];
  }

  function Visible(env: Env, v: View): seq<Torrent> {
    env.sort(v.sortKey, Filtered(env, v, v.torrents))
  }

  method VisibleTorrents(env: Env, v: View) returns (visible: seq<Torrent>)
    ensures visible == Visible(env, v)
  {
    var out: seq<Torrent> := [];
    var i := 0;
    while i < |v.torrents|
      invariant 0 <= i <= |v.torrents| && out == Filtered(env, v, v.torrents[..i])
    {
      FilteredSnoc(env, v, v.torrents, i);
      var t := v.torrents[i];
      if Matches(v.filter, t) && (v.labelFilter == "" || t.category == v.labelFilter)
          && env.finds(v.searchQuery, t.name) {
        out := out + [t];
      }
      i := i + 1;
    }
    assert v.torrents[..|v.torrents|] == v.torrents;
    visible := env.sort(v.sortKey, out);
  }

  function Clamped(m: Model, n: nat): Model {
    if n == 0 then m.(cursor := 0)
    else if m.cursor >= n then m.(cursor := n - 1)
    else if m.cursor < 0 then m.(cursor := 0)
    else m
  }

  function ClampedToView(env: Env, m: Model): Model {
    Clamped(m, |Visible(env, m.view)|)
  }

  // ------------------------------------------------------------------
  // The sidebar
  // ------------------------------------------------------------------

  datatype Entry = Status(status: StatusFilter) | Label(name: string, count: nat)

  function StatusEntries(): (r: seq<Entry>)
    ensures |r| == 5 && forall i | 0 <= i < 5 :: r[i] == Status(STATUSES[i])
  {
    seq(5, i requires 0 <= i < 5 => Status(STATUSES[i]))
  }

  function LabelEntries(uses: seq<LabelUse>): (r: seq<Entry>)
    ensures |r| == |uses| && forall i | 0 <= i < |r| :: r[i] == Label(uses[i].name, uses[i].count)
  {
    seq(|uses|, i requires 0 <= i < |uses| => Label(uses[i].name, uses[i].count))
  }

  function Entries(env: Env, ts: seq<Torrent>): seq<Entry> {
    StatusEntries() + LabelEntries(env.labels(ts))
  }

  function ApplyEntry(v: View, e: Entry): View {
    match e
    case Label(name, count) => v.(labelFilter := name, filter := All)
    case Status(f) => v.(labelFilter := "", filter := f)
  }

  predicate IsCurrent(v: View, e: Entry) {
    if v.labelFilter != "" then e.Label? && e.name == v.labelFilter else e.Status? && e.status == v.filter
  }

  // The first entry from i on that is the current one.
  function FindCurrent(v: View, entries: seq<Entry>, i: nat): nat
    requires i <= |entries|
    decreases |entries| - i
  {
    if i == |entries| then 0 else if IsCurrent(v, entries[i]) then i else FindCurrent(v, entries, i + 1)
  }

  function CurrentIndex(env: Env, v: View): nat {
    FindCurrent(v, Entries(env, v.torrents), 0)
  }

  method CurrentSidebarIndex(env: Env, v: View) returns (index: nat)
    requires LabelsInOrder(env, v.torrents)
    ensures index == CurrentIndex(env, v)
  {
    var uses := LabelsInUse(Categories(v.torrents));
    var entries := StatusEntries() + LabelEntries(uses);
    var i := 0;
    while i < |entries|
      invariant 0 <= i <= |entries| && CurrentIndex(env, v) == FindCurrent(v, entries, i)
    {
      var e := entries[i];
      if v.labelFilter != "" {
        if e.Label? && e.name == v.labelFilter {
          return i;
        }
      } else if e.Status? && e.status == v.filter {
        return i;
      }
      i := i + 1;
    }
    index := 0;
  }

  // i brought into 0..n by whole turns.
  function Wrap(i: int, n: int): (r: int)
    requires n > 0
    ensures 0 <= r < n
    decreases if i < 0 then 1 else 0, if i < 0 then -i else i
  {
    if i < 0 then Wrap(i + n, n) else if i >= n then Wrap(i - n, n) else i
  }

  // The remainder of the source's language, which has the dividend's sign.
  function Rem(i: int, n: int): int
    requires n > 0
  {
    if i >= 0 then i % n else -((-i) % n)
  }

  lemma {:induction false} WrapIsModulus(i: int, n: int)
    requires n > 0
    ensures Wrap(i, n) == i % n
    decreases if i < 0 then 1 else 0, if i < 0 then -i else i
  {
    if i < 0 {
      WrapIsModulus(i + n, n);
      ModUnique(i, n, (i + n) / n - 1, (i + n) % n);
    } else if i >= n {
      WrapIsModulus(i - n, n);
      ModUnique(i, n, (i - n) / n + 1, (i - n) % n);
    } else {
      ModUnique(i, n, 0, i);
    }
  }

  // (i%n + n) % n, as the source writes it, is the same.
  lemma WrapAsWritten(i: int, n: int)
    requires n > 0
    ensures Rem(Rem(i, n) + n, n) == Wrap(i, n)
  {
    var r := Rem(i, n);
    var q := if i >= 0 then i / n else -((-i) / n);
    assert i == q * n + r && -n < r < n;
    WrapIsModulus(i, n);
    if r >= 0 {
      ModUnique(i, n, q, r);
      ModUnique(r + n, n, 1, r);
    } else {
      ModUnique(i, n, q - 1, r + n);
      ModUnique(r + n, n, 0, r + n);
    }
  }

  lemma ModUnique(i: int, n: int, q: int, r: int)
    requires n > 0 && i == q * n + r && 0 <= r < n
    ensures i % n == r
  {
    var d := i / n - q;
    assert i == (i / n) * n + i % n;
    assert d * n == r - i % n;
    if d > 0 {
      AtLeastOnce(d, n);
    } else if d < 0 {
      AtLeastOnce(-d, n);
    }
  }

  lemma NonNegative(a: nat, b: nat)
    ensures a * b >= 0
  {
  }

  lemma AtLeastOnce(d: int, n: int)
    requires d > 0 && n > 0
    ensures d * n >= n && (-d) * n <= -n
  {
    NonNegative(d - 1, n);
    assert d * n == (d - 1) * n + n;
    assert (-d) * n == 0 - d * n;
  }

  // An entry applied. Marks belong to the view they were made in, so a
  // filter that changes clears them.
  function Picked(m: Model, e: Entry): Model {
    var view := ApplyEntry(m.view, e);
    m.(view := view,
       selected := if view.filter != m.view.filter || view.labelFilter != m.view.labelFilter then {} else m.selected)
  }

  function SelectSidebar(env: Env, m: Model, i: int): Model {
    var entries := Entries(env, m.view.torrents);
    var at := Wrap(i, |entries|);
    ClampedToView(env, Picked(m, entries[at]).(sidebarCursor := at))
  }

  // ------------------------------------------------------------------
  // Snapshots from the daemon
  // ------------------------------------------------------------------

  predicate LabelListed(env: Env, v: View) {
    exists i :: 0 <= i < |env.labels(v.torrents)| && env.labels(v.torrents)[i].name == v.labelFilter
  }

  function DropVanishedLabel(env: Env, m: Model): Model {
    if m.view.labelFilter == "" || LabelListed(env, m.view) then m
    else m.(view := m.view.(labelFilter := "", filter := All), sidebarCursor := 0)
  }

  // A pending torrent that has come.
  predicate Arrived(v: View, pending: seq<Id>, t: Torrent) {
    t in v.torrents && t.id in pending
  }

  predicate AnySeen(v: View, pending: seq<Id>) {
    exists t :: t in v.torrents && Arrived(v, pending, t)
  }

  // Whether each filter hides one of them.
  predicate HiddenByStatus(v: View, pending: seq<Id>) {
    exists t :: t in v.torrents && Arrived(v, pending, t) && !Matches(v.filter, t)
  }

  predicate HiddenByLabel(v: View, pending: seq<Id>) {
    exists t :: t in v.torrents && Arrived(v, pending, t) && !ByLabel(v, t)
  }

  predicate HiddenBySearch(env: Env, v: View, pending: seq<Id>) {
    exists t :: t in v.torrents && Arrived(v, pending, t) && !BySearch(env, v, t)
  }

  function Uncovered(v: View, byStatus: bool, byLabel: bool, bySearch: bool): View {
    v.(labelFilter := if byLabel then "" else v.labelFilter, filter := if byStatus then All else v.filter,
       searchQuery := if bySearch then "" else v.searchQuery)
  }

  function Revealed(env: Env, m: Model): Model {
    if !AnySeen(m.view, m.pendingReveal) then m
    else
      var byStatus := HiddenByStatus(m.view, m.pendingReveal);
      var byLabel := HiddenByLabel(m.view, m.pendingReveal);
      var bySearch := HiddenBySearch(env, m.view, m.pendingReveal);
      var view := Uncovered(m.view, byStatus, byLabel, bySearch);
      m.(pendingReveal := [], view := view,
         sidebarCursor := if byStatus || byLabel || bySearch then CurrentIndex(env, view) else m.sidebarCursor)
  }

  function Snapshot(env: Env, m: Model, torrents: seq<Torrent>, vpnRequired: bool): Model {
    var taken := m.(view := m.view.(torrents := torrents), ui := m.ui.(vpnRequired := vpnRequired));
    ClampedToView(env, Revealed(env, DropVanishedLabel(env, taken)))
  }

  // ------------------------------------------------------------------
  // Actions
  // ------------------------------------------------------------------

  datatype Verb = DoRemove | DoRemoveData | DoPurge | DoPause | DoResume | DoToggle | DoRecheck | DoMove | DoLabel

  // What a step asks of the daemon: an operation on these torrents.
  datatype Act = Act(verb: Verb, ids: seq<Id>)
  datatype Next = Next(m: Model, act: Option<Act>)

  function Just(m: Model): Next {
    Next(m, None)
  }

  function IdsOf(ts: seq<Torrent>): (r: seq<Id>)
    ensures |r| == |ts| && forall i | 0 <= i < |r| :: r[i] == ts[i].id
  {
    seq(|ts|, i requires 0 <= i < |ts| => ts[i].id)
  }

  function Marked(ts: seq<Torrent>, selected: set<Id>): seq<Torrent> {
    if ts == [] then []
    else
      var rest, last := Marked(ts[..|ts| - 1], selected), ts[|ts| - 1];
      if last.id in selected then rest + [last] else rest
  }

  // Every marked torrent, in list order; or with none marked the one under
  // the cursor. A cursor the list does not reach would be out of bounds.
  function Targets(env: Env, m: Model): seq<Torrent> {
    var visible := Visible(env, m.view);
    if m.selected != {} then Marked(m.view.torrents, m.selected)
    else if |visible| == 0 || m.cursor < 0 || m.cursor >= |visible| then []
    else [visible[m.cursor]]
  }

  function ActOnTargets(env: Env, m: Model, verb: Verb): Next {
    var targets := Targets(env, m);
    if targets == [] then Just(m)
    else Next(if verb.DoRemove? || verb.DoRemoveData? then m.(selected := {}) else m, Some(Act(verb, IdsOf(targets))))
  }

  // ------------------------------------------------------------------
  // Keys
  // ------------------------------------------------------------------

  datatype Kind = Enter | Esc | Backspace | Tab | Space | Runes | Other

  //  soon   a second d within the chord's window
  //  opens  Enter at the find prompt searches; Enter on a result adds it
  datatype Key = Key(name: string, kind: Kind, runes: string, soon: bool, opens: bool)

  function SetView(m: Model, view: View): Model {
    m.(view := view)
  }

  // A filter taken off: the sidebar's cursor goes where the filters now say.
  function Widened(env: Env, m: Model, view: View): Model {
    ClampedToView(env, SetView(m, view).(sidebarCursor := CurrentIndex(env, view)))
  }

  // One layer at a time.
  function Back(env: Env, m: Model): Model {
    if !m.ui.focus.OnList? then m.(ui := m.ui.(focus := OnList))
    else if m.selected != {} then m.(selected := {})
    else if m.view.searchQuery != "" then ClampedToView(env, SetView(m, m.view.(searchQuery := "")))
    else if m.view.labelFilter != "" then Widened(env, m, m.view.(labelFilter := ""))
    else if m.view.filter != All then Widened(env, m, m.view.(filter := All))
    else m
  }

  // Marking a row moves on to the next.
  function ToggleMark(env: Env, m: Model): Model {
    var visible := Visible(env, m.view);
    if |visible| == 0 || m.cursor < 0 || m.cursor >= |visible| then m
    else
      var id := visible[m.cursor].id;
      m.(selected := if id in m.selected then m.selected - {id} else m.selected + {id},
         cursor := if m.cursor < |visible| - 1 then m.cursor + 1 else m.cursor)
  }

  // Any key but "d" abandons a half-typed chord.
  function ListKey(env: Env, m: Model, key: Key): Next {
    ListAction(env, if key.name != "d" then m.(ui := m.ui.(pendingDD := false)) else m, key)
  }

  function ListAction(env: Env, m: Model, key: Key): Next {
    var km, k := env.km, key.name;
    var n := |Visible(env, m.view)|;
    if k == "d" then
      (if m.ui.pendingDD && key.soon then ActOnTargets(env, m.(ui := m.ui.(pendingDD := false)), DoRemove)
       else Just(m.(ui := m.ui.(pendingDD := true))))
    else if k == km.Quit then Just(m.(ui := m.ui.(quitting := true)))
    else if k == km.Up || k == "up" then Just(if m.cursor > 0 then m.(cursor := m.cursor - 1) else m)
    else if k == km.Down || k == "down" then Just(if m.cursor < n - 1 then m.(cursor := m.cursor + 1) else m)
    else if k == km.Top then Just(m.(cursor := 0))
    else if k == km.Bottom then Just(if n > 0 then m.(cursor := n - 1) else m)
    else if k == km.Remove then ActOnTargets(env, m, DoRemove)
    else if k == km.RemoveData then ActOnTargets(env, m, DoRemoveData)
    else if k == km.Purge then ActOnTargets(env, m, DoPurge)
    else if k == km.Pause then ActOnTargets(env, m, DoToggle)
    else if k == km.Recheck then ActOnTargets(env, m, DoRecheck)
    else LeadingKey(env, m, k)
  }

  // The list's keys that lead elsewhere, and the mark.
  function LeadingKey(env: Env, m: Model, k: string): Next {
    var km := env.km;
    if k == km.Preview || k == km.Open then Just(m)
    else if k == km.Find then Just(if env.canFind then m.(ui := m.ui.(mode := FindPrompt)) else m)
    else if k == km.Detail then Just(m.(ui := m.ui.(focus := OnDetail)))
    else if k == km.Back then Just(Back(env, m))
    else if k == km.Search then Just(m.(ui := m.ui.(mode := Search)))
    else if k == km.Command then Just(m.(ui := m.ui.(mode := Command, commandBuf := "")))
    else if k == km.Help || k == km.HelpAlt then Just(m.(ui := m.ui.(overlay := Help)))
    else if k == km.Select then Just(ToggleMark(env, m))
    else Just(m)
  }

  function SidebarKey(env: Env, m: Model, key: Key): Next {
    var km, k := env.km, key.name;
    if k == km.Up || k == "up" then Just(SelectSidebar(env, m, CurrentIndex(env, m.view) - 1))
    else if k == km.Down || k == "down" then Just(SelectSidebar(env, m, CurrentIndex(env, m.view) + 1))
    else if k == km.Top then Just(SelectSidebar(env, m, 0))
    else if k == km.Bottom then Just(SelectSidebar(env, m, |Entries(env, m.view.torrents)| - 1))
    else ListKey(env, m, key)
  }

  // The detail pane's own keys move nothing modelled here.
  function DetailKey(env: Env, m: Model, key: Key): Next {
    var km, k := env.km, key.name;
    if k == km.Up || k == "up" || k == km.Down || k == "down" || (k == km.Select && m.ui.detailTab == FILES_TAB)
       || k == "+" || k == "=" || k == "-" || k == "_"
    then Just(m)
    else ListKey(env, m, key)
  }

  function Typed(query: string, key: Key): string {
    match key.kind
    case Enter => query
    case Esc => ""
    case Backspace => if query == "" then query else query[..|query| - 1]
    case Space => query + " "
    case Runes => query + key.runes
    case Tab => query
    case Other => query
  }

  function SearchKey(env: Env, m: Model, key: Key): Model {
    var query := Typed(m.view.searchQuery, key);
    var ui := if key.kind.Enter? || key.kind.Esc? then m.ui.(mode := Normal) else m.ui;
    var typed := SetView(m, m.view.(searchQuery := query)).(ui := ui);
    ClampedToView(env, if query != m.view.searchQuery then typed.(selected := {}) else typed)
  }

  predicate IsColumn(s: string) {
    s == "name" || s == "size" || s == "progress" || s == "ratio" || s == "eta" || s == "added" || s == "down"
        || s == "up"
  }

  // The commands that act on the targets.
  function CommandVerb(name: string): Option<Verb> {
    if name == "rm" || name == "remove" then Some(DoRemove)
    else if name == "rm!" || name == "remove!" then Some(DoRemoveData)
    else if name == "pause" then Some(DoPause)
    else if name == "resume" then Some(DoResume)
    else if name == "purge" then Some(DoPurge)
    else if name == "recheck" then Some(DoRecheck)
    else if name == "label" then Some(DoLabel)
    else None
  }

  // :find with no words opens the prompt; with only blank ones it is ignored.
  function FindCommand(env: Env, ui: Ui, args: seq<string>): Ui {
    if !env.canFind then ui
    else if args == [] then ui.(mode := FindPrompt)
    else if forall i | 0 <= i < |args| :: Palette.TrimSpace(args[i]) == "" then ui
    else ui.(overlay := FindResults)
  }

  // The commands that only change the interface.
  function UiCommand(env: Env, ui: Ui, name: string, args: seq<string>): Ui {
    if name == "mouse" then ui.(mouseOff := !ui.mouseOff)
    else if name == "find" then FindCommand(env, ui, args)
    else if name == "theme" then (if args == [] && env.hasThemes then ui.(overlay := ThemePicker) else ui)
    else if name == "help" then ui.(overlay := Help)
    else if name == "q" || name == "quit" then ui.(quitting := true)
    else ui
  }

  function ExecCommand(env: Env, m: Model, line: string): Next {
    ExecWords(env, m, Palette.Args(line))
  }

  function ExecWords(env: Env, m: Model, fields: seq<string>): Next {
    if fields == [] then Just(m)
    else
      var name, args := fields[0], fields[1..];
      if CommandVerb(name).Some? then ActOnTargets(env, m, CommandVerb(name).value)
      else if name == "move" then MoveCommand(env, m, args)
      else if name == "sort" then Just(SortCommand(env, m, args))
      else Just(m.(ui := UiCommand(env, m.ui, name, args)))
  }

  // The torrent under the cursor, whatever is marked.
  function MoveCommand(env: Env, m: Model, args: seq<string>): Next {
    var visible := Visible(env, m.view);
    if |args| != 1 || m.cursor < 0 || m.cursor >= |visible| then Just(m)
    else Next(m, Some(Act(DoMove, [visible[m.cursor].id])))
  }

  function SortCommand(env: Env, m: Model, args: seq<string>): Model {
    if args == [] || !IsColumn(args[0]) then m
    else ClampedToView(env, SetView(m, m.view.(sortKey := SortKey(args[0], |args| > 1 && args[1] == "desc"))))
  }

  // What Tab completes the line to is in `runes`.
  function CommandTyped(buf: string, key: Key): string {
    match key.kind
    case Esc => ""
    case Backspace => if buf == "" then buf else buf[..|buf| - 1]
    case Tab => key.runes
    case Space => buf + " "
    case Runes => buf + key.runes
    case Enter => ""
    case Other => buf
  }

  function CommandKey(env: Env, m: Model, key: Key): Next {
    var ui := m.ui.(commandBuf := CommandTyped(m.ui.commandBuf, key),
                    mode := if key.kind.Enter? || key.kind.Esc? then Normal else m.ui.mode);
    if key.kind.Enter? then ExecCommand(env, m.(ui := ui), m.ui.commandBuf) else Just(m.(ui := ui))
  }

  function FindPromptKey(ui: Ui, key: Key): Ui {
    match key.kind
    case Enter => if key.opens then ui.(mode := Normal, overlay := FindResults) else ui
    case Esc => ui.(mode := Normal)
    case _ => ui
  }

  function OverlayKey(env: Env, ui: Ui, key: Key): Ui {
    var km, k := env.km, key.name;
    match ui.overlay
    case Help => ui.(overlay := NoOverlay)
    case ThemePicker =>
      if k == "esc" || k == km.Back || k == "enter" || k == km.Select then ui.(overlay := NoOverlay) else ui
    case FindResults =>
      if k == "esc" || k == km.Back then ui.(overlay := NoOverlay)
      else if k == km.Find then ui.(overlay := NoOverlay, mode := FindPrompt)
      else if k == "enter" && key.opens then ui.(overlay := NoOverlay)
      else ui
    case NoOverlay => ui
  }

  function NextFocus(f: Focus): Focus {
    match f
    case OnList => OnDetail
    case OnDetail => OnSidebar
    case OnSidebar => OnList
  }

  function HandleKey(env: Env, m: Model, key: Key): Next {
    if key.name == "ctrl+c" then Just(m.(ui := m.ui.(quitting := true)))
    else if !m.ui.overlay.NoOverlay? then Just(m.(ui := OverlayKey(env, m.ui, key)))
    else
      match m.ui.mode
      case Search => Just(SearchKey(env, m, key))
      case Command => CommandKey(env, m, key)
      case FindPrompt => Just(m.(ui := FindPromptKey(m.ui, key)))
      case Normal => PaneKey(env, m, key)
  }

  // Focus and tabs, from any pane.
  function TabKey(km: KeyMap, ui: Ui, k: string): Ui {
    if k == km.FocusNext then ui.(focus := NextFocus(ui.focus))
    else if k == km.FocusPrev then ui.(focus := NextFocus(NextFocus(ui.focus)))
    else if k == km.TabNext then ui.(detailTab := (ui.detailTab + 1) % |TABS|)
    else if k == km.TabPrev then ui.(detailTab := (ui.detailTab + |TABS| - 1) % |TABS|)
    else if k == km.ToggleMouse then ui.(mouseOff := !ui.mouseOff)
    else if k == km.TabPieces then ui.(detailTab := 0)
    else if k == km.TabPeers then ui.(detailTab := 1)
    else if k == km.TabFiles then ui.(detailTab := FILES_TAB)
    else ui
  }

  predicate IsTabKey(km: KeyMap, k: string) {
    k == km.FocusNext || k == km.FocusPrev || k == km.TabNext || k == km.TabPrev
  }

  predicate IsLateTabKey(km: KeyMap, k: string) {
    k == km.ToggleMouse || k == km.TabPieces || k == km.TabPeers || k == km.TabFiles
  }

  function FilterKey(env: Env, m: Model, step: int): Next {
    Just(SelectSidebar(env, m, CurrentIndex(env, m.view) + step))
  }

  // The first binding of a key wins, in this order.
  function PaneKey(env: Env, m: Model, key: Key): Next {
    var km, k := env.km, key.name;
    if IsTabKey(km, k) then Just(m.(ui := TabKey(km, m.ui, k)))
    else if k == km.FilterNext then FilterKey(env, m, 1)
    else if k == km.FilterPrev then FilterKey(env, m, -1)
    else if IsLateTabKey(km, k) then Just(m.(ui := TabKey(km, m.ui, k)))
    else FocusedKey(env, m, key)
  }

  function FocusedKey(env: Env, m: Model, key: Key): Next {
    match m.ui.focus
    case OnSidebar => SidebarKey(env, m, key)
    case OnDetail => DetailKey(env, m, key)
    case OnList => ListKey(env, m, key)
  }

  // ------------------------------------------------------------------
  // The mouse
  // ------------------------------------------------------------------

  datatype Button = LeftPress | WheelUp | WheelDown | OtherButton

  function Scrolled(env: Env, m: Model, target: Geometry.Target, delta: int): Model {
    match target
    case OnSidebar(row) => SelectSidebar(env, m, CurrentIndex(env, m.view) + delta)
    case OnList(row) =>
      var n := |Visible(env, m.view)|;
      if n == 0 then m else Clamped(m.(cursor := m.cursor + delta), n)
    case _ => m
  }

  function Clicked(env: Env, m: Model, x: int, y: int): Model {
    var p := Geometry.Layout(m.ui.width, m.ui.height);
    match Geometry.HitTest(p, x, y)
    case OnSidebar(row) =>
      var rows := Geometry.SidebarRows(p.sidebarContentH, |env.labels(m.view.torrents)|, m.ui.vpnRequired);
      if row < 0 || row >= |rows| || rows[row] < 0 then m
      else SelectSidebar(env, m.(ui := m.ui.(focus := OnSidebar)), rows[row])
    case OnList(row) =>
      var n := |Visible(env, m.view)|;
      var i := Geometry.ClickedTorrent(p, x, y, m.cursor, n);
      if i.None? then m else m.(ui := m.ui.(focus := OnList), cursor := i.value)
    case OnTabs =>
      var tab := Geometry.TabAt(TABS, x - p.sidebarW - 1 - Geometry.PAD_X);
      if tab.None? then m else m.(ui := m.ui.(focus := OnDetail, detailTab := tab.value))
    case OnBody(row) => m.(ui := m.ui.(focus := OnDetail))
    case NoTarget => m
  }

  function HandleMouse(env: Env, m: Model, button: Button, x: int, y: int): Model {
    if m.ui.mouseOff || !m.ui.overlay.NoOverlay? || m.ui.width == 0 || m.ui.height == 0 then m
    else
      var target := Geometry.HitTest(Geometry.Layout(m.ui.width, m.ui.height), x, y);
      match button
      case WheelUp => Scrolled(env, m, target, -1)
      case WheelDown => Scrolled(env, m, target, 1)
      case LeftPress => Clicked(env, m, x, y)
      case OtherButton => m
  }

  // ------------------------------------------------------------------
  // Update
  // ------------------------------------------------------------------

  datatype Msg =
    | Resize(width: int, height: int)
    | Event(torrents: seq<Torrent>, vpnRequired: bool)
    | Mouse(button: Button, x: int, y: int)
    | TorrentsAdded(ids: seq<Id>)
    | KeyPress(key: Key)

  function Update(env: Env, m: Model, msg: Msg): Next {
    match msg
    case Resize(width, height) => Just(m.(ui := m.ui.(width := width, height := height)))
    case Event(torrents, vpnRequired) => Just(Snapshot(env, m, torrents, vpnRequired))
    case Mouse(button, x, y) => Just(HandleMouse(env, m, button, x, y))
    case TorrentsAdded(ids) => Just(m.(pendingReveal := ids))
    case KeyPress(key) => HandleKey(env, m, key)
  }

  function Init(sortKey: SortKey): Model {
    Model(View([], All, "", "", sortKey), 0, {}, 0, [],
          Ui(OnList, 0, Normal, "", NoOverlay, false, false, false, 0, 0, false))
  }
}
