// How keys move through the interface (internal/tui/update.go, model.go): the
// cursor and the marks, the layers that escape peels, the prompts, the panes
// and their tabs, and what opens and closes. With the default keys.
module TuiMoves {
  import opened Runs
  import opened TuiModel
  import opened TuiTheorems
  import Palette

  // A key pressed once, and as often as that.
  function Press(env: Env, m: Model, name: string): Model {
    HandleKey(env, m, PressOf(name).key).m
  }

  function Times(f: Model -> Model, m: Model, k: nat): Model {
    if k == 0 then m else f(Times(f, m, k - 1))
  }

  function Pressing(env: Env, name: string): Model -> Model {
    m => Press(env, m, name)
  }

  // The list is in front and hears the default keys.
  predicate Listening(env: Env, m: Model) {
    && env.km == DEFAULT_KEYS && m.ui.overlay.NoOverlay? && m.ui.mode.Normal? && m.ui.focus.OnList?
    && !m.ui.pendingDD
  }

  lemma Heard(env: Env, m: Model, name: string)
    requires Listening(env, m) && name in {"j", "k", "g", "G", " ", "esc", "/", ":", "h", "?", "q", "f", "enter"}
    ensures HandleKey(env, m, PressOf(name).key) == ListAction(env, m, PressOf(name).key)
  {
    assert PaneKey(env, m, PressOf(name).key) == FocusedKey(env, m, PressOf(name).key);
    assert m.(ui := m.ui.(pendingDD := false)) == m;
  }

  // ------------------------------------------------------------------
  // The cursor
  // ------------------------------------------------------------------

  lemma DownKey(env: Env, m: Model)
    requires Listening(env, m)
    ensures Press(env, m, "j") == m.(cursor := if m.cursor < |Visible(env, m.view)| - 1 then m.cursor + 1 else m.cursor)
  {
    Heard(env, m, "j");
  }

  lemma UpKey(env: Env, m: Model)
    requires Listening(env, m)
    ensures Press(env, m, "k") == m.(cursor := if m.cursor > 0 then m.cursor - 1 else m.cursor)
  {
    Heard(env, m, "k");
  }

  lemma TopKey(env: Env, m: Model)
    requires Listening(env, m)
    ensures Press(env, m, "g") == m.(cursor := 0)
  {
    Heard(env, m, "g");
  }

  lemma BottomKey(env: Env, m: Model)
    requires Listening(env, m)
    ensures Press(env, m, "G") ==
            m.(cursor := if |Visible(env, m.view)| > 0 then |Visible(env, m.view)| - 1 else m.cursor)
  {
    Heard(env, m, "G");
  }

  // k rows further down of n, as far as there are any.
  function DownFrom(cursor: int, n: nat, k: nat): int {
    if cursor + k < n then cursor + k else if n > 0 then n - 1 else 0
  }

  function UpFrom(cursor: int, k: nat): int {
    if k < cursor then cursor - k else 0
  }

  function At(r: Model, cursor: int): Model {
    r.(cursor := cursor)
  }

  // What moves the cursor of r one row at a time moves it k rows in k times.
  lemma {:induction false} DownTimes(f: Model -> Model, r: Model, n: nat, k: nat)
    requires CursorIn(r.cursor, n)
    requires forall c :: f(At(r, c)) == At(r, if c < n - 1 then c + 1 else c)
    ensures Times(f, r, k) == At(r, DownFrom(r.cursor, n, k))
  {
    if k > 0 {
      DownTimes(f, r, n, k - 1);
      assert Times(f, r, k) == f(At(r, DownFrom(r.cursor, n, k - 1)));
    }
  }

  lemma {:induction false} UpTimes(f: Model -> Model, r: Model, k: nat)
    requires r.cursor >= 0
    requires forall c :: f(At(r, c)) == At(r, if c > 0 then c - 1 else c)
    ensures Times(f, r, k) == At(r, UpFrom(r.cursor, k))
  {
    if k > 0 {
      UpTimes(f, r, k - 1);
      assert Times(f, r, k) == f(At(r, UpFrom(r.cursor, k - 1)));
    }
  }

  // From the top of the list, k presses of down stand on row k, or on the
  // last; nothing else has changed.
  lemma DownCounts(env: Env, m: Model, k: nat)
    requires Listening(env, m) && Inv(env, m)
    ensures var n := |Visible(env, m.view)|;
            Times(Pressing(env, "j"), Press(env, m, "g"), k) == At(m, DownFrom(0, n, k))
  {
    TopKey(env, m);
    var r := At(m, 0);
    forall c
      ensures Pressing(env, "j")(At(r, c)) == At(r, if c < |Visible(env, m.view)| - 1 then c + 1 else c)
    {
      DownKey(env, At(r, c));
    }
    DownTimes(Pressing(env, "j"), r, |Visible(env, m.view)|, k);
  }

  // From its bottom, k presses of up stand k rows above the last, or on the
  // first.
  lemma UpCounts(env: Env, m: Model, k: nat)
    requires Listening(env, m) && Inv(env, m)
    ensures var n := |Visible(env, m.view)|;
            Times(Pressing(env, "k"), Press(env, m, "G"), k) == At(m, UpFrom(n - 1, k))
  {
    BottomKey(env, m);
    var n := |Visible(env, m.view)|;
    var r := At(m, if n > 0 then n - 1 else m.cursor);
    forall c
      ensures Pressing(env, "k")(At(r, c)) == At(r, if c > 0 then c - 1 else c)
    {
      UpKey(env, At(r, c));
    }
    UpTimes(Pressing(env, "k"), r, k);
  }

  // ------------------------------------------------------------------
  // The marks
  // ------------------------------------------------------------------

  // Space marks the cursor's torrent, or unmarks it, touches no other mark,
  // and goes on to the next row.
  lemma MarkFlips(env: Env, m: Model)
    requires Listening(env, m) && Inv(env, m)
    ensures var visible := Visible(env, m.view);
            var r := Press(env, m, " ");
            && r == m.(cursor := r.cursor, selected := r.selected)
            && r.cursor == (if m.cursor < |visible| - 1 then m.cursor + 1 else m.cursor)
            && (forall id :: id in r.selected <==>
                  (id in m.selected) != (0 <= m.cursor < |visible| && id == visible[m.cursor].id))
  {
    Heard(env, m, " ");
    assert ListAction(env, m, PressOf(" ").key) == Just(ToggleMark(env, m));
    MarkIs(env, m);
  }

  lemma MarkIs(env: Env, m: Model)
    requires CursorIn(m.cursor, |Visible(env, m.view)|)
    ensures var visible := Visible(env, m.view);
            var r := ToggleMark(env, m);
            && r == m.(cursor := r.cursor, selected := r.selected)
            && r.cursor == (if m.cursor < |visible| - 1 then m.cursor + 1 else m.cursor)
            && (forall id :: id in r.selected <==>
                  (id in m.selected) != (0 <= m.cursor < |visible| && id == visible[m.cursor].id))
  {
  }

  // ------------------------------------------------------------------
  // Escape
  // ------------------------------------------------------------------

  // What lies over the plain list, the outermost layer first: another pane's
  // focus, marks, a search, a label and a status.
  function Layers(m: Model): seq<bool> {
    [!m.ui.focus.OnList?, m.selected != {}, m.view.searchQuery != "", m.view.labelFilter != "", m.view.filter != All]
  }

  // A layer lies over the i-th.
  predicate Covered(layers: seq<bool>, i: nat) {
    exists j :: 0 <= j < i && j < |layers| && layers[j]
  }

  // Escape takes off exactly the outermost layer, and puts none on: after it
  // a layer is there exactly when it was and another lay over it.
  lemma BackPeels(env: Env, m: Model)
    ensures Back(env, m).view.torrents == m.view.torrents
    ensures forall i | 0 <= i < 5 :: Layers(Back(env, m))[i] <==> Layers(m)[i] && Covered(Layers(m), i)
  {
    var before, after := Layers(m), Layers(Back(env, m));
    assert before[0] ==> after == before[0 := false];
    assert !before[0] && before[1] ==> after == before[1 := false];
    assert !before[0] && !before[1] && before[2] ==> after == before[2 := false];
    assert !before[0] && !before[1] && !before[2] && before[3] ==> after == before[3 := false];
    FirstTakenOff(before, after);
  }

  lemma FirstTakenOff(before: seq<bool>, after: seq<bool>)
    requires |before| == |after| == 5
    requires before[0] ==> after == before[0 := false]
    requires !before[0] && before[1] ==> after == before[1 := false]
    requires !before[0] && !before[1] && before[2] ==> after == before[2 := false]
    requires !before[0] && !before[1] && !before[2] && before[3] ==> after == before[3 := false]
    requires !before[0] && !before[1] && !before[2] && !before[3] ==> after == before[4 := false]
    ensures forall i | 0 <= i < 5 :: after[i] <==> before[i] && Covered(before, i)
  {
  }

  function Backs(env: Env, m: Model, k: nat): Model {
    if k == 0 then m else Back(env, Backs(env, m, k - 1))
  }

  // So k presses take off the k outermost, and five lead back to the plain
  // list.
  lemma {:induction false} BacksPeel(env: Env, m: Model, k: nat)
    requires k <= 5
    ensures forall i | 0 <= i < k :: !Layers(Backs(env, m, k))[i]
  {
    if k > 0 {
      BacksPeel(env, m, k - 1);
      BackPeels(env, Backs(env, m, k - 1));
    }
  }

  // ------------------------------------------------------------------
  // Prompts
  // ------------------------------------------------------------------

  // Keys that are text.
  predicate IsText(key: Key) {
    key.name != "ctrl+c" && (key.kind.Runes? || key.kind.Space?)
  }

  predicate AllText(keys: seq<Key>) {
    forall key | key in keys :: IsText(key)
  }

  // What they spell.
  function Text(keys: seq<Key>): string {
    if keys == [] then ""
    else
      var last := keys[|keys| - 1];
      Text(keys[..|keys| - 1]) + if last.kind.Space? then " " else last.runes
  }

  function Fold(f: (Model, Key) -> Model, m: Model, keys: seq<Key>): Model {
    if keys == [] then m else f(Fold(f, m, keys[..|keys| - 1]), keys[|keys| - 1])
  }

  function AfterKey(env: Env): (Model, Key) -> Model {
    (m: Model, key: Key) => HandleKey(env, m, key).m
  }

  // A text typed where each key puts what it spells at the end.
  ghost predicate Spells(f: (Model, Key) -> Model, line: Model -> string, m: Model) {
    forall x: Model, key: Key | x.ui.overlay == m.ui.overlay && x.ui.mode == m.ui.mode && IsText(key) ::
      && line(f(x, key)) == line(x) + (if key.kind.Space? then " " else key.runes)
      && f(x, key).ui.overlay == m.ui.overlay && f(x, key).ui.mode == m.ui.mode
  }

  lemma {:induction false} TextTyped(f: (Model, Key) -> Model, line: Model -> string, m: Model, keys: seq<Key>)
    requires Spells(f, line, m) && AllText(keys)
    ensures var r := Fold(f, m, keys);
            line(r) == line(m) + Text(keys) && r.ui.overlay == m.ui.overlay && r.ui.mode == m.ui.mode
    decreases |keys|
  {
    if keys != [] {
      var n := |keys| - 1;
      TextTyped(f, line, m, keys[..n]);
      var before := Fold(f, m, keys[..n]);
      assert keys[n] in keys && Fold(f, m, keys) == f(before, keys[n]);
      OneTyped(f, line, m, before, keys[n]);
    }
  }

  lemma OneTyped(f: (Model, Key) -> Model, line: Model -> string, m: Model, x: Model, key: Key)
    requires Spells(f, line, m) && x.ui.overlay == m.ui.overlay && x.ui.mode == m.ui.mode && IsText(key)
    ensures line(f(x, key)) == line(x) + (if key.kind.Space? then " " else key.runes)
    ensures f(x, key).ui.overlay == m.ui.overlay && f(x, key).ui.mode == m.ui.mode
  {
  }

  function Query(m: Model): string {
    m.view.searchQuery
  }

  function Line(m: Model): string {
    m.ui.commandBuf
  }

  lemma SearchSpells(env: Env, m: Model)
    requires m.ui.overlay.NoOverlay? && m.ui.mode.Search?
    ensures Spells(AfterKey(env), Query, m)
  {
  }

  lemma CommandSpells(env: Env, m: Model)
    requires m.ui.overlay.NoOverlay? && m.ui.mode.Command?
    ensures Spells(AfterKey(env), Line, m)
  {
  }

  // A search is what has been typed, whatever the keys are bound to; enter
  // keeps it, escape takes it back whole, and backspace its last character.
  lemma SearchEnds(env: Env, m: Model, keys: seq<Key>, last: Key)
    requires m.ui.overlay.NoOverlay? && m.ui.mode.Search? && AllText(keys) && last.name != "ctrl+c"
    ensures var query := m.view.searchQuery + Text(keys);
            var r := HandleKey(env, Fold(AfterKey(env), m, keys), last).m;
            && (last.kind.Enter? ==> r.view.searchQuery == query && r.ui.mode.Normal?)
            && (last.kind.Esc? ==> r.view.searchQuery == "" && r.ui.mode.Normal?)
            && (last.kind.Backspace? ==>
                  r.ui.mode.Search? && r.view.searchQuery == if query == "" then "" else query[..|query| - 1])
  {
    SearchSpells(env, m);
    TextTyped(AfterKey(env), Query, m, keys);
  }

  // Typing at the command line changes the line and nothing else.
  lemma {:induction false} OnlyTheLine(env: Env, m: Model, keys: seq<Key>)
    requires m.ui.overlay.NoOverlay? && m.ui.mode.Command? && AllText(keys)
    ensures var r := Fold(AfterKey(env), m, keys); r == m.(ui := m.ui.(commandBuf := r.ui.commandBuf))
    decreases |keys|
  {
    if keys != [] {
      OnlyTheLine(env, m, keys[..|keys| - 1]);
      assert keys[|keys| - 1] in keys;
    }
  }

  // A colon, a text and enter run that text as a line, from the model as it
  // was; a text and escape do nothing; and backspace takes one character off.
  lemma CommandRuns(env: Env, m: Model, keys: seq<Key>, last: Key)
    requires Listening(env, m) && AllText(keys) && last.name != "ctrl+c"
    ensures var plain := m.(ui := m.ui.(commandBuf := ""));
            var text := Text(keys);
            var r := HandleKey(env, Fold(AfterKey(env), Press(env, m, ":"), keys), last);
            && (last.kind.Enter? ==> r == ExecCommand(env, plain, text))
            && (last.kind.Esc? ==> r == Just(plain))
            && (last.kind.Backspace? ==> r == Just(plain.(ui := plain.ui.(
                  mode := Command, commandBuf := if text == "" then "" else text[..|text| - 1]))))
  {
    LineTyped(env, m, keys);
    LineEnds(env, m.(ui := m.ui.(mode := Command, commandBuf := Text(keys))), last);
    assert m.ui.(mode := Normal) == m.ui;
  }

  lemma LineTyped(env: Env, m: Model, keys: seq<Key>)
    requires Listening(env, m) && AllText(keys)
    ensures Fold(AfterKey(env), Press(env, m, ":"), keys) == m.(ui := m.ui.(mode := Command, commandBuf := Text(keys)))
  {
    Heard(env, m, ":");
    var prompt := m.(ui := m.ui.(mode := Command, commandBuf := ""));
    assert Press(env, m, ":") == prompt;
    CommandSpells(env, prompt);
    TextTyped(AfterKey(env), Line, prompt, keys);
    OnlyTheLine(env, prompt, keys);
    assert Line(prompt) + Text(keys) == Text(keys);
  }

  lemma LineEnds(env: Env, m: Model, last: Key)
    requires m.ui.overlay.NoOverlay? && m.ui.mode.Command? && last.name != "ctrl+c"
    ensures var plain := m.(ui := m.ui.(mode := Normal, commandBuf := ""));
            var text := m.ui.commandBuf;
            var r := HandleKey(env, m, last);
            && (last.kind.Enter? ==> r == ExecCommand(env, plain, text))
            && (last.kind.Esc? ==> r == Just(plain))
            && (last.kind.Backspace? ==>
                  r == Just(m.(ui := m.ui.(commandBuf := if text == "" then "" else text[..|text| - 1]))))
  {
  }

  // ------------------------------------------------------------------
  // Panes, tabs and overlays
  // ------------------------------------------------------------------

  predicate Open(env: Env, m: Model) {
    env.km == DEFAULT_KEYS && m.ui.overlay.NoOverlay? && m.ui.mode.Normal?
  }

  // Tab goes round the three panes, list, detail, sidebar, and shift+tab goes
  // back where it came from.
  lemma FocusGoesRound(env: Env, m: Model)
    requires Open(env, m)
    ensures Press(env, Press(env, Press(env, m, "tab"), "tab"), "tab") == m
    ensures Press(env, Press(env, m, "tab"), "shift+tab") == m && Press(env, Press(env, m, "shift+tab"), "tab") == m
    ensures m.ui.focus.OnList? ==> Press(env, m, "tab").ui.focus.OnDetail?
    ensures m.ui.focus.OnDetail? ==> Press(env, m, "tab").ui.focus.OnSidebar?
  {
    FocusKeys(env, m);
    var a := Press(env, m, "tab");
    FocusKeys(env, a);
    FocusKeys(env, Press(env, m, "shift+tab"));
    var b := Press(env, a, "tab");
    FocusKeys(env, b);
  }

  lemma FocusKeys(env: Env, m: Model)
    requires Open(env, m)
    ensures Press(env, m, "tab") == m.(ui := m.ui.(focus := NextFocus(m.ui.focus)))
    ensures Press(env, m, "shift+tab") == m.(ui := m.ui.(focus := NextFocus(NextFocus(m.ui.focus))))
  {
  }

  // The brackets go round the tabs, and each undoes the other; the digits
  // lead to the tabs by their place, from any pane.
  lemma TabsGoRound(env: Env, m: Model)
    requires Open(env, m) && m.ui.detailTab < |TABS|
    ensures Press(env, m, "]").ui.detailTab == (m.ui.detailTab + 1) % 3
    ensures Press(env, Press(env, m, "]"), "[") == m && Press(env, Press(env, m, "["), "]") == m
  {
    BracketKeys(env, m);
    BracketKeys(env, m.(ui := m.ui.(detailTab := (m.ui.detailTab + 1) % 3)));
    BracketKeys(env, m.(ui := m.ui.(detailTab := (m.ui.detailTab + 2) % 3)));
  }

  lemma BracketKeys(env: Env, m: Model)
    requires Open(env, m)
    ensures Press(env, m, "]") == m.(ui := m.ui.(detailTab := (m.ui.detailTab + 1) % 3))
    ensures Press(env, m, "[") == m.(ui := m.ui.(detailTab := (m.ui.detailTab + 2) % 3))
  {
  }

  lemma TabKeys(env: Env, m: Model)
    requires Open(env, m)
    ensures Press(env, m, "1") == m.(ui := m.ui.(detailTab := 0)) && TABS[0] == "Pieces"
    ensures Press(env, m, "2") == m.(ui := m.ui.(detailTab := 1)) && TABS[1] == "Peers"
    ensures Press(env, m, "3") == m.(ui := m.ui.(detailTab := 2)) && TABS[2] == "Files"
  {
  }

  // The mouse is handed over, and taken again, by the same key.
  lemma MouseTogglesBack(env: Env, m: Model)
    requires Open(env, m)
    ensures Press(env, m, "m").ui.mouseOff != m.ui.mouseOff && Press(env, Press(env, m, "m"), "m") == m
  {
    MouseKey(env, m);
    MouseKey(env, m.(ui := m.ui.(mouseOff := !m.ui.mouseOff)));
  }

  lemma MouseKey(env: Env, m: Model)
    requires Open(env, m)
    ensures Press(env, m, "m") == m.(ui := m.ui.(mouseOff := !m.ui.mouseOff))
  {
  }

  // The help screen, which either of its keys opens, is closed by any key,
  // and that key does nothing else.
  lemma HelpSwallowsOneKey(env: Env, m: Model, key: Key)
    requires Listening(env, m) && key.name != "ctrl+c"
    ensures Press(env, m, "h").ui.overlay.Help? && Press(env, m, "?") == Press(env, m, "h")
    ensures HandleKey(env, Press(env, m, "h"), key) == Just(m)
  {
    Heard(env, m, "h");
    Heard(env, m, "?");
    assert m.ui.(overlay := NoOverlay) == m.ui;
  }

  // While a window is open over it no key reaches the list: what it shows,
  // its cursor and its marks stay as they are, and nothing is asked for.
  lemma OverlaySwallows(env: Env, m: Model, key: Key)
    requires !m.ui.overlay.NoOverlay?
    ensures var r := HandleKey(env, m, key); r.act.None? && r.m == m.(ui := r.m.ui)
  {
  }

  // ctrl+c quits from everywhere.
  lemma InterruptQuits(env: Env, m: Model, key: Key)
    requires key.name == "ctrl+c"
    ensures HandleKey(env, m, key) == Just(m.(ui := m.ui.(quitting := true)))
  {
  }

  // ------------------------------------------------------------------
  // Windows
  // ------------------------------------------------------------------

  // A window is closed by exactly these keys, and nothing else changes: but
  // from the results of a search its key leads back to the prompt.
  predicate Closes(km: KeyMap, overlay: Overlay, key: Key) {
    match overlay
    case Help => true
    case ThemePicker => key.name in {"esc", km.Back, "enter", km.Select}
    case FindResults => key.name in {"esc", km.Back, km.Find} || (key.name == "enter" && key.opens)
    case NoOverlay => false
  }

  lemma ClosesExactly(env: Env, m: Model, key: Key)
    requires !m.ui.overlay.NoOverlay? && key.name != "ctrl+c"
    ensures var r := HandleKey(env, m, key).m;
            && r == m.(ui := m.ui.(overlay := r.ui.overlay, mode := r.ui.mode))
            && (r.ui.overlay == if Closes(env.km, m.ui.overlay, key) then NoOverlay else m.ui.overlay)
            && (r.ui.mode != m.ui.mode ==>
                  r.ui.mode.FindPrompt? && m.ui.overlay.FindResults? && key.name == env.km.Find)
  {
  }

  // A search for torrents: escape at the prompt goes back to the list as it
  // was; enter shows results, from which escape goes back there too, and the
  // key that opened the prompt opens it again.
  lemma FindGoesBack(env: Env, m: Model, key: Key)
    requires Listening(env, m) && env.canFind && key.name != "ctrl+c"
    ensures var prompt := Press(env, m, "f");
            && prompt == m.(ui := m.ui.(mode := FindPrompt))
            && (key.kind.Esc? ==> HandleKey(env, prompt, key).m == m)
            && (key.kind.Enter? ==>
                  var results := HandleKey(env, prompt, key).m;
                  if !key.opens then results == prompt
                  else && results.ui.overlay.FindResults?
                       && Press(env, results, "esc") == m && Press(env, results, "f") == prompt)
  {
    Heard(env, m, "f");
    assert m.ui.(mode := Normal) == m.ui;
    var results := m.(ui := m.ui.(overlay := FindResults));
    assert results.(ui := results.ui.(overlay := NoOverlay)) == m;
    assert results.(ui := results.ui.(overlay := NoOverlay, mode := FindPrompt)) == m.(ui := m.ui.(mode := FindPrompt));
  }

  // The search key opens its prompt, and enter at once leaves everything as it
  // was; the detail key brings the keys to that pane, and escape back.
  lemma PromptAndPaneGoBack(env: Env, m: Model, key: Key)
    requires Listening(env, m) && Inv(env, m) && key.kind.Enter? && key.name != "ctrl+c"
    ensures Press(env, m, "/") == m.(ui := m.ui.(mode := Search)) && HandleKey(env, Press(env, m, "/"), key).m == m
    ensures Press(env, m, "enter") == m.(ui := m.ui.(focus := OnDetail))
    ensures Press(env, Press(env, m, "enter"), "esc") == m
  {
    Heard(env, m, "/");
    SearchCloses(env, m.(ui := m.ui.(mode := Search)), key);
    Heard(env, m, "enter");
    DetailCloses(env, m.(ui := m.ui.(focus := OnDetail)));
    assert m.ui.(mode := Normal) == m.ui && m.ui.(focus := OnList) == m.ui;
  }

  lemma SearchCloses(env: Env, m: Model, key: Key)
    requires m.ui.overlay.NoOverlay? && m.ui.mode.Search? && Inv(env, m) && key.kind.Enter? && key.name != "ctrl+c"
    ensures HandleKey(env, m, key).m == m.(ui := m.ui.(mode := Normal))
  {
  }

  lemma DetailCloses(env: Env, m: Model)
    requires Open(env, m) && m.ui.focus.OnDetail? && !m.ui.pendingDD
    ensures Press(env, m, "esc") == m.(ui := m.ui.(focus := OnList))
  {
    var key := PressOf("esc").key;
    assert PaneKey(env, m, key) == FocusedKey(env, m, key) == ListKey(env, m, key);
    assert m.(ui := m.ui.(pendingDD := false)) == m;
  }

  // The commands that have a key do what it does; without a search engine
  // neither opens its prompt.
  lemma CommandsAreKeys(env: Env, m: Model)
    requires Listening(env, m)
    ensures ExecWords(env, m, ["help"]) == Just(Press(env, m, "h"))
    ensures ExecWords(env, m, ["mouse"]) == Just(Press(env, m, "m"))
    ensures ExecWords(env, m, ["find"]) == Just(Press(env, m, "f"))
    ensures !env.canFind ==> Press(env, m, "f") == m
    ensures ExecWords(env, m, ["quit"]) == ExecWords(env, m, ["q"]) == Just(Press(env, m, "q"))
    ensures Press(env, m, "q") == m.(ui := m.ui.(quitting := true))
  {
    HelpKey(env, m);
    FindKey(env, m);
    QuitKey(env, m);
    MouseKey(env, m);
    UiWord(env, m, "help");
    UiWord(env, m, "mouse");
    UiWord(env, m, "find");
    UiWord(env, m, "quit");
    UiWord(env, m, "q");
    WordsAre(env, m.ui);
  }

  lemma UiWord(env: Env, m: Model, name: string)
    requires name in {"help", "mouse", "find", "quit", "q", "theme"}
    ensures ExecWords(env, m, [name]) == Just(m.(ui := UiCommand(env, m.ui, name, [])))
  {
  }

  lemma WordsAre(env: Env, ui: Ui)
    ensures UiCommand(env, ui, "help", []) == ui.(overlay := Help)
    ensures UiCommand(env, ui, "mouse", []) == ui.(mouseOff := !ui.mouseOff)
    ensures UiCommand(env, ui, "find", []) == if env.canFind then ui.(mode := FindPrompt) else ui
    ensures UiCommand(env, ui, "quit", []) == UiCommand(env, ui, "q", []) == ui.(quitting := true)
  {
  }

  lemma HelpKey(env: Env, m: Model)
    requires Listening(env, m)
    ensures Press(env, m, "h") == m.(ui := m.ui.(overlay := Help))
  {
    Heard(env, m, "h");
  }

  lemma FindKey(env: Env, m: Model)
    requires Listening(env, m)
    ensures Press(env, m, "f") == if env.canFind then m.(ui := m.ui.(mode := FindPrompt)) else m
  {
    Heard(env, m, "f");
  }

  lemma QuitKey(env: Env, m: Model)
    requires Listening(env, m)
    ensures Press(env, m, "q") == m.(ui := m.ui.(quitting := true))
  {
    Heard(env, m, "q");
  }

  // The picker opens when there are themes to pick from, and escape closes it
  // on the list as it was.
  lemma ThemesGoBack(env: Env, m: Model)
    requires Listening(env, m)
    ensures var picking := ExecWords(env, m, ["theme"]).m;
            && (picking.ui.overlay.ThemePicker? <==> env.hasThemes)
            && (if env.hasThemes then Press(env, picking, "esc") == m else picking == m)
  {
    assert m.ui.(overlay := NoOverlay) == m.ui;
  }

  // Words after find are searched for at once, unless all of them are blank.
  lemma FindSearches(env: Env, m: Model, words: seq<string>)
    requires Listening(env, m) && env.canFind && words != []
    ensures var r := ExecWords(env, m, ["find"] + words);
            && r == Just(m.(ui := m.ui.(overlay := r.m.ui.overlay)))
            && (r.m.ui.overlay.FindResults? <==> exists i :: 0 <= i < |words| && Palette.TrimSpace(words[i]) != "")
  {
    assert (["find"] + words)[1..] == words;
  }

  // ------------------------------------------------------------------
  // Order and sidebar
  // ------------------------------------------------------------------

  const COLUMNS: seq<string> := ["name", "size", "progress", "ratio", "eta", "added", "down", "up"]

  // A sort command takes one of the columns, and is down the list only when
  // the next word says so; the torrents and the filters stay as they are. Any
  // other word changes nothing.
  lemma SortsExactly(env: Env, m: Model, args: seq<string>)
    ensures var r := ExecWords(env, m, ["sort"] + args);
            if args != [] && args[0] in COLUMNS
            then r.act.None? && r.m.view == m.view.(sortKey := SortKey(args[0], |args| > 1 && args[1] == "desc"))
            else r == Just(m)
  {
    assert (["sort"] + args)[1..] == args;
    assert args != [] ==> (IsColumn(args[0]) <==> args[0] in COLUMNS) by {
      ColumnsAre(if args == [] then "" else args[0]);
    }
  }

  lemma ColumnsAre(s: string)
    ensures IsColumn(s) <==> s in COLUMNS
  {
    assert COLUMNS[0] == "name" && COLUMNS[1] == "size" && COLUMNS[2] == "progress" && COLUMNS[3] == "ratio";
    assert COLUMNS[4] == "eta" && COLUMNS[5] == "added" && COLUMNS[6] == "down" && COLUMNS[7] == "up";
  }

  // In the sidebar up and down do what the filter keys do everywhere; top is
  // the plain list, and bottom the last entry there is.
  lemma SidebarEnds(env: Env, m: Model)
    requires Open(env, m) && m.ui.focus.OnSidebar?
    ensures Press(env, m, "j") == Press(env, m, "}") && Press(env, m, "k") == Press(env, m, "{")
    ensures Press(env, m, "g").view == m.view.(filter := All, labelFilter := "")
    ensures Press(env, m, "G").view ==
            ApplyEntry(m.view, Entries(env, m.view.torrents)[|Entries(env, m.view.torrents)| - 1])
  {
    SidebarSteps(env, m);
    SidebarTop(env, m);
    SidebarBottom(env, m);
    SelectIs(env, m, 0);
    SelectIs(env, m, |Entries(env, m.view.torrents)| - 1);
  }

  lemma SidebarSteps(env: Env, m: Model)
    requires Open(env, m) && m.ui.focus.OnSidebar?
    ensures Press(env, m, "j") == Press(env, m, "}") && Press(env, m, "k") == Press(env, m, "{")
  {
    SidebarKeys(env, m, "j");
    SidebarKeys(env, m, "k");
    assert Press(env, m, "}") == FilterKey(env, m, 1).m && Press(env, m, "{") == FilterKey(env, m, -1).m;
  }

  lemma SidebarKeys(env: Env, m: Model, name: string)
    requires Open(env, m) && m.ui.focus.OnSidebar? && name in {"j", "k", "g", "G"}
    ensures Press(env, m, name) == SidebarKey(env, m, PressOf(name).key).m
  {
    assert PaneKey(env, m, PressOf(name).key) == FocusedKey(env, m, PressOf(name).key);
  }

  lemma SidebarTop(env: Env, m: Model)
    requires Open(env, m) && m.ui.focus.OnSidebar?
    ensures Press(env, m, "g") == SelectSidebar(env, m, 0)
  {
    SidebarKeys(env, m, "g");
  }

  lemma SidebarBottom(env: Env, m: Model)
    requires Open(env, m) && m.ui.focus.OnSidebar?
    ensures Press(env, m, "G") == SelectSidebar(env, m, |Entries(env, m.view.torrents)| - 1)
  {
    SidebarKeys(env, m, "G");
  }

  lemma SelectIs(env: Env, m: Model, i: nat)
    requires i < |Entries(env, m.view.torrents)|
    ensures SelectSidebar(env, m, i).view == ApplyEntry(m.view, Entries(env, m.view.torrents)[i])
    ensures i == 0 ==> SelectSidebar(env, m, i).view == m.view.(filter := All, labelFilter := "")
  {
    assert Entries(env, m.view.torrents)[0] == Status(STATUSES[0]);
  }

  // A torrent is under no status but All exactly when it neither transfers
  // nor is stopped and has not all of what is known of it.
  lemma UnderAllAlone(t: Torrent)
    ensures (forall f: StatusFilter | Matches(f, t) :: f == All)
       <==> && (t.state == Checking || t.state == Queued || t.state == PausedState) && !t.paused
            && (t.total == 0 || t.completed < t.total)
    ensures !(Matches(OnlyDownloading, t) && Matches(OnlySeeding, t))
    ensures t.state == Downloading ==> Matches(OnlyDownloading, t)
  {
    assert Matches(OnlyDownloading, t) <==> t.state == Downloading;
    assert Matches(OnlySeeding, t) <==> t.state == Seeding;
    assert Matches(OnlyCompleted, t) <==> t.total > 0 && t.completed >= t.total;
    assert Matches(OnlyStopped, t) ==> t.paused || t.state == Failed || t.state == Blocked || t.state == LowDisk;
  }

  // The interface starts on the plain list, with nothing open and the mouse
  // its own.
  lemma StartsPlain(env: Env, sortKey: SortKey)
    requires env.km == DEFAULT_KEYS
    ensures Listening(env, Init(sortKey)) && !Init(sortKey).ui.mouseOff && !Init(sortKey).ui.quitting
    ensures forall i | 0 <= i < 5 :: !Layers(Init(sortKey))[i]
    ensures TABS[Init(sortKey).ui.detailTab] == "Pieces" && Init(sortKey).pendingReveal == []
  {
  }
}
