// What keys and typed commands come to (internal/tui/update.go, palette.go):
// which of them asks the daemon for what, of which torrents, and how the
// others move through the interface.
module TuiKeys {
  import opened Runs
  import opened TuiModel
  import opened TuiTheorems
  import Palette

  // ------------------------------------------------------------------
  // What a key asks of the daemon
  // ------------------------------------------------------------------

  // The keys the list takes before its actions.
  function EarlyKeys(km: KeyMap): set<string> {
    {"d", km.Quit, km.Up, "up", km.Down, "down", km.Top, km.Bottom}
  }

  // Its actions, as the help screen lists them. Of two on one key the first
  // has it.
  function ActionKeys(km: KeyMap): seq<(string, Verb)> {
    [(km.Remove, DoRemove), (km.RemoveData, DoRemoveData), (km.Purge, DoPurge), (km.Pause, DoToggle),
     (km.Recheck, DoRecheck)]
  }

  // The commands that act, as the help screen lists them.
  const COMMANDS: map<string, Verb> := map[
    "rm" := DoRemove, "remove" := DoRemove, "rm!" := DoRemoveData, "remove!" := DoRemoveData, "purge" := DoPurge,
    "pause" := DoPause, "resume" := DoResume, "recheck" := DoRecheck, "label" := DoLabel]

  // The verb of the first of them, from the i-th on, that is on key k.
  function FirstOn(keys: seq<(string, Verb)>, k: string, i: nat): Option<Verb>
    decreases |keys| - i
  {
    if i >= |keys| then None else if keys[i].0 == k then Some(keys[i].1) else FirstOn(keys, k, i + 1)
  }

  // The verb of a key the list hears: two d within the chord's window remove.
  function KeyVerb(km: KeyMap, ui: Ui, key: Key): Option<Verb> {
    if key.name == "d" && ui.pendingDD && key.soon then Some(DoRemove)
    else if key.name in EarlyKeys(km) then None
    else FirstOn(ActionKeys(km), key.name, 0)
  }

  // Keys that never reach the list, from any pane.
  function GlobalKeys(km: KeyMap): set<string> {
    {"ctrl+c", km.FocusNext, km.FocusPrev, km.TabNext, km.TabPrev, km.FilterNext, km.FilterPrev, km.ToggleMouse,
     km.TabPieces, km.TabPeers, km.TabFiles}
  }

  // Keys the focused pane keeps to itself.
  function PaneKeys(km: KeyMap, ui: Ui): set<string> {
    match ui.focus
    case OnList => {}
    case OnSidebar => {km.Up, "up", km.Down, "down", km.Top, km.Bottom}
    case OnDetail =>
      {km.Up, "up", km.Down, "down", "+", "=", "-", "_"} + if ui.detailTab == FILES_TAB then {km.Select} else {}
  }

  // The list hears this key: nothing is open over it, no prompt is being
  // typed at, and no pane takes it.
  predicate ListHears(km: KeyMap, ui: Ui, k: string) {
    ui.overlay.NoOverlay? && ui.mode.Normal? && k !in GlobalKeys(km) && k !in PaneKeys(km, ui)
  }

  // The verb of a command line: its first word's; a move takes one argument.
  function LineVerb(line: string): Option<Verb> {
    WordsVerb(Palette.Args(line))
  }

  function WordsVerb(words: seq<string>): Option<Verb> {
    if words == [] then None
    else if words[0] in COMMANDS then Some(COMMANDS[words[0]])
    else if words[0] == "move" && |words| == 2 then Some(DoMove)
    else None
  }

  // What this key asks for.
  function Asked(env: Env, m: Model, key: Key): Option<Verb> {
    if ListHears(env.km, m.ui, key.name) then KeyVerb(env.km, m.ui, key)
    else if m.ui.overlay.NoOverlay? && m.ui.mode.Command? && key.name != "ctrl+c" && key.kind.Enter?
    then LineVerb(m.ui.commandBuf)
    else None
  }

  // The torrents it would be done to: a move takes the cursor's row, whatever
  // is marked.
  function AskedOf(env: Env, m: Model, verb: Verb): seq<Id> {
    var visible := Visible(env, m.view);
    if !verb.DoMove? then IdsOf(Targets(env, m))
    else if 0 <= m.cursor < |visible| then [visible[m.cursor].id]
    else []
  }

  // The one act of a verb on what there is to do it to.
  function ActOf(env: Env, m: Model, verb: Option<Verb>): Option<Act> {
    if verb.None? || AskedOf(env, m, verb.value) == [] then None
    else Some(Act(verb.value, AskedOf(env, m, verb.value)))
  }

  // Nothing an action reads of a model but what it lists and marks.
  lemma SameTargets(env: Env, m: Model, r: Model, verb: Option<Verb>)
    requires r.view == m.view && r.cursor == m.cursor && r.selected == m.selected
    ensures ActOf(env, r, verb) == ActOf(env, m, verb) && Targets(env, r) == Targets(env, m)
  {
  }

  lemma ActIs(env: Env, m: Model, verb: Verb)
    requires !verb.DoMove?
    ensures ActOnTargets(env, m, verb).act == ActOf(env, m, Some(verb))
  {
    assert |IdsOf(Targets(env, m))| == |Targets(env, m)|;
  }

  lemma CommandVerbIs(name: string)
    ensures CommandVerb(name) == if name in COMMANDS then Some(COMMANDS[name]) else None
    ensures "move" !in COMMANDS
  {
  }

  lemma WordsAct(env: Env, m: Model, words: seq<string>)
    ensures ExecWords(env, m, words).act == ActOf(env, m, WordsVerb(words))
  {
    if words != [] {
      CommandVerbIs(words[0]);
      if CommandVerb(words[0]).Some? {
        ActIs(env, m, CommandVerb(words[0]).value);
      }
    }
  }

  lemma FirstAction(km: KeyMap, k: string)
    ensures FirstOn(ActionKeys(km), k, 0) ==
            if k == km.Remove then Some(DoRemove) else if k == km.RemoveData then Some(DoRemoveData)
            else if k == km.Purge then Some(DoPurge) else if k == km.Pause then Some(DoToggle)
            else if k == km.Recheck then Some(DoRecheck) else None
  {
    var keys := ActionKeys(km);
    assert FirstOn(keys, k, 5) == None;
    assert FirstOn(keys, k, 4) == if k == km.Recheck then Some(DoRecheck) else None;
    assert FirstOn(keys, k, 3) == if k == km.Pause then Some(DoToggle) else FirstOn(keys, k, 4);
    assert FirstOn(keys, k, 2) == if k == km.Purge then Some(DoPurge) else FirstOn(keys, k, 3);
  }

  lemma ListActs(env: Env, m: Model, key: Key)
    ensures ListAction(env, m, key).act == ActOf(env, m, KeyVerb(env.km, m.ui, key))
  {
    FirstAction(env.km, key.name);
    var verb := KeyVerb(env.km, m.ui, key);
    if verb.Some? {
      ActIs(env, m, verb.value);
      ActIs(env, m.(ui := m.ui.(pendingDD := false)), verb.value);
      SameTargets(env, m, m.(ui := m.ui.(pendingDD := false)), verb);
    }
  }

  lemma ListKeyActs(env: Env, m: Model, key: Key)
    ensures ListKey(env, m, key).act == ActOf(env, m, KeyVerb(env.km, m.ui, key))
  {
    var heard := if key.name != "d" then m.(ui := m.ui.(pendingDD := false)) else m;
    ListActs(env, heard, key);
    SameTargets(env, m, heard, KeyVerb(env.km, m.ui, key));
  }

  lemma PaneActs(env: Env, m: Model, key: Key)
    requires m.ui.overlay.NoOverlay? && m.ui.mode.Normal? && key.name != "ctrl+c"
    ensures PaneKey(env, m, key).act ==
            if ListHears(env.km, m.ui, key.name) then ActOf(env, m, KeyVerb(env.km, m.ui, key)) else None
  {
    if key.name !in GlobalKeys(env.km) {
      assert PaneKey(env, m, key) == FocusedKey(env, m, key);
      FocusedActs(env, m, key);
    }
  }

  lemma FocusedActs(env: Env, m: Model, key: Key)
    ensures FocusedKey(env, m, key).act ==
            if key.name in PaneKeys(env.km, m.ui) then None else ActOf(env, m, KeyVerb(env.km, m.ui, key))
  {
    ListKeyActs(env, m, key);
    match m.ui.focus
    case OnSidebar =>
    case OnDetail =>
    case OnList =>
  }

  // In every state, of every key: the daemon is asked for something exactly
  // when the key, or the line that Enter ends, is one of those listed and
  // there is something to do it to; and then for that, of exactly the marked
  // torrents, or the cursor's when none is marked.
  lemma ActsExactly(env: Env, m: Model, key: Key)
    ensures HandleKey(env, m, key).act == ActOf(env, m, Asked(env, m, key))
  {
    if key.name != "ctrl+c" && m.ui.overlay.NoOverlay? {
      if m.ui.mode.Normal? {
        PaneActs(env, m, key);
      } else if m.ui.mode.Command? && key.kind.Enter? {
        var r := m.(ui := m.ui.(commandBuf := CommandTyped(m.ui.commandBuf, key), mode := Normal));
        WordsAct(env, r, Palette.Args(m.ui.commandBuf));
        SameTargets(env, m, r, LineVerb(m.ui.commandBuf));
      }
    }
  }

  // The words of a command line that ask for this.
  predicate LineSays(line: string, words: set<string>) {
    Palette.Args(line) != [] && Palette.Args(line)[0] in words
  }

  lemma KeyTells(km: KeyMap, ui: Ui, key: Key)
    ensures KeyVerb(km, ui, key) == Some(DoRemoveData) ==> key.name == km.RemoveData
    ensures KeyVerb(km, ui, key) == Some(DoPurge) ==> key.name == km.Purge
  {
    FirstAction(km, key.name);
  }

  lemma LineTells(line: string)
    ensures LineVerb(line) == Some(DoRemoveData) ==> LineSays(line, {"rm!", "remove!"})
    ensures LineVerb(line) == Some(DoPurge) ==> LineSays(line, {"purge"})
  {
  }

  // The key asks for data to go.
  predicate AsksForData(km: KeyMap, ui: Ui, key: Key, verb: Verb) {
    if ui.mode.Normal? then key.name == if verb == DoPurge then km.Purge else km.RemoveData
    else LineSays(ui.commandBuf, if verb == DoPurge then {"purge"} else {"rm!", "remove!"})
  }

  lemma AskedTells(env: Env, m: Model, key: Key, verb: Verb)
    requires Asked(env, m, key) == Some(verb) && (verb == DoRemoveData || verb == DoPurge)
    ensures AsksForData(env.km, m.ui, key, verb)
  {
    KeyTells(env.km, m.ui, key);
    LineTells(m.ui.commandBuf);
  }

  lemma KeyDeletesWhenAsked(env: Env, m: Model, key: Key)
    requires HandleKey(env, m, key).act.Some?
    requires HandleKey(env, m, key).act.value.verb == DoRemoveData || HandleKey(env, m, key).act.value.verb == DoPurge
    ensures var act := HandleKey(env, m, key).act.value;
            act.ids == IdsOf(Targets(env, m)) && AsksForData(env.km, m.ui, key, act.verb)
  {
    ActsExactly(env, m, key);
    AskedTells(env, m, key, Asked(env, m, key).value);
  }

  // So data is deleted only when that was asked for: by the key for it,
  // pressed at the list, or by a line that says so, and of the torrents meant.
  lemma DataGoesWhenAsked(env: Env, m: Model, msg: Msg, act: Act)
    requires Update(env, m, msg).act == Some(act) && (act.verb == DoRemoveData || act.verb == DoPurge)
    ensures msg.KeyPress? && act.ids == IdsOf(Targets(env, m)) && AsksForData(env.km, m.ui, msg.key, act.verb)
  {
    assert msg.KeyPress?;
    KeyDeletesWhenAsked(env, m, msg.key);
  }

  // ------------------------------------------------------------------
  // Quitting, and the chord
  // ------------------------------------------------------------------

  // What a key at the focused pane does to these two.
  lemma ListEnds(env: Env, m: Model, key: Key)
    ensures var r := ListKey(env, m, key).m.ui;
            && (r.quitting <==> m.ui.quitting || (key.name == env.km.Quit && key.name != "d"))
            && (r.pendingDD <==> key.name == "d" && !(m.ui.pendingDD && key.soon))
  {
    if key.name != "d" {
      ListActionEnds(env, m.(ui := m.ui.(pendingDD := false)), key);
    }
  }

  lemma ListActionEnds(env: Env, m: Model, key: Key)
    requires key.name != "d" && !m.ui.pendingDD
    ensures var r := ListAction(env, m, key).m.ui;
            (r.quitting <==> m.ui.quitting || key.name == env.km.Quit) && !r.pendingDD
  {
    if key.name != env.km.Quit {
      ActionEnds(env, m, key);
    }
  }

  lemma ActionEnds(env: Env, m: Model, key: Key)
    requires key.name != "d" && key.name != env.km.Quit
    ensures var r := ListAction(env, m, key).m.ui; r.quitting == m.ui.quitting && r.pendingDD == m.ui.pendingDD
  {
    LeadingEnds(env, m, key.name);
    ActionLeads(env, m, key);
  }

  lemma ActionLeads(env: Env, m: Model, key: Key)
    requires key.name != "d" && key.name != env.km.Quit
    ensures ListAction(env, m, key).m.ui == m.ui || ListAction(env, m, key) == LeadingKey(env, m, key.name)
  {
  }

  lemma LeadingEnds(env: Env, m: Model, k: string)
    ensures var r := LeadingKey(env, m, k).m.ui; r.quitting == m.ui.quitting && r.pendingDD == m.ui.pendingDD
  {
    BackEnds(env, m);
    if LeadingKey(env, m, k).m != Back(env, m) {
      LeadingElse(env, m, k);
    }
  }

  lemma BackEnds(env: Env, m: Model)
    ensures Back(env, m).ui == m.ui.(focus := OnList) && ToggleMark(env, m).ui == m.ui
  {
  }

  lemma LeadingElse(env: Env, m: Model, k: string)
    requires LeadingKey(env, m, k).m != Back(env, m)
    ensures var r := LeadingKey(env, m, k).m.ui; r.quitting == m.ui.quitting && r.pendingDD == m.ui.pendingDD
  {
  }

  lemma SelectEnds(env: Env, m: Model, i: int)
    ensures SelectSidebar(env, m, i).ui == m.ui
  {
  }

  lemma FocusedEnds(env: Env, m: Model, key: Key)
    ensures var r := FocusedKey(env, m, key).m.ui;
            var heard := key.name !in PaneKeys(env.km, m.ui);
            && (r.quitting <==> m.ui.quitting || (heard && key.name == env.km.Quit && key.name != "d"))
            && (r.pendingDD <==> if heard then key.name == "d" && !(m.ui.pendingDD && key.soon) else m.ui.pendingDD)
  {
    ListEnds(env, m, key);
    if key.name in PaneKeys(env.km, m.ui) {
      PaneKeeps(env, m, key);
    } else {
      PanePasses(env, m, key);
    }
  }

  lemma PanePasses(env: Env, m: Model, key: Key)
    requires key.name !in PaneKeys(env.km, m.ui)
    ensures FocusedKey(env, m, key) == ListKey(env, m, key)
  {
  }

  lemma PaneKeeps(env: Env, m: Model, key: Key)
    requires key.name in PaneKeys(env.km, m.ui)
    ensures FocusedKey(env, m, key).m.ui == m.ui
  {
    match m.ui.focus
    case OnSidebar => SidebarKeeps(env, m, key);
    case OnDetail =>
    case OnList =>
  }

  lemma SidebarKeeps(env: Env, m: Model, key: Key)
    requires key.name in {env.km.Up, "up", env.km.Down, "down", env.km.Top, env.km.Bottom}
    ensures SidebarKey(env, m, key).m.ui == m.ui
  {
    SelectEnds(env, m, CurrentIndex(env, m.view) - 1);
    SelectEnds(env, m, CurrentIndex(env, m.view) + 1);
    SelectEnds(env, m, 0);
    SelectEnds(env, m, |Entries(env, m.view.torrents)| - 1);
  }

  lemma PaneEnds(env: Env, m: Model, key: Key)
    requires m.ui.overlay.NoOverlay? && m.ui.mode.Normal? && key.name != "ctrl+c"
    ensures var r := PaneKey(env, m, key).m.ui;
            var heard := ListHears(env.km, m.ui, key.name);
            && (r.quitting <==> m.ui.quitting || (heard && key.name == env.km.Quit && key.name != "d"))
            && (r.pendingDD <==> if heard then key.name == "d" && !(m.ui.pendingDD && key.soon) else m.ui.pendingDD)
  {
    if key.name !in GlobalKeys(env.km) {
      assert PaneKey(env, m, key) == FocusedKey(env, m, key);
      FocusedEnds(env, m, key);
    } else {
      GlobalEnds(env, m, key);
    }
  }

  lemma GlobalEnds(env: Env, m: Model, key: Key)
    requires key.name in GlobalKeys(env.km) && key.name != "ctrl+c"
    ensures var r := PaneKey(env, m, key).m.ui; r.quitting == m.ui.quitting && r.pendingDD == m.ui.pendingDD
  {
    SelectEnds(env, m, CurrentIndex(env, m.view) - 1);
    SelectEnds(env, m, CurrentIndex(env, m.view) + 1);
    TabEnds(env.km, m.ui, key.name);
    GlobalIs(env, m, key);
  }

  lemma TabEnds(km: KeyMap, ui: Ui, k: string)
    ensures var r := TabKey(km, ui, k); r.quitting == ui.quitting && r.pendingDD == ui.pendingDD
  {
  }

  lemma GlobalIs(env: Env, m: Model, key: Key)
    requires key.name in GlobalKeys(env.km) && key.name != "ctrl+c"
    ensures PaneKey(env, m, key) in {
              Just(m.(ui := TabKey(env.km, m.ui, key.name))), FilterKey(env, m, 1), FilterKey(env, m, -1)}
  {
    var km, k := env.km, key.name;
    assert IsTabKey(km, k) || k == km.FilterNext || k == km.FilterPrev || IsLateTabKey(km, k);
  }

  lemma UiEnds(env: Env, ui: Ui, name: string, args: seq<string>)
    ensures var r := UiCommand(env, ui, name, args);
            (r.quitting <==> ui.quitting || name in {"q", "quit"}) && r.pendingDD == ui.pendingDD
  {
  }

  lemma WordsEnd(env: Env, m: Model, words: seq<string>)
    ensures var r := ExecWords(env, m, words).m.ui;
            && (r.quitting <==> m.ui.quitting || (words != [] && words[0] in {"q", "quit"}))
            && r.pendingDD == m.ui.pendingDD
  {
    if words != [] {
      UiEnds(env, m.ui, words[0], words[1..]);
      CommandVerbIs(words[0]);
    }
  }

  lemma CommandEnds(env: Env, m: Model, key: Key)
    ensures var r := CommandKey(env, m, key).m.ui;
            && (r.quitting <==> m.ui.quitting || (key.kind.Enter? && LineSays(m.ui.commandBuf, {"q", "quit"})))
            && r.pendingDD == m.ui.pendingDD
  {
    var ui := m.ui.(commandBuf := CommandTyped(m.ui.commandBuf, key), mode := Normal);
    WordsEnd(env, m.(ui := ui), Palette.Args(m.ui.commandBuf));
  }

  // The program ends on exactly these: ctrl+c anywhere, the quit key where the
  // list hears it, and a line that says so.
  lemma QuitsExactly(env: Env, m: Model, key: Key)
    requires !m.ui.quitting
    ensures HandleKey(env, m, key).m.ui.quitting
       <==> || key.name == "ctrl+c"
            || (ListHears(env.km, m.ui, key.name) && key.name == env.km.Quit && key.name != "d")
            || (m.ui.overlay.NoOverlay? && m.ui.mode.Command? && key.kind.Enter?
                && LineSays(m.ui.commandBuf, {"q", "quit"}))
  {
    if key.name != "ctrl+c" && m.ui.overlay.NoOverlay? {
      if m.ui.mode.Normal? {
        PaneEnds(env, m, key);
      } else if m.ui.mode.Command? {
        CommandEnds(env, m, key);
      }
    }
  }

  // Half a chord waits exactly after a d that the list heard and that was not
  // its second half; any other key that the list hears takes it away, and one
  // that it does not hear leaves it as it was.
  lemma ChordWaitsExactly(env: Env, m: Model, key: Key)
    ensures HandleKey(env, m, key).m.ui.pendingDD
       <==> if ListHears(env.km, m.ui, key.name) then key.name == "d" && !(m.ui.pendingDD && key.soon)
            else m.ui.pendingDD
  {
    if key.name != "ctrl+c" && m.ui.overlay.NoOverlay? {
      if m.ui.mode.Normal? {
        PaneEnds(env, m, key);
      } else if m.ui.mode.Command? {
        CommandEnds(env, m, key);
      }
    }
  }
}
