// The mouse over the panes (internal/tui/mouse.go): what a click picks is what
// is drawn under it, and the wheel does what the keys do.
module TuiMouse {
  import opened Runs
  import opened TuiModel
  import opened TuiTheorems
  import opened TuiMoves
  import TuiSidebar
  import Geometry

  // The mouse is heard: it has not been handed over, no window is open, and
  // the panes are drawn.
  predicate Live(m: Model) {
    && !m.ui.mouseOff && m.ui.overlay.NoOverlay?
    && m.ui.width >= Geometry.MIN_WIDTH && m.ui.height >= Geometry.MIN_HEIGHT
  }

  predicate OnScreen(m: Model, x: int, y: int) {
    0 <= x < m.ui.width && 0 <= y < m.ui.height
  }

  function After(env: Env, m: Model, button: Button, x: int, y: int): Model {
    Update(env, m, Mouse(button, x, y)).m
  }

  // ------------------------------------------------------------------
  // What is drawn where
  // ------------------------------------------------------------------

  function PanesOf(m: Model): Geometry.Panes {
    Geometry.Layout(m.ui.width, m.ui.height)
  }

  datatype Thing = ATorrent(row: nat) | AnEntry(entry: nat) | ATab(tab: nat) | Body

  // Thing t is drawn at x, y: each in its pane's box, a row under the border
  // for each row of the pane.
  predicate Drawn(env: Env, m: Model, x: int, y: int, t: Thing) {
    var p := PanesOf(m);
    var boxes := Geometry.Boxes(p);
    var n := |Visible(env, m.view)|;
    var labels := |env.labels(m.view.torrents)|;
    match t
    case ATorrent(i) => boxes[1].Has(x, y) && 0 <= m.cursor && Geometry.DrawnTorrent(p, i, y, m.cursor, n)
    case AnEntry(e) =>
      && boxes[0].Has(x, y) && y == boxes[0].y + 1 + Geometry.RowOf(e)
      && e < Geometry.STATUSES + Geometry.LabelsShown(p.sidebarContentH, labels, m.ui.vpnRequired)
    case ATab(tab) =>
      && boxes[2].Has(x, y) && y == boxes[2].y + 1 && p.detailContentH > 0
      && tab < |TABS| && Geometry.OnSpan(TABS, tab, x - (boxes[2].x + 1 + Geometry.PAD_X))
    case Body => boxes[2].Has(x, y) && boxes[2].y + 2 <= y < boxes[2].y + 1 + p.detailContentH
  }

  // ------------------------------------------------------------------
  // Clicks
  // ------------------------------------------------------------------

  // A click on a torrent puts the cursor on it, and the keys in the list.
  lemma ClickOnTorrent(env: Env, m: Model, x: int, y: int, i: nat)
    requires Live(m) && OnScreen(m, x, y) && Inv(env, m) && Drawn(env, m, x, y, ATorrent(i))
    ensures After(env, m, LeftPress, x, y) == m.(cursor := i, ui := m.ui.(focus := OnList))
  {
    Geometry.ClickSelectsWhatIsDrawn(m.ui.width, m.ui.height, x, y, m.cursor, |Visible(env, m.view)|, i);
  }

  // A click on a sidebar row picks that row's entry, and the keys are there.
  lemma ClickOnEntry(env: Env, m: Model, x: int, y: int, e: nat)
    requires Proper(env) && Live(m) && OnScreen(m, x, y) && Drawn(env, m, x, y, AnEntry(e))
    ensures var r := After(env, m, LeftPress, x, y);
            && e < |Entries(env, m.view.torrents)| && r.view == ApplyEntry(m.view, Entries(env, m.view.torrents)[e])
            && CurrentIndex(env, r.view) == e && r.sidebarCursor == e && r.ui == m.ui.(focus := OnSidebar)
  {
    var p := PanesOf(m);
    var labels := |env.labels(m.view.torrents)|;
    Geometry.RowsAndEntries(p.sidebarContentH, labels, m.ui.vpnRequired, 0, e);
    Geometry.RowsAndEntries(p.sidebarContentH, labels, m.ui.vpnRequired, Geometry.RowOf(e), e);
    Geometry.HitsExactly(m.ui.width, m.ui.height, x, y, Geometry.RowOf(e));
    TuiSidebar.SelectLands(env, m.(ui := m.ui.(focus := OnSidebar)), e, e);
  }

  // A click on a tab's label opens that tab, and the keys are in its pane; a
  // click in the pane only brings the keys there.
  lemma ClickOnDetail(env: Env, m: Model, x: int, y: int, tab: nat)
    requires Live(m) && OnScreen(m, x, y)
    ensures Drawn(env, m, x, y, ATab(tab)) ==>
              After(env, m, LeftPress, x, y) == m.(ui := m.ui.(focus := OnDetail, detailTab := tab))
    ensures Drawn(env, m, x, y, Body) ==> After(env, m, LeftPress, x, y) == m.(ui := m.ui.(focus := OnDetail))
  {
    var p := PanesOf(m);
    if tab < |TABS| {
      Geometry.TabIsTheLabelDrawn(TABS, x - p.sidebarW - 1 - Geometry.PAD_X, tab);
    }
  }

  // And where none of them is drawn, on a border, a heading, a blank row or
  // the footer, a click does nothing.
  lemma ClickOnNothing(env: Env, m: Model, x: int, y: int)
    requires Live(m) && OnScreen(m, x, y) && Inv(env, m)
    ensures (exists t: Thing :: Drawn(env, m, x, y, t)) || After(env, m, LeftPress, x, y) == m
  {
    var p := PanesOf(m);
    var n := |Visible(env, m.view)|;
    match Geometry.HitTest(p, x, y)
    case OnSidebar(row) =>
      var rows := Geometry.SidebarRows(p.sidebarContentH, |env.labels(m.view.torrents)|, m.ui.vpnRequired);
      if row < |rows| && rows[row] >= 0 {
        Geometry.RowsAndEntries(p.sidebarContentH, |env.labels(m.view.torrents)|, m.ui.vpnRequired, row, rows[row]);
        assert Drawn(env, m, x, y, AnEntry(rows[row]));
      }
    case OnList(row) =>
      var i := Geometry.ClickedTorrent(p, x, y, m.cursor, n);
      if i.Some? {
        Geometry.ClickSelectsWhatIsDrawn(m.ui.width, m.ui.height, x, y, m.cursor, n, i.value);
        assert Drawn(env, m, x, y, ATorrent(i.value));
      }
    case OnTabs =>
      var tab := Geometry.TabAt(TABS, x - p.sidebarW - 1 - Geometry.PAD_X);
      if tab.Some? {
        assert Drawn(env, m, x, y, ATab(tab.value));
      }
    case OnBody(row) =>
      assert Drawn(env, m, x, y, Body);
    case NoTarget =>
  }

  // ------------------------------------------------------------------
  // The wheel
  // ------------------------------------------------------------------

  // Over a row of the list the wheel does what up and down do there; over one
  // of the sidebar, what the keys for the next filter and the one before do;
  // and elsewhere it moves neither.
  lemma WheelIsKeys(env: Env, m: Model, x: int, y: int)
    requires Live(m) && OnScreen(m, x, y) && Listening(env, m) && Inv(env, m)
    ensures var p := PanesOf(m);
            var boxes := Geometry.Boxes(p);
            var up, down := After(env, m, WheelUp, x, y), After(env, m, WheelDown, x, y);
            if boxes[1].Has(x, y) && 1 <= y <= p.listContentH
            then up == Press(env, m, "k") && down == Press(env, m, "j")
            else if boxes[0].Has(x, y) && 1 <= y <= p.sidebarContentH
            then up == Press(env, m, "{") && down == Press(env, m, "}")
            else up == down == m
  {
    UpKey(env, m);
    DownKey(env, m);
    WheelOver(env, m, x, y);
  }

  lemma WheelOver(env: Env, m: Model, x: int, y: int)
    requires Live(m) && OnScreen(m, x, y) && Open(env, m) && Inv(env, m)
    ensures var p := PanesOf(m);
            var boxes := Geometry.Boxes(p);
            var n := |Visible(env, m.view)|;
            var up, down := After(env, m, WheelUp, x, y), After(env, m, WheelDown, x, y);
            if boxes[1].Has(x, y) && 1 <= y <= p.listContentH
            then && up == m.(cursor := if m.cursor > 0 then m.cursor - 1 else m.cursor)
                 && down == m.(cursor := if m.cursor < n - 1 then m.cursor + 1 else m.cursor)
            else if boxes[0].Has(x, y) && 1 <= y <= p.sidebarContentH
            then up == Press(env, m, "{") && down == Press(env, m, "}")
            else up == down == m
  {
    assert Press(env, m, "{") == FilterKey(env, m, -1).m && Press(env, m, "}") == FilterKey(env, m, 1).m;
  }

  // Handed over, under a window, or before anything is drawn, the mouse does
  // nothing; and no button but the left one and the wheel ever does.
  lemma MouseIsIgnored(env: Env, m: Model, button: Button, x: int, y: int)
    requires m.ui.mouseOff || !m.ui.overlay.NoOverlay? || m.ui.width == 0 || m.ui.height == 0 || button.OtherButton?
    ensures After(env, m, button, x, y) == m
  {
  }
}
