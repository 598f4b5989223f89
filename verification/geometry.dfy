// Where things are on the screen (internal/tui/layout.go, list.go,
// mouse.go, sidebar.go): the panes, the columns of a row, the part of a
// list that is drawn, the sidebar's rows, and which of them a click is on.
module Geometry {
  import opened Runs

  const SIDEBAR_WIDTH := 20
  const DETAIL_HEIGHT := 12
  const BORDER := 2
  const PAD_X := 1
  const MIN_WIDTH := 60
  const MIN_HEIGHT := 15
  const COMPACT_HEIGHT := 24

  function Max(a: int, b: int): int {
    if a >= b then a else b
  }

  function Min(a: int, b: int): int {
    if a <= b then a else b
  }

  // ------------------------------------------------------------------
  // Panes
  // ------------------------------------------------------------------

  datatype Panes = Panes(
    sidebarW: int, sidebarH: int, listW: int, listH: int, detailW: int, detailH: int, footerW: int,
    sidebarContentW: int, sidebarContentH: int, listContentW: int, listContentH: int,
    detailContentW: int, detailContentH: int)

  function Layout(width: int, height: int): Panes {
    var bodyH := height - 1;
    var wanted := if height < COMPACT_HEIGHT then 3 else DETAIL_HEIGHT;
    var detailH := if wanted > bodyH - 4 then Max(3, bodyH - 4) else wanted;
    var sidebarW := if SIDEBAR_WIDTH > width / 3 then Max(10, width / 3) else SIDEBAR_WIDTH;
    var rightW := width - sidebarW;
    Panes(sidebarW, bodyH, rightW, bodyH - detailH, rightW, detailH, width,
          Max(0, sidebarW - BORDER - 2 * PAD_X), bodyH - BORDER,
          Max(0, rightW - BORDER - 2 * PAD_X), bodyH - detailH - BORDER,
          Max(0, rightW - BORDER - 2 * PAD_X), detailH - BORDER)
  }

  datatype Rect = Rect(x: int, y: int, w: int, h: int) {
    predicate Has(px: int, py: int) {
      x <= px < x + w && y <= py < y + h
    }
  }

  // The four boxes a frame is made of.
  function Boxes(p: Panes): seq<Rect> {
    [Rect(0, 0, p.sidebarW, p.sidebarH), Rect(p.sidebarW, 0, p.listW, p.listH),
     Rect(p.sidebarW, p.listH, p.detailW, p.detailH), Rect(0, p.sidebarH, p.footerW, 1)]
  }

  // On every terminal the layout is drawn on, each cell of the screen is in
  // exactly one box, and no box reaches off it.
  lemma PanesTileTheScreen(width: int, height: int, x: int, y: int)
    requires width >= MIN_WIDTH && height >= MIN_HEIGHT
    ensures var boxes := Boxes(Layout(width, height));
            && ((0 <= x < width && 0 <= y < height) <==> exists i :: 0 <= i < 4 && boxes[i].Has(x, y))
            && (forall i, j | 0 <= i < 4 && 0 <= j < 4 && boxes[i].Has(x, y) && boxes[j].Has(x, y) :: i == j)
  {
    var p := Layout(width, height);
    var boxes := Boxes(p);
    if 0 <= x < width && 0 <= y < height {
      if y == height - 1 {
        assert boxes[3].Has(x, y);
      } else if x < p.sidebarW {
        assert boxes[0].Has(x, y);
      } else if y < p.listH {
        assert boxes[1].Has(x, y);
      } else {
        assert boxes[2].Has(x, y);
      }
    }
  }

  // And each has room for what is drawn in it.
  lemma PanesHaveRoom(width: int, height: int)
    requires width >= MIN_WIDTH && height >= MIN_HEIGHT
    ensures var p := Layout(width, height);
            && p.sidebarContentW == 16 && p.sidebarContentH >= 12
            && p.listContentW == p.detailContentW == width - 24
            && p.listContentH >= 9 && p.detailContentH == (if height < COMPACT_HEIGHT then 1 else 10)
  {
  }

  // ------------------------------------------------------------------
  // Columns
  // ------------------------------------------------------------------

  const COL_MARK := 2
  const COL_SIZE := 8
  const COL_STATUS := 13
  const COL_DOWN := 12
  const COL_UP := 12
  const COL_ETA := 7
  const COL_PERCENT := 4
  const COL_GAP := 1
  const MIN_BAR_WIDTH := 10
  const MAX_BAR_WIDTH := 48
  const NAME_TARGET := 48
  const MIN_NAME_WIDTH := 20

  function ProgressWidthWith(bar: int): int {
    if bar <= 0 then COL_PERCENT else bar + COL_GAP + COL_PERCENT
  }

  function FixedColumnsWith(bar: int): int {
    COL_MARK + 7 * COL_GAP + ProgressWidthWith(bar) + COL_SIZE + COL_STATUS + COL_DOWN + COL_UP + COL_ETA
  }

  // The surplus is halved towards zero, which for a positive one is `/`.
  function BarWidth(contentW: int): int {
    var surplus := contentW - FixedColumnsWith(0) - NAME_TARGET;
    if surplus <= 0 || surplus / 2 < MIN_BAR_WIDTH then 0 else Min(MAX_BAR_WIDTH, surplus / 2)
  }

  // The bar appears with room for ten cells beside a name of forty-eight, has
  // half of what is left over, and grows no further than forty-eight.
  lemma BarGrows(contentW: int)
    ensures var over := contentW - 113;
            BarWidth(contentW) == if over < 20 then 0 else if over >= 96 then 48 else over / 2
    ensures BarWidth(contentW) > 0 ==> 10 <= BarWidth(contentW) <= 48
  {
  }

  function NameWidth(contentW: int): (int, bool) {
    var w := contentW - FixedColumnsWith(BarWidth(contentW));
    if w < MIN_NAME_WIDTH then
      (Max(1, contentW - COL_MARK - COL_GAP - ProgressWidthWith(BarWidth(contentW)) - COL_GAP), false)
    else (w, true)
  }

  // The pieces renderRow writes one after another, by width: the two
  // markers and a space, the name, the progress cell and, when they fit,
  // the other columns, each after a space.
  function RowPieces(contentW: int): seq<int> {
    var bar := BarWidth(contentW);
    var (nameW, wide) := NameWidth(contentW);
    [1, 1, 1, nameW, 1] + (if bar > 0 then [bar, 1, COL_PERCENT] else [COL_PERCENT])
    + if wide then [1, COL_SIZE, 1, COL_STATUS, 1, COL_DOWN, 1, COL_UP, 1, COL_ETA] else []
  }

  function Total(widths: seq<int>): int {
    if widths == [] then 0 else widths[0] + Total(widths[1..])
  }

  lemma {:induction false} TotalAppend(a: seq<int>, b: seq<int>)
    ensures Total(a + b) == Total(a) + Total(b)
    decreases |a|
  {
    if a == [] {
      assert a + b == b;
    } else {
      assert (a + b)[1..] == a[1..] + b;
      TotalAppend(a[1..], b);
    }
  }

  // A row is exactly as wide as the pane's content, whatever columns it has.
  lemma RowFillsThePane(contentW: int)
    requires contentW >= 9
    ensures Total(RowPieces(contentW)) == contentW
  {
    var bar := BarWidth(contentW);
    var (nameW, wide) := NameWidth(contentW);
    var a := [1, 1, 1, nameW, 1];
    var b := if bar > 0 then [bar, 1, COL_PERCENT] else [COL_PERCENT];
    var c := if wide then [1, COL_SIZE, 1, COL_STATUS, 1, COL_DOWN, 1, COL_UP, 1, COL_ETA] else [];
    TotalAppend(a + b, c);
    TotalAppend(a, b);
    TotalOfFive(1, 1, 1, nameW, 1);
    TotalOfFive(1, COL_SIZE, 1, COL_STATUS, 1);
    TotalOfFive(COL_DOWN, 1, COL_UP, 1, COL_ETA);
    TotalAppend([1, COL_SIZE, 1, COL_STATUS, 1], [COL_DOWN, 1, COL_UP, 1, COL_ETA]);
    assert [1, COL_SIZE, 1, COL_STATUS, 1] + [COL_DOWN, 1, COL_UP, 1, COL_ETA]
        == [1, COL_SIZE, 1, COL_STATUS, 1, COL_DOWN, 1, COL_UP, 1, COL_ETA];
    TotalOfOne(COL_PERCENT);
    TotalOfFive(0, 0, bar, 1, COL_PERCENT);
    TotalCons(0, [0, bar, 1, COL_PERCENT]);
    TotalCons(0, [bar, 1, COL_PERCENT]);
  }

  lemma TotalOfOne(a: int)
    ensures Total([a]) == a
  {
    assert [a][1..] == [];
  }

  lemma TotalCons(a: int, rest: seq<int>)
    ensures Total([a] + rest) == a + Total(rest)
  {
    assert ([a] + rest)[1..] == rest;
  }

  lemma TotalOfFive(a: int, b: int, c: int, d: int, e: int)
    ensures Total([a, b, c, d, e]) == a + b + c + d + e
    ensures [a, b, c, d, e] == [a] + [b, c, d, e] && [b, c, d, e] == [b] + [c, d, e]
  {
    TotalOfOne(e);
    TotalCons(d, [e]);
    TotalCons(c, [d] + [e]);
    TotalCons(b, [c] + ([d] + [e]));
    TotalCons(a, [b] + ([c] + ([d] + [e])));
    assert [a, b, c, d, e] == [a] + ([b] + ([c] + ([d] + [e])));
  }

  // The bar is only drawn where the name keeps its target, and the other
  // columns only where the name keeps its minimum.
  lemma NameComesFirst(contentW: int)
    ensures BarWidth(contentW) > 0 ==> NameWidth(contentW).1 && NameWidth(contentW).0 >= NAME_TARGET
    ensures NameWidth(contentW).1 <==> contentW >= 85
    ensures NameWidth(contentW).1 ==> NameWidth(contentW).0 >= MIN_NAME_WIDTH
    ensures BarWidth(contentW) == 0 || MIN_BAR_WIDTH <= BarWidth(contentW) <= MAX_BAR_WIDTH
  {
  }

  // ------------------------------------------------------------------
  // The part of a list that is drawn
  // ------------------------------------------------------------------

  // height/2 of the source is only reached for a positive height.
  function ScrollWindow(cursor: int, n: int, height: int): (int, int) {
    if height <= 0 || n <= height then (0, n)
    else
      var start := Max(0, cursor - height / 2);
      if start + height > n then (n - height, n) else (start, start + height)
  }

  // The window is as much of the list as fits and has the cursor in it,
  // in the middle unless an end of the list is in the way.
  lemma WindowHasCursor(cursor: nat, n: nat, height: int)
    requires cursor < n && height > 0
    ensures var (start, end) := ScrollWindow(cursor, n, height);
            && 0 <= start <= cursor < end <= n && end - start == Min(n, height)
            && (n > height && 0 < start && end < n ==> cursor == start + height / 2)
  {
  }

  // ------------------------------------------------------------------
  // The sidebar's rows
  // ------------------------------------------------------------------

  const STATUSES := 5

  function DaemonRows(vpnRequired: bool): nat {
    if vpnRequired then 5 else 4
  }

  // How many of the labels are listed.
  function LabelsShown(contentH: int, labels: nat, vpnRequired: bool): nat {
    var room := contentH - (3 + STATUSES) - (DaemonRows(vpnRequired) + 1) - 2;
    if room < labels then Max(room - 1, 0) else labels
  }

  function Chrome(n: nat): (r: seq<int>)
    ensures |r| == n && forall i | 0 <= i < n :: r[i] == -1
  {
    seq(n, _ => -1)
  }

  function Selectable(first: nat, n: nat): (r: seq<int>)
    ensures |r| == n && forall i | 0 <= i < n :: r[i] == first + i
  {
    seq(n, i requires 0 <= i < n => first + i)
  }

  // The rows above the daemon block: for each, the entry it selects, or -1.
  function UpperRows(contentH: int, labels: nat, vpnRequired: bool): seq<int> {
    var shown := LabelsShown(contentH, labels, vpnRequired);
    Chrome(3) + Selectable(0, STATUSES)
    + if shown == 0 then [] else Chrome(2) + Selectable(STATUSES, shown) + Chrome(if labels > shown then 1 else 0)
  }

  function SidebarRows(contentH: int, labels: nat, vpnRequired: bool): seq<int> {
    var upper := UpperRows(contentH, labels, vpnRequired);
    var gap := contentH - |upper| - DaemonRows(vpnRequired);
    if gap >= 1 then upper + Chrome(gap) + Chrome(DaemonRows(vpnRequired)) else upper
  }

  datatype DaemonLine = Heading | Vpn | Port | Dht | Disk

  // The daemon block: the VPN has a line only where one is required.
  function DaemonLines(vpnRequired: bool): seq<DaemonLine> {
    [Heading] + (if vpnRequired then [Vpn] else []) + [Port, Dht, Disk]
  }

  // The sidebar as it is built, a row at a time. `drawn` is what each row
  // shows: the entry it belongs to, or the kind of chrome it is.
  datatype Drawn = Entry(i: nat) | Title | Blank | StatusHeading | LabelsHeading | MoreLabels(hidden: nat)
      | Daemon(line: DaemonLine)

  ghost predicate Aligned(drawn: seq<Drawn>, rowEntry: seq<int>) {
    && |drawn| == |rowEntry|
    && forall r | 0 <= r < |drawn| :: rowEntry[r] == if drawn[r].Entry? then drawn[r].i else -1
  }

  lemma AlignedAppend(a: seq<Drawn>, x: seq<int>, b: seq<Drawn>, y: seq<int>)
    requires Aligned(a, x) && Aligned(b, y)
    ensures Aligned(a + b, x + y)
  {
  }

  method EntryRows(first: nat, n: nat) returns (drawn: seq<Drawn>, rowEntry: seq<int>)
    ensures Aligned(drawn, rowEntry) && rowEntry == Selectable(first, n)
    ensures forall d | d in drawn :: d.Entry?
  {
    drawn, rowEntry := [], [];
    var i := 0;
    while i < n
      invariant 0 <= i <= n && rowEntry == Selectable(first, i) && Aligned(drawn, rowEntry)
      invariant forall d | d in drawn :: d.Entry?
    {
      drawn, rowEntry := drawn + [Entry(first + i)], rowEntry + [first + i];
      i := i + 1;
    }
  }

  method LabelRows(shown: nat, hidden: nat) returns (drawn: seq<Drawn>, rowEntry: seq<int>)
    ensures Aligned(drawn, rowEntry)
    ensures rowEntry == Chrome(2) + Selectable(STATUSES, shown) + Chrome(if hidden > 0 then 1 else 0)
    ensures forall d | d in drawn && d.MoreLabels? :: d.hidden == hidden > 0
    ensures hidden > 0 ==> MoreLabels(hidden) in drawn
  {
    var d, r := EntryRows(STATUSES, shown);
    AlignedAppend([Blank, LabelsHeading], [-1, -1], d, r);
    drawn, rowEntry := [Blank, LabelsHeading] + d, [-1, -1] + r;
    if hidden > 0 {
      AlignedAppend(drawn, rowEntry, [MoreLabels(hidden)], [-1]);
      drawn, rowEntry := drawn + [MoreLabels(hidden)], rowEntry + [-1];
      assert drawn[|drawn| - 1] == MoreLabels(hidden);
    }
  }

  // As many lines as daemonBlockRows has reserved, each once and in order.
  method DaemonBlock(gap: nat, vpnRequired: bool) returns (drawn: seq<Drawn>, rowEntry: seq<int>)
    ensures Aligned(drawn, rowEntry) && rowEntry == Chrome(gap) + Chrome(DaemonRows(vpnRequired))
    ensures forall r | 0 <= r < |drawn| ::
              drawn[r] == if r < gap then Blank else Daemon(DaemonLines(vpnRequired)[r - gap])
  {
    var stats := DaemonLines(vpnRequired);
    drawn := seq(gap, _ => Blank) + seq(|stats|, k requires 0 <= k < |stats| => Daemon(stats[k]));
    rowEntry := Chrome(gap) + Chrome(|stats|);
  }

  // It says how many labels are not listed exactly when some are and some
  // are not.
  ghost predicate SaysHidden(drawn: seq<Drawn>, shown: nat, labels: nat) {
    forall d: Drawn | d.MoreLabels? :: d in drawn <==> d.hidden + shown == labels && d.hidden > 0 && shown > 0
  }

  method BuildUpper(contentH: int, labels: nat, vpnRequired: bool) returns (drawn: seq<Drawn>, rowEntry: seq<int>)
    ensures Aligned(drawn, rowEntry) && rowEntry == UpperRows(contentH, labels, vpnRequired)
    ensures SaysHidden(drawn, LabelsShown(contentH, labels, vpnRequired), labels)
  {
    var d, r := EntryRows(0, STATUSES);
    AlignedAppend([Title, Blank, StatusHeading], [-1, -1, -1], d, r);
    drawn, rowEntry := [Title, Blank, StatusHeading] + d, [-1, -1, -1] + r;
    if labels > 0 {
      var room := contentH - |drawn| - (DaemonRows(vpnRequired) + 1) - 2;
      var shown := labels;
      if room < shown {
        shown := Max(room - 1, 0);
      }
      assert shown == LabelsShown(contentH, labels, vpnRequired);
      if shown > 0 {
        d, r := LabelRows(shown, labels - shown);
        AlignedAppend(drawn, rowEntry, d, r);
        drawn, rowEntry := drawn + d, rowEntry + r;
      }
    }
  }

  method BuildSidebar(contentH: int, labels: nat, vpnRequired: bool) returns (drawn: seq<Drawn>, rowEntry: seq<int>)
    ensures Aligned(drawn, rowEntry) && rowEntry == SidebarRows(contentH, labels, vpnRequired)
    ensures SaysHidden(drawn, LabelsShown(contentH, labels, vpnRequired), labels)
  {
    drawn, rowEntry := BuildUpper(contentH, labels, vpnRequired);
    var gap := contentH - |drawn| - DaemonRows(vpnRequired);
    if gap >= 1 {
      var d, r := DaemonBlock(gap, vpnRequired);
      AlignedAppend(drawn, rowEntry, d, r);
      assert rowEntry + r == rowEntry + Chrome(gap) + Chrome(DaemonRows(vpnRequired));
      drawn, rowEntry := drawn + d, rowEntry + r;
    }
  }

  // The daemon block is on the sidebar.
  predicate DaemonShown(contentH: int, labels: nat, vpnRequired: bool) {
    contentH - |UpperRows(contentH, labels, vpnRequired)| - DaemonRows(vpnRequired) >= 1
  }

  // The sidebar fits, filling its pane when the daemon block is on it; and
  // the labels are never what takes the block off.
  lemma SidebarFits(contentH: int, labels: nat, vpnRequired: bool)
    requires contentH >= 8
    ensures |SidebarRows(contentH, labels, vpnRequired)| <= contentH
    ensures DaemonShown(contentH, labels, vpnRequired) ==> |SidebarRows(contentH, labels, vpnRequired)| == contentH
    ensures DaemonShown(contentH, labels, vpnRequired) <==> DaemonShown(contentH, 0, vpnRequired)
    ensures DaemonShown(contentH, labels, vpnRequired) <==> contentH >= 9 + DaemonRows(vpnRequired)
  {
  }

  // The row that shows an entry.
  function RowOf(entry: nat): nat {
    if entry < STATUSES then 3 + entry else 5 + entry
  }

  // A row selects an entry exactly when it is that entry's row and the
  // entry is listed: every status is, and the first labels that fit. So
  // the entries run down the rows in order, none twice; and each that is
  // listed has its row.
  lemma RowsAndEntries(contentH: int, labels: nat, vpnRequired: bool, row: nat, entry: nat)
    requires row < |SidebarRows(contentH, labels, vpnRequired)|
    ensures SidebarRows(contentH, labels, vpnRequired)[row] == entry
       <==> row == RowOf(entry) && entry < STATUSES + LabelsShown(contentH, labels, vpnRequired)
    ensures entry < STATUSES + LabelsShown(contentH, labels, vpnRequired) ==>
              RowOf(entry) < |SidebarRows(contentH, labels, vpnRequired)|
  {
    var upper := UpperRows(contentH, labels, vpnRequired);
    var rows := SidebarRows(contentH, labels, vpnRequired);
    assert row < |upper| ==> rows[row] == upper[row];
    assert row >= |upper| ==> rows[row] == -1;
  }

  // ------------------------------------------------------------------
  // Tabs
  // ------------------------------------------------------------------

  datatype Span = Span(start: nat, width: nat)

  // The column label i starts at: a lead of three, then each label in
  // brackets and two spaces.
  function ColumnOf(names: seq<string>, i: nat): nat
    requires i <= |names|
  {
    if i == 0 then 3 else ColumnOf(names, i - 1) + |names[i - 1]| + 2 + 2
  }

  function SpanOf(names: seq<string>, i: nat): Span
    requires i < |names|
  {
    Span(ColumnOf(names, i), |names[i]| + 2)
  }

  method DetailTabSpans(names: seq<string>) returns (spans: seq<Span>)
    ensures |spans| == |names| && forall i | 0 <= i < |names| :: spans[i] == SpanOf(names, i)
  {
    spans := [];
    var col := 3;
    var i := 0;
    while i < |names|
      invariant 0 <= i <= |names| && |spans| == i && col == ColumnOf(names, i)
      invariant forall k | 0 <= k < i :: spans[k] == SpanOf(names, k)
    {
      var w := |names[i]| + 2;
      spans := spans + [Span(col, w)];
      col := col + w + 2;
      i := i + 1;
    }
  }

  lemma {:induction false} SpansApart(names: seq<string>, i: nat, j: nat)
    requires i < j < |names|
    ensures SpanOf(names, i).start + SpanOf(names, i).width + 2 <= SpanOf(names, j).start
    decreases j
  {
    if i < j - 1 {
      SpansApart(names, i, j - 1);
    }
  }

  predicate OnSpan(names: seq<string>, i: nat, col: int)
    requires i < |names|
  {
    SpanOf(names, i).start <= col < SpanOf(names, i).start + SpanOf(names, i).width
  }

  // The first label from i on that this column is on.
  function TabFrom(names: seq<string>, i: nat, col: int): (tab: Option<nat>)
    requires i <= |names|
    ensures tab.Some? ==> i <= tab.value < |names| && OnSpan(names, tab.value, col)
    decreases |names| - i
  {
    if i == |names| then None else if OnSpan(names, i, col) then Some(i) else TabFrom(names, i + 1, col)
  }

  function TabAt(names: seq<string>, col: int): Option<nat> {
    TabFrom(names, 0, col)
  }

  method DetailTabAt(names: seq<string>, col: int) returns (tab: Option<nat>)
    ensures tab == TabAt(names, col)
  {
    var spans := DetailTabSpans(names);
    var i := 0;
    while i < |spans|
      invariant 0 <= i <= |spans| && TabAt(names, col) == TabFrom(names, i, col)
    {
      if spans[i].start <= col < spans[i].start + spans[i].width {
        return Some(i);
      }
      i := i + 1;
    }
    return None;
  }

  // The tab a column is on is the one whose label is drawn over it; a
  // column between labels is on none.
  lemma TabIsTheLabelDrawn(names: seq<string>, col: int, i: nat)
    requires i < |names|
    ensures TabAt(names, col) == Some(i) <==> OnSpan(names, i, col)
  {
    TabFromFinds(names, 0, col, i);
  }

  lemma {:induction false} TabFromFinds(names: seq<string>, j: nat, col: int, i: nat)
    requires j <= i < |names|
    ensures TabFrom(names, j, col) == Some(i) <==> OnSpan(names, i, col)
    decreases |names| - j
  {
    if j < i {
      SpansApart(names, j, i);
      if !OnSpan(names, j, col) {
        TabFromFinds(names, j + 1, col, i);
      }
    }
  }

  // ------------------------------------------------------------------
  // Clicks
  // ------------------------------------------------------------------

  datatype Target = NoTarget | OnSidebar(row: nat) | OnList(row: nat) | OnTabs | OnBody(row: nat)

  function HitTest(p: Panes, x: int, y: int): Target {
    if x < p.sidebarW then
      if y - 1 < 0 || y - 1 >= p.sidebarContentH then NoTarget else OnSidebar(y - 1)
    else if y < p.listH then
      if y - 1 < 0 || y - 1 >= p.listContentH then NoTarget else OnList(y - 1)
    else if y < p.listH + p.detailH then
      var row := y - p.listH - 1;
      if row < 0 || row >= p.detailContentH then NoTarget else if row == 0 then OnTabs else OnBody(row - 1)
    else NoTarget
  }

  // Row r of the content of a box, inside its border, is at y.
  predicate AtRow(box: Rect, contentH: int, y: int, r: nat) {
    r < contentH && y == box.y + 1 + r
  }

  // A click is on a pane's row exactly when that row of that pane's box is
  // drawn there; the first row of the detail pane is its tabs, and borders and
  // footer are nobody's.
  lemma HitsExactly(width: int, height: int, x: int, y: int, r: nat)
    requires width >= MIN_WIDTH && height >= MIN_HEIGHT && 0 <= x < width && 0 <= y < height
    ensures var p := Layout(width, height);
            var boxes := Boxes(p);
            && (HitTest(p, x, y) == OnSidebar(r) <==> boxes[0].Has(x, y) && AtRow(boxes[0], p.sidebarContentH, y, r))
            && (HitTest(p, x, y) == OnList(r) <==> boxes[1].Has(x, y) && AtRow(boxes[1], p.listContentH, y, r))
            && (HitTest(p, x, y) == OnTabs <==> boxes[2].Has(x, y) && AtRow(boxes[2], p.detailContentH, y, 0))
            && (HitTest(p, x, y) == OnBody(r) <==> boxes[2].Has(x, y) && AtRow(boxes[2], p.detailContentH, y, r + 1))
            && (boxes[3].Has(x, y) ==> HitTest(p, x, y) == NoTarget)
  {
  }

  // How the screen is shared out: the sidebar has its twenty columns on every
  // terminal the layout is drawn on, and the detail pane its twelve rows, or
  // on a short one three; the list has the rest, but for the footer's row.
  lemma ScreenIsShared(width: int, height: int)
    requires width >= MIN_WIDTH && height >= MIN_HEIGHT
    ensures var p := Layout(width, height);
            && p.sidebarW == 20 && p.listW == p.detailW == width - 20 && p.footerW == width
            && p.detailH == (if height < 24 then 3 else 12) && p.listH + p.detailH == p.sidebarH == height - 1
  {
  }

  // The torrent a click selects, if any: below the header, inside the
  // window the list is drawn with.
  function ClickedTorrent(p: Panes, x: int, y: int, cursor: int, n: nat): Option<nat> {
    match HitTest(p, x, y)
    case OnList(row) =>
      if row == 0 then None
      else
        var i := ScrollWindow(cursor, n, p.listContentH - 1).0 + (row - 1);
        if i < 0 || i >= n then None else Some(i)
    case _ => None
  }

  // The file a click on the Files tab selects.
  function ClickedFile(p: Panes, x: int, y: int, cursor: nat, n: nat): Option<nat> {
    match HitTest(p, x, y)
    case OnBody(row) =>
      if n == 0 || row == 0 then None
      else
        var i := ScrollWindow(cursor, n, p.detailContentH - 2).0 + row - 1;
        if 0 <= i < n then Some(i) else None
    case _ => None
  }

  // The screen row the list draws torrent i on: under the top border and
  // the column header.
  predicate DrawnTorrent(p: Panes, i: nat, y: int, cursor: nat, n: nat) {
    var (start, end) := ScrollWindow(cursor, n, p.listContentH - 1);
    start <= i < end && y == 2 + i - start
  }

  // A click selects a torrent exactly when that torrent is drawn there.
  lemma ClickSelectsWhatIsDrawn(width: int, height: int, x: int, y: int, cursor: nat, n: nat, i: nat)
    requires width >= MIN_WIDTH && height >= MIN_HEIGHT && (n == 0 || cursor < n)
    ensures var p := Layout(width, height);
            ClickedTorrent(p, x, y, cursor, n) == Some(i)
            <==> x >= p.sidebarW && DrawnTorrent(p, i, y, cursor, n)
  {
    if n > 0 {
      WindowHasCursor(cursor, n, Layout(width, height).listContentH - 1);
    }
  }

  // The same for the file list: under the pane's border, the tabs and the
  // header.
  predicate DrawnFile(p: Panes, i: nat, y: int, cursor: nat, n: nat) {
    var (start, end) := ScrollWindow(cursor, n, p.detailContentH - 2);
    p.detailContentH > 2 && start <= i < end && y == p.listH + 3 + i - start
  }

  lemma ClickSelectsFileDrawn(width: int, height: int, x: int, y: int, cursor: nat, n: nat, i: nat)
    requires width >= MIN_WIDTH && height >= MIN_HEIGHT && cursor < n
    ensures var p := Layout(width, height);
            ClickedFile(p, x, y, cursor, n) == Some(i)
            <==> x >= p.sidebarW && DrawnFile(p, i, y, cursor, n)
  {
    var p := Layout(width, height);
    if p.detailContentH > 2 {
      WindowHasCursor(cursor, n, p.detailContentH - 2);
    }
  }
}
