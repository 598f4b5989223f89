// The sidebar's cycle, and torrents just added (internal/tui/label.go,
// selectSidebar in update.go).
module TuiSidebar {
  import opened Runs
  import opened Labels
  import opened TuiModel
  import opened TuiTheorems

  // ------------------------------------------------------------------
  // One row for each view, one view for each row
  // ------------------------------------------------------------------

  lemma LabelNamesOnce(env: Env, ts: seq<Torrent>, i: nat, j: nat)
    requires Proper(env) && i < |env.labels(ts)| && j < |env.labels(ts)|
    requires env.labels(ts)[i].name == env.labels(ts)[j].name
    ensures i == j
  {
    assert LabelsInOrder(env, ts);
    NamesOnce(Categories(ts), i, j);
  }

  // An entry's own view has that entry as its current one, and no other.
  lemma OnlyOneIsCurrent(env: Env, v: View, i: nat, j: nat)
    requires Proper(env) && i < |Entries(env, v.torrents)| && j < |Entries(env, v.torrents)|
    ensures IsCurrent(ApplyEntry(v, Entries(env, v.torrents)[i]), Entries(env, v.torrents)[j]) <==> i == j
  {
    var uses := env.labels(v.torrents);
    if i >= 5 {
      LabelsAreCarried(env, v.torrents, i - 5);
      if j >= 5 && uses[i - 5].name == uses[j - 5].name {
        LabelNamesOnce(env, v.torrents, i - 5, j - 5);
      }
    }
  }

  lemma {:induction false} FindsFirst(v: View, entries: seq<Entry>, from: nat, i: nat)
    requires from <= i < |entries| && IsCurrent(v, entries[i])
    requires forall j | from <= j < i :: !IsCurrent(v, entries[j])
    ensures FindCurrent(v, entries, from) == i
    decreases i - from
  {
    if from < i {
      FindsFirst(v, entries, from + 1, i);
    }
  }

  // currentSidebarIndex undoes applyEntry, on every entry.
  lemma CurrentUndoesApply(env: Env, v: View, i: nat)
    requires Proper(env) && i < |Entries(env, v.torrents)|
    ensures CurrentIndex(env, ApplyEntry(v, Entries(env, v.torrents)[i])) == i
  {
    forall j | 0 <= j < |Entries(env, v.torrents)|
      ensures IsCurrent(ApplyEntry(v, Entries(env, v.torrents)[i]), Entries(env, v.torrents)[j]) <==> i == j
    {
      OnlyOneIsCurrent(env, v, i, j);
    }
    FindsFirst(ApplyEntry(v, Entries(env, v.torrents)[i]), Entries(env, v.torrents), 0, i);
  }

  // And every view a run can come to is some entry's: the row it finds is
  // the one whose filter is applied.
  lemma ApplyUndoesCurrent(env: Env, v: View)
    requires Proper(env) && ViewOk(v)
    ensures CurrentIndex(env, v) < |Entries(env, v.torrents)|
    ensures ApplyEntry(v, Entries(env, v.torrents)[CurrentIndex(env, v)]) == v
  {
    var entries := Entries(env, v.torrents);
    var i: nat;
    if v.labelFilter != "" {
      var t :| t in v.torrents && t.category == v.labelFilter;
      var k := CarriedHasRow(env, v.torrents, t);
      i := 5 + k;
    } else {
      i := StatusIndex(v.filter);
    }
    assert ApplyEntry(v, entries[i]) == v;
    CurrentUndoesApply(env, v, i);
  }

  function StatusIndex(f: StatusFilter): (i: nat)
    ensures i < 5 && STATUSES[i] == f
  {
    match f
    case All => 0
    case OnlyDownloading => 1
    case OnlySeeding => 2
    case OnlyCompleted => 3
    case OnlyStopped => 4
  }

  // ------------------------------------------------------------------
  // The cycle
  // ------------------------------------------------------------------

  // Pressing next (a step of 1) or previous (-1) k times.
  function Pressed(env: Env, m: Model, step: int, k: nat): Model
    decreases k
  {
    if k == 0 then m else FilterKey(env, Pressed(env, m, step, k - 1), step).m
  }

  // Selecting a row makes it the current one, under the sidebar's cursor.
  lemma SelectLands(env: Env, m: Model, i: int, at: nat)
    requires Proper(env) && at == Wrap(i, |Entries(env, m.view.torrents)|)
    ensures var r := SelectSidebar(env, m, i);
            && r.view.torrents == m.view.torrents && CurrentIndex(env, r.view) == at && r.sidebarCursor == at
            && r.view == ApplyEntry(m.view, Entries(env, m.view.torrents)[at])
  {
    CurrentUndoesApply(env, m.view, at);
  }

  // What the filters are applied to.
  function Unfiltered(v: View): View {
    v.(filter := All, labelFilter := "")
  }

  ghost predicate OverBase(base: View, v: View) {
    ViewOk(v) && Unfiltered(v) == base
  }

  // One press.
  lemma PressMoves(env: Env, m: Model, step: int, base: View, n: nat)
    requires Proper(env) && OverBase(base, m.view) && n == |Entries(env, base.torrents)|
    ensures OverBase(base, FilterKey(env, m, step).m.view)
    ensures CurrentIndex(env, FilterKey(env, m, step).m.view) == Wrap(CurrentIndex(env, m.view) + step, n)
  {
    var i := CurrentIndex(env, m.view) + step;
    assert m.view.torrents == base.torrents;
    SelectLands(env, m, i, Wrap(i, n));
    ApplyOk(env, m.view, Wrap(i, n));
    assert FilterKey(env, m, step) == Just(SelectSidebar(env, m, i));
  }

  lemma OneMore(env: Env, m: Model, step: int, base: View, n: nat, x: int)
    requires Proper(env) && OverBase(base, m.view) && n == |Entries(env, base.torrents)|
    requires CurrentIndex(env, m.view) == Wrap(x, n)
    ensures OverBase(base, FilterKey(env, m, step).m.view)
    ensures CurrentIndex(env, FilterKey(env, m, step).m.view) == Wrap(x + step, n)
  {
    PressMoves(env, m, step, base, n);
    WrapStep(x, step, n);
  }

  // step added k times.
  function Stepped(i: int, step: int, k: nat): int {
    if k == 0 then i else Stepped(i, step, k - 1) + step
  }

  lemma {:induction false} SteppedIs(i: int, step: int, k: nat)
    ensures Stepped(i, step, k) == i + step * k
  {
    if k > 0 {
      SteppedIs(i, step, k - 1);
      assert step * k == step * (k - 1) + step;
    }
  }

  ghost predicate StandsAt(env: Env, m: Model, base: View, n: nat, x: int)
    requires n > 0
  {
    OverBase(base, m.view) && CurrentIndex(env, m.view) == Wrap(x, n)
  }

  lemma {:induction false} PressesStep(env: Env, m: Model, step: int, k: nat, base: View, n: nat, i: nat)
    requires Proper(env) && n == |Entries(env, base.torrents)| > 0 && StandsAt(env, m, base, n, i)
    ensures StandsAt(env, Pressed(env, m, step, k), base, n, Stepped(i, step, k))
    decreases k
  {
    if k > 0 {
      PressesStep(env, m, step, k - 1, base, n, i);
      OneMore(env, Pressed(env, m, step, k - 1), step, base, n, Stepped(i, step, k - 1));
    }
  }

  lemma PressesWrap(env: Env, m: Model, step: int, k: nat, base: View, n: nat, i: nat, x: int)
    requires Proper(env) && OverBase(base, m.view) && n == |Entries(env, base.torrents)|
    requires i == CurrentIndex(env, m.view) && x == i + step * k
    ensures OverBase(base, Pressed(env, m, step, k).view)
    ensures CurrentIndex(env, Pressed(env, m, step, k).view) == Wrap(x, n)
  {
    StartsInRange(env, m, base, n);
    PressesStep(env, m, step, k, base, n, i);
    SteppedIs(i, step, k);
  }

  lemma StartsInRange(env: Env, m: Model, base: View, n: nat)
    requires Proper(env) && OverBase(base, m.view) && n == |Entries(env, base.torrents)|
    ensures CurrentIndex(env, m.view) < n && CurrentIndex(env, m.view) == Wrap(CurrentIndex(env, m.view), n)
  {
    ApplyUndoesCurrent(env, m.view);
    assert m.view.torrents == base.torrents;
  }

  lemma WrapStep(x: int, step: int, n: int)
    requires n > 0
    ensures Wrap(Wrap(x, n) + step, n) == Wrap(x + step, n)
  {
    ModStep(x, step, n);
    WrapIsModulus(x, n);
    WrapIsModulus(Wrap(x, n) + step, n);
    WrapIsModulus(x + step, n);
  }

  lemma ModStep(x: int, step: int, n: int)
    requires n > 0
    ensures (x % n + step) % n == (x + step) % n
  {
    assert x == (x / n) * n + x % n;
    var y := x % n + step;
    assert y == (y / n) * n + y % n;
    assert x + step == (x / n + y / n) * n + y % n;
    ModUnique(x + step, n, x / n + y / n, y % n);
  }

  // From entry i, k presses of next end on entry (i + k) mod n, and k of
  // previous on (i - k) mod n.
  lemma PressesGoRound(env: Env, m: Model, step: int, k: nat, i: nat, n: nat)
    requires Proper(env) && ViewOk(m.view) && i == CurrentIndex(env, m.view) && n == |Entries(env, m.view.torrents)|
    ensures n > 0 && CurrentIndex(env, Pressed(env, m, step, k).view) == (i + step * k) % n
  {
    PressesWrap(env, m, step, k, Unfiltered(m.view), n, i, i + step * k);
    WrapIsModulus(i + step * k, n);
  }

  // Once round is back where it was.
  lemma OnceRound(env: Env, m: Model, n: nat)
    requires Proper(env) && ViewOk(m.view) && n == |Entries(env, m.view.torrents)|
    ensures Pressed(env, m, 1, n).view == m.view
  {
    ApplyUndoesCurrent(env, m.view);
    PressesWrap(env, m, 1, n, Unfiltered(m.view), n, CurrentIndex(env, m.view), CurrentIndex(env, m.view) + n);
    SameIndexSameView(env, m.view, Pressed(env, m, 1, n).view);
  }

  lemma SameIndexSameView(env: Env, a: View, b: View)
    requires Proper(env) && ViewOk(a) && ViewOk(b)
    requires Unfiltered(a) == Unfiltered(b) && CurrentIndex(env, a) == CurrentIndex(env, b)
    ensures a == b
  {
    ApplyUndoesCurrent(env, a);
    ApplyUndoesCurrent(env, b);
    assert a.torrents == Unfiltered(a).torrents == b.torrents;
  }

  // ------------------------------------------------------------------
  // Torrents just added
  // ------------------------------------------------------------------

  lemma UncoveredShows(env: Env, v: View, pending: seq<Id>, t: Torrent)
    requires Proper(env) && Arrived(v, pending, t)
    ensures var status, category := HiddenByStatus(v, pending), HiddenByLabel(v, pending);
            Shows(env, Uncovered(v, status, category, HiddenBySearch(env, v, pending)), t)
  {
    var r := Uncovered(v, HiddenByStatus(v, pending), HiddenByLabel(v, pending), HiddenBySearch(env, v, pending));
    assert FindsAll(env, t.name);
  }

  // Every torrent just added that a snapshot carries is on the list after
  // it, and a filter is cleared exactly when it hid one of them.
  lemma RevealShowsTheAdded(env: Env, m: Model)
    requires Proper(env)
    ensures var r := Revealed(env, m);
            && (forall t | Arrived(m.view, m.pendingReveal, t) :: Shows(env, r.view, t))
            && r.view.torrents == m.view.torrents && r.selected == m.selected
            && (r.view.filter != m.view.filter ==> r.view.filter == All && HiddenByStatus(m.view, m.pendingReveal))
            && (r.view.labelFilter != m.view.labelFilter ==>
                  r.view.labelFilter == "" && HiddenByLabel(m.view, m.pendingReveal))
            && (r.view.searchQuery != m.view.searchQuery ==>
                  r.view.searchQuery == "" && HiddenBySearch(env, m.view, m.pendingReveal))
            && (HiddenByStatus(m.view, m.pendingReveal) ==> r.view.filter == All)
            && (HiddenByLabel(m.view, m.pendingReveal) ==> r.view.labelFilter == "")
            && (HiddenBySearch(env, m.view, m.pendingReveal) ==> r.view.searchQuery == "")
  {
    forall t | Arrived(m.view, m.pendingReveal, t)
      ensures Shows(env, Revealed(env, m).view, t)
    {
      UncoveredShows(env, m.view, m.pendingReveal, t);
    }
  }

  // So it is after the whole step a snapshot makes.
  lemma SnapshotShowsTheAdded(env: Env, m: Model, torrents: seq<Torrent>, vpnRequired: bool, t: Torrent)
    requires Proper(env) && t in torrents && t.id in m.pendingReveal
    ensures Shows(env, Update(env, m, Event(torrents, vpnRequired)).m.view, t)
  {
    var taken := m.(view := m.view.(torrents := torrents), ui := m.ui.(vpnRequired := vpnRequired));
    var dropped := DropVanishedLabel(env, taken);
    assert Arrived(dropped.view, dropped.pendingReveal, t);
    RevealShowsTheAdded(env, dropped);
    assert Snapshot(env, m, torrents, vpnRequired).view == Revealed(env, dropped).view;
  }

  // Nothing more is waited for once one of them has come, the ones that
  // have not come included; with none come, all are still waited for.
  lemma OneArrivalEndsTheWait(env: Env, m: Model)
    ensures Revealed(env, m).pendingReveal == if AnySeen(m.view, m.pendingReveal) then [] else m.pendingReveal
  {
  }

  // When a snapshot carries no torrent of the label the list is narrowed to,
  // the whole list is shown, and the sidebar's cursor is where the filters are.
  lemma VanishedLabelLeadsHome(env: Env, m: Model, torrents: seq<Torrent>, vpnRequired: bool)
    requires m.view.labelFilter != "" && !LabelListed(env, m.view.(torrents := torrents))
    ensures var r := Snapshot(env, m, torrents, vpnRequired);
            && r.view.labelFilter == "" && r.view.filter == All
            && r.sidebarCursor == CurrentIndex(env, r.view)
  {
    var taken := m.(view := m.view.(torrents := torrents), ui := m.ui.(vpnRequired := vpnRequired));
    var home := DropVanishedLabel(env, taken);
    assert Entries(env, torrents)[0] == Status(STATUSES[0]);
    assert IsCurrent(home.view, Entries(env, torrents)[0]) && CurrentIndex(env, home.view) == 0;
    var r := Revealed(env, home);
    assert r.view.torrents == torrents && r.view.filter == All && r.view.labelFilter == "";
    assert IsCurrent(r.view, Entries(env, torrents)[0]) && CurrentIndex(env, r.view) == 0;
  }

  // What a view lets through of the next torrents: its label filter is
  // dropped when nothing carries that label any more.
  predicate LetThrough(env: Env, v: View, torrents: seq<Torrent>, t: Torrent) {
    if v.labelFilter != "" && !LabelListed(env, v.(torrents := torrents)) then BySearch(env, v, t) else Shows(env, v, t)
  }

  lemma NothingPending(env: Env, m: Model, torrents: seq<Torrent>, vpnRequired: bool, t: Torrent)
    requires m.pendingReveal == []
    ensures Shows(env, Snapshot(env, m, torrents, vpnRequired).view, t) <==> LetThrough(env, m.view, torrents, t)
    ensures Snapshot(env, m, torrents, vpnRequired).view.torrents == torrents
  {
  }

  lemma FirstArrival(env: Env, m: Model, torrents: seq<Torrent>, vpnRequired: bool)
    requires exists t :: t in torrents && t.id in m.pendingReveal
    ensures Snapshot(env, m, torrents, vpnRequired).pendingReveal == []
  {
    var t :| t in torrents && t.id in m.pendingReveal;
    var taken := m.(view := m.view.(torrents := torrents), ui := m.ui.(vpnRequired := vpnRequired));
    assert Arrived(DropVanishedLabel(env, taken).view, m.pendingReveal, t);
  }

  // Torrents are added together, the first snapshot carries some of them
  // and not `late`, the second carries `late`: it is on the list exactly
  // when the filters that the first snapshot left let it through. Nothing is
  // cleared for it, though it was waited for like the others.
  lemma LateArrivalExactly(env: Env, m: Model, ids: seq<Id>, first: seq<Torrent>, second: seq<Torrent>,
                           vpnRequired: bool, late: Torrent)
    requires Proper(env) && late.id in ids && (exists t :: t in first && t.id in ids)
    requires (forall t | t in first :: t.id != late.id) && late in second
    ensures var a := Update(env, m, TorrentsAdded(ids)).m;
            var b := Update(env, a, Event(first, vpnRequired)).m;
            var c := Update(env, b, Event(second, vpnRequired)).m;
            && late.id in a.pendingReveal && b.pendingReveal == []
            && (late in Visible(env, c.view) <==> LetThrough(env, b.view, second, late))
  {
    var a := Update(env, m, TorrentsAdded(ids)).m;
    FirstArrival(env, a, first, vpnRequired);
    var b := Snapshot(env, a, first, vpnRequired);
    NothingPending(env, b, second, vpnRequired, late);
    VisibleIs(env, Snapshot(env, b, second, vpnRequired).view);
  }

  // And the filters that are left can hide it: under a status filter that
  // the first arrivals match, a late torrent that does not match is hidden.
  lemma LateArrivalStaysHidden(env: Env, m: Model, ids: seq<Id>, first: seq<Torrent>, second: seq<Torrent>,
                               vpnRequired: bool, late: Torrent)
    requires Proper(env) && m.view.labelFilter == "" && late.id in ids && (exists t :: t in first && t.id in ids)
    requires (forall t | t in first :: t.id != late.id) && late in second
    requires (forall t | t in first && t.id in ids :: Matches(m.view.filter, t)) && !Matches(m.view.filter, late)
    ensures var a := Update(env, m, TorrentsAdded(ids)).m;
            var b := Update(env, a, Event(first, vpnRequired)).m;
            var c := Update(env, b, Event(second, vpnRequired)).m;
            late in c.view.torrents && late !in Visible(env, c.view)
  {
    LateArrivalExactly(env, m, ids, first, second, vpnRequired, late);
    var a := Update(env, m, TorrentsAdded(ids)).m;
    var b := Snapshot(env, a, first, vpnRequired);
    NothingPending(env, b, second, vpnRequired, late);
    StatusKept(env, a, first, vpnRequired);
  }

  lemma StatusKept(env: Env, m: Model, torrents: seq<Torrent>, vpnRequired: bool)
    requires m.view.labelFilter == ""
    requires forall t | t in torrents && t.id in m.pendingReveal :: Matches(m.view.filter, t)
    ensures var r := Snapshot(env, m, torrents, vpnRequired); r.view.filter == m.view.filter && r.view.labelFilter == ""
  {
  }

  // The same as loops over the pending ids and a map of the torrents.
  method RevealJustAdded(env: Env, m: Model) returns (r: Model, cleared: nat)
    requires DistinctIds(m.view.torrents)
    ensures r == Revealed(env, m)
    ensures cleared > 0 <==>
            HiddenByStatus(m.view, m.pendingReveal) || HiddenByLabel(m.view, m.pendingReveal)
            || HiddenBySearch(env, m.view, m.pendingReveal)
  {
    r, cleared := m, 0;
    if |m.pendingReveal| == 0 {
      return;
    }
    var v := m.view;
    var byId := ById(v.torrents);
    var seen, byStatus, byLabel, bySearch := false, false, false, false;
    var i := 0;
    while i < |m.pendingReveal|
      invariant 0 <= i <= |m.pendingReveal|
      invariant seen == AnySeen(v, m.pendingReveal[..i])
      invariant byStatus == HiddenByStatus(v, m.pendingReveal[..i])
      invariant byLabel == HiddenByLabel(v, m.pendingReveal[..i])
      invariant bySearch == HiddenBySearch(env, v, m.pendingReveal[..i])
    {
      var id := m.pendingReveal[i];
      PendingSnoc(env, v, m.pendingReveal, i);
      if id in byId {
        var t := byId[id];
        OneWithId(v.torrents, t);
        seen := true;
        if !Matches(v.filter, t) {
          byStatus := true;
        }
        if v.labelFilter != "" && t.category != v.labelFilter {
          byLabel := true;
        }
        if !BySearch(env, v, t) {
          bySearch := true;
        }
      }
      i := i + 1;
    }
    assert m.pendingReveal[..|m.pendingReveal|] == m.pendingReveal;
    if !seen {
      return;
    }
    r := r.(pendingReveal := []);
    if byLabel {
      cleared, r := cleared + 1, r.(view := r.view.(labelFilter := ""));
    }
    if byStatus {
      cleared, r := cleared + 1, r.(view := r.view.(filter := All));
    }
    if bySearch {
      cleared, r := cleared + 1, r.(view := r.view.(searchQuery := ""));
    }
    if cleared > 0 {
      r := r.(sidebarCursor := CurrentIndex(env, r.view));
    }
  }

  method ById(ts: seq<Torrent>) returns (byId: map<Id, Torrent>)
    ensures forall id :: id in byId <==> exists t :: t in ts && t.id == id
    ensures forall id | id in byId :: byId[id] in ts && byId[id].id == id
  {
    byId := map[];
    var i := 0;
    while i < |ts|
      invariant 0 <= i <= |ts|
      invariant forall id :: id in byId <==> exists t :: t in ts[..i] && t.id == id
      invariant forall id | id in byId :: byId[id] in ts && byId[id].id == id
    {
      assert ts[..i + 1] == ts[..i] + [ts[i]];
      byId := byId[ts[i].id := ts[i]];
      i := i + 1;
    }
    assert ts[..|ts|] == ts;
  }

  lemma OneWithId(ts: seq<Torrent>, t: Torrent)
    requires DistinctIds(ts) && t in ts
    ensures forall u | u in ts && u.id == t.id :: u == t
  {
  }

  // What one more pending id adds.
  lemma PendingSnoc(env: Env, v: View, pending: seq<Id>, i: nat)
    requires i < |pending|
    ensures forall t :: Arrived(v, pending[..i + 1], t) <==>
              Arrived(v, pending[..i], t) || (t in v.torrents && t.id == pending[i])
  {
    assert pending[..i + 1] == pending[..i] + [pending[i]];
  }

  // ------------------------------------------------------------------
  // Marks of torrents that are gone
  // ------------------------------------------------------------------

  // When the marked torrents have all been removed by somebody else, the
  // marks still stand in the way: no action reaches the row under the
  // cursor until they are cleared.
  lemma GoneMarksBlock(env: Env, m: Model, verb: Verb)
    requires m.selected != {} && forall t | t in m.view.torrents :: t.id !in m.selected
    ensures Targets(env, m) == [] && ActOnTargets(env, m, verb) == Next(m, None)
  {
    MarkedNone(m.view.torrents, m.selected);
  }

  // An action has no targets exactly when there are marks and no torrent
  // carries one, or no marks and no row under the cursor.
  lemma NoTargetsExactly(env: Env, m: Model)
    ensures Targets(env, m) == [] <==>
            if m.selected != {} then forall t | t in m.view.torrents :: t.id !in m.selected
            else m.cursor < 0 || m.cursor >= |Visible(env, m.view)|
  {
    MarkedIs(m.view.torrents, m.selected);
    if m.selected != {} && forall t | t in m.view.torrents :: t.id !in m.selected {
      MarkedNone(m.view.torrents, m.selected);
    } else if m.selected != {} {
      var t :| t in m.view.torrents && t.id in m.selected;
      assert t in Marked(m.view.torrents, m.selected);
    }
  }

  lemma {:induction false} MarkedNone(ts: seq<Torrent>, selected: set<Id>)
    requires forall t | t in ts :: t.id !in selected
    ensures Marked(ts, selected) == []
    decreases |ts|
  {
    if ts != [] {
      MarkedNone(ts[..|ts| - 1], selected);
    }
  }
}
