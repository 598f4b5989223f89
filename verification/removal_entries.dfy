// Removals of a torrent that is added again meanwhile (RemoveTorrent in
// internal/engine/ops.go): a removal looks its record up, waits for that
// record's opMu, and then deletes whatever entry the torrent has, dropping
// the instance of the record it had looked up.
module RemovalEntries {
  import opened Runs

  //  took  the record whose entry this removal deleted
  datatype Pc = Waiting | Dropping | Over
  datatype Remover = Remover(rec: nat, pc: Pc, took: Option<nat>)

  //  entry    the record in the torrent list
  //  running  for each record ever made, whether its instance runs
  datatype State = State(entry: Option<nat>, running: seq<bool>, removers: seq<Remover>)

  const INIT := State(None, [], [])

  datatype Event = Add | LookUp | Delete(k: nat) | Drop(k: nat)

  // Another removal is inside this record's opMu.
  predicate Busy(s: State, k: nat)
    requires k < |s.removers|
  {
    exists j :: 0 <= j < |s.removers| && j != k && s.removers[j].rec == s.removers[k].rec && s.removers[j].pc.Dropping?
  }

  function Step(s: State, e: Event): Option<State> {
    match e
    case Add =>
      if s.entry.Some? then None else Some(s.(entry := Some(|s.running|), running := s.running + [true]))
    case LookUp =>
      if s.entry.None? then None else Some(s.(removers := s.removers + [Remover(s.entry.value, Waiting, None)]))
    case Delete(k) =>
      if k >= |s.removers| || !s.removers[k].pc.Waiting? || Busy(s, k) then None
      else if s.entry.None? then Some(s.(removers := s.removers[k := s.removers[k].(pc := Over)]))
      else Some(s.(entry := None, removers := s.removers[k := s.removers[k].(pc := Dropping, took := s.entry)]))
    case Drop(k) =>
      if k >= |s.removers| || !s.removers[k].pc.Dropping? || s.removers[k].rec >= |s.running| then None
      else Some(s.(running := s.running[s.removers[k].rec := false],
          removers := s.removers[k := s.removers[k].(pc := Over)]))
  }

  // Somebody deleted this record's entry.
  predicate EntryGone(removers: seq<Remover>, r: nat) {
    exists k :: 0 <= k < |removers| && removers[k].took == Some(r)
  }

  // A removal that had looked this record up has dropped its instance.
  predicate InstanceGone(removers: seq<Remover>, r: nat) {
    exists k :: 0 <= k < |removers| && removers[k].rec == r && removers[k].took.Some? && removers[k].pc.Over?
  }

  ghost predicate Inv(s: State) {
    && (s.entry.Some? ==> s.entry.value < |s.running|)
    && (forall k | 0 <= k < |s.removers| :: s.removers[k].rec < |s.running|
          && (s.removers[k].took.Some? ==> s.removers[k].took.value < |s.running|))
    && (forall k | 0 <= k < |s.removers| && s.removers[k].pc.Waiting? :: s.removers[k].took.None?)
    && (forall k | 0 <= k < |s.removers| && s.removers[k].pc.Dropping? :: s.removers[k].took.Some?)
    && (forall r | 0 <= r < |s.running| :: EntryGone(s.removers, r) <==> s.entry != Some(r))
    && (forall r | 0 <= r < |s.running| :: InstanceGone(s.removers, r) <==> !s.running[r])
  }

  // ---- what each step does to the removals ----

  lemma GoneAfter(a: seq<Remover>, k: nat, x: Remover, r: nat)
    requires k < |a| && x.rec == a[k].rec && (a[k].took.Some? ==> x.took == a[k].took)
    requires a[k].took.Some? && a[k].pc.Over? ==> x.pc.Over?
    ensures EntryGone(a[k := x], r) <==> EntryGone(a, r) || x.took == Some(r)
    ensures InstanceGone(a[k := x], r) <==> InstanceGone(a, r) || (x.rec == r && x.took.Some? && x.pc.Over?)
  {
    var b := a[k := x];
    assert b[k] == x;
    if EntryGone(a, r) {
      var j :| 0 <= j < |a| && a[j].took == Some(r);
      assert b[j].took == Some(r);
    }
    if InstanceGone(a, r) {
      var j :| 0 <= j < |a| && a[j].rec == r && a[j].took.Some? && a[j].pc.Over?;
      assert b[j].rec == r && b[j].took.Some? && b[j].pc.Over?;
    }
  }

  lemma GoneWithOneMore(a: seq<Remover>, x: Remover, r: nat)
    requires x.took.None?
    ensures EntryGone(a + [x], r) <==> EntryGone(a, r)
    ensures InstanceGone(a + [x], r) <==> InstanceGone(a, r)
  {
    var b := a + [x];
    if EntryGone(a, r) {
      var j :| 0 <= j < |a| && a[j].took == Some(r);
      assert b[j].took == Some(r);
    }
    if InstanceGone(a, r) {
      var j :| 0 <= j < |a| && a[j].rec == r && a[j].took.Some? && a[j].pc.Over?;
      assert b[j].rec == r && b[j].took.Some? && b[j].pc.Over?;
    }
  }

  lemma RemoverKeeps(s: State, k: nat, t: State)
    requires Inv(s) && (Step(s, Delete(k)) == Some(t) || Step(s, Drop(k)) == Some(t))
    ensures Inv(t)
  {
    forall r | 0 <= r < |s.running|
      ensures EntryGone(t.removers, r) <==> EntryGone(s.removers, r) || t.removers[k].took == Some(r)
      ensures InstanceGone(t.removers, r) <==>
              InstanceGone(s.removers, r)
              || (t.removers[k].rec == r && t.removers[k].took.Some? && t.removers[k].pc.Over?)
    {
      GoneAfter(s.removers, k, t.removers[k], r);
    }
    if s.removers[k].pc.Dropping? {
      assert EntryGone(s.removers, s.removers[k].took.value);
    }
  }

  lemma AddKeeps(s: State, t: State)
    requires Inv(s) && Step(s, Add) == Some(t)
    ensures Inv(t)
  {
    forall r | 0 <= r < |t.running|
      ensures EntryGone(t.removers, r) <==> t.entry != Some(r)
      ensures InstanceGone(t.removers, r) <==> !t.running[r]
    {
      if r < |s.running| {
        assert t.running[r] == s.running[r];
      }
    }
  }

  lemma LookUpKeeps(s: State, t: State)
    requires Inv(s) && Step(s, LookUp) == Some(t)
    ensures Inv(t)
  {
    forall r | 0 <= r < |t.running|
      ensures EntryGone(t.removers, r) <==> t.entry != Some(r)
      ensures InstanceGone(t.removers, r) <==> !t.running[r]
    {
      GoneWithOneMore(s.removers, Remover(s.entry.value, Waiting, None), r);
    }
  }

  lemma StepKeeps(s: State, e: Event)
    requires Inv(s) && Step(s, e).Some?
    ensures Inv(Step(s, e).value)
  {
    match e
    case Add => AddKeeps(s, Step(s, e).value);
    case LookUp => LookUpKeeps(s, Step(s, e).value);
    case Delete(k) => RemoverKeeps(s, k, Step(s, e).value);
    case Drop(k) => RemoverKeeps(s, k, Step(s, e).value);
  }

  lemma Always(events: seq<Event>)
    requires Run(Step, INIT, events).Some?
    ensures Inv(Run(Step, INIT, events).value)
  {
    forall s, e | Inv(s) && Step(s, e).Some?
      ensures Inv(Step(s, e).value)
    {
      StepKeeps(s, e);
    }
    InvariantOverRuns(Inv, Step, INIT, events);
  }

  // ------------------------------------------------------------------
  // Instances that run unlisted
  // ------------------------------------------------------------------

  // Its instance runs, it is not in the list, and nobody is dropping it.
  predicate Stranded(s: State, r: nat) {
    && r < |s.running| && s.running[r] && s.entry != Some(r)
    && forall k | 0 <= k < |s.removers| :: s.removers[k].pc.Dropping? ==> s.removers[k].rec != r
  }

  // A removal deleted the entry of another record than it had looked up.
  predicate WrongEntry(m: Remover) {
    m.took.Some? && m.took.value != m.rec
  }

  // In every run a record's instance is left running unlisted exactly when
  // its entry was deleted and no removal that had looked it up has deleted
  // any entry.
  lemma StrandedExactly(events: seq<Event>, r: nat)
    requires Run(Step, INIT, events).Some? && r < |Run(Step, INIT, events).value.running|
    ensures var s := Run(Step, INIT, events).value;
            Stranded(s, r) <==>
            EntryGone(s.removers, r) && forall k | 0 <= k < |s.removers| && s.removers[k].rec == r ::
                s.removers[k].took.None?
  {
    Always(events);
    var s := Run(Step, INIT, events).value;
    if !s.running[r] {
      assert InstanceGone(s.removers, r);
    } else if k :| 0 <= k < |s.removers| && s.removers[k].rec == r && s.removers[k].took.Some? {
      assert !s.removers[k].pc.Over? by {
        assert !InstanceGone(s.removers, r);
      }
    }
  }

  // So none is while every removal deletes the entry it looked up.
  lemma NothingStranded(events: seq<Event>, r: nat)
    requires Run(Step, INIT, events).Some?
    requires var s := Run(Step, INIT, events).value; forall k | 0 <= k < |s.removers| :: !WrongEntry(s.removers[k])
    ensures !Stranded(Run(Step, INIT, events).value, r)
  {
    var s := Run(Step, INIT, events).value;
    if r < |s.running| && EntryGone(s.removers, r) {
      StrandedExactly(events, r);
      var k :| 0 <= k < |s.removers| && s.removers[k].took == Some(r);
      assert !WrongEntry(s.removers[k]);
    } else if r < |s.running| {
      StrandedExactly(events, r);
    }
  }

  ghost predicate Reaches(s: State) {
    exists events :: Run(Step, INIT, events) == Some(s)
  }

  ghost predicate Closed(r: iset<State>) {
    INIT in r && forall s, e {:trigger Step(s, e)} :: s in r && Step(s, e).Some? ==> Step(s, e).value in r
  }

  lemma Reachable() returns (r: iset<State>)
    ensures Closed(r)
    ensures forall s {:trigger Reaches(s)} :: s in r ==> Reaches(s)
  {
    r := iset s | Reaches(s);
    assert Run(Step, INIT, []) == Some(INIT);
    forall s, e | s in r && Step(s, e).Some?
      ensures Step(s, e).value in r
    {
      var events :| Run(Step, INIT, events) == Some(s);
      RunSnoc(Step, INIT, events, e);
    }
  }

  predicate Quiet(s: State) {
    forall k | 0 <= k < |s.removers| :: !s.removers[k].pc.Dropping?
  }

  // One whole removal, with nobody else dropping.
  lemma Removes(r: iset<State>, s: State, k: nat) returns (t: State)
    requires Closed(r) && s in r && Quiet(s) && s.entry.Some?
    requires k < |s.removers| && s.removers[k].pc.Waiting? && s.removers[k].rec < |s.running|
    ensures t in r && Quiet(t)
    ensures t == State(None, s.running[s.removers[k].rec := false],
                       s.removers[k := Remover(s.removers[k].rec, Over, s.entry)])
  {
    var a := Step(s, Delete(k)).value;
    t := Step(a, Drop(k)).value;
    assert t.removers == s.removers[k := Remover(s.removers[k].rec, Over, s.entry)];
  }

  lemma TwoLookUps(r: iset<State>) returns (t: State)
    requires Closed(r)
    ensures t in r && t == State(Some(0), [true], [Remover(0, Waiting, None), Remover(0, Waiting, None)])
  {
    var a := Step(INIT, Add).value;
    var b := Step(a, LookUp).value;
    t := Step(b, LookUp).value;
  }

  // Two removals look a torrent up, the first one ends, and it is added
  // again: the second deletes the new entry and leaves the new instance
  // running.
  lemma SecondRemovalStrands()
    ensures exists s :: Reaches(s) && Stranded(s, 1) && forall k | 0 <= k < |s.removers| :: s.removers[k].pc.Over?
  {
    var r := Reachable();
    var a := TwoLookUps(r);
    var b := Removes(r, a, 0);
    var c := Step(b, Add).value;
    assert c.running == [false, true];
    var d := Removes(r, c, 1);
    assert Reaches(d);
  }

  // ------------------------------------------------------------------
  // What one removal does
  // ------------------------------------------------------------------

  ghost predicate OneInside(s: State) {
    forall j, k | 0 <= j < k < |s.removers| && s.removers[j].pc.Dropping? && s.removers[k].pc.Dropping? ::
      s.removers[j].rec != s.removers[k].rec
  }

  // Two removals are never inside the opMu of one record.
  lemma OneAtATime(events: seq<Event>, j: nat, k: nat)
    requires Run(Step, INIT, events).Some?
    requires var s := Run(Step, INIT, events).value;
             && j < |s.removers| && k < |s.removers| && s.removers[j].rec == s.removers[k].rec
             && s.removers[j].pc.Dropping? && s.removers[k].pc.Dropping?
    ensures j == k
  {
    forall s, e | OneInside(s) && Step(s, e).Some?
      ensures OneInside(Step(s, e).value)
    {
    }
    InvariantOverRuns(OneInside, Step, INIT, events);
  }

  // A removal that nobody is inside before ends the torrent it finds: its
  // entry goes, and the instance of the record looked up is dropped. One that
  // finds none any more ends at once and changes nothing.
  lemma RemovesAlone(events: seq<Event>, k: nat)
    requires Run(Step, INIT, events).Some?
    requires var s := Run(Step, INIT, events).value;
             && k < |s.removers| && s.removers[k].pc.Waiting?
             && forall j | 0 <= j < |s.removers| && s.removers[j].pc.Dropping? :: s.removers[j].rec != s.removers[k].rec
    ensures var s := Run(Step, INIT, events).value;
            var u := Step(s, Delete(k));
            && u.Some? && u.value.entry.None? && u.value.running == s.running
            && (s.entry.None? ==> u.value == s.(removers := s.removers[k := s.removers[k].(pc := Over)]))
            && (s.entry.Some? ==>
                  && u.value.removers[k] == s.removers[k].(pc := Dropping, took := s.entry)
                  && Step(u.value, Drop(k)).Some?
                  && var t := Step(u.value, Drop(k)).value;
                     && t.removers[k].pc.Over? && t.entry.None? && s.removers[k].rec < |s.running|
                     && t.running == s.running[s.removers[k].rec := false])
  {
    Always(events);
  }
}
