// One torrent's record as the engine keeps it (internal/engine/engine.go),
// with the blocks that run under the engine lock e.mu as functions of the
// record, and the record itself as an object whose methods are those blocks.
module TrackedRecord {
  import opened Runs

  // Byte counters, one per direction.
  datatype Bytes = Bytes(down: nat, up: nat) {
    function Plus(other: Bytes): Bytes {
      Bytes(down + other.down, up + other.up)
    }

    predicate Within(other: Bytes) {
      down <= other.down && up <= other.up
    }

    // How far these counters have gone past an earlier reading of them.
    function Beyond(read: Bytes): Bytes {
      Bytes(if down > read.down then down - read.down else 0, if up > read.up then up - read.up else 0)
    }
  }

  const NO_BYTES := Bytes(0, 0)

  lemma PlusNothing(a: Bytes)
    ensures a.Plus(NO_BYTES) == a
  {
  }

  lemma NothingTwice(a: Bytes, b: Bytes)
    ensures a.Plus(b) == NO_BYTES <==> a == NO_BYTES && b == NO_BYTES
  {
    var sum := a.Plus(b);
    assert sum.down == a.down + b.down && sum.up == a.up + b.up;
    assert sum == NO_BYTES <==> sum.down == 0 && sum.up == 0;
  }

  lemma NothingInSum(a: Bytes, b: Bytes, c: Bytes)
    ensures a.Plus(b).Plus(c) == NO_BYTES <==> a == NO_BYTES && b == NO_BYTES && c == NO_BYTES
  {
    NothingTwice(a.Plus(b), c);
    NothingTwice(a, b);
  }

  // With nothing missed, a sum is right when nothing is in it twice.
  lemma RightExactly(reported: Bytes, missed: Bytes, ever: Bytes, twice: Bytes)
    requires reported.Plus(missed) == ever.Plus(twice)
    ensures missed == NO_BYTES ==> (reported == ever <==> twice == NO_BYTES)
  {
  }

  // One daemon's account, put together with that of the ones before it.
  lemma AccountsAdd(reported: Bytes, lost: Bytes, unswapped: Bytes, restored: Bytes, total: Bytes, excess: Bytes,
                    doubled: Bytes, missed: Bytes, past: Bytes, twice: Bytes)
    requires reported.Plus(lost).Plus(unswapped) == restored.Plus(total).Plus(excess).Plus(doubled)
    requires restored.Plus(missed) == past.Plus(twice)
    ensures reported.Plus(missed.Plus(lost).Plus(unswapped)) == past.Plus(total).Plus(twice.Plus(excess).Plus(doubled))
  {
  }

  // The part of a tracked torrent that the threads share.
  //  inst       the library instance tr.t points at
  //  checks     the counter behind checkWG
  //  cancel     the verification whose context cancelCheck cancels
  //  cancelled  the verifications whose context has been cancelled
  datatype Record = Record(
    present: bool, inst: nat, base: Bytes, paused: bool, hold: bool,
    checks: nat, cancel: Option<nat>, cancelled: set<nat>, checking: bool)

  function Cancelled(r: Record): Record {
    if r.cancel.Some? then r.(cancelled := r.cancelled + {r.cancel.value}) else r
  }

  function Registered(r: Record, check: nat): Record {
    Cancelled(r).(cancel := Some(check), checking := true)
  }

  function Cleared(r: Record, check: nat): Record {
    r.(cancelled := r.cancelled + {check}, cancel := None, checking := false)
  }

  function PausedAs(r: Record, paused: bool): Record {
    if paused then Cancelled(r).(paused := true) else r.(paused := false)
  }

  function Held(r: Record, pausing: bool): Record {
    r.(hold := true, paused := r.paused || pausing)
  }

  class Tracked {
    var present: bool
    var inst: nat
    var base: Bytes
    var paused: bool
    var hold: bool
    var checks: nat
    var cancel: Option<nat>
    var cancelled: set<nat>
    var checking: bool

    function View(): Record
      reads this
    {
      Record(present, inst, base, paused, hold, checks, cancel, cancelled, checking)
    }

    constructor (inst: nat, paused: bool)
      ensures View() == Record(true, inst, NO_BYTES, paused, false, 0, None, {}, false)
    {
      this.present, this.inst, this.base := true, inst, NO_BYTES;
      this.paused, this.hold, this.checks := paused, false, 0;
      this.cancel, this.cancelled, this.checking := None, {}, false;
    }

    method CancelCheck()
      modifies this`cancelled
      ensures View() == Cancelled(old(View()))
    {
      if cancel.Some? {
        cancelled := cancelled + {cancel.value};
      }
    }

    method RegisterCheck(check: nat)
      modifies this`cancelled, this`cancel, this`checking
      ensures View() == Registered(old(View()), check)
    {
      CancelCheck();
      cancel := Some(check);
      checking := true;
    }

    method ClearCheck(check: nat)
      modifies this`cancelled, this`cancel, this`checking
      ensures View() == Cleared(old(View()), check)
    {
      cancelled := cancelled + {check};
      cancel := None;
      checking := false;
    }

    method SetPaused(pausing: bool)
      modifies this`paused, this`cancelled
      ensures View() == PausedAs(old(View()), pausing)
    {
      paused := pausing;
      if pausing {
        CancelCheck();
      }
    }

    method HoldData(pausing: bool)
      modifies this`hold, this`paused
      ensures View() == Held(old(View()), pausing)
    {
      if pausing {
        paused := true;
      }
      hold := true;
    }

    method FoldCounters(moved: Bytes)
      modifies this`base
      ensures View() == old(View()).(base := old(base).Plus(moved))
    {
      base := Bytes(base.down + moved.down, base.up + moved.up);
    }
  }
}
