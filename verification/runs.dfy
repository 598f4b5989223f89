// Runs of a state machine whose steps are given by a partial function.
// Every protocol in this project is such a machine: one event is one
// lock-protected block or one library call, and a run is any interleaving.
module Runs {

  datatype Option<+T> = None | Some(value: T)

  // The state after playing `events` from `start`, or None when some event
  // was not possible in the state it met.
  ghost function Run<S, E>(step: (S, E) -> Option<S>, start: S, events: seq<E>): Option<S>
    decreases |events|
  {
    if events == [] then Some(start)
    else
      match Run(step, start, events[..|events| - 1])
      case None => None
      case Some(s) => step(s, events[|events| - 1])
  }

  // What holds at the start and is kept by every step holds after every run.
  lemma {:induction false} InvariantOverRuns<S(!new), E(!new)>(
      inv: S -> bool, step: (S, E) -> Option<S>, start: S, events: seq<E>)
    requires inv(start)
    requires forall s, e :: inv(s) && step(s, e).Some? ==> inv(step(s, e).value)
    requires Run(step, start, events).Some?
    ensures inv(Run(step, start, events).value)
    decreases |events|
  {
    if events != [] {
      InvariantOverRuns(inv, step, start, events[..|events| - 1]);
    }
  }

  // One more event at the end of a run.
  lemma RunSnoc<S, E>(step: (S, E) -> Option<S>, start: S, events: seq<E>, e: E)
    requires Run(step, start, events).Some?
    ensures Run(step, start, events + [e]) == step(Run(step, start, events).value, e)
  {
    assert (events + [e])[..|events|] == events;
  }

  // A run split in two.
  lemma {:induction false} RunAppend<S, E>(step: (S, E) -> Option<S>, start: S, a: seq<E>, b: seq<E>)
    requires Run(step, start, a).Some?
    ensures Run(step, start, a + b) == Run(step, Run(step, start, a).value, b)
    decreases |b|
  {
    if b == [] {
      assert a + b == a;
    } else {
      RunAppend(step, start, a, b[..|b| - 1]);
      assert (a + b)[..|a + b| - 1] == a + b[..|b| - 1];
    }
  }

  // One event, k times.
  function Same<E>(e: E, k: nat): (r: seq<E>)
    ensures |r| == k
  {
    seq(k, _ => e)
  }

  // Once more, from x to t.
  lemma OnceMore<S, E>(step: (S, E) -> Option<S>, start: S, e: E, k: nat, x: S, t: S)
    requires if k == 0 then x == start else Run(step, start, Same(e, k)) == Some(x)
    requires step(x, e) == Some(t)
    ensures Run(step, start, Same(e, k + 1)) == Some(t)
  {
    if k == 0 {
      assert Same(e, 0) == [];
    }
    assert Same(e, k + 1) == Same(e, k) + [e];
    RunSnoc(step, start, Same(e, k), e);
  }
}
