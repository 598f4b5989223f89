// That the daemon answers (internal/ipc/server.go, internal/ipc/client.go):
// where a request is between the server's reading of it and the return of its
// call, and that a call which waits can be answered.
module RpcAnswers {
  import opened Runs
  import opened RpcClient
  import opened Rpc

  // ------------------------------------------------------------------
  // Where a request is
  // ------------------------------------------------------------------

  // How many of these requests are call i's.
  function RequestsOf(rs: seq<Request>, i: nat): nat {
    if rs == [] then 0 else RequestsOf(rs[..|rs| - 1], i) + if rs[|rs| - 1].call == i then 1 else 0
  }

  function AnswersOf(rs: seq<Response>, i: nat): nat {
    if rs == [] then 0 else AnswersOf(rs[..|rs| - 1], i) + if IsAnswer(rs[|rs| - 1], i) then 1 else 0
  }

  predicate IsAnswer(r: Response, i: nat) {
    r.Reply? && r.request == i
  }

  predicate InSlot(t: Table, i: nat) {
    i in t.slots && IsAnswer(t.slots[i], i)
  }

  predicate InHand(r: Reader, i: nat) {
    r.Delivering? && IsAnswer(r.r, i)
  }

  // Every place call i's request, or its answer, can be in once the server
  // has read it: run in line or aside, on its way back, in the reader's hands,
  // in the call's channel, or read when nobody waited for it.
  function Places(s: State, i: nat): nat {
    (if s.serving.Some? && s.serving.value.call == i then 1 else 0) + RequestsOf(s.searching, i)
    + AnswersOf(s.toClient, i) + (if InHand(s.reader, i) then 1 else 0)
    + (if InSlot(s.table, i) then 1 else 0) + s.unclaimed[i]
  }

  ghost predicate Placed(s: State) {
    forall i: nat :: Places(s, i) == if i in s.dispatched then 1 else 0
  }

  lemma {:induction false} RequestsAppend(a: seq<Request>, b: seq<Request>, i: nat)
    ensures RequestsOf(a + b, i) == RequestsOf(a, i) + RequestsOf(b, i)
    decreases |b|
  {
    if b == [] {
      assert a + b == a;
    } else {
      assert (a + b)[..|a + b| - 1] == a + b[..|b| - 1];
      RequestsAppend(a, b[..|b| - 1], i);
    }
  }

  lemma {:induction false} AnswersAppend(a: seq<Response>, b: seq<Response>, i: nat)
    ensures AnswersOf(a + b, i) == AnswersOf(a, i) + AnswersOf(b, i)
    decreases |b|
  {
    if b == [] {
      assert a + b == a;
    } else {
      assert (a + b)[..|a + b| - 1] == a + b[..|b| - 1];
      AnswersAppend(a, b[..|b| - 1], i);
    }
  }

  lemma RequestTakenOut(rs: seq<Request>, k: nat, i: nat)
    requires k < |rs|
    ensures RequestsOf(rs, i) == RequestsOf(rs[..k] + rs[k + 1..], i) + if rs[k].call == i then 1 else 0
  {
    RequestsAppend(rs[..k], rs[k + 1..], i);
    RequestsAppend(rs[..k], [rs[k]], i);
    RequestsAppend(rs[..k] + [rs[k]], rs[k + 1..], i);
    assert rs == rs[..k] + [rs[k]] + rs[k + 1..];
    assert [rs[k]][..0] == [];
  }

  lemma AnswerTakenOff(rs: seq<Response>, i: nat)
    requires rs != []
    ensures AnswersOf(rs, i) == AnswersOf(rs[1..], i) + if IsAnswer(rs[0], i) then 1 else 0
  {
    AnswersAppend([rs[0]], rs[1..], i);
    assert rs == [rs[0]] + rs[1..];
    assert [rs[0]][..0] == [];
  }

  lemma DispatchPlaces(s: State, t: State, i: nat)
    requires Inv(s) && Placed(s) && Step(s, Dispatch) == Some(t)
    ensures Places(t, i) == if i in t.dispatched then 1 else 0
  {
    var r := s.toServer[0];
    RequestsAppend(s.searching, [r], i);
    assert [r][..0] == [];
    NotDispatchedYet(s);
    assert Places(s, i) == if i in s.dispatched then 1 else 0;
  }

  lemma NotDispatchedYet(s: State)
    requires OnceWell(s.written, s.dispatched, s.toServer, s.calls) && s.toServer != []
    ensures s.toServer[0].call !in s.dispatched
  {
    assert s.written[|s.dispatched|] == s.toServer[0].call;
  }

  lemma ReplyPlaces(s: State, e: Event, t: State, i: nat)
    requires Inv(s) && Placed(s) && Step(s, e) == Some(t) && (e.Reply? || e.SearchReply?)
    ensures Places(t, i) == if i in t.dispatched then 1 else 0
  {
    var answer := Answer(if e.Reply? then s.serving.value else s.searching[e.k]);
    AnswersAppend(s.toClient, [answer], i);
    assert [answer][..0] == [];
    if e.SearchReply? {
      RequestTakenOut(s.searching, e.k, i);
    }
    assert Places(s, i) == if i in s.dispatched then 1 else 0;
  }

  lemma ReadPlaces(s: State, t: State, i: nat)
    requires Inv(s) && Placed(s) && Step(s, ReadReply) == Some(t)
    ensures Places(t, i) == if i in t.dispatched then 1 else 0
  {
    AnswerTakenOff(s.toClient, i);
    assert Places(s, i) == if i in s.dispatched then 1 else 0;
    AnswerGoesOn(s, t, i);
  }

  // The reader takes an answer in its hands, or nobody claims it.
  lemma AnswerGoesOn(s: State, t: State, i: nat)
    requires Inv(s) && Step(s, ReadReply) == Some(t)
    ensures (if InHand(t.reader, i) then 1 else 0) + t.unclaimed[i]
         == s.unclaimed[i] + if IsAnswer(s.toClient[0], i) then 1 else 0
    ensures InSlot(t.table, i) == InSlot(s.table, i) && t.toClient == s.toClient[1..]
    ensures t.serving == s.serving && t.searching == s.searching && t.dispatched == s.dispatched
  {
    assert Numbered(s.toClient[0]);
  }

  lemma TablePlaces(s: State, e: Event, t: State, i: nat)
    requires Inv(s) && Placed(s) && Step(s, e) == Some(t)
    requires !e.Dispatch? && !e.Reply? && !e.SearchReply? && !e.ReadReply?
    ensures Places(t, i) == if i in t.dispatched then 1 else 0
  {
    assert Places(s, i) == if i in s.dispatched then 1 else 0;
    assert t.serving == s.serving && t.searching == s.searching && t.toClient == s.toClient;
    assert t.dispatched == s.dispatched && t.unclaimed == s.unclaimed;
    SlotOrHand(s, e, t, i);
  }

  lemma SlotOrHand(s: State, e: Event, t: State, i: nat)
    requires Inv(s) && Step(s, e) == Some(t)
    requires !e.Dispatch? && !e.Reply? && !e.SearchReply? && !e.ReadReply?
    ensures (if InHand(t.reader, i) then 1 else 0) + (if InSlot(t.table, i) then 1 else 0)
         == (if InHand(s.reader, i) then 1 else 0) + (if InSlot(s.table, i) then 1 else 0)
  {
    if e.HangUp? && i in s.table.slots {
      assert i !in s.table.pending.Values;
    }
  }

  lemma StepKeepsPlaced(s: State, e: Event)
    requires Inv(s) && Placed(s) && Step(s, e).Some?
    ensures Placed(Step(s, e).value)
  {
    var t := Step(s, e).value;
    forall i: nat
      ensures Places(t, i) == if i in t.dispatched then 1 else 0
    {
      match e
      case Dispatch => DispatchPlaces(s, t, i);
      case Reply => ReplyPlaces(s, e, t, i);
      case SearchReply(k) => ReplyPlaces(s, e, t, i);
      case ReadReply => ReadPlaces(s, t, i);
      case _ => TablePlaces(s, e, t, i);
    }
  }

  // ------------------------------------------------------------------
  // What else a waiting call can count on
  // ------------------------------------------------------------------

  // A waiting call has written its request, its answer has not been thrown
  // away, and only a reader that has stopped has told it of a loss.
  ghost predicate WaitsWell(s: State) {
    && (forall i | 0 <= i < |s.calls| && s.calls[i].pc.Waiting? :: i in s.written)
    && (forall i: nat | i in s.unclaimed :: i < |s.calls| && i + 1 !in s.table.pending)
    && (!s.reader.Stopped? ==> forall c | c in s.table.slots :: s.table.slots[c].Reply?)
    && (s.reader.Delivering? ==> s.reader.r.Reply?)
  }

  lemma StepKeepsWaits(s: State, e: Event)
    requires Inv(s) && Placed(s) && WaitsWell(s) && Step(s, e).Some?
    ensures WaitsWell(Step(s, e).value)
  {
    if e.ReadReply? {
      ReadKeepsWaits(s, Step(s, e).value);
    } else {
      OtherKeepsWaits(s, e, Step(s, e).value);
    }
  }

  lemma ReadKeepsWaits(s: State, t: State)
    requires Inv(s) && Placed(s) && WaitsWell(s) && Step(s, ReadReply) == Some(t)
    ensures WaitsWell(t)
  {
    if s.toClient[0].Reply? {
      assert Numbered(s.toClient[0]);
      AnsweredIsACall(s);
    }
  }

  lemma AnsweredIsACall(s: State)
    requires Inv(s) && Placed(s) && s.toClient != [] && s.toClient[0].Reply?
    ensures s.toClient[0].request < |s.calls|
  {
    var i := s.toClient[0].request;
    AnswerTakenOff(s.toClient, i);
    assert Places(s, i) == if i in s.dispatched then 1 else 0;
  }

  lemma OtherKeepsWaits(s: State, e: Event, t: State)
    requires Inv(s) && WaitsWell(s) && Step(s, e) == Some(t) && !e.ReadReply?
    ensures WaitsWell(t)
  {
    match e
    case Begin(search) =>
    case Write(i, ok) =>
    case Dispatch =>
    case Reply =>
    case SearchReply(k) =>
    case Deliver =>
    case HangUp =>
    case Return(i) =>
    case TimeOut(i) =>
    case CloseClient =>
    case ReturnClosed(i) =>
  }

  ghost predicate Full(s: State) {
    Inv(s) && Placed(s) && WaitsWell(s)
  }

  lemma FullAlways(events: seq<Event>)
    requires Run(Step, INIT, events).Some?
    ensures Full(Run(Step, INIT, events).value)
  {
    forall s, e | Full(s) && Step(s, e).Some?
      ensures Full(Step(s, e).value)
    {
      StepKeeps(s, e);
      StepKeepsPlaced(s, e);
      StepKeepsWaits(s, e);
    }
    InvariantOverRuns(Full, Step, INIT, events);
  }

  // In every run each request the server has read is in exactly one place,
  // and no other call has an answer anywhere: nothing is dropped, answered
  // twice or made up.
  lemma OnePlace(events: seq<Event>, i: nat)
    requires Run(Step, INIT, events).Some?
    ensures var s := Run(Step, INIT, events).value; Places(s, i) == if i in s.dispatched then 1 else 0
  {
    FullAlways(events);
  }

  // ------------------------------------------------------------------
  // A call that waits can be answered
  // ------------------------------------------------------------------

  // What server and reader have left to do.
  function Work(s: State): nat {
    4 * |s.toServer| + 3 * (|s.searching| + if s.serving.Some? then 1 else 0) + 2 * |s.toClient|
    + if s.reader.Delivering? then 1 else 0
  }

  // A step of the server or of the reader.
  predicate ByPeer(e: Event) {
    e.Dispatch? || e.Reply? || e.SearchReply? || e.ReadReply? || e.Deliver?
  }

  // What they do next, answers before requests.
  function NextWork(s: State): Event {
    if s.reader.Delivering? then Deliver
    else if s.toClient != [] then ReadReply
    else if s.searching != [] then SearchReply(0)
    else if s.serving.Some? then Event.Reply
    else Dispatch
  }

  lemma WorkGoesOn(s: State)
    requires Inv(s) && Work(s) > 0 && !s.reader.Stopped?
    ensures Step(s, NextWork(s)).Some?
    ensures var t := Step(s, NextWork(s)).value;
            Work(t) < Work(s) && t.calls == s.calls && !t.reader.Stopped?
  {
  }

  // With all of it done, a call that waits has its answer.
  lemma NothingLeft(s: State, i: nat)
    requires Full(s) && Work(s) == 0 && !s.reader.Stopped? && i < |s.calls| && s.calls[i].pc.Waiting?
    ensures InSlot(s.table, i)
  {
    assert s.toServer == [] && s.dispatched == s.written;
    assert Told(s, i);
    assert Places(s, i) == 1;
  }

  // The step of a run from here is a run from here.
  lemma StepFirst(s: State, e: Event, more: seq<Event>)
    requires Step(s, e).Some? && Run(Step, Step(s, e).value, more).Some?
    ensures Run(Step, s, [e] + more) == Run(Step, Step(s, e).value, more)
  {
    assert Run(Step, s, []) == Some(s);
    RunSnoc(Step, s, [], e);
    assert [] + [e] == [e];
    RunAppend(Step, s, [e], more);
  }

  lemma {:induction false} AnswerFrom(s: State, i: nat) returns (more: seq<Event>)
    requires Full(s) && !s.reader.Stopped? && i < |s.calls| && s.calls[i].pc.Waiting?
    ensures Run(Step, s, more).Some?
    ensures var t := Run(Step, s, more).value;
            i < |t.calls| && t.calls[i].pc.Returned? && t.calls[i].pc.outcome.Answered?
            && IsAnswer(t.calls[i].pc.outcome.r, i)
    ensures forall e | e in more :: e == Return(i) || ByPeer(e)
    decreases Work(s)
  {
    if Work(s) == 0 {
      NothingLeft(s, i);
      more := [Return(i)];
      StepFirst(s, Return(i), []);
      assert [Return(i)] + [] == [Return(i)];
    } else {
      var e := NextWork(s);
      WorkGoesOn(s);
      var t := Step(s, e).value;
      StepKeeps(s, e);
      StepKeepsPlaced(s, e);
      StepKeepsWaits(s, e);
      var rest := AnswerFrom(t, i);
      StepFirst(s, e, rest);
      more := [e] + rest;
    }
  }

  // From every state of every run in which a call waits and the reader has
  // not stopped, server and reader alone can bring it the answer to its own
  // request, however much is in the way and whoever else has given up.
  lemma AnswerComes(events: seq<Event>, i: nat) returns (more: seq<Event>)
    requires Run(Step, INIT, events).Some?
    requires var s := Run(Step, INIT, events).value;
             !s.reader.Stopped? && i < |s.calls| && s.calls[i].pc.Waiting?
    ensures Run(Step, INIT, events + more).Some?
    ensures forall e | e in more :: e == Return(i) || ByPeer(e)
    ensures var t := Run(Step, INIT, events + more).value;
            i < |t.calls| && t.calls[i].pc.Returned? && t.calls[i].pc.outcome.Answered?
            && IsAnswer(t.calls[i].pc.outcome.r, i)
  {
    FullAlways(events);
    more := AnswerFrom(Run(Step, INIT, events).value, i);
    RunAppend(Step, INIT, events, more);
  }

  // ------------------------------------------------------------------
  // The other ways a call ends
  // ------------------------------------------------------------------

  // What the outcome of a call tells: one that could not be sent never
  // reaches the server, one that timed out was sent, and only a closed client
  // says that it is closed. None but that last leaves its number behind.
  ghost predicate OutcomeWell(s: State, i: nat)
    requires i < |s.calls|
  {
    match s.calls[i].pc
    case Writing => i !in s.written
    case Waiting => i in s.written
    case Returned(outcome) =>
      && (outcome.SendFailed? <==> i !in s.written) && (outcome.ClientClosed? ==> s.closed)
      && (!outcome.ClientClosed? ==> i + 1 !in s.table.pending)
  }

  // Searches are run aside, and nothing else is.
  ghost predicate Aside(s: State) {
    && (s.serving.Some? ==> !s.serving.value.search) && (forall r | r in s.searching :: r.search)
  }

  ghost predicate Ends(s: State) {
    Inv(s) && Aside(s) && forall i | 0 <= i < |s.calls| :: OutcomeWell(s, i)
  }

  lemma OutcomeKept(s: State, e: Event, t: State, i: nat)
    requires Ends(s) && Step(s, e) == Some(t) && i < |t.calls|
    ensures OutcomeWell(t, i)
  {
    if i < |s.calls| {
      assert OutcomeWell(s, i);
      if e.Return? && e.call == i {
        assert Told(s, i);
      }
    }
  }

  lemma AsideKept(s: State, e: Event, t: State)
    requires Aside(s) && Step(s, e) == Some(t)
    ensures Aside(t)
  {
    if e.SearchReply? {
      assert forall r | r in t.searching :: r in s.searching;
    }
  }

  lemma EndsAlways(events: seq<Event>)
    requires Run(Step, INIT, events).Some?
    ensures Ends(Run(Step, INIT, events).value)
  {
    forall s, e | Ends(s) && Step(s, e).Some?
      ensures Ends(Step(s, e).value)
    {
      var t := Step(s, e).value;
      StepKeeps(s, e);
      AsideKept(s, e, t);
      forall i | 0 <= i < |t.calls|
        ensures OutcomeWell(t, i)
      {
        OutcomeKept(s, e, t, i);
      }
    }
    InvariantOverRuns(Ends, Step, INIT, events);
  }

  // In every run: a call returns that its sending failed exactly when its
  // request was never written, and then it is never run; a call that has
  // returned is not waited for any more, unless its client was closed; and
  // that a client is closed is said by none that is not.
  lemma OutcomesAreTrue(events: seq<Event>, i: nat)
    requires Run(Step, INIT, events).Some?
    requires i < |Run(Step, INIT, events).value.calls| && Run(Step, INIT, events).value.calls[i].pc.Returned?
    ensures var s := Run(Step, INIT, events).value;
            var outcome := s.calls[i].pc.outcome;
            && (outcome.SendFailed? <==> i !in s.written) && (outcome.SendFailed? ==> i !in s.dispatched)
            && (outcome.ClientClosed? ==> s.closed) && (!outcome.ClientClosed? ==> i + 1 !in s.table.pending)
  {
    EndsAlways(events);
    assert OutcomeWell(Run(Step, INIT, events).value, i);
  }

  // A call never has to wait: it can give up at any time, at once when its
  // client is closed, and a failed write ends it; each says so.
  lemma GivesUp(events: seq<Event>, i: nat)
    requires Run(Step, INIT, events).Some? && i < |Run(Step, INIT, events).value.calls|
    ensures var s := Run(Step, INIT, events).value;
            && (s.calls[i].pc.Waiting? ==>
                  && Step(s, TimeOut(i)).Some? && Step(s, TimeOut(i)).value.calls[i].pc == Returned(TimedOut)
                  && Step(s, CloseClient).Some? && Step(Step(s, CloseClient).value, ReturnClosed(i)).Some?
                  && Step(Step(s, CloseClient).value, ReturnClosed(i)).value.calls[i].pc == Returned(ClientClosed))
            && (s.calls[i].pc.Writing? ==>
                  Step(s, Write(i, false)).Some? && Step(s, Write(i, false)).value.calls[i].pc == Returned(SendFailed))
  {
    Always(events);
  }

  // A search holds nobody up: while any number of them run, the server goes
  // on to the next request as soon as the one it answers in line is done.
  lemma SearchesHoldNobodyUp(events: seq<Event>)
    requires Run(Step, INIT, events).Some?
    ensures var s := Run(Step, INIT, events).value;
            && (forall r | r in s.searching :: r.search) && (s.serving.Some? ==> !s.serving.value.search)
            && (s.toServer != [] && s.serving.None? ==> Step(s, Dispatch).Some?)
            && (s.toServer != [] && s.serving.Some? ==>
                  Step(s, Event.Reply).Some? && Step(Step(s, Event.Reply).value, Dispatch).Some?)
  {
    EndsAlways(events);
  }
}
