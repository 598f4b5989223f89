// The request and reply protocol between one client and the daemon
// (internal/ipc/client.go, internal/ipc/server.go): callers, the client's
// reader, the two directions of the connection, and a server that answers
// in line except for searches, which it answers whenever they are done.
module Rpc {
  import opened Runs
  import opened RpcClient

  datatype Outcome = Answered(r: Response) | SendFailed | TimedOut | ClientClosed

  datatype CallPc = Writing | Waiting | Returned(outcome: Outcome)

  // Call i is the i-th that was made; its request is the one it wrote.
  datatype Call = Call(num: nat, search: bool, pc: CallPc)

  datatype Request = Request(num: nat, call: nat, search: bool)

  datatype Reader = Reading | Delivering(call: nat, r: Response) | Stopped

  //  written     the calls whose requests have been written, in order
  //  dispatched  the calls whose requests the server has begun to run
  //  heard       how many calls had been made when the reader stopped
  //  unclaimed   the calls whose answers were read when nobody waited for them
  datatype State = State(
    table: Table, calls: seq<Call>, toServer: seq<Request>, serving: Option<Request>, searching: seq<Request>,
    toClient: seq<Response>, reader: Reader, closed: bool, written: seq<nat>,
    dispatched: seq<nat>, heard: nat, unclaimed: multiset<nat>)

  datatype Event =
    | Begin(search: bool) | Write(call: nat, ok: bool)
    | Dispatch | Reply | SearchReply(k: nat)
    | ReadReply | Deliver | HangUp
    | Return(call: nat) | TimeOut(call: nat) | CloseClient | ReturnClosed(call: nat)

  const INIT := State(EMPTY, [], [], None, [], [], Reading, false, [], [], 0, multiset{})

  function SetPc(calls: seq<Call>, i: nat, pc: CallPc): seq<Call>
    requires i < |calls|
  {
    calls[i := calls[i].(pc := pc)]
  }

  function Answer(r: Request): Response {
    Response.Reply(r.num, r.call)
  }

  function Step(s: State, e: Event): Option<State> {
    match e
    // callFor: register under mu, then write under writeMu.
    case Begin(search) =>
      Some(s.(table := Registered(s.table, |s.calls|), calls := s.calls + [Call(s.table.num + 1, search, Writing)]))
    case Write(i, ok) =>
      if i >= |s.calls| || !s.calls[i].pc.Writing? then None
      else if ok then
        Some(s.(calls := SetPc(s.calls, i, Waiting), written := s.written + [i],
                toServer := s.toServer + [Request(s.calls[i].num, i, s.calls[i].search)]))
      else
        Some(s.(calls := SetPc(s.calls, i, Returned(SendFailed)), table := Forgotten(s.table, s.calls[i].num)))
    // handleConn: one request at a time, searches aside.
    case Dispatch =>
      if s.serving.Some? || s.toServer == [] then None
      else
        var r := s.toServer[0];
        var t := s.(toServer := s.toServer[1..], dispatched := s.dispatched + [r.call]);
        Some(if r.search then t.(searching := s.searching + [r]) else t.(serving := Some(r)))
    case Reply =>
      if s.serving.None? then None
      else Some(s.(serving := None, toClient := s.toClient + [Answer(s.serving.value)]))
    case SearchReply(k) =>
      if k >= |s.searching| then None
      else Some(s.(searching := s.searching[..k] + s.searching[k + 1..],
                   toClient := s.toClient + [Answer(s.searching[k])]))
    // readLoop: look the channel up and take it out of the map, then send.
    case ReadReply =>
      if !s.reader.Reading? || s.toClient == [] then None
      else
        var r := s.toClient[0];
        if r.Lost? then Some(s.(toClient := s.toClient[1..]))
        else
          var t := s.(toClient := s.toClient[1..], table := Forgotten(s.table, r.num));
          Some(if r.num in s.table.pending then t.(reader := Delivering(s.table.pending[r.num], r))
               else t.(unclaimed := s.unclaimed + multiset{r.request}))
    case Deliver =>
      if !s.reader.Delivering? || s.reader.call in s.table.slots then None
      else Some(s.(table := Sent(s.table, s.reader.call, s.reader.r), reader := Reading))
    case HangUp =>
      if !s.reader.Reading? || exists n :: n in s.table.pending && s.table.pending[n] in s.table.slots then None
      else Some(s.(table := AllFailed(s.table), reader := Stopped, heard := |s.calls|))
    // callFor's select.
    case Return(i) =>
      if i >= |s.calls| || !s.calls[i].pc.Waiting? || i !in s.table.slots then None
      else Some(s.(calls := SetPc(s.calls, i, Returned(Answered(s.table.slots[i])))))
    case TimeOut(i) =>
      if i >= |s.calls| || !s.calls[i].pc.Waiting? then None
      else Some(s.(calls := SetPc(s.calls, i, Returned(TimedOut)), table := Forgotten(s.table, s.calls[i].num)))
    case CloseClient => Some(s.(closed := true))
    case ReturnClosed(i) =>
      if i >= |s.calls| || !s.calls[i].pc.Waiting? || !s.closed then None
      else Some(s.(calls := SetPc(s.calls, i, Returned(ClientClosed))))
  }

  // ------------------------------------------------------------------
  // The invariant
  // ------------------------------------------------------------------

  // Call i has number i + 1, and only a call that has not heard anything
  // is in the pending map, under its own number.
  ghost predicate CallsWell(t: Table, calls: seq<Call>) {
    && t.num == |calls|
    && (forall i | 0 <= i < |calls| :: calls[i].num == i + 1)
    && (forall n | n in t.pending :: t.pending[n] < |calls| && n == t.pending[n] + 1 && t.pending[n] !in t.slots)
    && (forall c | c in t.slots :: c < |calls| && OwnAnswer(t.slots[c], c))
    && (forall i | 0 <= i < |calls| && calls[i].pc.Returned? && calls[i].pc.outcome.Answered? ::
          OwnAnswer(calls[i].pc.outcome.r, i))
  }

  predicate OwnAnswer(r: Response, call: nat) {
    r.Reply? ==> r.request == call
  }

  predicate Numbered(r: Response) {
    r.Reply? ==> r.num == r.request + 1
  }

  // What travels carries the number of the call it belongs to.
  ghost predicate WireWell(s: State) {
    && (forall k | 0 <= k < |s.toServer| :: s.toServer[k].num == s.toServer[k].call + 1)
    && (s.serving.Some? ==> s.serving.value.num == s.serving.value.call + 1)
    && (forall k | 0 <= k < |s.searching| :: s.searching[k].num == s.searching[k].call + 1)
    && (forall k | 0 <= k < |s.toClient| :: Numbered(s.toClient[k]))
  }

  ghost predicate ReaderWell(s: State) {
    s.reader.Delivering? ==>
      && s.reader.call < |s.calls| && s.reader.call !in s.table.slots && s.reader.call + 1 !in s.table.pending
      && OwnAnswer(s.reader.r, s.reader.call)
  }

  // A call writes its request once, and the server runs the requests in
  // the order they were written.
  ghost predicate OnceWell(written: seq<nat>, dispatched: seq<nat>, toServer: seq<Request>, calls: seq<Call>) {
    && (forall i, j | 0 <= i < j < |written| :: written[i] != written[j])
    && (forall i | 0 <= i < |written| :: written[i] < |calls| && !calls[written[i]].pc.Writing?)
    && |written| == |dispatched| + |toServer|
    && dispatched == written[..|dispatched|]
    && (forall i | |dispatched| <= i < |written| :: toServer[i - |dispatched|].call == written[i])
  }

  // A waiting call has its message, or can still be given one; once the
  // reader has stopped, every call made before that has its message.
  ghost predicate ToldWell(s: State) {
    && s.heard <= |s.calls|
    && forall i | 0 <= i < |s.calls| && !s.calls[i].pc.Returned? :: Told(s, i)
  }

  ghost predicate Told(s: State, i: nat) {
    || i in s.table.slots
    || (i + 1 in s.table.pending && s.table.pending[i + 1] == i && (s.reader.Stopped? ==> i >= s.heard))
    || (s.reader.Delivering? && s.reader.call == i)
  }

  ghost predicate Inv(s: State) {
    && CallsWell(s.table, s.calls) && WireWell(s) && ReaderWell(s) && ToldWell(s)
    && OnceWell(s.written, s.dispatched, s.toServer, s.calls)
  }

  lemma CallsKept(s: State, e: Event)
    requires CallsWell(s.table, s.calls) && ReaderWell(s) && Step(s, e).Some?
    ensures CallsWell(Step(s, e).value.table, Step(s, e).value.calls)
  {
    match e
    case Begin(search) =>
    case Write(i, ok) =>
    case Dispatch =>
    case Reply =>
    case SearchReply(k) =>
    case ReadReply =>
    case Deliver => DeliverKept(s.table, s.calls, s.reader.call, s.reader.r);
    case HangUp => FailKept(s.table, s.calls);
    case Return(i) =>
    case TimeOut(i) =>
    case CloseClient =>
    case ReturnClosed(i) =>
  }

  lemma DeliverKept(t: Table, calls: seq<Call>, c: nat, r: Response)
    requires CallsWell(t, calls) && c < |calls| && c + 1 !in t.pending && OwnAnswer(r, c)
    ensures CallsWell(Sent(t, c, r), calls)
  {
  }

  lemma FailKept(t: Table, calls: seq<Call>)
    requires CallsWell(t, calls)
    ensures CallsWell(AllFailed(t), calls)
  {
  }

  lemma WireKept(s: State, e: Event)
    requires CallsWell(s.table, s.calls) && WireWell(s) && Step(s, e).Some?
    ensures WireWell(Step(s, e).value)
  {
    match e
    case Write(i, ok) =>
    case Dispatch => DispatchWired(s);
    case Reply =>
    case SearchReply(k) =>
    case ReadReply =>
    case Begin(search) =>
    case Deliver =>
    case HangUp =>
    case Return(i) =>
    case TimeOut(i) =>
    case CloseClient =>
    case ReturnClosed(i) =>
  }

  lemma DispatchWired(s: State)
    requires WireWell(s) && Step(s, Dispatch).Some?
    ensures WireWell(Step(s, Dispatch).value)
  {
    assert s.toServer[0].num == s.toServer[0].call + 1;
  }

  lemma ReaderKept(s: State, e: Event)
    requires CallsWell(s.table, s.calls) && WireWell(s) && ReaderWell(s) && Step(s, e).Some?
    ensures ReaderWell(Step(s, e).value)
  {
  }

  lemma OnceWritten(written: seq<nat>, dispatched: seq<nat>, toServer: seq<Request>, calls: seq<Call>, i: nat,
                    r: Request)
    requires OnceWell(written, dispatched, toServer, calls)
    requires i < |calls| && calls[i].pc.Writing? && r.call == i
    ensures OnceWell(written + [i], dispatched, toServer + [r], SetPc(calls, i, Waiting))
  {
  }

  lemma OnceDispatched(written: seq<nat>, dispatched: seq<nat>, toServer: seq<Request>, calls: seq<Call>)
    requires OnceWell(written, dispatched, toServer, calls) && toServer != []
    ensures OnceWell(written, dispatched + [toServer[0].call], toServer[1..], calls)
  {
    assert written[|dispatched|] == toServer[0].call;
  }

  lemma OnceKept(s: State, e: Event)
    requires OnceWell(s.written, s.dispatched, s.toServer, s.calls) && Step(s, e).Some?
    ensures var t := Step(s, e).value; OnceWell(t.written, t.dispatched, t.toServer, t.calls)
  {
    match e
    case Write(i, ok) =>
      if ok {
        OnceWritten(s.written, s.dispatched, s.toServer, s.calls, i, Request(s.calls[i].num, i, s.calls[i].search));
      }
    case Dispatch => OnceDispatched(s.written, s.dispatched, s.toServer, s.calls);
    case _ => NothingWritten(s, e, Step(s, e).value);
  }

  lemma NothingWritten(s: State, e: Event, t: State)
    requires Step(s, e) == Some(t) && !e.Write? && !e.Dispatch?
    ensures t.written == s.written && t.dispatched == s.dispatched && t.toServer == s.toServer
    ensures |s.calls| <= |t.calls|
    ensures forall i | 0 <= i < |s.calls| && !s.calls[i].pc.Writing? :: !t.calls[i].pc.Writing?
  {
  }

  lemma ToldKept(s: State, e: Event)
    requires Inv(s) && Step(s, e).Some?
    ensures ToldWell(Step(s, e).value)
  {
    var t := Step(s, e).value;
    forall i | 0 <= i < |t.calls| && !t.calls[i].pc.Returned?
      ensures Told(t, i)
    {
      if i < |s.calls| {
        assert Told(s, i);
        if e.HangUp? && i + 1 in s.table.pending {
          assert s.table.pending[i + 1] in s.table.pending.Values;
        }
      }
    }
  }

  lemma StepKeeps(s: State, e: Event)
    requires Inv(s) && Step(s, e).Some?
    ensures Inv(Step(s, e).value)
  {
    CallsKept(s, e);
    WireKept(s, e);
    ReaderKept(s, e);
    OnceKept(s, e);
    ToldKept(s, e);
  }

  lemma Always(events: seq<Event>)
    requires Run(Step, INIT, events).Some?
    ensures Inv(Run(Step, INIT, events).value)
  {
    forall s, e | Inv(s) && Step(s, e).Some?
      ensures Inv(Step(s, e).value)
    {
      StepKeeps(s, e);
    }
    InvariantOverRuns(Inv, Step, INIT, events);
  }

  // ------------------------------------------------------------------
  // What callers and the reader can rely on
  // ------------------------------------------------------------------

  // However calls, replies, timeouts and disconnects interleave, a call
  // that returns an answer returns the one computed from its own request,
  // or the news that the connection has gone.
  lemma AnswersReachTheirCalls(events: seq<Event>, i: nat)
    requires Run(Step, INIT, events).Some?
    requires var s := Run(Step, INIT, events).value;
             i < |s.calls| && s.calls[i].pc.Returned? && s.calls[i].pc.outcome.Answered?
    ensures var r := Run(Step, INIT, events).value.calls[i].pc.outcome.r;
            r == Lost || r.request == i
  {
    Always(events);
  }

  // No request is run twice, and requests are run in the order in which
  // their calls wrote them.
  lemma NoRequestRunsTwice(events: seq<Event>, i: nat, j: nat)
    requires Run(Step, INIT, events).Some?
    requires i < |Run(Step, INIT, events).value.dispatched| && j < |Run(Step, INIT, events).value.dispatched|
    ensures var s := Run(Step, INIT, events).value;
            && (s.dispatched[i] == s.dispatched[j] ==> i == j)
            && s.dispatched <= s.written
  {
    Always(events);
  }

  // Each channel holds one message and is sent one: the reader's send, and
  // every send it makes when the connection goes, finds room.
  lemma ReaderNeverBlocks(events: seq<Event>)
    requires Run(Step, INIT, events).Some?
    ensures var s := Run(Step, INIT, events).value;
            && (s.reader.Delivering? ==> Step(s, Deliver).Some?)
            && (s.reader.Reading? ==> Step(s, HangUp).Some? && Roomy(s.table))
  {
    Always(events);
  }

  // A message, once in a channel, is never replaced.
  lemma SlotIsFinal(events: seq<Event>, e: Event, c: nat)
    requires Run(Step, INIT, events).Some? && Step(Run(Step, INIT, events).value, e).Some?
    requires c in Run(Step, INIT, events).value.table.slots
    ensures var s := Run(Step, INIT, events).value;
            var t := Step(s, e).value;
            c in t.table.slots && t.table.slots[c] == s.table.slots[c]
  {
    Always(events);
    assert c !in Run(Step, INIT, events).value.table.pending.Values;
  }

  // Nobody waits for a reader that has stopped: a call that was made before
  // the connection went, and still waits, can return at once.
  lemma DisconnectTellsEveryone(before: seq<Event>, after: seq<Event>, i: nat)
    requires Run(Step, INIT, before).Some? && i < |Run(Step, INIT, before).value.calls|
    requires Run(Step, INIT, before + [HangUp] + after).Some?
    requires i < |Run(Step, INIT, before + [HangUp] + after).value.calls|
    requires Run(Step, INIT, before + [HangUp] + after).value.calls[i].pc.Waiting?
    ensures Step(Run(Step, INIT, before + [HangUp] + after).value, Return(i)).Some?
  {
    HeardStays(before, after);
    Always(before + [HangUp] + after);
    assert Told(Run(Step, INIT, before + [HangUp] + after).value, i);
  }

  lemma {:induction false} HeardStays(before: seq<Event>, after: seq<Event>)
    requires Run(Step, INIT, before).Some? && Run(Step, INIT, before + [HangUp] + after).Some?
    ensures var s := Run(Step, INIT, before + [HangUp] + after).value;
            s.reader.Stopped? && s.heard == |Run(Step, INIT, before).value.calls|
    decreases |after|
  {
    var all := before + [HangUp] + after;
    if after == [] {
      assert all[..|all| - 1] == before;
    } else {
      assert all[..|all| - 1] == before + [HangUp] + after[..|after| - 1];
      HeardStays(before, after[..|after| - 1]);
    }
  }
}
