// Shutting the daemon's server down with clients attached
// (internal/ipc/server.go): the accept loop, one handler per connection,
// the table closeConns walks, and the wait group Close waits for.
module ServerClose {
  import opened Runs
  import opened Sums

  // ------------------------------------------------------------------
  // The connection table, under connMu
  // ------------------------------------------------------------------

  //  hungUp  the connections this server has closed
  datatype Book = Book(conns: set<nat>, closing: bool, hungUp: set<nat>)

  function Tracked(b: Book, conn: nat): Book {
    if b.closing then b else b.(conns := b.conns + {conn})
  }

  function Untracked(b: Book, conn: nat): Book {
    b.(conns := b.conns - {conn})
  }

  function HungUp(b: Book, conn: nat): Book {
    b.(hungUp := b.hungUp + {conn})
  }

  function AllHungUp(b: Book): Book {
    Book(b.conns, true, b.hungUp + b.conns)
  }

  class ConnTable {
    var conns: set<nat>
    var closing: bool
    var hungUp: set<nat>

    function View(): Book
      reads this
    {
      Book(conns, closing, hungUp)
    }

    constructor ()
      ensures View() == Book({}, false, {})
    {
      conns, closing, hungUp := {}, false, {};
    }

    method Track(conn: nat) returns (ok: bool)
      modifies this`conns
      ensures View() == Tracked(old(View()), conn)
      ensures ok <==> !closing
    {
      if closing {
        return false;
      }
      conns := conns + {conn};
      return true;
    }

    method Untrack(conn: nat)
      modifies this`conns
      ensures View() == Untracked(old(View()), conn)
    {
      conns := conns - {conn};
    }

    method CloseConns()
      modifies this`closing, this`hungUp
      ensures View() == AllHungUp(old(View()))
    {
      closing := true;
      var left := conns;
      while left != {}
        invariant closing && conns == old(conns) && left <= conns
        invariant hungUp + left == old(hungUp) + conns
      {
        var conn :| conn in left;
        left := left - {conn};
        hungUp := hungUp + {conn};
      }
    }
  }

  // ------------------------------------------------------------------
  // The threads
  // ------------------------------------------------------------------

  datatype Accept = Accepting | Got | Exited

  // A handler's path: track, serve, answer, and on the way out untrack,
  // close the connection, and tell the wait group.
  datatype HandlerPc =
    | Starting | Serving | Answering(shutdown: bool) | Signalling | Untracking | Closing | Leaving | Gone

  //  buffered  requests its decoder has read and not handed out
  datatype Handler = Handler(pc: HandlerPc, buffered: nat)

  datatype Closer = Open | ListenerClosed | Waiting | Closed

  // Handler i serves connection i.
  //  left    the connections the client has closed
  //  signals  the handlers that have told the daemon to shut down
  //  oks      the handlers that have sent OK to a shutdown request
  datatype State = State(
    book: Book, accept: Accept, handlers: seq<Handler>, wg: nat, closer: Closer, left: set<nat>,
    signals: set<nat>, oks: set<nat>)

  const INIT := State(Book({}, false, {}), Accepting, [], 1, Open, {}, {}, {})

  datatype Event =
    | AcceptStep
    | HandlerStep(i: nat, arrived: Option<bool>)
    | Receive(i: nat) | ClientLeaves(i: nat)
    | CloserStep

  // A handler whose connection is gone finds out at its next read, once
  // its decoder has nothing buffered.
  predicate Down(s: State, i: nat) {
    i in s.book.hungUp || i in s.left
  }

  function Put(s: State, i: nat, pc: HandlerPc): State
    requires i < |s.handlers|
  {
    s.(handlers := s.handlers[i := s.handlers[i].(pc := pc)])
  }

  // One step of handler i. At a read, `arrived` is None for a search, which
  // is answered elsewhere, and otherwise says whether it is a shutdown.
  function HandlerNext(s: State, i: nat, arrived: Option<bool>): Option<State>
    requires i < |s.handlers|
  {
    var h := s.handlers[i];
    match h.pc
    case Starting => Some(Put(s, i, if s.book.closing then Closing else Serving).(book := Tracked(s.book, i)))
    case Serving =>
      if h.buffered > 0 then
        var pc := if arrived.Some? then Answering(arrived.value) else Serving;
        Some(s.(handlers := s.handlers[i := Handler(pc, h.buffered - 1)]))
      else if Down(s, i) then Some(Put(s, i, Untracking))
      else None
    case Answering(shutdown) =>
      if Down(s, i) then Some(Put(s, i, Untracking))
      else if shutdown then Some(Put(s, i, Signalling).(oks := s.oks + {i}))
      else Some(Put(s, i, Serving))
    case Signalling => Some(Put(s, i, Untracking).(signals := s.signals + {i}))
    case Untracking => Some(Put(s, i, Closing).(book := Untracked(s.book, i)))
    case Closing => Some(Put(s, i, Leaving).(book := HungUp(s.book, i)))
    case Leaving => if s.wg == 0 then None else Some(Put(s, i, Gone).(wg := s.wg - 1))
    case Gone => None
  }

  function Step(s: State, e: Event): Option<State> {
    match e
    case AcceptStep =>
      (match s.accept
       case Accepting =>
         if s.closer.Open? then Some(s.(accept := Got))
         else if s.wg == 0 then None
         else Some(s.(accept := Exited, wg := s.wg - 1))
       case Got => Some(s.(accept := Accepting, wg := s.wg + 1, handlers := s.handlers + [Handler(Starting, 0)]))
       case Exited => None)
    case HandlerStep(i, arrived) => if i < |s.handlers| then HandlerNext(s, i, arrived) else None
    case Receive(i) =>
      if i < |s.handlers| && !Down(s, i)
      then Some(s.(handlers := s.handlers[i := s.handlers[i].(buffered := s.handlers[i].buffered + 1)]))
      else None
    case ClientLeaves(i) => Some(s.(left := s.left + {i}))
    case CloserStep =>
      match s.closer
      case Open => Some(s.(closer := ListenerClosed))
      case ListenerClosed => Some(s.(closer := Waiting, book := AllHungUp(s.book)))
      case Waiting => if s.wg == 0 then Some(s.(closer := Closed)) else None
      case Closed => None
  }

  // ------------------------------------------------------------------
  // The invariant
  // ------------------------------------------------------------------

  function Present(h: Handler): nat {
    if h.pc.Gone? then 0 else 1
  }

  predicate Registered(pc: HandlerPc) {
    pc.Serving? || pc.Answering? || pc.Signalling? || pc.Untracking?
  }

  // A handler between track and untrack is in the table, so closeConns
  // reached its connection, or will.
  ghost predicate BookWell(b: Book, closer: Closer, handlers: seq<Handler>) {
    && (b.closing <==> closer.Waiting? || closer.Closed?)
    && (forall i | 0 <= i < |handlers| && Registered(handlers[i].pc) :: i in b.conns)
    && (b.closing ==> b.conns <= b.hungUp)
    && (forall i | i in b.conns :: i < |handlers|)
  }

  ghost predicate Inv(s: State) {
    && s.wg == Sum(Present, s.handlers) + (if s.accept.Exited? then 0 else 1)
    && BookWell(s.book, s.closer, s.handlers)
    && s.signals <= s.oks
    && (forall i | 0 <= i < |s.handlers| && s.handlers[i].pc.Signalling? :: i in s.oks)
    && (s.closer.Closed? ==> s.wg == 0)
    && (s.accept.Exited? ==> !s.closer.Open?)
  }

  // What a handler's step does to its place in the table.
  lemma BookKept(s: State, i: nat, arrived: Option<bool>, t: State)
    requires BookWell(s.book, s.closer, s.handlers) && i < |s.handlers| && HandlerNext(s, i, arrived) == Some(t)
    ensures BookWell(t.book, t.closer, t.handlers)
  {
    match s.handlers[i].pc
    case Starting =>
    case Serving =>
    case Answering(shutdown) =>
    case Signalling =>
    case Untracking =>
    case Closing =>
    case Leaving =>
    case Gone =>
  }

  // A handler's step changes only itself, and leaves the wait group, the OKs
  // and the signals in step with where it stands.
  lemma HandlerFrame(s: State, i: nat, arrived: Option<bool>, t: State)
    requires i < |s.handlers| && HandlerNext(s, i, arrived) == Some(t)
    ensures |t.handlers| == |s.handlers| && t.handlers == s.handlers[i := t.handlers[i]]
    ensures t.accept == s.accept && t.closer == s.closer && s.oks <= t.oks
    ensures t.wg + Present(s.handlers[i]) == s.wg + Present(t.handlers[i])
    ensures t.handlers[i].pc.Signalling? ==> i in t.oks
    ensures t.signals == if s.handlers[i].pc.Signalling? then s.signals + {i} else s.signals
  {
    match s.handlers[i].pc
    case Starting =>
    case Serving =>
    case Answering(shutdown) =>
    case Signalling =>
    case Untracking =>
    case Closing =>
    case Leaving =>
    case Gone =>
  }

  lemma HandlerKeeps(s: State, i: nat, arrived: Option<bool>, t: State)
    requires Inv(s) && i < |s.handlers| && HandlerNext(s, i, arrived) == Some(t)
    ensures Inv(t)
  {
    BookKept(s, i, arrived, t);
    HandlerFrame(s, i, arrived, t);
    SumUpdate(Present, s.handlers, i, t.handlers[i]);
    SumAtLeast(Present, s.handlers, i);
  }

  lemma StepKeeps(s: State, e: Event)
    requires Inv(s) && Step(s, e).Some?
    ensures Inv(Step(s, e).value)
  {
    match e
    case AcceptStep => SumSnoc(Present, s.handlers, Handler(Starting, 0));
    case HandlerStep(i, arrived) => HandlerKeeps(s, i, arrived, Step(s, e).value);
    case Receive(i) => SumUpdate(Present, s.handlers, i, Step(s, e).value.handlers[i]);
    case ClientLeaves(i) =>
    case CloserStep =>
  }

  lemma Always(events: seq<Event>)
    requires Run(Step, INIT, events).Some?
    ensures Inv(Run(Step, INIT, events).value)
  {
    forall s, e | Inv(s) && Step(s, e).Some?
      ensures Inv(Step(s, e).value)
    {
      StepKeeps(s, e);
    }
    InvariantOverRuns(Inv, Step, INIT, events);
  }

  // ------------------------------------------------------------------
  // Close returns, whatever the clients do
  // ------------------------------------------------------------------

  // Once closeConns has been through the table, a connection that has been
  // accepted is closed, or its handler has left the table, or that handler
  // has still to ask for a place in it and will be refused.
  lemma NoConnectionLeftOpen(events: seq<Event>, i: nat, arrived: Option<bool>)
    requires Run(Step, INIT, events).Some?
    requires var s := Run(Step, INIT, events).value; s.closer.Waiting? && i < |s.handlers|
    ensures var s := Run(Step, INIT, events).value;
            && (Registered(s.handlers[i].pc) ==> i in s.book.hungUp)
            && (s.handlers[i].pc.Starting? ==>
                  var t := Step(s, HandlerStep(i, arrived));
                  t.Some? && t.value.handlers[i].pc.Closing? && t.value.book == s.book)
  {
    Always(events);
  }

  // The wait group is zero exactly when the accept loop and every handler
  // have ended.
  lemma WaitGroupMeansGone(events: seq<Event>)
    requires Run(Step, INIT, events).Some?
    ensures var s := Run(Step, INIT, events).value;
            s.wg == 0 <==> s.accept.Exited? && forall i | 0 <= i < |s.handlers| :: s.handlers[i].pc.Gone?
  {
    Always(events);
    var s := Run(Step, INIT, events).value;
    if forall i | 0 <= i < |s.handlers| :: s.handlers[i].pc.Gone? {
      SumZero(Present, s.handlers);
    } else {
      var i :| 0 <= i < |s.handlers| && !s.handlers[i].pc.Gone?;
      SumAtLeast(Present, s.handlers, i);
    }
  }

  // A handler that tells the daemon to shut down has itself sent the OK to
  // the request, and sent it first.
  lemma ShutdownAfterOk(events: seq<Event>, i: nat)
    requires Run(Step, INIT, events).Some? && i in Run(Step, INIT, events).value.signals
    ensures i in Run(Step, INIT, events).value.oks
  {
    Always(events);
  }

  // How many steps a handler has left once its connection is closed.
  function HandlerRank(h: Handler): nat {
    match h.pc
    case Starting => 4
    case Serving => 4 + 3 * h.buffered
    case Answering(_) => 5 + 3 * h.buffered
    case Signalling => 4
    case Untracking => 3
    case Closing => 2
    case Leaving => 1
    case Gone => 0
  }

  function Rank(s: State): nat {
    Sum(HandlerRank, s.handlers) + match s.accept case Accepting => 1 case Got => 6 case Exited => 0
  }

  // Steps of the server, as against those of its clients.
  predicate ServerStep(e: Event) {
    e.AcceptStep? || e.HandlerStep?
  }

  // After closeConns every step of the server brings the end nearer.
  lemma ServerStepsShrink(s: State, e: Event)
    requires Inv(s) && s.closer.Waiting? && ServerStep(e) && Step(s, e).Some?
    ensures Step(s, e).value.closer.Waiting? && Rank(Step(s, e).value) < Rank(s)
  {
    match e
    case AcceptStep => SumSnoc(HandlerRank, s.handlers, Handler(Starting, 0));
    case HandlerStep(i, arrived) =>
      var t := Step(s, e).value;
      HandlerFrame(s, i, arrived, t);
      HandlerShrinks(s, i, arrived, t);
      SumUpdate(HandlerRank, s.handlers, i, t.handlers[i]);
  }

  lemma HandlerShrinks(s: State, i: nat, arrived: Option<bool>, t: State)
    requires BookWell(s.book, s.closer, s.handlers) && s.closer.Waiting?
    requires i < |s.handlers| && HandlerNext(s, i, arrived) == Some(t)
    ensures HandlerRank(t.handlers[i]) < HandlerRank(s.handlers[i])
  {
    match s.handlers[i].pc
    case Starting =>
    case Serving =>
    case Answering(shutdown) =>
    case Signalling =>
    case Untracking =>
    case Closing =>
    case Leaving =>
    case Gone =>
  }

  // A client can neither undo that nor add to it.
  lemma ClientStepsDoNotGrow(s: State, e: Event)
    requires Inv(s) && s.closer.Waiting? && (e.Receive? || e.ClientLeaves?) && Step(s, e).Some?
    ensures Step(s, e).value.closer.Waiting? && Rank(Step(s, e).value) <= Rank(s)
  {
    if e.Receive? {
      var t := Step(s, e).value;
      SumUpdate(HandlerRank, s.handlers, e.i, t.handlers[e.i]);
      assert !Registered(s.handlers[e.i].pc);
    }
  }

  // While Close still waits, some thread of the server can step.
  lemma CloseIsNeverStuck(s: State) returns (e: Event)
    requires Inv(s) && s.closer.Waiting?
    ensures Step(s, e).Some? && (ServerStep(e) || (e.CloserStep? && Step(s, e).value.closer.Closed?))
  {
    if s.wg == 0 {
      e := CloserStep;
    } else if !s.accept.Exited? {
      e := AcceptStep;
    } else {
      var i := SumPositive(Present, s.handlers);
      e := HandlerStep(i, None);
    }
  }

  // However the clients interfere in between, a server that is let run
  // takes at most Rank steps before Close returns.
  lemma {:induction false} CloseReturns(s: State, events: seq<Event>)
    requires Inv(s) && s.closer.Waiting? && Run(Step, s, events).Some?
    requires Run(Step, s, events).value.closer.Waiting?
    ensures Inv(Run(Step, s, events).value)
    ensures Rank(Run(Step, s, events).value) + ServerSteps(events) <= Rank(s)
    decreases |events|
  {
    if events != [] {
      var n := |events| - 1;
      var before := Run(Step, s, events[..n]).value;
      WaitingBefore(s, events);
      CloseReturns(s, events[..n]);
      StepKeeps(before, events[n]);
      if ServerStep(events[n]) {
        ServerStepsShrink(before, events[n]);
      } else if !events[n].CloserStep? {
        ClientStepsDoNotGrow(before, events[n]);
      }
    }
  }

  function ServerSteps(events: seq<Event>): nat {
    if events == [] then 0
    else ServerSteps(events[..|events| - 1]) + if ServerStep(events[|events| - 1]) then 1 else 0
  }

  // A closer that waits at the end of a run it was waiting at the start of
  // has waited all along.
  lemma {:induction false} WaitingBefore(s: State, events: seq<Event>)
    requires s.closer.Waiting? && events != [] && Run(Step, s, events).Some?
    requires Run(Step, s, events).value.closer.Waiting?
    ensures Run(Step, s, events[..|events| - 1]).Some? && Run(Step, s, events[..|events| - 1]).value.closer.Waiting?
    decreases |events|
  {
    var n := |events| - 1;
    if n > 0 {
      NeverBack(s, events[..n]);
      ClosedStays(Run(Step, s, events[..n]).value, events[n]);
    }
  }

  lemma ClosedStays(s: State, e: Event)
    requires Step(s, e).Some?
    ensures s.closer.Closed? ==> Step(s, e).value.closer.Closed?
  {
  }

  predicate PastClosing(s: State) {
    s.closer.Waiting? || s.closer.Closed?
  }

  lemma StaysPastClosing(s: State, e: Event)
    requires PastClosing(s) && Step(s, e).Some?
    ensures PastClosing(Step(s, e).value)
  {
    match e
    case AcceptStep =>
    case HandlerStep(i, arrived) =>
    case Receive(i) =>
    case ClientLeaves(i) =>
    case CloserStep =>
  }

  lemma NeverBack(s: State, events: seq<Event>)
    requires s.closer.Waiting? && Run(Step, s, events).Some?
    ensures PastClosing(Run(Step, s, events).value)
  {
    forall t, e | PastClosing(t) && Step(t, e).Some?
      ensures PastClosing(Step(t, e).value)
    {
      StaysPastClosing(t, e);
    }
    InvariantOverRuns(PastClosing, Step, s, events);
  }

  // ------------------------------------------------------------------
  // One connection with nothing in its way
  // ------------------------------------------------------------------

  // k times the same step.
  ghost function Alone(s: State, e: Event, k: nat): Option<State> {
    Run(Step, s, Same(e, k))
  }

  lemma Further(s: State, e: Event, k: nat, x: State)
    requires (if k == 0 then x == s else Alone(s, e, k) == Some(x)) && Step(x, e).Some?
    ensures Alone(s, e, k + 1) == Step(x, e)
  {
    OnceMore(Step, s, e, k, x, Step(x, e).value);
  }

  // Handler i is at pc with this much buffered, and no other has moved.
  predicate Moved(s: State, t: State, i: nat, pc: HandlerPc, buffered: int) {
    && i < |s.handlers| == |t.handlers| && t.handlers[i].pc == pc && t.handlers[i].buffered == buffered
    && forall j | 0 <= j < |s.handlers| && j != i :: t.handlers[j] == s.handlers[j]
  }

  // The rest of the server is as it was but for the table and the group.
  predicate OnlyBook(s: State, t: State) {
    t.accept == s.accept && t.closer == s.closer && t.left == s.left
  }

  // A client that connects to a server that is not closing has a handler
  // that is counted, tracked and serving.
  lemma Connects(s: State)
    requires s.accept.Accepting? && s.closer.Open? && !s.book.closing
    ensures var i := |s.handlers|;
            var u := Alone(s, AcceptStep, 2);
            && u.Some? && Step(u.value, HandlerStep(i, None)).Some?
            && var t := Step(u.value, HandlerStep(i, None)).value;
               && t.handlers == s.handlers + [Handler(Serving, 0)] && t.wg == s.wg + 1 && t.accept.Accepting?
               && t.book == s.book.(conns := s.book.conns + {i}) && t.closer == s.closer && t.left == s.left
               && t.oks == s.oks && t.signals == s.signals
  {
    Further(s, AcceptStep, 0, s);
    Further(s, AcceptStep, 1, Step(s, AcceptStep).value);
  }

  // One that comes too late has its connection closed, and is not served.
  lemma ConnectsTooLate(s: State)
    requires s.accept.Got? && s.book.closing
    ensures var i := |s.handlers|;
            var u := Step(s, AcceptStep);
            && u.Some? && Alone(u.value, HandlerStep(i, None), 3).Some?
            && var t := Alone(u.value, HandlerStep(i, None), 3).value;
               && |t.handlers| == i + 1 && t.handlers[i].pc.Gone? && t.handlers[..i] == s.handlers
               && t.wg == s.wg && t.book == s.book.(hungUp := s.book.hungUp + {i}) && t.oks == s.oks
  {
    var i := |s.handlers|;
    var u := Step(s, AcceptStep).value;
    var e := HandlerStep(i, None);
    Further(u, e, 0, u);
    var a := Step(u, e).value;
    Further(u, e, 1, a);
    Further(u, e, 2, Step(a, e).value);
  }

  // An ordinary request is read, answered, and the next one waited for; a
  // search is read and left to others.
  lemma ServesAlone(s: State, i: nat)
    requires i < |s.handlers| && s.handlers[i].pc.Serving? && s.handlers[i].buffered > 0 && !Down(s, i)
    ensures Alone(s, HandlerStep(i, Some(false)), 2).Some? && Step(s, HandlerStep(i, None)).Some?
    ensures var t := Alone(s, HandlerStep(i, Some(false)), 2).value;
            t == s.(handlers := t.handlers) && Moved(s, t, i, Serving, s.handlers[i].buffered - 1)
    ensures Step(s, HandlerStep(i, None)) == Some(Alone(s, HandlerStep(i, Some(false)), 2).value)
  {
    var e := HandlerStep(i, Some(false));
    Further(s, e, 0, s);
    Further(s, e, 1, Step(s, e).value);
    var t := Alone(s, e, 2).value;
    assert t.handlers == Step(s, HandlerStep(i, None)).value.handlers;
  }

  // A request to shut down is answered OK, then passed on, and after that the
  // connection is taken out of the table and closed, and its handler ends.
  lemma ShutsDownAlone(s: State, i: nat)
    requires i < |s.handlers| && s.handlers[i].pc.Serving? && s.handlers[i].buffered > 0 && !Down(s, i) && s.wg > 0
    ensures Alone(s, HandlerStep(i, Some(true)), 6).Some?
    ensures var t := Alone(s, HandlerStep(i, Some(true)), 6).value;
            && Moved(s, t, i, Gone, s.handlers[i].buffered - 1) && OnlyBook(s, t) && t.wg == s.wg - 1
            && t.oks == s.oks + {i} && t.signals == s.signals + {i}
            && t.book == Book(s.book.conns - {i}, s.book.closing, s.book.hungUp + {i})
  {
    var e := HandlerStep(i, Some(true));
    Further(s, e, 0, s);
    var a := Step(s, e).value;
    Further(s, e, 1, a);
    var b := Step(a, e).value;
    Further(s, e, 2, b);
    var c := Step(b, e).value;
    Further(s, e, 3, c);
    LeavesAlone(s, e, 3, c, i);
  }

  // The last three steps of a handler that is on its way out.
  lemma LeavesAlone(s: State, e: Event, k: nat, c: State, i: nat)
    requires e.HandlerStep? && e.i == i < |c.handlers| && c.handlers[i].pc.Untracking? && c.wg > 0
    requires if k == 0 then c == s else Alone(s, e, k) == Some(c)
    ensures Alone(s, e, k + 3).Some?
    ensures var t := Alone(s, e, k + 3).value;
            && Moved(c, t, i, Gone, c.handlers[i].buffered) && OnlyBook(c, t) && t.wg == c.wg - 1
            && t.oks == c.oks && t.signals == c.signals
            && t.book == Book(c.book.conns - {i}, c.book.closing, c.book.hungUp + {i})
  {
    Further(s, e, k, c);
    var d := Step(c, e).value;
    Further(s, e, k + 1, d);
    Further(s, e, k + 2, Step(d, e).value);
  }

  // What a client sends is read while its connection is there; when the
  // client has gone the handler answers nobody, and ends.
  lemma ClientGoes(s: State, i: nat, k: nat)
    requires i < |s.handlers| && s.wg > 0 && k <= 1
    requires if k == 0 then s.handlers[i].pc.Serving? && s.handlers[i].buffered == 0 else s.handlers[i].pc.Answering?
    ensures var u := Step(s, ClientLeaves(i));
            var e := HandlerStep(i, Some(true));
            && u.Some? && Alone(u.value, e, 4).Some? && Step(u.value, Receive(i)).None?
            && var t := Alone(u.value, e, 4).value;
               && Moved(s, t, i, Gone, s.handlers[i].buffered) && t.wg == s.wg - 1 && t.left == s.left + {i}
               && t.accept == s.accept && t.closer == s.closer && t.oks == s.oks && t.signals == s.signals
               && t.book == Book(s.book.conns - {i}, s.book.closing, s.book.hungUp + {i})
  {
    var u := Step(s, ClientLeaves(i)).value;
    var e := HandlerStep(i, Some(true));
    Further(u, e, 0, u);
    LeavesAlone(u, e, 1, Step(u, e).value, i);
  }

  lemma Receives(s: State, i: nat)
    requires i < |s.handlers| && !Down(s, i)
    ensures Step(s, Receive(i)).Some?
    ensures var t := Step(s, Receive(i)).value;
            t == s.(handlers := t.handlers) && Moved(s, t, i, s.handlers[i].pc, s.handlers[i].buffered + 1)
  {
  }

  // A close, once begun, closes the listener first, then every connection in
  // the table; the accept loop ends; and with nobody left the close returns.
  lemma ClosesAlone(s: State)
    requires s.closer.Open? && s.accept.Accepting? && s.wg > 0
    ensures Step(s, CloserStep) == Some(s.(closer := ListenerClosed)) && Alone(s, CloserStep, 2).Some?
    ensures var u := Alone(s, CloserStep, 2).value;
            && u == s.(closer := Waiting, book := Book(s.book.conns, true, s.book.hungUp + s.book.conns))
            && Step(u, AcceptStep) == Some(u.(accept := Exited, wg := s.wg - 1))
            && Step(u.(accept := Exited, wg := 0), CloserStep) == Some(u.(accept := Exited, wg := 0, closer := Closed))
  {
    Further(s, CloserStep, 0, s);
    Further(s, CloserStep, 1, Step(s, CloserStep).value);
  }
}
