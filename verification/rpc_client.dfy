// The client's side of the daemon connection (internal/ipc/client.go): the
// sequence counter, the pending map, and the one-slot channel of each call.
module RpcClient {

  // A reply carries the sequence number of the request it answers;
  // `request` names the call whose request it was computed from. Lost is
  // what a call is told when the connection goes.
  datatype Response = Reply(num: nat, request: nat) | Lost

  //  pending  which call's channel waits for which sequence number
  //  slots    the message in a call's channel
  datatype Table = Table(num: nat, pending: map<nat, nat>, slots: map<nat, Response>)

  const EMPTY := Table(0, map[], map[])

  function Registered(t: Table, call: nat): Table {
    Table(t.num + 1, t.pending[t.num + 1 := call], t.slots)
  }

  function Forgotten(t: Table, num: nat): Table {
    t.(pending := t.pending - {num})
  }

  function Sent(t: Table, call: nat, r: Response): Table {
    t.(slots := t.slots[call := r])
  }

  // Every waiting call is told, and nothing is pending any more.
  function AllFailed(t: Table): Table {
    Table(t.num, map[],
          map c | c in t.slots.Keys + t.pending.Values :: if c in t.pending.Values then Lost else t.slots[c])
  }

  // No channel of a waiting call holds a message, so a send to one of
  // them, or to all of them, does not block.
  ghost predicate Roomy(t: Table) {
    && (forall n | n in t.pending :: t.pending[n] !in t.slots)
    && (forall m, n | m in t.pending && n in t.pending :: t.pending[m] == t.pending[n] ==> m == n)
  }

  class Client {
    var num: nat
    var pending: map<nat, nat>
    var slots: map<nat, Response>

    function View(): Table
      reads this
    {
      Table(num, pending, slots)
    }

    constructor ()
      ensures View() == EMPTY
    {
      num, pending, slots := 0, map[], map[];
    }

    // callFor, up to the write: a number, a channel, an entry.
    method Register(call: nat) returns (n: nat)
      modifies this`num, this`pending
      ensures View() == Registered(old(View()), call) && n == num
    {
      num := num + 1;
      pending := pending[num := call];
      n := num;
    }

    // callFor's way out when the write failed or the time is up.
    method Forget(n: nat)
      modifies this`pending
      ensures View() == Forgotten(old(View()), n)
    {
      pending := pending - {n};
    }

    // readLoop's lookup: the channel a reply belongs to, taken out of the
    // map. None for a reply nobody waits for any more.
    method Take(n: nat) returns (found: bool, call: nat)
      modifies this`pending
      ensures found <==> n in old(pending)
      ensures found ==> call == old(pending)[n]
      ensures View() == Forgotten(old(View()), n)
    {
      found, call := n in pending, 0;
      if found {
        call := pending[n];
      }
      pending := pending - {n};
    }

    // The send that follows, into a channel with room for it.
    method Send(call: nat, r: Response)
      requires call !in slots
      modifies this`slots
      ensures View() == Sent(old(View()), call, r)
    {
      slots := slots[call := r];
    }

    // failAllPending: each send happens with the lock held, so each must
    // find its channel empty.
    method FailAll()
      requires Roomy(View())
      modifies this`pending, this`slots
      ensures View() == AllFailed(old(View()))
    {
      ghost var was := View();
      while pending != map[]
        invariant num == was.num && Roomy(View())
        invariant AllFailed(View()) == AllFailed(was)
        decreases |pending|
      {
        var n :| n in pending;
        ghost var before := View();
        assert pending[n] !in slots;
        Send(pending[n], Lost);
        Forget(n);
        FailOne(before, n);
      }
      NothingPending(View());
    }
  }

  // Telling one waiting call first changes nothing in the end.
  lemma FailOne(t: Table, n: nat)
    requires Roomy(t) && n in t.pending
    ensures var u := Forgotten(Sent(t, t.pending[n], Lost), n);
            Roomy(u) && AllFailed(u) == AllFailed(t) && |u.pending| < |t.pending|
  {
    var c := t.pending[n];
    var u := Forgotten(Sent(t, c, Lost), n);
    StillRoomy(t, n);
    ValuesWithout(t.pending, n);
    ToldEarly(t, u, c);
    assert u.pending.Keys == t.pending.Keys - {n};
  }

  lemma ToldEarly(t: Table, u: Table, c: nat)
    requires u.num == t.num && u.slots == t.slots[c := Lost] && t.pending.Values == u.pending.Values + {c}
    ensures AllFailed(u) == AllFailed(t)
  {
    var a, b := AllFailed(t).slots, AllFailed(u).slots;
    assert a.Keys == b.Keys;
    forall d | d in a
      ensures a[d] == b[d]
    {
    }
  }

  lemma NothingPending(t: Table)
    requires t.pending == map[]
    ensures AllFailed(t) == t
  {
    assert AllFailed(t).slots == t.slots;
  }

  lemma StillRoomy(t: Table, n: nat)
    requires Roomy(t) && n in t.pending
    ensures Roomy(Forgotten(Sent(t, t.pending[n], Lost), n))
  {
    var u := Forgotten(Sent(t, t.pending[n], Lost), n);
    forall m | m in u.pending
      ensures u.pending[m] !in u.slots
    {
      assert m in t.pending && t.pending[m] == u.pending[m];
    }
  }

  lemma ValuesWithout(m: map<nat, nat>, n: nat)
    requires n in m
    ensures m.Values == (m - {n}).Values + {m[n]}
  {
    forall d
      ensures d in m.Values <==> d in (m - {n}).Values || d == m[n]
    {
      if d in m.Values && d != m[n] {
        var k :| k in m && m[k] == d;
        assert k in m - {n} && (m - {n})[k] == d;
      }
      if d in (m - {n}).Values {
        var k :| k in m - {n} && (m - {n})[k] == d;
        assert k in m && m[k] == d;
      }
    }
  }
}
