/**
 * The connection hub: the table of registered clients and the buffered send
 * channel of every client. Each branch of the hub's control loop (register,
 * unregister, broadcast) is one atomic step; a client's writer taking one
 * payload out of its channel is a fourth kind of step. The steps are given
 * first as functions on a `HubState` value, which the lemmas about whole
 * traces use, and then as the methods of the class `Hub`, which update the
 * table in place and are proved to agree with those functions.
 */
module Hub {
  import opened Models

  /** Capacity of every client's send channel, fixed when the connection is upgraded. */
  const SendBufferSize: nat := 256

  /** Identity of a `*Client`; every upgraded connection allocates a new one. */
  type ClientId = nat

  /** A client's send channel: the payloads its writer has not yet taken, and whether it was closed. */
  datatype SendQueue = SendQueue(items: seq<Bytes>, closed: bool)

  /**
   * `clients` is the hub's table of active clients; `queues` holds the send
   * channel of every client ever registered, including those already removed
   * from the table, whose writers may still be draining them.
   */
  datatype HubState = HubState(clients: set<ClientId>, queues: map<ClientId, SendQueue>)

  /** What the writer's receive `message, ok := <-c.Send` yields. */
  datatype Delivery = Item(payload: Bytes) | ChannelClosed

  /** The events processed one at a time, in the order given by a trace. */
  datatype Event =
    | Register(client: ClientId)
    | Unregister(client: ClientId)
    | Broadcast(payload: Bytes)
    | Receive(client: ClientId)

  /** A non-blocking send on this channel succeeds. */
  predicate HasRoom(q: SendQueue) {
    |q.items| < SendBufferSize
  }

  /**
   * The hub invariant: every registered client has a channel and that channel
   * is open, and no channel holds more than its capacity.
   */
  ghost predicate Inv(s: HubState) {
    && s.clients <= s.queues.Keys
    && (forall c :: c in s.clients ==> !s.queues[c].closed)
    && (forall c :: c in s.queues ==> |s.queues[c].items| <= SendBufferSize)
  }

  /** A non-blocking send that found room. Sending on a closed channel panics, hence the requirement. */
  function Enqueue(q: SendQueue, m: Bytes): (r: SendQueue)
    requires !q.closed && HasRoom(q)
  {
    q.(items := q.items + [m])
  }

  /** `close(client.Send)`: closing an already closed channel panics, hence the requirement. */
  function CloseQueue(q: SendQueue): (r: SendQueue)
    requires !q.closed
  {
    q.(closed := true)
  }

  /** A new client with an empty, open channel of capacity `SendBufferSize` enters the table. */
  function RegisterStep(s: HubState, c: ClientId): (r: HubState)
    requires Inv(s) && c !in s.queues
    ensures Inv(r)
    ensures c in r.clients && r.queues[c] == SendQueue([], false)
    ensures r.queues.Keys == s.queues.Keys + {c}
    ensures forall d :: d != c ==> (d in r.clients <==> d in s.clients)
    ensures forall d :: d in s.queues ==> r.queues[d] == s.queues[d]
  {
    HubState(s.clients + {c}, s.queues[c := SendQueue([], false)])
  }

  /** Removes a registered client and closes its channel; a client not in the table is left alone. */
  function UnregisterStep(s: HubState, c: ClientId): (r: HubState)
    requires Inv(s)
    ensures Inv(r)
    ensures c !in r.clients
    ensures r.queues.Keys == s.queues.Keys
    ensures c in s.clients ==> r.queues[c] == SendQueue(s.queues[c].items, true)
    ensures c !in s.clients ==> r == s
    ensures forall d :: d != c ==> (d in r.clients <==> d in s.clients)
    ensures forall d :: d != c && d in s.queues ==> r.queues[d] == s.queues[d]
  {
    if c in s.clients then HubState(s.clients - {c}, s.queues[c := CloseQueue(s.queues[c])]) else s
  }

  /** The fate of one channel in a broadcast of `m`. */
  function BroadcastTo(s: HubState, c: ClientId, m: Bytes): SendQueue
    requires Inv(s) && c in s.queues
  {
    if c !in s.clients then s.queues[c]
    else if HasRoom(s.queues[c]) then Enqueue(s.queues[c], m)
    else CloseQueue(s.queues[c])
  }

  /**
   * A non-blocking send of `m` to every registered client: a client with room
   * gets `m` at the end of its channel and stays; a client whose channel is
   * full is removed and its channel closed. The fate of each client depends on
   * its own channel only, so one slow client never keeps `m` from the others.
   */
  function BroadcastStep(s: HubState, m: Bytes): (r: HubState)
    requires Inv(s)
    ensures Inv(r)
    ensures r.queues.Keys == s.queues.Keys
    ensures r.clients <= s.clients
    ensures forall c :: c in s.clients && HasRoom(s.queues[c]) ==>
              c in r.clients && r.queues[c] == SendQueue(s.queues[c].items + [m], false)
    ensures forall c :: c in s.clients && !HasRoom(s.queues[c]) ==>
              c !in r.clients && r.queues[c] == SendQueue(s.queues[c].items, true)
    ensures forall c :: c in s.queues && c !in s.clients ==> r.queues[c] == s.queues[c]
  {
    var kept := set c | c in s.clients && HasRoom(s.queues[c]);
    HubState(kept, map c | c in s.queues :: BroadcastTo(s, c, m))
  }

  /** A state that agrees with `BroadcastStep` client by client is `BroadcastStep`. */
  lemma BroadcastStepIs(s: HubState, m: Bytes, r: HubState)
    requires Inv(s) && r.queues.Keys == s.queues.Keys && r.clients <= s.clients
    requires forall c :: c in s.clients ==> (c in r.clients <==> HasRoom(s.queues[c]))
    requires forall c :: c in r.queues ==> r.queues[c] == BroadcastTo(s, c, m)
    ensures r == BroadcastStep(s, m)
  {
    var goal := BroadcastStep(s, m);
    assert r.clients == goal.clients;
    assert r.queues == goal.queues;
  }

  /** A receive on `c`'s channel would not block: a payload is waiting or the channel is closed. */
  ghost predicate CanReceive(s: HubState, c: ClientId) {
    c in s.queues && (s.queues[c].items != [] || s.queues[c].closed)
  }

  /**
   * The writer's receive: the oldest waiting payload comes out first, and
   * only once the channel is empty does a closed channel report closure.
   */
  function ReceiveStep(s: HubState, c: ClientId): (r: (HubState, Delivery))
    requires Inv(s) && CanReceive(s, c)
    ensures Inv(r.0)
    ensures r.0.clients == s.clients && r.0.queues.Keys == s.queues.Keys
    ensures r.0.queues[c].closed == s.queues[c].closed
    ensures r.1.Item? <==> s.queues[c].items != []
    ensures r.1.Item? ==> [r.1.payload] + r.0.queues[c].items == s.queues[c].items
    ensures r.1.ChannelClosed? ==> r.0 == s
    ensures forall d :: d != c && d in s.queues ==> r.0.queues[d] == s.queues[d]
  {
    var q := s.queues[c];
    if q.items != [] then
      (HubState(s.clients, s.queues[c := q.(items := q.items[1..])]), Item(q.items[0]))
    else
      (s, ChannelClosed)
  }

  /** Events the system can produce in state `s`: handles are fresh when registered, and receives do not block. */
  ghost predicate Allowed(s: HubState, e: Event) {
    match e
    case Register(c) => c !in s.queues
    case Unregister(_) => true
    case Broadcast(_) => true
    case Receive(c) => CanReceive(s, c)
  }

  function Step(s: HubState, e: Event): (r: HubState)
    requires Inv(s) && Allowed(s, e)
    ensures Inv(r)
    ensures s.queues.Keys <= r.queues.Keys
  {
    match e
    case Register(c) => RegisterStep(s, c)
    case Unregister(c) => UnregisterStep(s, c)
    case Broadcast(m) => BroadcastStep(s, m)
    case Receive(c) => ReceiveStep(s, c).0
  }

  /** The payloads `c`'s writer takes out of its channel during event `e` (none or one). */
  function Taken(s: HubState, e: Event, c: ClientId): seq<Bytes>
    requires Inv(s) && Allowed(s, e)
  {
    if e == Receive(c) && s.queues[c].items != [] then [s.queues[c].items[0]] else []
  }

  /**
   * `states` is a run of the hub over the events `t`: every state satisfies
   * the invariant and each one follows from the previous one by the event
   * between them.
   */
  ghost predicate Execution(states: seq<HubState>, t: seq<Event>) {
    && |states| == |t| + 1
    && (forall i :: 0 <= i < |states| ==> Inv(states[i]))
    && (forall i :: 0 <= i < |t| ==> StepsTo(states, t, i))
  }

  /** Event `i` of `t` is allowed in state `i` and leads to state `i + 1`. */
  ghost predicate StepsTo(states: seq<HubState>, t: seq<Event>, i: nat)
    requires |states| == |t| + 1 && i < |t| && Inv(states[i])
  {
    Allowed(states[i], t[i]) && states[i + 1] == Step(states[i], t[i])
  }

  /** Everything `c`'s writer takes out of its channel during events `k` to `n - 1` of an execution, in order. */
  ghost function ReceivedBetween(states: seq<HubState>, t: seq<Event>, c: ClientId, k: nat, n: nat): seq<Bytes>
    requires Execution(states, t) && k <= n <= |t|
    decreases n - k
  {
    if n == k then []
    else
      assert StepsTo(states, t, n - 1);
      ReceivedBetween(states, t, c, k, n - 1) + Taken(states[n - 1], t[n - 1], c)
  }

  /** The payloads an event broadcasts, if it is a broadcast. */
  function Payloads(e: Event): seq<Bytes> {
    if e.Broadcast? then [e.payload] else []
  }

  /** The payloads broadcast along `t`, in order. */
  function Broadcasts(t: seq<Event>): seq<Bytes> {
    if t == [] then [] else Broadcasts(t[..|t| - 1]) + Payloads(t[|t| - 1])
  }

  ghost predicate IsPrefix<T>(a: seq<T>, b: seq<T>) {
    |a| <= |b| && a == b[..|a|]
  }

  lemma PrefixOfSelf<T>(a: seq<T>, b: seq<T>)
    ensures IsPrefix(a, a + b)
  {
    assert (a + b)[..|a|] == a;
  }

  lemma PrefixPrepend<T>(x: seq<T>, a: seq<T>, b: seq<T>)
    requires IsPrefix(a, b)
    ensures IsPrefix(x + a, x + b)
  {
    assert (x + b)[..|x + a|] == x + b[..|a|];
  }

  lemma PrefixTransitive<T>(a: seq<T>, b: seq<T>, c: seq<T>)
    requires IsPrefix(a, b) && IsPrefix(b, c)
    ensures IsPrefix(a, c)
  {
    assert c[..|b|][..|a|] == c[..|a|];
  }

  /** A client outside the table stays outside, and its writer can only take what is already in its channel. */
  lemma StepFrozen(s: HubState, e: Event, c: ClientId)
    requires Inv(s) && Allowed(s, e) && c in s.queues && c !in s.clients
    ensures c in Step(s, e).queues && c !in Step(s, e).clients
    ensures Taken(s, e, c) + Step(s, e).queues[c].items == s.queues[c].items
  {
    if e == Receive(c) && s.queues[c].items != [] {
      var r := ReceiveStep(s, c);
      assert r.1 == Item(s.queues[c].items[0]);
    }
  }

  /**
   * One event seen from a client that is registered before it: if the client
   * is still registered afterwards, what its writer took plus what its channel
   * holds is its old content plus the event's broadcast payload, if any; if it
   * was removed, its channel content did not change and nothing was taken.
   */
  lemma StepOrder(s: HubState, e: Event, c: ClientId)
    requires Inv(s) && Allowed(s, e) && c in s.clients
    ensures c in Step(s, e).queues
    ensures c in Step(s, e).clients ==>
              Taken(s, e, c) + Step(s, e).queues[c].items == s.queues[c].items + Payloads(e)
    ensures c !in Step(s, e).clients ==>
              Taken(s, e, c) == [] && Step(s, e).queues[c].items == s.queues[c].items
  {
    if e == Receive(c) {
      var r := ReceiveStep(s, c);
      assert r.1 == Item(s.queues[c].items[0]);
    }
  }

  /** `StepFrozen` at event `i` of an execution. */
  lemma ExecFrozen(states: seq<HubState>, t: seq<Event>, c: ClientId, i: nat)
    requires Execution(states, t) && i < |t| && c in states[i].queues && c !in states[i].clients
    ensures Allowed(states[i], t[i])
    ensures c in states[i + 1].queues && c !in states[i + 1].clients
    ensures Taken(states[i], t[i], c) + states[i + 1].queues[c].items == states[i].queues[c].items
  {
    assert StepsTo(states, t, i);
    StepFrozen(states[i], t[i], c);
  }

  /** `StepOrder` at event `i` of an execution. */
  lemma ExecOrder(states: seq<HubState>, t: seq<Event>, c: ClientId, i: nat)
    requires Execution(states, t) && i < |t| && c in states[i].clients
    ensures Allowed(states[i], t[i])
    ensures c in states[i + 1].queues
    ensures c in states[i + 1].clients ==>
              Taken(states[i], t[i], c) + states[i + 1].queues[c].items == states[i].queues[c].items + Payloads(t[i])
    ensures c !in states[i + 1].clients ==>
              Taken(states[i], t[i], c) + states[i + 1].queues[c].items == states[i].queues[c].items
  {
    assert StepsTo(states, t, i);
    StepOrder(states[i], t[i], c);
  }

  /**
   * Once a client has left the table (unregistered or evicted), it never
   * comes back, its channel receives nothing more, and its writer can only
   * drain what was already in it.
   */
  lemma {:induction false} Frozen(states: seq<HubState>, t: seq<Event>, c: ClientId, k: nat, n: nat)
    requires Execution(states, t) && k <= n <= |t|
    requires c in states[k].queues && c !in states[k].clients
    ensures c in states[n].queues && c !in states[n].clients
    ensures ReceivedBetween(states, t, c, k, n) + states[n].queues[c].items == states[k].queues[c].items
    decreases n - k
  {
    if n > k {
      Frozen(states, t, c, k, n - 1);
      ExecFrozen(states, t, c, n - 1);
      ConcatAssoc(ReceivedBetween(states, t, c, k, n - 1), Taken(states[n - 1], t[n - 1], c), states[n].queues[c].items);
    }
  }

  /**
   * Per-client FIFO order: after the first `n` events of an execution, what
   * `c`'s writer has taken followed by what is still in its channel is its
   * initial content followed by a prefix of the payloads broadcast so far, in
   * broadcast order, with nothing reordered, duplicated or skipped; and while
   * `c` is still registered it is every payload broadcast so far.
   */
  lemma {:induction false} PerClientOrder(states: seq<HubState>, t: seq<Event>, c: ClientId, n: nat)
    requires Execution(states, t) && n <= |t| && c in states[0].queues
    ensures c in states[n].queues
    ensures IsPrefix(ReceivedBetween(states, t, c, 0, n) + states[n].queues[c].items,
                     states[0].queues[c].items + Broadcasts(t[..n]))
    ensures c in states[n].clients ==>
              ReceivedBetween(states, t, c, 0, n) + states[n].queues[c].items
                == states[0].queues[c].items + Broadcasts(t[..n])
    decreases n
  {
    var initial := states[0].queues[c].items;
    if n == 0 {
      assert t[..0] == [];
      PrefixOfSelf(initial, []);
    } else {
      PerClientOrder(states, t, c, n - 1);
      var registered := c in states[n - 1].clients;
      if registered {
        ExecOrder(states, t, c, n - 1);
      } else {
        ExecFrozen(states, t, c, n - 1);
      }
      BroadcastsSnoc(t, n - 1);
      OrderAlgebra(ReceivedBetween(states, t, c, 0, n - 1), Taken(states[n - 1], t[n - 1], c),
                   states[n].queues[c].items, states[n - 1].queues[c].items,
                   initial, Broadcasts(t[..n - 1]), Payloads(t[n - 1]),
                   registered, c in states[n].clients);
    }
  }

  lemma ConcatAssoc<T>(a: seq<T>, b: seq<T>, c: seq<T>)
    ensures a + b + c == a + (b + c)
  {
  }

  lemma BroadcastsSnoc(t: seq<Event>, n: nat)
    requires n < |t|
    ensures Broadcasts(t[..n + 1]) == Broadcasts(t[..n]) + Payloads(t[n])
  {
    assert t[..n + 1][..n] == t[..n];
  }

  /**
   * The sequence bookkeeping behind one step of `PerClientOrder`: `before`
   * was taken and `held` is queued, `taken` is taken by the event and `after`
   * is queued after it, `sent` was broadcast before and `pay` by the event.
   */
  lemma OrderAlgebra<T>(before: seq<T>, taken: seq<T>, after: seq<T>, held: seq<T>,
                        initial: seq<T>, sent: seq<T>, pay: seq<T>, wasIn: bool, isIn: bool)
    requires IsPrefix(before + held, initial + sent)
    requires wasIn ==> before + held == initial + sent
    requires isIn ==> wasIn && taken + after == held + pay
    requires !isIn ==> taken + after == held
    ensures IsPrefix(before + taken + after, initial + (sent + pay))
    ensures isIn ==> before + taken + after == initial + (sent + pay)
  {
    assert before + taken + after == before + (taken + after);
    assert initial + (sent + pay) == (initial + sent) + pay;
    if isIn {
      assert before + (held + pay) == (before + held) + pay;
      PrefixOfSelf(initial + (sent + pay), []);
    } else {
      PrefixOfSelf(initial + sent, pay);
      PrefixTransitive(before + held, initial + sent, initial + (sent + pay));
    }
  }

  /** Unregistering twice has the effect of unregistering once, so the second request closes nothing. */
  lemma UnregisterIdempotent(s: HubState, c: ClientId)
    requires Inv(s)
    ensures UnregisterStep(UnregisterStep(s, c), c) == UnregisterStep(s, c)
  {
  }

  /**
   * The hub as the running program holds it: the table and the channels are
   * updated in place by one method per branch of the control loop.
   */
  class Hub {
    var clients: set<ClientId>
    var queues: map<ClientId, SendQueue>

    function State(): HubState
      reads this
    {
      HubState(clients, queues)
    }

    ghost predicate Valid()
      reads this
    {
      Inv(State())
    }

    constructor ()
      ensures Valid() && clients == {} && queues == map[]
    {
      clients := {};
      queues := map[];
    }

    /** A freshly upgraded connection: its channel is made with capacity `SendBufferSize` and the client enters the table. */
    method Register(c: ClientId)
      requires Valid() && c !in queues
      modifies this
      ensures Valid() && State() == RegisterStep(old(State()), c)
    {
      clients := clients + {c};
      queues := queues[c := SendQueue([], false)];
    }

    /** Removes `c` and closes its channel if it is in the table; otherwise nothing changes. */
    method Unregister(c: ClientId)
      requires Valid()
      modifies this
      ensures Valid() && State() == UnregisterStep(old(State()), c)
      ensures old(c !in clients) ==> clients == old(clients) && queues == old(queues)
    {
      if c in clients {
        clients := clients - {c};
        queues := queues[c := CloseQueue(queues[c])];
      }
    }

    /** Ranges over the table, sending `m` without blocking and evicting every client whose channel is full. */
    method Broadcast(m: Bytes)
      requires Valid()
      modifies this
      ensures Valid() && State() == BroadcastStep(old(State()), m)
    {
      ghost var s0 := State();
      var pending := clients;
      while pending != {}
        invariant pending <= clients <= s0.clients
        invariant queues.Keys == s0.queues.Keys
        invariant forall c :: c in pending ==> queues[c] == s0.queues[c]
        invariant forall c :: c in queues && c !in pending ==> queues[c] == BroadcastTo(s0, c, m)
        invariant forall c :: c in s0.clients ==> (c in clients <==> c in pending || HasRoom(s0.queues[c]))
        decreases pending
      {
        var c :| c in pending;
        if HasRoom(queues[c]) {
          queues := queues[c := Enqueue(queues[c], m)];
        } else {
          queues := queues[c := CloseQueue(queues[c])];
          clients := clients - {c};
        }
        pending := pending - {c};
      }
      BroadcastStepIs(s0, m, State());
    }

    /** The writer's receive on `c`'s channel, in the states where it does not block. */
    method Receive(c: ClientId) returns (d: Delivery)
      requires Valid() && CanReceive(State(), c)
      modifies this
      ensures Valid() && (State(), d) == ReceiveStep(old(State()), c)
    {
      var q := queues[c];
      if q.items != [] {
        d := Item(q.items[0]);
        queues := queues[c := q.(items := q.items[1..])];
      } else {
        d := ChannelClosed;
      }
    }
  }
}
