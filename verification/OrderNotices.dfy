/**
 Suppression of the first notice about an order a session placed itself.

 A session that places an order gets the result of the placement directly, so the first
 order change it could read afterwards is swallowed. The table `_sessionOrders` is shared by
 every broadcast and every placement; each of the two operations below takes its mutex once,
 so a run is an arbitrary interleaving of them.
 */
module OrderNotices {

  type SessionId = nat
  type OrderId = int
  type Table = map<SessionId, set<OrderId>>

  /** One critical section: an order is placed, or one session is offered an order change. */
  datatype Event =
    | Place(session: SessionId, order: OrderId)
    | Change(session: SessionId, order: OrderId, readable: bool)

  datatype State = State(table: Table, sent: seq<(SessionId, OrderId)>)

  const EMPTY := State(map[], [])

  predicate Pending(t: Table, s: SessionId, o: OrderId) {
    s in t && o in t[s]
  }

  function Placed(t: Table, s: SessionId, o: OrderId): Table {
    t[s := (if s in t then t[s] else {}) + {o}]
  }

  function Settled(t: Table, s: SessionId, o: OrderId): Table {
    if !Pending(t, s, o) then t
    else if t[s] == {o} then t - {s}
    else t[s := t[s] - {o}]
  }

  function Step(st: State, e: Event): State {
    match e
    case Place(s, o) => st.(table := Placed(st.table, s, o))
    case Change(s, o, readable) =>
      if !readable then st
      else if Pending(st.table, s, o) then st.(table := Settled(st.table, s, o))
      else st.(sent := st.sent + [(s, o)])
  }

  function Run(st: State, run: seq<Event>): State {
    if run == [] then st else Step(Run(st, run[..|run| - 1]), run[|run| - 1])
  }

  // ----- What history alone says -----

  /** Position `j` places the order and no readable change of it has been offered since. */
  predicate PlacedSince(run: seq<Event>, s: SessionId, o: OrderId, j: nat) {
    j < |run| && run[j] == Place(s, o) && forall i | j < i < |run| :: run[i] != Change(s, o, true)
  }

  /** The notices a session must get, read off the events without any table. */
  ghost function Expected(run: seq<Event>): seq<(SessionId, OrderId)> {
    if run == [] then []
    else
      var before := run[..|run| - 1];
      var e := run[|run| - 1];
      Expected(before) +
      if e.Change? && e.readable && !(exists j :: PlacedSince(before, e.session, e.order, j))
      then [(e.session, e.order)] else []
  }

  /** How often the session could see the order change. */
  function Visible(run: seq<Event>, s: SessionId, o: OrderId): nat {
    multiset(run)[Change(s, o, true)]
  }

  /** How many of those changes found the order pending. */
  function Suppressed(run: seq<Event>, s: SessionId, o: OrderId): nat {
    if run == [] then 0
    else
      var before := run[..|run| - 1];
      Suppressed(before, s, o) +
      if run[|run| - 1] == Change(s, o, true) && Pending(Run(EMPTY, before).table, s, o) then 1 else 0
  }

  // ----- The table remembers exactly the open placements -----

  lemma {:induction false} PendingIsPlacedSince(run: seq<Event>, s: SessionId, o: OrderId)
    ensures Pending(Run(EMPTY, run).table, s, o) <==> exists j :: PlacedSince(run, s, o, j)
  {
    if run != [] {
      var n := |run| - 1;
      var before, e := run[..n], run[n];
      PendingIsPlacedSince(before, s, o);
      if j: nat :| PlacedSince(run, s, o, j) {
        if j < n {
          assert PlacedSince(before, s, o, j);
        }
      }
      if Pending(Run(EMPTY, run).table, s, o) {
        if e == Place(s, o) {
          assert PlacedSince(run, s, o, n);
        } else {
          assert Pending(Run(EMPTY, before).table, s, o);
          var j :| PlacedSince(before, s, o, j);
          assert PlacedSince(run, s, o, j);
        }
      }
    }
  }

  /** Every interleaving sends exactly the expected notices, in order. */
  lemma {:induction false} SendsExactlyTheExpected(run: seq<Event>)
    ensures Run(EMPTY, run).sent == Expected(run)
  {
    if run != [] {
      var before, e := run[..|run| - 1], run[|run| - 1];
      SendsExactlyTheExpected(before);
      PendingIsPlacedSince(before, e.session, e.order);
    }
  }

  lemma CountLast<T>(xs: seq<T>, x: T)
    requires xs != []
    ensures multiset(xs)[x] == multiset(xs[..|xs| - 1])[x] + if xs[|xs| - 1] == x then 1 else 0
  {
    assert xs == xs[..|xs| - 1] + [xs[|xs| - 1]];
  }

  /** What one offer does to the notices and placements of a session. */
  lemma OfferEffect(h: State, e: Event, s: SessionId, p: OrderId)
    requires e.Change?
    ensures var offered := e == Change(s, p, true);
      && multiset(Step(h, e).sent)[(s, p)]
         == multiset(h.sent)[(s, p)] + (if offered && !Pending(h.table, s, p) then 1 else 0)
      && (Pending(Step(h, e).table, s, p) <==> Pending(h.table, s, p) && !offered)
  {
    if Step(h, e).sent != h.sent {
      CountLast(Step(h, e).sent, (s, p));
      assert Step(h, e).sent[..|h.sent|] == h.sent;
    }
  }

  /** Changes visible to a session split into those sent to it and those suppressed; a placement
      suppresses at most one, and the last one may still be waiting to. */
  lemma {:induction false} VisibleIsSentOrSuppressed(run: seq<Event>, s: SessionId, o: OrderId)
    ensures Visible(run, s, o) == multiset(Run(EMPTY, run).sent)[(s, o)] + Suppressed(run, s, o)
    ensures Suppressed(run, s, o) + (if Pending(Run(EMPTY, run).table, s, o) then 1 else 0)
            <= multiset(run)[Place(s, o)]
  {
    if run != [] {
      var before, e := run[..|run| - 1], run[|run| - 1];
      VisibleIsSentOrSuppressed(before, s, o);
      CountLast(run, Change(s, o, true));
      CountLast(run, Place(s, o));
      if e.Change? {
        OfferEffect(Run(EMPTY, before), e, s, o);
      }
    }
  }

  /** A session that never placed the order is sent every change of it that it can read. */
  lemma OthersAreSentEverything(run: seq<Event>, s: SessionId, o: OrderId)
    requires Place(s, o) !in run
    ensures multiset(Run(EMPTY, run).sent)[(s, o)] == Visible(run, s, o)
  {
    VisibleIsSentOrSuppressed(run, s, o);
  }

  lemma {:induction false} NoEmptyOrderSet(run: seq<Event>, s: SessionId)
    ensures s in Run(EMPTY, run).table ==> Run(EMPTY, run).table[s] != {}
  {
    if run != [] {
      NoEmptyOrderSet(run[..|run| - 1], s);
      var t := Run(EMPTY, run[..|run| - 1]).table;
      var e := run[|run| - 1];
      if e.Change? && e.readable && Pending(t, e.session, e.order) && t[e.session] != {e.order} {
        assert t[e.session] == (t[e.session] - {e.order}) + {e.order};
      }
    }
  }

  // ----- The operations -----

  /** A session of the broadcast's snapshot, and whether its user may read the order's account. */
  datatype SessionInfo = SessionInfo(sessionId: SessionId, canRead: bool)

  function Broadcast(sessions: seq<SessionInfo>, o: OrderId): (run: seq<Event>)
    ensures |run| == |sessions|
    ensures forall i | 0 <= i < |sessions| :: run[i] == Change(sessions[i].sessionId, o, sessions[i].canRead)
  {
    if sessions == [] then [] else
      var x := sessions[|sessions| - 1];
      Broadcast(sessions[..|sessions| - 1], o) + [Change(x.sessionId, o, x.canRead)]
  }

  predicate DistinctSessions(sessions: seq<SessionInfo>) {
    forall i, j | 0 <= i < j < |sessions| :: sessions[i].sessionId != sessions[j].sessionId
  }

  /** The session is in the snapshot and its user may read the account. */
  predicate Reads(sessions: seq<SessionInfo>, s: SessionId) {
    SessionInfo(s, true) in sessions
  }

  lemma ReadsSnoc(sessions: seq<SessionInfo>, s: SessionId)
    requires sessions != [] && DistinctSessions(sessions)
    ensures var before, x := sessions[..|sessions| - 1], sessions[|sessions| - 1];
      && (Reads(sessions, s) <==> Reads(before, s) || x == SessionInfo(s, true))
      && !(Reads(before, s) && x == SessionInfo(s, true))
  {
    assert sessions == sessions[..|sessions| - 1] + [sessions[|sessions| - 1]];
  }

  /** A broadcast reaches every session that may read the order and did not just place it, once and
      nobody else, and the placements it answers are the only ones it forgets. */
  lemma {:induction false} BroadcastNotifies(
    st: State, sessions: seq<SessionInfo>, o: OrderId, s: SessionId, p: OrderId)
    requires DistinctSessions(sessions)
    ensures var after := Run(st, Broadcast(sessions, o));
      && multiset(after.sent)[(s, p)]
         == multiset(st.sent)[(s, p)] + (if p == o && Reads(sessions, s) && !Pending(st.table, s, o) then 1 else 0)
      && (Pending(after.table, s, p) <==> Pending(st.table, s, p) && !(p == o && Reads(sessions, s)))
  {
    if sessions != [] {
      var n := |sessions| - 1;
      var run, x := Broadcast(sessions[..n], o), sessions[n];
      BroadcastNotifies(st, sessions[..n], o, s, p);
      ReadsSnoc(sessions, s);
      OfferEffect(Run(st, run), Change(x.sessionId, o, x.canRead), s, p);
      assert Broadcast(sessions, o)[..n] == run;
    }
  }

  class OrderGateway {
    var sessionOrders: Table
    var sent: seq<(SessionId, OrderId)>

    ghost function Value(): State
      reads this
    {
      State(sessionOrders, sent)
    }

    constructor ()
      ensures Value() == EMPTY
    {
      sessionOrders, sent := map[], [];
    }

    method AddOrder(id: OrderId, s: SessionId)
      modifies this
      ensures Value() == Step(old(Value()), Place(s, id))
      ensures Pending(sessionOrders, s, id) && sent == old(sent)
      ensures forall t: SessionId, o: OrderId | (t, o) != (s, id) ::
        Pending(sessionOrders, t, o) <==> Pending(old(sessionOrders), t, o)
    {
      if s !in sessionOrders {
        sessionOrders := sessionOrders[s := {}];
      }
      sessionOrders := sessionOrders[s := sessionOrders[s] + {id}];
    }

    /** True when the change answers the session's own placement; the placement is then forgotten. */
    method CheckPlaceOrderResult(s: SessionId, orderId: OrderId) returns (result: bool)
      modifies this`sessionOrders
      ensures result == Pending(old(sessionOrders), s, orderId)
      ensures !Pending(sessionOrders, s, orderId)
      ensures sessionOrders == Settled(old(sessionOrders), s, orderId)
      ensures forall t: SessionId, o: OrderId | (t, o) != (s, orderId) ::
        Pending(sessionOrders, t, o) <==> Pending(old(sessionOrders), t, o)
    {
      result := true;
      if s in sessionOrders && orderId in sessionOrders[s] {
        sessionOrders := sessionOrders[s := sessionOrders[s] - {orderId}];
        if sessionOrders[s] == {} {
          sessionOrders := sessionOrders - {s};
        }
      } else {
        result := false;
      }
    }

    /** OnOrderChange; OnOrderException is the same loop over the id of the failed request. */
    method OnOrderChange(orderId: OrderId, sessions: seq<SessionInfo>)
      modifies this
      ensures Value() == Run(old(Value()), Broadcast(sessions, orderId))
    {
      ghost var run := Broadcast(sessions, orderId);
      for i := 0 to |sessions|
        invariant Value() == Run(old(Value()), run[..i])
      {
        assert run[..i + 1][..i] == run[..i];
        var x := sessions[i];
        if x.canRead {
          var answered := CheckPlaceOrderResult(x.sessionId, orderId);
          if !answered {
            sent := sent + [(x.sessionId, orderId)];
          }
        }
      }
      assert run[..|sessions|] == run;
    }
  }
}
