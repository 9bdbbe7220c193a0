/**
 Routing of upstream callbacks: the table from upstream request id to the client that asked.

 Registration is an emplace and so never overwrites; a callback for an id that is not in the
 table, or whose entry names session 0, is dropped.
 */
module RequestRoutes {

  type RequestId = nat
  datatype ClientKey = ClientKey(session: nat, client: nat)
  type Table = map<RequestId, ClientKey>

  datatype Event =
    | Register(id: RequestId, key: ClientKey)
    | Erase(id: RequestId)
    | Callback(id: RequestId)

  datatype State = State(table: Table, delivered: seq<(RequestId, ClientKey)>)

  const EMPTY := State(map[], [])

  function Emplaced(t: Table, id: RequestId, key: ClientKey): Table {
    if id in t then t else t[id := key]
  }

  function Step(st: State, e: Event): State {
    match e
    case Register(id, key) => st.(table := Emplaced(st.table, id, key))
    case Erase(id) => st.(table := st.table - {id})
    case Callback(id) =>
      if id in st.table && st.table[id].session != 0
      then st.(delivered := st.delivered + [(id, st.table[id])])
      else st
  }

  function Run(st: State, run: seq<Event>): State {
    if run == [] then st else Step(Run(st, run[..|run| - 1]), run[|run| - 1])
  }

  // ----- What history alone says -----

  /** Position `j` registers the id and nothing erased the id since. */
  predicate Unerased(run: seq<Event>, id: RequestId, j: nat) {
    && j < |run| && run[j].Register? && run[j].id == id
    && forall i | j < i < |run| :: run[i] != Erase(id)
  }

  /** The registration that counts is the earliest one not erased since. */
  predicate Registrant(run: seq<Event>, id: RequestId, j: nat) {
    Unerased(run, id, j) && forall i: nat | i < j :: !Unerased(run, id, i)
  }

  ghost function Expected(run: seq<Event>): seq<(RequestId, ClientKey)> {
    if run == [] then []
    else
      var before, e := run[..|run| - 1], run[|run| - 1];
      Expected(before) +
      if e.Callback? && exists j: nat :: Registrant(before, e.id, j) && before[j].key.session != 0
      then
        var j: nat :| Registrant(before, e.id, j) && before[j].key.session != 0;
        [(e.id, before[j].key)]
      else []
  }

  lemma {:induction false} EarliestUnerased(run: seq<Event>, id: RequestId, j: nat)
    requires Unerased(run, id, j)
    ensures exists i: nat :: Registrant(run, id, i)
    decreases j
  {
    if i: nat :| i < j && Unerased(run, id, i) {
      EarliestUnerased(run, id, i);
    } else {
      assert Registrant(run, id, j);
    }
  }

  /** The table holds an id exactly while a registration of it is unerased, under the key of the
      earliest such registration. */
  lemma {:induction false} TableIsHistory(run: seq<Event>, id: RequestId)
    ensures id in Run(EMPTY, run).table <==> exists j: nat :: Registrant(run, id, j)
    ensures forall j: nat | Registrant(run, id, j) ::
      id in Run(EMPTY, run).table && Run(EMPTY, run).table[id] == run[j].key
  {
    if run != [] {
      var n := |run| - 1;
      var before, e := run[..n], run[n];
      TableIsHistory(before, id);
      forall j: nat | j < n
        ensures Unerased(run, id, j) <==> Unerased(before, id, j) && e != Erase(id)
      {
      }
      if id in Run(EMPTY, before).table {
        var j: nat :| Registrant(before, id, j);
        if e != Erase(id) {
          assert Registrant(run, id, j);
          assert forall k: nat | Registrant(run, id, k) :: k == j;
        }
      } else {
        forall j: nat ensures !Unerased(before, id, j) {
          if Unerased(before, id, j) {
            EarliestUnerased(before, id, j);
          }
        }
        if e.Register? && e.id == id {
          assert Registrant(run, id, n);
          assert forall k: nat | Registrant(run, id, k) :: k == n;
        } else {
          assert forall k: nat :: !Unerased(run, id, k);
        }
      }
    }
  }

  /** Over every run, callbacks go to the client whose registration counts, and nowhere else. */
  lemma {:induction false} CallbacksReachTheRegistrant(run: seq<Event>)
    ensures Run(EMPTY, run).delivered == Expected(run)
  {
    if run != [] {
      var before, e := run[..|run| - 1], run[|run| - 1];
      CallbacksReachTheRegistrant(before);
      TableIsHistory(before, e.id);
    }
  }

  /** With fresh ids the one registration of an id decides for as long as it is not erased. */
  lemma FreshIdsKeepTheirClient(run: seq<Event>, id: RequestId, key: ClientKey, j: nat)
    requires j < |run| && run[j] == Register(id, key) && key.session != 0
    requires forall i | 0 <= i < |run| && run[i].Register? && run[i].id == id :: i == j
    ensures Run(EMPTY, run + [Callback(id)]).delivered ==
      Run(EMPTY, run).delivered + if Erase(id) in run[j..] then [] else [(id, key)]
  {
    var all := run + [Callback(id)];
    assert all[..|run|] == run;
    TableIsHistory(run, id);
    if Erase(id) in run[j..] {
      assert !Unerased(run, id, j);
    } else {
      assert forall i | j < i < |run| :: run[i] == run[j..][i - j];
      assert Registrant(run, id, j);
    }
  }

  // ----- Looking a request up by its client, and cancelling it -----

  ghost predicate UniqueKeys(t: Table) {
    forall a, b | a in t && b in t && t[a] == t[b] :: a == b
  }

  ghost predicate KeyIsUnique(t: Table, key: ClientKey) {
    forall a, b | a in t && b in t && t[a] == key && t[b] == key :: a == b
  }

  predicate Registers(run: seq<Event>, key: ClientKey) {
    exists i :: 0 <= i < |run| && run[i].Register? && run[i].key == key
  }

  predicate Delivers(d: seq<(RequestId, ClientKey)>, key: ClientKey) {
    exists i :: 0 <= i < |d| && d[i].1 == key
  }

  lemma {:induction false} SilentWithoutARoute(st: State, run: seq<Event>, key: ClientKey)
    requires forall id | id in st.table :: st.table[id] != key
    requires !Registers(run, key) && !Delivers(st.delivered, key)
    ensures forall id | id in Run(st, run).table :: Run(st, run).table[id] != key
    ensures !Delivers(Run(st, run).delivered, key)
  {
    if run != [] {
      var before, e := run[..|run| - 1], run[|run| - 1];
      assert !Registers(before, key) by {
        if i :| 0 <= i < |before| && before[i].Register? && before[i].key == key {
          assert run[i].Register? && run[i].key == key;
        }
      }
      assert e.Register? ==> e.key != key;
      SilentWithoutARoute(st, before, key);
    }
  }

  /** Erasing the id found for a client silences that client, whatever happens next short of its
      asking again, if and only if no second live request carried its key. */
  lemma CancelSilencesIffTheKeyIsUnique(t: Table, found: RequestId, key: ClientKey)
    requires found in t && t[found] == key && key.session != 0
    ensures KeyIsUnique(t, key) <==>
      forall run | !Registers(run, key) :: !Delivers(Run(Step(State(t, []), Erase(found)), run).delivered, key)
  {
    var st := Step(State(t, []), Erase(found));
    if KeyIsUnique(t, key) {
      forall run | !Registers(run, key) ensures !Delivers(Run(st, run).delivered, key) {
        SilentWithoutARoute(st, run, key);
      }
    } else {
      var other :| other in t && t[other] == key && other != found;
      var run := [Callback(other)];
      assert !Registers(run, key);
      assert run[..0] == [];
      assert Run(st, run).delivered == [(other, key)];
      assert Run(st, run).delivered[0].1 == key;
      assert Delivers(Run(st, run).delivered, key);
    }
  }

  // ----- The operations -----

  class RequestGateway {
    var requestSession: Table
    var delivered: seq<(RequestId, ClientKey)>
    var cancelled: set<RequestId>   // what cancelPositionsMulti was called with

    /** Upstream never hands out request id 0. */
    ghost predicate Valid()
      reads this
    {
      0 !in requestSession
    }

    ghost function Value(): State
      reads this
    {
      State(requestSession, delivered)
    }

    constructor ()
      ensures Valid() && Value() == EMPTY && cancelled == {}
    {
      requestSession, delivered, cancelled := map[], [], {};
    }

    /** Registers under the id given, or under the next one from upstream if that is 0. */
    method AddRequestSession(key: ClientKey, ib: RequestId, next: RequestId) returns (id: RequestId)
      requires Valid() && next != 0
      modifies this
      ensures Valid() && id != 0 && (ib != 0 ==> id == ib) && (ib == 0 ==> id == next)
      ensures Value() == Step(old(Value()), Register(id, key)) && cancelled == old(cancelled)
    {
      id := if ib != 0 then ib else next;
      if id !in requestSession {
        requestSession := requestSession[id := key];
      }
    }

    /** Any live request of the client, or 0 if it has none. */
    method RequestFind(key: ClientKey) returns (id: RequestId)
      requires Valid()
      ensures id != 0 ==> id in requestSession && requestSession[id] == key
      ensures id == 0 ==> forall i | i in requestSession.Keys :: requestSession[i] != key
    {
      var values := map i | i in requestSession && requestSession[i] == key :: requestSession[i];
      if values != map[] {
        id :| id in values;
      } else {
        assert forall i | i in requestSession :: i !in values;
        id := 0;
      }
    }

    method RequestErase(id: RequestId)
      requires Valid()
      modifies this
      ensures Valid() && Value() == Step(old(Value()), Erase(id)) && cancelled == old(cancelled)
    {
      requestSession := requestSession - {id};
    }

    method Push(id: RequestId) returns (sent: bool)
      requires Valid()
      modifies this
      ensures Valid() && Value() == Step(old(Value()), Callback(id)) && cancelled == old(cancelled)
      ensures sent <==> delivered != old(delivered)
    {
      var key := if id in requestSession then requestSession[id] else ClientKey(0, 0);
      sent := key.session != 0;
      if sent {
        delivered := delivered + [(id, key)];
      }
    }

    /** Cancels one live request per client named, and with unique keys all of them. */
    method CancelPositionsMulti(session: nat, clients: seq<nat>) returns (erased: set<RequestId>)
      requires Valid()
      modifies this
      ensures Valid() && delivered == old(delivered)
      ensures requestSession == old(requestSession) - erased && cancelled == old(cancelled) + erased
      ensures forall id | id in erased :: HasClientIn(old(requestSession), id, session, clients)
      ensures UniqueKeys(old(requestSession)) ==>
        forall id | HasClientIn(old(requestSession), id, session, clients) :: id in erased
    {
      erased := {};
      for k := 0 to |clients|
        invariant Valid() && delivered == old(delivered)
        invariant requestSession == old(requestSession) - erased && cancelled == old(cancelled) + erased
        invariant forall id | id in erased :: HasClientIn(old(requestSession), id, session, clients[..k])
        invariant UniqueKeys(old(requestSession)) ==>
          forall i | HasClientIn(old(requestSession), i, session, clients[..k]) :: i in erased
      {
        assert clients[..k + 1] == clients[..k] + [clients[k]];
        var id := RequestFind(ClientKey(session, clients[k]));
        forall i | HasClientIn(old(requestSession), i, session, clients[..k + 1]) && UniqueKeys(old(requestSession))
          ensures i in erased || (i == id && id != 0)
        {
          if !HasClientIn(old(requestSession), i, session, clients[..k]) {
            assert old(requestSession)[i] == ClientKey(session, clients[k]);
            assert i in erased || (i in requestSession && requestSession[i] == ClientKey(session, clients[k]));
          }
        }
        if id != 0 {
          cancelled := cancelled + {id};
          RequestErase(id);
          erased := erased + {id};
        }
      }
      assert clients[..|clients|] == clients;
    }
  }

  predicate HasClientIn(t: Table, id: RequestId, session: nat, clients: seq<nat>) {
    id in t && t[id].session == session && t[id].client in clients
  }
}
