/**
 Contract details asked for many contracts at once, and the one MultiEnd that closes them.

 Details arrive as single callbacks per upstream id and are collected until the end callback of
 the id; the gateway then sends them to the client that asked, and with the last id of a
 multi-request it sends MultiEnd in the same batch. Other requests come and go in between.
 */
module MultiRequests {
  import RequestRoutes

  type RequestId = RequestRoutes.RequestId
  type ClientKey = RequestRoutes.ClientKey
  type Table = RequestRoutes.Table

  type Detail = int

  /** What the wrapper keeps for an id: a result being collected, or the empty pointer left when
      the result was handed on. */
  datatype Slot = Collecting(details: seq<Detail>) | HandedOn

  datatype Message = Details(client: nat, details: seq<Detail>) | MultiEnd(client: nat)
  datatype Batch = Batch(session: nat, messages: seq<Message>)

  datatype Gate = Gate(
    routes: Table,
    multi: map<nat, set<RequestId>>,
    slots: map<RequestId, Slot>,
    sent: seq<Batch>)

  datatype Event =
    | Ask(ids: set<RequestId>, key: ClientKey)
    | AskOne(id: RequestId, key: ClientKey)
    | Detail(id: RequestId, detail: Detail)
    | End(id: RequestId)

  function Collected(g: Gate, id: RequestId): seq<Detail> {
    if id in g.slots && g.slots[id].Collecting? then g.slots[id].details else []
  }

  function EmplacedAll(t: Table, ids: set<RequestId>, key: ClientKey): Table {
    map id | id in t.Keys + ids :: if id in t then t[id] else key
  }

  /** The end callback: the collected result is sent on to the client, if there is one. */
  function Ended(g: Gate, id: RequestId): Gate {
    var result := Collected(g, id);
    var g1 := if id in g.slots then g.(slots := g.slots[id := HandedOn]) else g;
    if id !in g.routes || g.routes[id].session == 0 then g1
    else
      var key := g.routes[id];
      if key.client !in g.multi then
        g1.(routes := g.routes - {id}, sent := g.sent + [Batch(key.session, [Details(key.client, result)])])
      else
        var left := g.multi[key.client] - {id};
        if left != {} then
          g1.(multi := g.multi[key.client := left],
              sent := g.sent + [Batch(key.session, [Details(key.client, result)])])
        else
          g1.(multi := g.multi - {key.client}, routes := g.routes - {id},
              sent := g.sent + [Batch(key.session, [Details(key.client, result), MultiEnd(key.client)])])
  }

  const NOTHING := Gate(map[], map[], map[], [])

  function Step(g: Gate, e: Event): Gate {
    match e
    case Ask(ids, key) =>
      g.(multi := if key.client in g.multi then g.multi else g.multi[key.client := ids],
         routes := EmplacedAll(g.routes, ids, key))
    case AskOne(id, key) => g.(routes := RequestRoutes.Emplaced(g.routes, id, key))
    case Detail(id, d) => g.(slots := g.slots[id := Collecting(Collected(g, id) + [d])])
    case End(id) => Ended(g, id)
  }

  function Run(g: Gate, run: seq<Event>): Gate {
    if run == [] then g else Step(Run(g, run[..|run| - 1]), run[|run| - 1])
  }

  // ----- One multi-request among arbitrary other traffic -----

  /** Upstream gives out new ids, the request is not empty, and its client id is not in use by a
      multi-request that is still open. */
  predicate CanAsk(g: Gate, ids: set<RequestId>, key: ClientKey) {
    && ids != {} && key.session != 0 && key.client !in g.multi
    && ids !! g.routes.Keys && ids !! g.slots.Keys
  }

  function Unanswered(rest: seq<Event>, ids: set<RequestId>): set<RequestId> {
    set id | id in ids && End(id) !in rest
  }

  /** What happens after the request: its ids are not given out again, each is ended at most once
      and gets no detail afterwards, and its client id asks again only while this request is open. */
  ghost predicate Follows(rest: seq<Event>, ids: set<RequestId>, client: nat) {
    forall k | 0 <= k < |rest| ::
      match rest[k]
      case Ask(more, key) => more !! ids && (key.client == client ==> Unanswered(rest[..k], ids) != {})
      case AskOne(id, _) => id !in ids
      case Detail(id, _) => id in ids ==> End(id) !in rest[..k]
      case End(id) => id in ids ==> End(id) !in rest[..k]
  }

  /** The details called back for an id, in order. */
  function DetailsOf(rest: seq<Event>, id: RequestId): seq<Detail> {
    if rest == [] then []
    else
      var e := rest[|rest| - 1];
      DetailsOf(rest[..|rest| - 1], id) + if e.Detail? && e.id == id then [e.detail] else []
  }

  function MultiEnds(sent: seq<Batch>, client: nat): nat {
    if sent == [] then 0
    else
      MultiEnds(sent[..|sent| - 1], client) +
      if MultiEnd(client) in sent[|sent| - 1].messages then 1 else 0
  }

  /** The tables while the ids in `left` are still to be answered, and after. */
  ghost predicate Open(g: Gate, left: set<RequestId>, key: ClientKey, rest: seq<Event>) {
    && (if left == {} then key.client !in g.multi else key.client in g.multi && g.multi[key.client] == left)
    && forall id | id in left :: id in g.routes && g.routes[id] == key && Collected(g, id) == DetailsOf(rest, id)
  }

  /** An event of `Follows` that answers none of the ids in `left`. */
  predicate Foreign(e: Event, left: set<RequestId>, client: nat) {
    match e
    case Ask(more, key) => more !! left && (key.client == client ==> left != {})
    case AskOne(id, _) => id !in left
    case Detail(_, _) => true
    case End(id) => id !in left
  }

  lemma DetailsSnoc(rest: seq<Event>, e: Event, id: RequestId)
    ensures DetailsOf(rest + [e], id) == DetailsOf(rest, id) + if e.Detail? && e.id == id then [e.detail] else []
  {
    assert (rest + [e])[..|rest|] == rest;
  }

  lemma CollectedAfter(g: Gate, e: Event, id: RequestId)
    requires e != End(id)
    ensures Collected(Step(g, e), id) == Collected(g, id) + if e.Detail? && e.id == id then [e.detail] else []
  {
  }

  lemma RouteAfter(g: Gate, e: Event, id: RequestId)
    requires e != End(id) && id in g.routes
    ensures id in Step(g, e).routes && Step(g, e).routes[id] == g.routes[id]
  {
  }

  lemma ForeignKeepsOpen(g: Gate, left: set<RequestId>, key: ClientKey, rest: seq<Event>, e: Event)
    requires Open(g, left, key, rest) && Foreign(e, left, key.client)
    ensures Open(Step(g, e), left, key, rest + [e])
  {
    forall id | id in left
      ensures id in Step(g, e).routes && Step(g, e).routes[id] == key
      ensures Collected(Step(g, e), id) == DetailsOf(rest + [e], id)
    {
      CollectedAfter(g, e, id);
      RouteAfter(g, e, id);
      DetailsSnoc(rest, e, id);
    }
    assert e.End? ==> left - {e.id} == left;
    assert if left == {} then key.client !in Step(g, e).multi
           else key.client in Step(g, e).multi && Step(g, e).multi[key.client] == left;
  }

  lemma ForeignSendsNoEnd(g: Gate, left: set<RequestId>, key: ClientKey, rest: seq<Event>, e: Event)
    requires Open(g, left, key, rest) && Foreign(e, left, key.client)
    ensures MultiEnds(Step(g, e).sent, key.client) == MultiEnds(g.sent, key.client)
  {
    var sent := Step(g, e).sent;
    if e.End? {
      assert left - {e.id} == left;
      if sent != g.sent {
        assert sent[..|g.sent|] == g.sent;
        assert MultiEnd(key.client) !in sent[|g.sent|].messages;
      }
    }
  }

  /** The batch that answers `id` while the ids in `left` are open. */
  function Answer(left: set<RequestId>, key: ClientKey, rest: seq<Event>, id: RequestId): Batch {
    Batch(key.session,
          [Details(key.client, DetailsOf(rest, id))] + if left == {id} then [MultiEnd(key.client)] else [])
  }

  lemma OwnEnd(g: Gate, left: set<RequestId>, key: ClientKey, rest: seq<Event>, id: RequestId)
    requires Open(g, left, key, rest) && id in left && key.session != 0
    ensures Step(g, End(id)).sent == g.sent + [Answer(left, key, rest, id)]
    ensures Step(g, End(id)).routes == if left == {id} then g.routes - {id} else g.routes
    ensures Open(Step(g, End(id)), left - {id}, key, rest + [End(id)])
  {
    assert left - {id} == {} <==> left == {id};
    var g' := Step(g, End(id));
    var answer: seq<Message> := [Details(key.client, DetailsOf(rest, id))];
    assert answer + [] == answer && answer + [MultiEnd(key.client)] == [answer[0], MultiEnd(key.client)];
    forall i | i in left - {id}
      ensures i in g'.routes && g'.routes[i] == key && Collected(g', i) == DetailsOf(rest + [End(id)], i)
    {
      DetailsSnoc(rest, End(id), i);
    }
  }

  lemma AnswerCounts(sent: seq<Batch>, left: set<RequestId>, key: ClientKey, rest: seq<Event>, id: RequestId)
    ensures MultiEnds(sent + [Answer(left, key, rest, id)], key.client) ==
      MultiEnds(sent, key.client) + if left == {id} then 1 else 0
  {
    var b := Answer(left, key, rest, id);
    assert (sent + [b])[..|sent|] == sent;
    assert left == {id} ==> b.messages[1] == MultiEnd(key.client);
  }

  lemma LastFollows(rest: seq<Event>, ids: set<RequestId>, client: nat)
    requires rest != [] && Follows(rest, ids, client)
    ensures var before, e := rest[..|rest| - 1], rest[|rest| - 1];
      && Follows(before, ids, client)
      && if e.End? && e.id in ids
         then e.id in Unanswered(before, ids) && Unanswered(rest, ids) == Unanswered(before, ids) - {e.id}
         else Foreign(e, Unanswered(before, ids), client) && Unanswered(rest, ids) == Unanswered(before, ids)
  {
    var n := |rest| - 1;
    var before := rest[..n];
    forall k | 0 <= k < n ensures before[k] == rest[k] && before[..k] == rest[..k] {
    }
    assert rest == before + [rest[n]];
  }

  function Closed(rest: seq<Event>, ids: set<RequestId>): nat {
    if Unanswered(rest, ids) == {} then 1 else 0
  }

  lemma OpenStep(h: Gate, ids: set<RequestId>, key: ClientKey, rest: seq<Event>)
    requires rest != [] && Follows(rest, ids, key.client) && key.session != 0
    requires Open(h, Unanswered(rest[..|rest| - 1], ids), key, rest[..|rest| - 1])
    ensures Open(Step(h, rest[|rest| - 1]), Unanswered(rest, ids), key, rest)
    ensures MultiEnds(Step(h, rest[|rest| - 1]).sent, key.client) ==
      MultiEnds(h.sent, key.client) + Closed(rest, ids) - Closed(rest[..|rest| - 1], ids)
  {
    var before, e := rest[..|rest| - 1], rest[|rest| - 1];
    var left := Unanswered(before, ids);
    assert rest == before + [e];
    LastFollows(rest, ids, key.client);
    if e.End? && e.id in ids {
      OwnEnd(h, left, key, before, e.id);
      AnswerCounts(h.sent, left, key, before, e.id);
      assert left - {e.id} == {} <==> left == {e.id};
    } else {
      ForeignKeepsOpen(h, left, key, before, e);
      ForeignSendsNoEnd(h, left, key, before, e);
    }
  }

  lemma {:induction false} StaysOpen(g: Gate, ids: set<RequestId>, key: ClientKey, rest: seq<Event>)
    requires CanAsk(g, ids, key) && Follows(rest, ids, key.client)
    ensures Open(Run(Step(g, Ask(ids, key)), rest), Unanswered(rest, ids), key, rest)
    ensures MultiEnds(Run(Step(g, Ask(ids, key)), rest).sent, key.client) ==
      MultiEnds(g.sent, key.client) + Closed(rest, ids)
  {
    var g0 := Step(g, Ask(ids, key));
    if rest == [] {
      assert Unanswered(rest, ids) == ids;
    } else {
      var before := rest[..|rest| - 1];
      LastFollows(rest, ids, key.client);
      StaysOpen(g, ids, key, before);
      OpenStep(Run(g0, before), ids, key, rest);
    }
  }

  /** Whatever else goes on, a multi-request gets no MultiEnd while an id is unanswered and exactly
      one from then on. */
  lemma MultiEndExactlyOnce(g: Gate, ids: set<RequestId>, key: ClientKey, rest: seq<Event>)
    requires CanAsk(g, ids, key) && Follows(rest, ids, key.client)
    ensures MultiEnds(Run(Step(g, Ask(ids, key)), rest).sent, key.client) - MultiEnds(g.sent, key.client) ==
      if forall id | id in ids :: End(id) in rest then 1 else 0
  {
    StaysOpen(g, ids, key, rest);
    assert Unanswered(rest, ids) == {} <==> forall id | id in ids :: End(id) in rest;
  }

  lemma LastIsAlone(rest: seq<Event>, ids: set<RequestId>, id: RequestId)
    requires id in Unanswered(rest, ids)
    ensures Unanswered(rest, ids) == {id} <==> forall i | i in ids && i != id :: End(i) in rest
  {
    forall i | i in ids && i != id ensures End(i) in rest <==> i !in Unanswered(rest, ids) {
    }
  }

  /** Each id is answered to the session and client that asked, with exactly its details in order,
      and MultiEnd travels in the same batch as the last answer. */
  lemma AnswersInOneBatch(g: Gate, ids: set<RequestId>, key: ClientKey, rest: seq<Event>, id: RequestId)
    requires CanAsk(g, ids, key) && Follows(rest + [End(id)], ids, key.client) && id in ids
    ensures var g0 := Step(g, Ask(ids, key));
      Run(g0, rest + [End(id)]).sent == Run(g0, rest).sent + [Batch(key.session,
        [Details(key.client, DetailsOf(rest, id))] +
        if forall i | i in ids && i != id :: End(i) in rest then [MultiEnd(key.client)] else [])]
  {
    var all := rest + [End(id)];
    assert all[..|rest|] == rest;
    LastFollows(all, ids, key.client);
    StaysOpen(g, ids, key, rest);
    OwnEnd(Run(Step(g, Ask(ids, key)), rest), Unanswered(rest, ids), key, rest, id);
    LastIsAlone(rest, ids, id);
  }

  /** Only the route of the id answered last is removed: the others stay for good. */
  lemma {:induction false} OtherRoutesAreLeftBehind(g: Gate, ids: set<RequestId>, key: ClientKey, rest: seq<Event>)
    requires CanAsk(g, ids, key) && Follows(rest, ids, key.client)
    ensures var routes := Run(Step(g, Ask(ids, key)), rest).routes;
      if Unanswered(rest, ids) == {} then exists last :: last in ids && ids - {last} == ids * routes.Keys
      else ids <= routes.Keys
  {
    var g0 := Step(g, Ask(ids, key));
    if rest == [] {
      assert Unanswered(rest, ids) == ids;
    } else {
      var before, e := rest[..|rest| - 1], rest[|rest| - 1];
      LastFollows(rest, ids, key.client);
      OtherRoutesAreLeftBehind(g, ids, key, before);
      StaysOpen(g, ids, key, before);
      var h, left := Run(g0, before), Unanswered(before, ids);
      if e.End? && e.id in ids {
        OwnEnd(h, left, key, before, e.id);
        assert left == {e.id} ==> ids - {e.id} == ids * Step(h, e).routes.Keys;
      } else {
        ForeignKeepsRoutes(h, e, ids);
        assert ids * h.routes.Keys == ids * Step(h, e).routes.Keys;
      }
    }
  }

  lemma ForeignKeepsRoutes(g: Gate, e: Event, ids: set<RequestId>)
    requires e.Ask? ==> e.ids !! ids
    requires e.AskOne? || e.End? ==> e.id !in ids
    ensures forall id | id in ids :: id in Step(g, e).routes <==> id in g.routes
  {
  }

  // ----- When a multi-request is closed exactly once -----

  predicate AllAnswered(rest: seq<Event>, ids: set<RequestId>) {
    forall id | id in ids :: End(id) in rest
  }

  /** The request gets no MultiEnd while an id is unanswered, and one from then on. */
  predicate ClosedOnce(g: Gate, ids: set<RequestId>, key: ClientKey, rest: seq<Event>) {
    MultiEnds(Run(Step(g, Ask(ids, key)), rest).sent, key.client) - MultiEnds(g.sent, key.client)
    == if AllAnswered(rest, ids) then 1 else 0
  }

  /** Every id of an open request is routed to a live session under the client id of the request. */
  predicate Routed(g: Gate) {
    forall c, id | c in g.multi && id in g.multi[c] ::
      id in g.routes && g.routes[id].client == c && g.routes[id].session != 0
  }

  /** A multi-request of a live session comes with ids upstream has not given out before. */
  predicate FreshAsk(g: Gate, e: Event) {
    e.Ask? ==> e.key.session != 0 && e.ids !! g.routes.Keys
  }

  lemma StepKeepsRouted(g: Gate, e: Event)
    requires Routed(g) && FreshAsk(g, e)
    ensures Routed(Step(g, e))
  {
  }

  lemma {:induction false} OpenRequestsAreRouted(run: seq<Event>)
    requires forall k | 0 <= k < |run| :: FreshAsk(Run(NOTHING, run[..k]), run[k])
    ensures Routed(Run(NOTHING, run))
  {
    if run != [] {
      var n := |run| - 1;
      forall k | 0 <= k < n ensures FreshAsk(Run(NOTHING, run[..n][..k]), run[..n][k]) {
        assert FreshAsk(Run(NOTHING, run[..k]), run[k]) && run[..n][..k] == run[..k];
      }
      OpenRequestsAreRouted(run[..n]);
      assert FreshAsk(Run(NOTHING, run[..n]), run[n]);
      StepKeepsRouted(Run(NOTHING, run[..n]), run[n]);
    }
  }

  lemma {:induction false} RunAfter(g: Gate, e: Event, rest: seq<Event>)
    ensures Run(g, [e] + rest) == Run(Step(g, e), rest)
  {
    if rest == [] {
      assert ([e] + rest)[..0] == [];
    } else {
      RunAfter(g, e, rest[..|rest| - 1]);
      assert ([e] + rest)[..|[e] + rest| - 1] == [e] + rest[..|rest| - 1];
    }
  }

  lemma MultiEndsOfOne(sent: seq<Batch>, b: Batch, client: nat)
    ensures MultiEnds(sent + [b], client) == MultiEnds(sent, client) + if MultiEnd(client) in b.messages then 1 else 0
  {
    assert (sent + [b])[..|sent|] == sent;
  }

  /** Answering an id of an open request closes it if no other id is left. */
  lemma AnswerOpen(g: Gate, client: nat, id: RequestId)
    requires client in g.multi && id in g.routes && g.routes[id].client == client && g.routes[id].session != 0
    ensures var left := g.multi[client] - {id};
      && MultiEnds(Step(g, End(id)).sent, client) == MultiEnds(g.sent, client) + (if left == {} then 1 else 0)
      && Step(g, End(id)).multi == (if left == {} then g.multi - {client} else g.multi[client := left])
      && Step(g, End(id)).routes == if left == {} then g.routes - {id} else g.routes
  {
    var result: seq<Message> := [Details(client, Collected(g, id))];
    MultiEndsOfOne(g.sent, Batch(g.routes[id].session, result), client);
    var both: seq<Message> := [Details(client, Collected(g, id)), MultiEnd(client)];
    assert both[1] == MultiEnd(client);
    MultiEndsOfOne(g.sent, Batch(g.routes[id].session, both), client);
  }

  predicate EndsOnly(rest: seq<Event>, ids: set<RequestId>) {
    forall k | 0 <= k < |rest| :: rest[k].End? && rest[k].id in ids
  }

  /** Answering all ids of an open request closes it once. */
  lemma {:induction false} EndsOfAll(g: Gate, client: nat) returns (rest: seq<Event>)
    requires client in g.multi && g.multi[client] != {} && Routed(g)
    ensures EndsOnly(rest, g.multi[client])
    ensures MultiEnds(Run(g, rest).sent, client) == MultiEnds(g.sent, client) + 1
    decreases |g.multi[client]|
  {
    var id :| id in g.multi[client];
    AnswerOpen(g, client, id);
    StepKeepsRouted(g, End(id));
    if g.multi[client] - {id} == {} {
      rest := [];
    } else {
      rest := EndsOfAll(Step(g, End(id)), client);
    }
    RunAfter(g, End(id), rest);
    rest := [End(id)] + rest;
  }

  /** Sets are finite, so there is an id above all used ones. */
  lemma {:induction false} FreshId(used: set<RequestId>) returns (id: RequestId)
    ensures forall i | i in used :: i < id
    decreases |used|
  {
    id := 0;
    if used != {} {
      var some :| some in used;
      var above := FreshId(used - {some});
      assert used == (used - {some}) + {some};
      id := if some < above then above else some + 1;
    }
  }

  /** A request that is empty, or that comes under a client id still open, is in some schedule not
      closed as it should be: at once for an empty one, and else by an answer that is not its own. */
  lemma WrongScheduleExists(g: Gate, ids: set<RequestId>, key: ClientKey) returns (rest: seq<Event>)
    requires key.session != 0 && ids !! g.routes.Keys && Routed(g)
    requires ids == {} || key.client in g.multi
    ensures Follows(rest, ids, key.client) && !ClosedOnce(g, ids, key, rest)
  {
    var g0 := Step(g, Ask(ids, key));
    if ids == {} {
      rest := [];
    } else if g.multi[key.client] == {} {
      var id := FreshId(g0.routes.Keys);
      rest := [AskOne(id, key), End(id)];
      var g1 := Step(g0, AskOne(id, key));
      assert rest[..1] == [AskOne(id, key)] && rest[..0] == [];
      assert Run(g0, rest) == Step(g1, End(id)) by {
        assert Run(g0, rest[..1]) == g1;
      }
      assert g1.multi[key.client] - {id} == {};
      AnswerOpen(g1, key.client, id);
      NotAllAnswered(rest, ids, {id});
    } else {
      assert Routed(g0);
      rest := EndsOfAll(g0, key.client);
      assert ids !! g.multi[key.client];
      NotAllAnswered(rest, ids, g.multi[key.client]);
    }
  }

  lemma NotAllAnswered(rest: seq<Event>, ids: set<RequestId>, others: set<RequestId>)
    requires ids != {} && ids !! others && forall k | 0 <= k < |rest| && rest[k].End? :: rest[k].id in others
    ensures !AllAnswered(rest, ids)
  {
    var id :| id in ids;
    assert End(id) !in rest;
  }

  /** In every schedule a multi-request is closed exactly once, when its last id is answered, if and
      only if it is not empty and no request is open under its client id. */
  lemma ClosedOnceIffNotEmptyAndNotOpen(g: Gate, ids: set<RequestId>, key: ClientKey)
    requires key.session != 0 && ids !! g.routes.Keys && ids !! g.slots.Keys && Routed(g)
    ensures (forall rest | Follows(rest, ids, key.client) :: ClosedOnce(g, ids, key, rest))
            <==> ids != {} && key.client !in g.multi
  {
    if ids != {} && key.client !in g.multi {
      forall rest | Follows(rest, ids, key.client) ensures ClosedOnce(g, ids, key, rest) {
        MultiEndExactlyOnce(g, ids, key, rest);
      }
    } else {
      var rest := WrongScheduleExists(g, ids, key);
    }
  }

  /** A second request under the client id of one that is open and not empty is never closed, even when
      all ids of both are answered: emplace keeps the first entry. */
  lemma SecondRequestUnderAnOpenClientIdIsNeverClosed(
    g: Gate, ids: set<RequestId>, key: ClientKey, more: set<RequestId>, key': ClientKey, rest: seq<Event>)
    requires CanAsk(g, ids, key) && key'.client == key.client
    requires Follows([Ask(more, key')] + rest, ids, key.client)
    requires AllAnswered(rest, ids + more)
    ensures MultiEnds(Run(Step(g, Ask(ids, key)), [Ask(more, key')] + rest).sent, key.client)
            == MultiEnds(g.sent, key.client) + 1
  {
    var all := [Ask(more, key')] + rest;
    MultiEndExactlyOnce(g, ids, key, all);
    forall id | id in ids ensures End(id) in all {
      var k :| 0 <= k < |rest| && rest[k] == End(id);
      assert all[k + 1] == End(id);
    }
  }

  /** The event answers a live request of the client. */
  predicate AnswersClient(g: Gate, e: Event, client: nat) {
    e.End? && e.id in g.routes && g.routes[e.id].client == client && g.routes[e.id].session != 0
  }

  predicate OpenAndEmpty(g: Gate, client: nat) {
    client in g.multi && g.multi[client] == {}
  }

  lemma StepKeepsEmptyEntry(g: Gate, e: Event, client: nat)
    requires OpenAndEmpty(g, client) && !AnswersClient(g, e, client)
    ensures OpenAndEmpty(Step(g, e), client) && MultiEnds(Step(g, e).sent, client) == MultiEnds(g.sent, client)
  {
    if e.End? && e.id in g.routes && g.routes[e.id].session != 0 {
      var other := g.routes[e.id];
      var details := Details(other.client, Collected(g, e.id));
      MultiEndsOfOne(g.sent, Batch(other.session, [details]), client);
      MultiEndsOfOne(g.sent, Batch(other.session, [details, MultiEnd(other.client)]), client);
    }
  }

  /** No event of the run answers the client. */
  predicate Unanswering(g: Gate, rest: seq<Event>, client: nat) {
    forall k | 0 <= k < |rest| :: !AnswersClient(Run(g, rest[..k]), rest[k], client)
  }

  lemma {:induction false} EmptyEntryStays(g: Gate, client: nat, rest: seq<Event>)
    requires OpenAndEmpty(g, client) && Unanswering(g, rest, client)
    ensures var h := Run(g, rest);
      OpenAndEmpty(h, client) && MultiEnds(h.sent, client) == MultiEnds(g.sent, client)
  {
    if rest != [] {
      var n := |rest| - 1;
      assert Unanswering(g, rest[..n], client) by {
        forall k | 0 <= k < n ensures !AnswersClient(Run(g, rest[..n][..k]), rest[..n][k], client) {
          assert rest[..n][..k] == rest[..k];
        }
      }
      EmptyEntryStays(g, client, rest[..n]);
      StepKeepsEmptyEntry(Run(g, rest[..n]), rest[n], client);
    }
  }

  /** The entry of an empty multi-request stays until any request of its client id is answered, and
      that answer carries the MultiEnd. */
  lemma EmptyRequestClosesTheNextAnswer(g: Gate, key: ClientKey, rest: seq<Event>, id: RequestId)
    requires key.client !in g.multi
    requires Unanswering(Step(g, Ask({}, key)), rest, key.client)
    requires AnswersClient(Run(Step(g, Ask({}, key)), rest), End(id), key.client)
    ensures var h := Run(Step(g, Ask({}, key)), rest);
      && MultiEnds(h.sent, key.client) == MultiEnds(g.sent, key.client)
      && Step(h, End(id)).sent == h.sent + [ClosingBatch(h, key.client, id)]
      && key.client !in Step(h, End(id)).multi
  {
    var g0 := Step(g, Ask({}, key));
    EmptyEntryStays(g0, key.client, rest);
    AnswerEmpty(Run(g0, rest), key.client, id);
  }

  function ClosingBatch(h: Gate, client: nat, id: RequestId): Batch
    requires id in h.routes
  {
    Batch(h.routes[id].session, [Details(client, Collected(h, id)), MultiEnd(client)])
  }

  lemma AnswerEmpty(h: Gate, client: nat, id: RequestId)
    requires OpenAndEmpty(h, client) && AnswersClient(h, End(id), client)
    ensures Step(h, End(id)).sent == h.sent + [ClosingBatch(h, client, id)] && client !in Step(h, End(id)).multi
  {
    assert h.multi[client] - {id} == {};
  }

  // ----- Adding the routes late -----

  function WithRoutes(g: Gate, ids: set<RequestId>, key: ClientKey): Gate {
    g.(routes := EmplacedAll(g.routes, ids, key))
  }

  /** The event registers none of the ids and answers none of them. */
  predicate LeavesAlone(e: Event, ids: set<RequestId>) {
    match e
    case Ask(more, _) => more !! ids
    case AskOne(id, _) => id !in ids
    case Detail(_, _) => true
    case End(id) => id !in ids
  }

  /** The routes are added after the mutex is released; as long as nothing registers or answers the
      ids in between, that is the same as adding them at once. */
  lemma {:induction false} RoutesMayBeAddedLater(g: Gate, ids: set<RequestId>, key: ClientKey, rest: seq<Event>)
    requires forall k | 0 <= k < |rest| :: LeavesAlone(rest[k], ids)
    ensures Run(WithRoutes(g, ids, key), rest) == WithRoutes(Run(g, rest), ids, key)
  {
    if rest != [] {
      RoutesMayBeAddedLater(g, ids, key, rest[..|rest| - 1]);
      RoutesCommute(Run(g, rest[..|rest| - 1]), ids, key, rest[|rest| - 1]);
    }
  }

  lemma EmplacedCommutes(t: Table, ids: set<RequestId>, key: ClientKey, id: RequestId, other: ClientKey)
    requires id !in ids
    ensures EmplacedAll(t, ids, key) - {id} == EmplacedAll(t - {id}, ids, key)
    ensures RequestRoutes.Emplaced(EmplacedAll(t, ids, key), id, other)
            == EmplacedAll(RequestRoutes.Emplaced(t, id, other), ids, key)
  {
  }

  lemma RoutesCommute(g: Gate, ids: set<RequestId>, key: ClientKey, e: Event)
    requires LeavesAlone(e, ids)
    ensures Step(WithRoutes(g, ids, key), e) == WithRoutes(Step(g, e), ids, key)
  {
    match e {
      case Ask(more, other) =>
        assert EmplacedAll(EmplacedAll(g.routes, ids, key), more, other)
            == EmplacedAll(EmplacedAll(g.routes, more, other), ids, key);
      case AskOne(id, other) => EmplacedCommutes(g.routes, ids, key, id, other);
      case Detail(_, _) =>
      case End(id) =>
        EmplacedCommutes(g.routes, ids, key, id, key);
        assert id in WithRoutes(g, ids, key).routes <==> id in g.routes;
    }
  }

  // ----- Results handed on and asked for again -----

  /** The event makes the source follow the empty pointer of a result already handed on. */
  predicate FollowsEmptyPointer(g: Gate, e: Event) {
    || (e.Detail? && e.id in g.slots && g.slots[e.id].HandedOn?)
    || (e.End? && e.id in g.slots && g.slots[e.id].HandedOn? && e.id in g.routes && g.routes[e.id].session != 0)
  }

  /** Nothing comes for an id once it was ended. */
  predicate EndsOnce(run: seq<Event>) {
    forall k | 0 <= k < |run| && (run[k].Detail? || run[k].End?) :: End(run[k].id) !in run[..k]
  }

  /** No event of the run made the source follow such a pointer. */
  predicate Safe(run: seq<Event>) {
    forall k | 0 <= k < |run| :: !FollowsEmptyPointer(Run(NOTHING, run[..k]), run[k])
  }

  /** The id had a detail, and then an end callback. */
  predicate DetailThenEnd(run: seq<Event>, id: RequestId) {
    exists j :: 0 <= j < |run| && run[j] == End(id) && HasDetail(run[..j], id)
  }

  predicate HasDetail(run: seq<Event>, id: RequestId) {
    exists i :: 0 <= i < |run| && run[i].Detail? && run[i].id == id
  }

  lemma HasDetailSnoc(run: seq<Event>, id: RequestId)
    requires run != []
    ensures var before, e := run[..|run| - 1], run[|run| - 1];
      HasDetail(run, id) <==> HasDetail(before, id) || (e.Detail? && e.id == id)
  {
    var before := run[..|run| - 1];
    if i :| 0 <= i < |before| && before[i].Detail? && before[i].id == id {
      assert run[i].Detail? && run[i].id == id;
    }
    if i :| 0 <= i < |run| && run[i].Detail? && run[i].id == id && i < |before| {
      assert before[i].Detail? && before[i].id == id;
    }
  }

  lemma DetailThenEndSnoc(run: seq<Event>, id: RequestId)
    requires run != []
    ensures var before, e := run[..|run| - 1], run[|run| - 1];
      DetailThenEnd(run, id) <==> DetailThenEnd(before, id) || (e == End(id) && HasDetail(before, id))
  {
    var n := |run| - 1;
    var before := run[..n];
    if j :| 0 <= j < n && before[j] == End(id) && HasDetail(before[..j], id) {
      assert run[j] == End(id) && run[..j] == before[..j];
    }
    if j :| 0 <= j < |run| && run[j] == End(id) && HasDetail(run[..j], id) && j < n {
      assert before[j] == End(id) && before[..j] == run[..j];
    }
  }

  predicate IsHandedOn(g: Gate, id: RequestId) {
    id in g.slots && g.slots[id].HandedOn?
  }

  lemma SlotAfter(g: Gate, e: Event, id: RequestId)
    ensures id in Step(g, e).slots <==> id in g.slots || (e.Detail? && e.id == id)
    ensures IsHandedOn(Step(g, e), id) <==>
      (IsHandedOn(g, id) && !(e.Detail? && e.id == id)) || (e == End(id) && id in g.slots)
  {
  }

  lemma SafeSnoc(run: seq<Event>)
    requires run != []
    ensures Safe(run) <==>
      Safe(run[..|run| - 1]) && !FollowsEmptyPointer(Run(NOTHING, run[..|run| - 1]), run[|run| - 1])
  {
    var n := |run| - 1;
    forall k | 0 <= k < n ensures run[..n][..k] == run[..k] && run[..n][k] == run[k] {
    }
    if Safe(run) {
      forall k | 0 <= k < n ensures !FollowsEmptyPointer(Run(NOTHING, run[..n][..k]), run[..n][k]) {
        assert !FollowsEmptyPointer(Run(NOTHING, run[..k]), run[k]);
      }
    }
    if Safe(run[..n]) {
      forall k | 0 <= k < n ensures !FollowsEmptyPointer(Run(NOTHING, run[..k]), run[k]) {
        assert !FollowsEmptyPointer(Run(NOTHING, run[..n][..k]), run[..n][k]);
      }
    }
  }

  /** While no empty pointer was followed, a result is kept for an id exactly if it had a detail, and it
      has been handed on exactly if an end callback came after that. */
  lemma {:induction false} SlotIsHistory(run: seq<Event>, id: RequestId)
    requires Safe(run)
    ensures id in Run(NOTHING, run).slots <==> HasDetail(run, id)
    ensures IsHandedOn(Run(NOTHING, run), id) <==> DetailThenEnd(run, id)
  {
    if run != [] {
      SafeSnoc(run);
      SlotIsHistory(run[..|run| - 1], id);
      HasDetailSnoc(run, id);
      DetailThenEndSnoc(run, id);
      SlotAfter(Run(NOTHING, run[..|run| - 1]), run[|run| - 1], id);
    }
  }

  /** After a run that followed none, the next event follows an empty pointer if and only if its id had a
      detail and then an end callback, and, if it is an end callback, its route is still live. */
  lemma FollowsEmptyPointerIff(run: seq<Event>, e: Event)
    requires Safe(run)
    ensures FollowsEmptyPointer(Run(NOTHING, run), e) <==>
      && (e.Detail? || e.End?) && DetailThenEnd(run, e.id)
      && (e.End? ==> e.id in Run(NOTHING, run).routes && Run(NOTHING, run).routes[e.id].session != 0)
  {
    if e.Detail? || e.End? {
      SlotIsHistory(run, e.id);
    }
  }

  lemma EndsOnceSnoc(run: seq<Event>)
    requires run != [] && EndsOnce(run)
    ensures var before, e := run[..|run| - 1], run[|run| - 1];
      EndsOnce(before) && (e.Detail? || e.End? ==> !DetailThenEnd(before, e.id))
  {
    var n := |run| - 1;
    forall k | 0 <= k < n && (run[..n][k].Detail? || run[..n][k].End?)
      ensures End(run[..n][k].id) !in run[..n][..k]
    {
      assert run[..n][..k] == run[..k];
    }
  }

  /** So none is ever followed while nothing comes for an id once it was ended. */
  lemma {:induction false} EndingOnceIsSafe(run: seq<Event>)
    requires EndsOnce(run)
    ensures Safe(run)
  {
    if run != [] {
      EndsOnceSnoc(run);
      EndingOnceIsSafe(run[..|run| - 1]);
      FollowsEmptyPointerIff(run[..|run| - 1], run[|run| - 1]);
      SafeSnoc(run);
    }
  }

  /** One is when an id of a multi-request is ended twice: its route stays after its answer. */
  lemma EndingTwiceFollowsTheEmptyPointer(key: ClientKey, d: Detail)
    requires key.session != 0
    ensures FollowsEmptyPointer(Run(NOTHING, [Ask({1, 2}, key), Event.Detail(1, d), End(1)]), End(1))
  {
    var run := [Ask({1, 2}, key), Event.Detail(1, d), End(1)];
    assert run[..2] == [Ask({1, 2}, key), Event.Detail(1, d)] && run[..2][..1] == [Ask({1, 2}, key)];
    assert run[..2][..1][..0] == [];
    var g := Step(NOTHING, Ask({1, 2}, key));
    assert Run(NOTHING, run[..2][..1]) == g;
    assert 2 in g.multi[key.client] - {1};
  }

  // ----- The operations -----

  /** The wrapper's collected results and the gateway's tables they are handed to. */
  class ContractGateway {
    var requestSession: Table
    var multiRequests: map<nat, set<RequestId>>
    var contractDetails: map<RequestId, Slot>
    var sent: seq<Batch>

    ghost function Value(): Gate
      reads this
    {
      Gate(requestSession, multiRequests, contractDetails, sent)
    }

    constructor ()
      ensures Value() == NOTHING
    {
      requestSession, multiRequests, contractDetails, sent := map[], map[], map[], [];
    }

    method AddMultiRequest(ids: set<RequestId>, key: ClientKey)
      modifies this
      ensures Value() == Step(old(Value()), Ask(ids, key))
      ensures multiRequests ==
        if key.client in old(multiRequests) then old(multiRequests) else old(multiRequests)[key.client := ids]
      ensures requestSession.Keys == old(requestSession).Keys + ids
      ensures forall id | id in requestSession ::
        requestSession[id] == if id in old(requestSession) then old(requestSession)[id] else key
    {
      if key.client !in multiRequests {
        multiRequests := multiRequests[key.client := ids];
      }
      var rest := ids;
      while rest != {}
        invariant rest <= ids
        invariant requestSession == EmplacedAll(old(requestSession), ids - rest, key)
        invariant multiRequests == Step(old(Value()), Ask(ids, key)).multi
        invariant contractDetails == old(contractDetails) && sent == old(sent)
      {
        var id :| id in rest;
        if id !in requestSession {
          requestSession := requestSession[id := key];
        }
        rest := rest - {id};
      }
      assert ids - rest == ids;
    }

    /** The wrapper's contractDetails callback. */
    method OnDetails(reqId: RequestId, detail: Detail)
      modifies this
      ensures Value() == Step(old(Value()), Detail(reqId, detail))
      ensures reqId in contractDetails && contractDetails[reqId] == Collecting(
        if reqId in old(contractDetails) && old(contractDetails)[reqId].Collecting?
        then old(contractDetails)[reqId].details + [detail] else [detail])
    {
      var soFar := [];
      if reqId in contractDetails && contractDetails[reqId].Collecting? {
        soFar := contractDetails[reqId].details;
      }
      contractDetails := contractDetails[reqId := Collecting(soFar + [detail])];
    }

    /** The wrapper's contractDetailsEnd callback. */
    method OnDetailsEnd(reqId: RequestId)
      modifies this
      ensures Value() == Step(old(Value()), End(reqId))
      ensures contractDetails ==
        if reqId in old(contractDetails) then old(contractDetails)[reqId := HandedOn] else old(contractDetails)
    {
      var result := [];
      if reqId in contractDetails {
        if contractDetails[reqId].Collecting? {
          result := contractDetails[reqId].details;
        }
        contractDetails := contractDetails[reqId := HandedOn];
      }
      SendDetails(result, reqId);
    }

    method SendDetails(details: seq<Detail>, reqId: RequestId)
      modifies this`requestSession, this`multiRequests, this`sent
      ensures reqId !in old(requestSession) || old(requestSession)[reqId].session == 0 ==> Value() == old(Value())
      ensures reqId in old(requestSession) && old(requestSession)[reqId].session != 0 ==>
        var key := old(requestSession)[reqId];
        var open := key.client in old(multiRequests);
        var left := if open then old(multiRequests)[key.client] - {reqId} else {};
        var last := open && left == {};
        && multiRequests == (if last then old(multiRequests) - {key.client}
                             else if open then old(multiRequests)[key.client := left]
                             else old(multiRequests))
        && requestSession == (if last || !open then old(requestSession) - {reqId} else old(requestSession))
        && sent == old(sent) + [Batch(key.session,
             if last then [Details(key.client, details), MultiEnd(key.client)] else [Details(key.client, details)])]
    {
      var key := if reqId in requestSession then requestSession[reqId] else RequestRoutes.ClientKey.ClientKey(0, 0);
      if key.session == 0 {
        return;
      }
      var multi := key.client in multiRequests;
      var complete := false;
      if multi {
        var reqIds: set<RequestId> := multiRequests[key.client] - {reqId};
        multiRequests := multiRequests[key.client := reqIds];
        if reqIds == {} {
          multiRequests := multiRequests - {key.client};
          complete := true;
        }
      }
      if complete {
        sent := sent + [Batch(key.session, [Details(key.client, details), MultiEnd(key.client)])];
      } else {
        sent := sent + [Batch(key.session, [Details(key.client, details)])];
      }
      if complete || !multi {
        requestSession := requestSession - {reqId};
      }
    }
  }
}
