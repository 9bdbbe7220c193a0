/**
 The two-stage request pipeline: WebRequestWorker takes transmissions off its queue, consumes each
 from its end, and hands a message either to a local handler or to the queue of TwsSendWorker.

 The two workers, and the sockets that feed the first, interleave.
 */
module RequestPipeline {
  import opened Wrappers

  datatype RequestType =
    | RequsetPrevOptionValues
    | RequestFundamentalData
    | Portfolios
    | WatchLists
    | Filings
    | Investors
    | TwitterBlock
    | OtherType(code: nat)

  /** The content of a message; `Upstream` is every case only the TWS worker knows. */
  datatype Value =
    | StringRequest(kind: RequestType, name: string, id: nat)
    | Options(content: int)
    | FlexExecutions(content: int)
    | EditWatchList(content: int)
    | Blockly(content: int)
    | StdDev(content: int)
    | Reddit(content: int)
    | GenericRequests(kind: RequestType, ids: seq<int>, id: nat)
    | GenericRequest(kind: RequestType, item: nat, id: nat)
    | Upstream(content: int)

  type Message = Option<Value>          // None: no case is set
  type Item = (nat, Value)              // a value with the session it came from

  datatype Data = Malformed(session: nat) | Transmission(session: nat, messages: seq<Message>)

  /** Is the message answered by the web worker itself? */
  predicate IsLocal(v: Value) {
    match v
    case GenericRequests(kind, _, _) =>
      kind in {RequsetPrevOptionValues, RequestFundamentalData, Portfolios, WatchLists, Filings, Investors}
    case GenericRequest(kind, _, _) => kind == TwitterBlock
    case Upstream(_) => false
    case _ => true
  }

  /** What is left for the TWS worker: everything it alone knows, and of the generic requests those of
      any other kind than the six and the one above. */
  lemma KindsForTheTwsWorker(v: Value)
    ensures !IsLocal(v) <==>
      || v.Upstream?
      || (v.GenericRequests? && (v.kind.OtherType? || v.kind == TwitterBlock))
      || (v.GenericRequest? && v.kind != TwitterBlock)
  {
  }

  // ----- What should happen to a transmission -----

  function Reversed<T>(xs: seq<T>): seq<T> {
    if xs == [] then [] else Reversed(xs[1..]) + [xs[0]]
  }

  lemma {:induction false} ReversedAt<T>(xs: seq<T>, k: nat)
    requires k < |xs|
    ensures |Reversed(xs)| == |xs| && Reversed(xs)[k] == xs[|xs| - 1 - k]
  {
    if |xs| > 1 {
      ReversedAt(xs[1..], if k < |xs| - 1 then k else 0);
    }
  }

  /** What one message adds to the local handlers, or to the TWS worker's queue. */
  function Only(session: nat, m: Message, local: bool): seq<Item> {
    if m.Some? && IsLocal(m.value) == local then [(session, m.value)] else []
  }

  /** The messages that are set and local, or set and not local, in order. */
  function Picked(session: nat, messages: seq<Message>, local: bool): seq<Item> {
    if messages == [] then []
    else
      Picked(session, messages[..|messages| - 1], local) + Only(session, messages[|messages| - 1], local)
  }

  predicate Ascends(xs: seq<nat>) {
    forall i, j | 0 <= i < j < |xs| :: xs[i] < xs[j]
  }

  /** Exactly the messages that are set and of that sort are picked, each once, in order and unchanged. */
  lemma {:induction false} PicksInOrder(session: nat, messages: seq<Message>, local: bool) returns (from: seq<nat>)
    ensures |from| == |Picked(session, messages, local)| && Ascends(from)
    ensures forall i | 0 <= i < |from| ::
      from[i] < |messages| && messages[from[i]].Some?
      && Picked(session, messages, local)[i] == (session, messages[from[i]].value)
    ensures forall k: nat | k < |messages| ::
      k in from <==> messages[k].Some? && IsLocal(messages[k].value) == local
  {
    from := [];
    if messages != [] {
      var n := |messages| - 1;
      var before := PicksInOrder(session, messages[..n], local);
      assert forall k: nat | k < n :: messages[..n][k] == messages[k];
      from := before;
      if messages[n].Some? && IsLocal(messages[n].value) == local {
        from := before + [n];
        assert from[|before|] == n;
      }
    }
  }

  function PickedAll(ds: seq<Data>, local: bool): seq<Item> {
    if ds == [] then []
    else
      var d := ds[|ds| - 1];
      PickedAll(ds[..|ds| - 1], local) +
      if d.Transmission? then Picked(d.session, Reversed(d.messages), local) else []
  }

  function Items(session: nat, messages: seq<Message>): multiset<Item> {
    if messages == [] then multiset{}
    else
      Items(session, messages[1..]) +
      if messages[0].Some? then multiset{(session, messages[0].value)} else multiset{}
  }

  function AllItems(ds: seq<Data>): multiset<Item> {
    if ds == [] then multiset{}
    else
      var d := ds[|ds| - 1];
      AllItems(ds[..|ds| - 1]) + if d.Transmission? then Items(d.session, d.messages) else multiset{}
  }

  // ----- The two workers as one transition system -----

  /** `past` holds the transmissions done with, `at` how many messages of `current` are left. */
  datatype Pipe = Pipe(
    past: seq<Data>,
    current: Option<Data>,
    at: nat,
    incoming: seq<Data>,
    errors: seq<nat>,
    local: seq<Item>,
    queue: seq<Item>,
    handled: seq<Item>,
    stopped: bool)

  const EMPTY := Pipe([], None, 0, [], [], [], [], [], false)

  datatype Event =
    | Arrive(data: Data)
    | Take
    | HandleLast
    | Drain
    | StopTws

  predicate Busy(p: Pipe) {
    p.current.Some? && p.current.value.Transmission? && p.at <= |p.current.value.messages|
  }

  function Step(p: Pipe, e: Event): Pipe {
    match e
    case Arrive(d) => p.(incoming := p.incoming + [d])
    case Take =>
      if p.current.Some? || p.incoming == [] then p
      else
        var d := p.incoming[0];
        if d.Malformed?
        then p.(past := p.past + [d], incoming := p.incoming[1..], errors := p.errors + [d.session])
        else p.(current := Some(d), at := |d.messages|, incoming := p.incoming[1..])
    case HandleLast =>
      if !Busy(p) then p
      else if p.at == 0 then p.(past := p.past + [p.current.value], current := None)
      else
        var d, m := p.current.value, p.current.value.messages[p.at - 1];
        p.(at := p.at - 1,
           local := p.local + Only(d.session, m, true),
           queue := p.queue + Only(d.session, m, false))
    case Drain =>
      if p.stopped || p.queue == [] then p
      else p.(handled := p.handled + [p.queue[0]], queue := p.queue[1..])
    case StopTws =>
      if p.queue == [] then p.(stopped := true) else p
  }

  function Run(p: Pipe, run: seq<Event>): Pipe {
    if run == [] then p else Step(Run(p, run[..|run| - 1]), run[|run| - 1])
  }

  function Arrivals(run: seq<Event>): seq<Data> {
    if run == [] then []
    else
      var e := run[|run| - 1];
      Arrivals(run[..|run| - 1]) + if e.Arrive? then [e.data] else []
  }

  /** The part of the current transmission already consumed. */
  function Consumed(p: Pipe, local: bool): seq<Item> {
    if Busy(p) then Picked(p.current.value.session, Reversed(p.current.value.messages[p.at..]), local) else []
  }

  /** The sessions whose transmission could not be read, in order. */
  function MalformedSessions(ds: seq<Data>): seq<nat> {
    if ds == [] then [] else
      MalformedSessions(ds[..|ds| - 1]) + if ds[|ds| - 1].Malformed? then [ds[|ds| - 1].session] else []
  }

  ghost predicate InOrder(p: Pipe, arrivals: seq<Data>) {
    && (p.current.Some? ==> Busy(p))
    && arrivals == p.past + (if p.current.Some? then [p.current.value] else []) + p.incoming
    && p.handled + p.queue == PickedAll(p.past, false) + Consumed(p, false)
    && p.local == PickedAll(p.past, true) + Consumed(p, true)
    && p.errors == MalformedSessions(p.past)
  }

  lemma ConsumeOne(session: nat, messages: seq<Message>, at: nat, local: bool)
    requires 0 < at <= |messages|
    ensures Picked(session, Reversed(messages[at - 1..]), local) ==
      Picked(session, Reversed(messages[at..]), local) + Only(session, messages[at - 1], local)
  {
    var r := Reversed(messages[at..]);
    assert messages[at - 1..][1..] == messages[at..];
    assert (r + [messages[at - 1]])[..|r|] == r;
  }

  lemma FinishKeepsOrder(p: Pipe, arrivals: seq<Data>)
    requires InOrder(p, arrivals) && Busy(p) && p.at == 0
    ensures InOrder(Step(p, HandleLast), arrivals)
  {
    var d := p.current.value;
    assert d.messages[0..] == d.messages;
    assert (p.past + [d])[..|p.past|] == p.past;
    assert PickedAll(p.past + [d], false) == PickedAll(p.past, false) + Consumed(p, false);
    assert PickedAll(p.past + [d], true) == PickedAll(p.past, true) + Consumed(p, true);
  }

  lemma Grown(total: seq<Item>, base: seq<Item>, done: seq<Item>, more: seq<Item>)
    requires total == base + done
    ensures total + more == base + (done + more)
  {
  }

  lemma ConsumedGrows(p: Pipe, local: bool)
    requires Busy(p) && p.at > 0
    ensures Busy(Step(p, HandleLast))
    ensures Consumed(Step(p, HandleLast), local) ==
      Consumed(p, local) + Only(p.current.value.session, p.current.value.messages[p.at - 1], local)
  {
    ConsumeOne(p.current.value.session, p.current.value.messages, p.at, local);
  }

  lemma HandleOneKeepsOrder(p: Pipe, arrivals: seq<Data>)
    requires InOrder(p, arrivals) && Busy(p) && p.at > 0
    ensures InOrder(Step(p, HandleLast), arrivals)
  {
    ConsumedGrows(p, true);
    ConsumedGrows(p, false);
    var d, m := p.current.value, p.current.value.messages[p.at - 1];
    var p' := Step(p, HandleLast);
    Grown(p.local, PickedAll(p.past, true), Consumed(p, true), Only(d.session, m, true));
    Grown(p.handled + p.queue, PickedAll(p.past, false), Consumed(p, false), Only(d.session, m, false));
    assert p'.handled + p'.queue == p.handled + p.queue + Only(d.session, m, false);
  }

  lemma TakeKeepsOrder(p: Pipe, arrivals: seq<Data>)
    requires InOrder(p, arrivals)
    ensures InOrder(Step(p, Take), arrivals)
  {
    if p.current.None? && p.incoming != [] {
      var d := p.incoming[0];
      assert p.incoming == [d] + p.incoming[1..];
      if d.Malformed? {
        assert (p.past + [d])[..|p.past|] == p.past;
      } else {
        assert Reversed(d.messages[|d.messages|..]) == [];
      }
    }
  }

  lemma StepKeepsOrder(p: Pipe, e: Event, arrivals: seq<Data>)
    requires InOrder(p, arrivals)
    ensures InOrder(Step(p, e), arrivals + if e.Arrive? then [e.data] else [])
  {
    match e {
      case Arrive(d) =>
        assert Consumed(Step(p, e), true) == Consumed(p, true) && Consumed(Step(p, e), false) == Consumed(p, false);
      case Take => TakeKeepsOrder(p, arrivals);
      case HandleLast =>
        if Busy(p) {
          if p.at == 0 {
            FinishKeepsOrder(p, arrivals);
          } else {
            HandleOneKeepsOrder(p, arrivals);
          }
        }
      case Drain =>
        if !p.stopped && p.queue != [] {
          assert p.queue == [p.queue[0]] + p.queue[1..];
          var p' := Step(p, e);
          assert p'.handled + p'.queue == p.handled + p.queue;
          assert Consumed(p', true) == Consumed(p, true) && Consumed(p', false) == Consumed(p, false);
        }
      case StopTws =>
        assert Consumed(Step(p, e), true) == Consumed(p, true) && Consumed(Step(p, e), false) == Consumed(p, false);
    }
    assert arrivals + [] == arrivals;
  }

  /** At every moment of every interleaving, what the TWS worker handled followed by its queue is,
      transmission by transmission in order of arrival, the reverse of the messages no local
      handler takes; the local ones went to their handlers in the same order. */
  lemma {:induction false} PipelineKeepsOrder(run: seq<Event>)
    ensures InOrder(Run(EMPTY, run), Arrivals(run))
  {
    if run != [] {
      PipelineKeepsOrder(run[..|run| - 1]);
      StepKeepsOrder(Run(EMPTY, run[..|run| - 1]), run[|run| - 1], Arrivals(run[..|run| - 1]));
    }
  }

  // ----- Nothing is lost, doubled or changed -----

  lemma PickedSnoc(session: nat, messages: seq<Message>, m: Message, local: bool)
    ensures Picked(session, messages + [m], local) == Picked(session, messages, local) + Only(session, m, local)
  {
    assert (messages + [m])[..|messages|] == messages;
  }

  lemma {:induction false} EachItemIsPickedOnce(session: nat, messages: seq<Message>)
    ensures multiset(Picked(session, Reversed(messages), true)) + multiset(Picked(session, Reversed(messages), false))
            == Items(session, messages)
  {
    if messages != [] {
      EachItemIsPickedOnce(session, messages[1..]);
      PickedSnoc(session, Reversed(messages[1..]), messages[0], true);
      PickedSnoc(session, Reversed(messages[1..]), messages[0], false);
    }
  }

  lemma {:induction false} EachItemOfAllIsPickedOnce(ds: seq<Data>)
    ensures multiset(PickedAll(ds, true)) + multiset(PickedAll(ds, false)) == AllItems(ds)
  {
    if ds != [] {
      EachItemOfAllIsPickedOnce(ds[..|ds| - 1]);
      var d := ds[|ds| - 1];
      if d.Transmission? {
        EachItemIsPickedOnce(d.session, d.messages);
      }
    }
  }

  /** When the web worker has nothing left to do, every value that arrived is in exactly one of
      the three places, with its content and session unchanged. */
  lemma EveryValueIsInOnePlace(run: seq<Event>)
    requires Run(EMPTY, run).current.None? && Run(EMPTY, run).incoming == []
    ensures var p := Run(EMPTY, run);
      multiset(p.local) + multiset(p.queue) + multiset(p.handled) == AllItems(Arrivals(run))
  {
    PipelineKeepsOrder(run);
    var p := Run(EMPTY, run);
    assert p.past == Arrivals(run);
    EachItemOfAllIsPickedOnce(p.past);
    assert multiset(p.handled + p.queue) == multiset(p.handled) + multiset(p.queue);
    assert PickedAll(p.past, false) + [] == PickedAll(p.past, false);
    assert PickedAll(p.past, true) + [] == PickedAll(p.past, true);
  }

  lemma {:induction false} NothingIsHandledAfterTheStop(p: Pipe, run: seq<Event>)
    requires p.stopped
    ensures Run(p, run).stopped && Run(p, run).handled == p.handled
  {
    if run != [] {
      NothingIsHandledAfterTheStop(p, run[..|run| - 1]);
    }
  }

  lemma {:induction false} RunAppend(p: Pipe, a: seq<Event>, b: seq<Event>)
    ensures Run(p, a + b) == Run(Run(p, a), b)
  {
    if b == [] {
      assert a + b == a;
    } else {
      RunAppend(p, a, b[..|b| - 1]);
      assert (a + b)[..|a + b| - 1] == a + b[..|b| - 1];
    }
  }

  lemma {:induction false} ArrivalsAppend(a: seq<Event>, b: seq<Event>)
    ensures Arrivals(a + b) == Arrivals(a) + Arrivals(b)
  {
    if b == [] {
      assert a + b == a;
    } else {
      ArrivalsAppend(a, b[..|b| - 1]);
      assert (a + b)[..|a + b| - 1] == a + b[..|b| - 1];
    }
  }

  lemma Assoc<T>(a: seq<T>, b: seq<T>, c: seq<T>)
    ensures a + (b + c) == a + b + c
  {
  }

  lemma {:induction false} PickedAppend(session: nat, a: seq<Message>, b: seq<Message>, local: bool)
    ensures Picked(session, a + b, local) == Picked(session, a, local) + Picked(session, b, local)
  {
    if b == [] {
      assert a + b == a;
    } else {
      var before, m := b[..|b| - 1], b[|b| - 1];
      assert b == before + [m];
      Assoc(a, before, [m]);
      PickedAppend(session, a, before, local);
      PickedSnoc(session, a + before, m, local);
      PickedSnoc(session, before, m, local);
      Assoc(Picked(session, a, local), Picked(session, before, local), Only(session, m, local));
    }
  }

  function OfOne(d: Data, local: bool): seq<Item> {
    if d.Transmission? then Picked(d.session, Reversed(d.messages), local) else []
  }

  lemma PickedAllSnoc(ds: seq<Data>, d: Data, local: bool)
    ensures PickedAll(ds + [d], local) == PickedAll(ds, local) + OfOne(d, local)
  {
    assert (ds + [d])[..|ds|] == ds;
  }

  lemma {:induction false} PickedAllAppend(a: seq<Data>, b: seq<Data>, local: bool)
    ensures PickedAll(a + b, local) == PickedAll(a, local) + PickedAll(b, local)
  {
    if b == [] {
      assert a + b == a;
    } else {
      var before, d := b[..|b| - 1], b[|b| - 1];
      assert b == before + [d];
      Assoc(a, before, [d]);
      PickedAllAppend(a, before, local);
      PickedAllSnoc(a + before, d, local);
      PickedAllSnoc(before, d, local);
      Assoc(PickedAll(a, local), PickedAll(before, local), OfOne(d, local));
    }
  }

  lemma {:induction false} ReversedAppend<T>(a: seq<T>, b: seq<T>)
    ensures Reversed(a + b) == Reversed(b) + Reversed(a)
  {
    if a == [] {
      assert a + b == b;
    } else {
      ReversedAppend(a[1..], b);
      assert (a + b)[1..] == a[1..] + b;
    }
  }

  /** The part of the current transmission still to be consumed. */
  function Unconsumed(p: Pipe): seq<Item> {
    if Busy(p) then Picked(p.current.value.session, Reversed(p.current.value.messages[..p.at]), false) else []
  }

  /** What the TWS worker is still to be sent: the messages no local handler takes of what is left of
      the current transmission, of the transmissions waiting, and of those still to come. */
  function Rest(p: Pipe, more: seq<Data>): seq<Item> {
    Unconsumed(p) + PickedAll(p.incoming + more, false)
  }

  function Current(p: Pipe): seq<Data> {
    if p.current.Some? then [p.current.value] else []
  }

  lemma PickedOne(d: Data, local: bool)
    ensures PickedAll([d], local) == if d.Transmission? then Picked(d.session, Reversed(d.messages), local) else []
  {
    assert [d][..0] == [];
    assert PickedAll([], local) == [];
  }

  lemma PickedSplit(session: nat, messages: seq<Message>, at: nat)
    requires at <= |messages|
    ensures Picked(session, Reversed(messages), false)
            == Picked(session, Reversed(messages[at..]), false) + Picked(session, Reversed(messages[..at]), false)
  {
    assert messages == messages[..at] + messages[at..];
    ReversedAppend(messages[..at], messages[at..]);
    PickedAppend(session, Reversed(messages[at..]), Reversed(messages[..at]), false);
  }

  lemma CurrentIsConsumedAndRest(p: Pipe)
    requires p.current.Some? ==> Busy(p)
    ensures PickedAll(Current(p), false) == Consumed(p, false) + Unconsumed(p)
  {
    if p.current.Some? {
      PickedOne(p.current.value, false);
      PickedSplit(p.current.value.session, p.current.value.messages, p.at);
    }
  }

  lemma Regroup<T>(a: seq<T>, b: seq<T>, c: seq<T>, d: seq<T>)
    ensures a + (b + c) + d == a + b + (c + d)
  {
  }

  lemma ArrivalsSplit(p: Pipe, arrivals: seq<Data>, more: seq<Data>)
    requires InOrder(p, arrivals)
    ensures PickedAll(arrivals + more, false)
            == PickedAll(p.past, false) + PickedAll(Current(p), false) + PickedAll(p.incoming + more, false)
  {
    assert arrivals + more == (p.past + Current(p)) + (p.incoming + more);
    PickedAllAppend(p.past + Current(p), p.incoming + more, false);
    PickedAllAppend(p.past, Current(p), false);
  }

  /** At any moment, what is meant for the TWS worker is what it handled, its queue, and the rest. */
  lemma HandledQueuedAndRest(run: seq<Event>, more: seq<Data>)
    ensures var p := Run(EMPTY, run);
      PickedAll(Arrivals(run) + more, false) == p.handled + p.queue + Rest(p, more)
  {
    PipelineKeepsOrder(run);
    var p := Run(EMPTY, run);
    ArrivalsSplit(p, Arrivals(run), more);
    CurrentIsConsumedAndRest(p);
    Regroup(PickedAll(p.past, false), Consumed(p, false), Unconsumed(p), PickedAll(p.incoming + more, false));
  }

  /** Shutdown stops the TWS worker first. What it has handled then is all it ever handles, and that
      is all that was meant for it if and only if, at the stop, nothing of the transmissions under
      way, waiting or still to come was meant for it. */
  lemma ShutdownLosesWhatIsForwardedLate(a: seq<Event>, b: seq<Event>)
    requires Run(EMPTY, a).stopped && Run(EMPTY, a).queue == []
    ensures var all, rest := PickedAll(Arrivals(a + b), false), Rest(Run(EMPTY, a), Arrivals(b));
      && all == Run(EMPTY, a + b).handled + rest
      && (Run(EMPTY, a + b).handled == all <==> rest == [])
  {
    var h, rest := Run(EMPTY, a).handled, Rest(Run(EMPTY, a), Arrivals(b));
    RunAppend(EMPTY, a, b);
    ArrivalsAppend(a, b);
    NothingIsHandledAfterTheStop(Run(EMPTY, a), b);
    HandledQueuedAndRest(a, Arrivals(b));
    assert h + [] == h;
    PrefixIsAll(h, rest);
  }

  lemma PrefixIsAll<T>(a: seq<T>, b: seq<T>)
    ensures a == a + b <==> b == []
  {
    assert |a + b| == |a| + |b|;
  }

  lemma StopFirst()
    ensures Run(EMPTY, [StopTws]) == EMPTY.(stopped := true) && Arrivals([StopTws]) == []
  {
    assert [StopTws][..0] == [];
    assert Run(EMPTY, []) == EMPTY;
  }

  lemma ArriveOne(d: Data)
    ensures Arrivals([Arrive(d)]) == [d]
  {
    assert [Arrive(d)][..0] == [];
    assert Arrivals([]) == [];
  }

  lemma PickedUpstream(session: nat, content: int)
    ensures PickedAll([Transmission(session, [Some(Upstream(content))])], false) == [(session, Upstream(content))]
  {
    var m: Message := Some(Upstream(content));
    PickedOne(Transmission(session, [m]), false);
    assert [m][1..] == [];
    assert Reversed([m]) == [] + [m] == [m];
    assert [m][..0] == [];
    assert Picked(session, [], false) == [];
    assert Picked(session, [m], false) == Only(session, m, false);
  }

  /** One message that arrives after the stop is never handled, whatever happens next. */
  lemma AMessageAfterTheStopIsLost(session: nat, content: int, b: seq<Event>)
    ensures var run := [StopTws] + ([Arrive(Transmission(session, [Some(Upstream(content))]))] + b);
      && Run(EMPTY, run).handled == []
      && (session, Upstream(content)) in PickedAll(Arrivals(run), false)
  {
    var d := Transmission(session, [Some(Upstream(content))]);
    var late := [Arrive(d)] + b;
    StopFirst();
    RunAppend(EMPTY, [StopTws], late);
    NothingIsHandledAfterTheStop(Run(EMPTY, [StopTws]), late);
    ArrivalsAppend([StopTws], late);
    ArrivalsAppend([Arrive(d)], b);
    ArriveOne(d);
    assert Arrivals([StopTws] + late) == [d] + Arrivals(b);
    PickedAllAppend([d], Arrivals(b), false);
    PickedUpstream(session, content);
    assert (session, Upstream(content)) in [(session, Upstream(content))];
  }

  // ----- The operations -----

  /** A message being handled: its content can be taken out and put back. */
  class RequestUnion {
    var value: Message

    constructor (value: Message)
      ensures this.value == value
    {
      this.value := value;
    }

    method Release() returns (v: Message)
      modifies this
      ensures v == old(value) && value == None
    {
      v := value;
      value := None;
    }
  }

  class WebRequestWorker {
    var local: seq<Item>      // handed to local handlers
    var twsQueue: seq<Item>   // the queue of TwsSendWorker

    constructor ()
      ensures local == [] && twsQueue == []
    {
      local, twsQueue := [], [];
    }

    /** Answers the request if it is one of the local kinds, and then takes its content away. */
    method ReceiveRequests(session: nat, r: RequestUnion) returns (handled: bool)
      requires r.value.Some? && r.value.value.GenericRequests?
      modifies this, r
      ensures handled <==> IsLocal(old(r.value.value))
      ensures handled == (!old(r.value.value.kind).OtherType? && old(r.value.value.kind) != TwitterBlock)
      ensures twsQueue == old(twsQueue)
      ensures local == old(local) + if handled then [(session, old(r.value.value))] else []
      ensures r.value == if handled then None else old(r.value)
    {
      var t := r.value.value.kind;
      handled := true;
      if t == RequsetPrevOptionValues {
        local := local + [(session, r.value.value)];
      } else if t == RequestFundamentalData {
        local := local + [(session, r.value.value)];
      } else if t == Portfolios {
        local := local + [(session, r.value.value)];
      } else if t == WatchLists {
        local := local + [(session, r.value.value)];
      } else if t == Filings || t == Investors {
        local := local + [(session, r.value.value)];
      } else {
        handled := false;
      }
      if handled {
        r.value := None;
      }
    }

    method HandleTransmission(session: nat, messages: seq<Message>)
      modifies this
      ensures local == old(local) + Picked(session, Reversed(messages), true)
      ensures twsQueue == old(twsQueue) + Picked(session, Reversed(messages), false)
    {
      var rest := messages;
      assert Reversed(messages[|rest|..]) == [];
      while rest != []
        invariant rest <= messages
        invariant local == old(local) + Picked(session, Reversed(messages[|rest|..]), true)
        invariant twsQueue == old(twsQueue) + Picked(session, Reversed(messages[|rest|..]), false)
      {
        ghost var at := |rest|;
        ghost var done := Reversed(messages[at..]);
        Grown(local, old(local), Picked(session, done, true), Only(session, rest[at - 1], true));
        Grown(twsQueue, old(twsQueue), Picked(session, done, false), Only(session, rest[at - 1], false));
        ConsumeOne(session, messages, at, true);
        ConsumeOne(session, messages, at, false);
        var m := new RequestUnion(rest[|rest| - 1]);
        rest := rest[..|rest| - 1];
        HandleMessage(session, m);
      }
      assert messages[0..] == messages;
    }

    method HandleMessage(session: nat, m: RequestUnion)
      modifies this, m
      ensures local == old(local) + Only(session, old(m.value), true)
      ensures twsQueue == old(twsQueue) + Only(session, old(m.value), false)
    {
      if m.value.Some? && (m.value.value.StringRequest? || m.value.value.Options? || m.value.value.FlexExecutions? ||
                           m.value.value.EditWatchList? || m.value.value.Blockly? || m.value.value.StdDev? ||
                           m.value.value.Reddit?) {
        local := local + [(session, m.value.value)];
      } else {
        if m.value.Some? && m.value.value.GenericRequests? {
          var content := m.Release();
          var gr := new RequestUnion(content);
          var handled := ReceiveRequests(session, gr);
          if gr.value.Some? {
            content := gr.Release();
            m.value := content;
          }
        } else if m.value.Some? && m.value.value.GenericRequest? && m.value.value.kind == TwitterBlock {
          var content := m.Release();
          local := local + [(session, content.value)];
        }
        if m.value.Some? {
          twsQueue := twsQueue + [(session, m.value.value)];
        }
      }
    }
  }

  class TwsSendWorker {
    var queue: seq<Item>
    var handled: seq<Item>

    constructor ()
      ensures queue == [] && handled == []
    {
      queue, handled := [], [];
    }

    /** The worker's loop once it has been interrupted: it ends when the queue is empty. */
    method RunDown()
      modifies this
      ensures queue == [] && handled == old(handled) + old(queue)
    {
      while queue != []
        invariant handled + queue == old(handled) + old(queue)
        decreases |queue|
      {
        assert queue == [queue[0]] + queue[1..];
        handled, queue := handled + [queue[0]], queue[1..];
      }
    }
  }
}
