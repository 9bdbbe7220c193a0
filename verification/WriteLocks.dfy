/**
 The session table and the per-session write flag.

 A caller looks its session up under the table's mutex, spins on the session's flag outside
 it, starts one asynchronous write, and the completion handler clears the flag and, after an
 error, erases the session. All of these steps interleave with connects and disconnects.
 */
module WriteLocks {

  type SessionId = nat   // 32 bits wide
  type ConnId = nat      // a connection: its stream and its flag, in the order of numbering
  type CallId = nat      // a call of AddOutgoing, in the order of arrival

  const ID_SPACE: nat := 0x1_0000_0000

  /** Where a call of AddOutgoing stands. */
  datatype Phase =
    | Looking
    | Dropped
    | Waiting(conn: ConnId)
    | Holding(conn: ConnId)
    | InFlight(conn: ConnId)
    | Erasing(conn: ConnId)
    | Completed(conn: ConnId)
    | Failed(conn: ConnId)
  {
    predicate Bound() { !Looking? && !Dropped? }
    predicate Busy() { Holding? || InFlight? }
    predicate Acquired() { Bound() && !Waiting? }
    predicate Started() { Acquired() && !Holding? }
    predicate Finished() { Started() && !InFlight? }
    predicate Terminal() { Dropped? || Completed? || Failed? }

    function Rank(): nat {
      match this
      case Looking => 0
      case Waiting(_) => 1
      case Holding(_) => 2
      case InFlight(_) => 3
      case Erasing(_) => 4
      case _ => 5
    }
  }

  datatype Call = Call(session: SessionId, phase: Phase)

  /** `ids[n]` is the id connection `n` was numbered with; the last three logs say, per
      connection, which calls set its flag, started a write on its stream, and cleared the flag. */
  datatype Hub = Hub(
    sessions: map<SessionId, ConnId>,
    lastId: SessionId,
    ids: seq<SessionId>,
    registered: set<ConnId>,
    locked: set<ConnId>,
    calls: seq<Call>,
    acquired: seq<seq<CallId>>,
    wire: seq<seq<CallId>>,
    finished: seq<seq<CallId>>)

  const EMPTY := Hub(map[], 0, [], {}, {}, [], [], [], [])

  datatype Event =
    | Number
    | Register(conn: ConnId)
    | Remove(session: SessionId)
    | Begin(session: SessionId)
    | Lookup(call: CallId)
    | TestAndSet(call: CallId)
    | Start(call: CallId)
    | Written(call: CallId, error: bool)
    | Erase(call: CallId)

  predicate At(h: Hub, c: CallId, p: Phase -> bool) {
    c < |h.calls| && p(h.calls[c].phase)
  }

  function Move(h: Hub, c: CallId, p: Phase): Hub
    requires c < |h.calls|
  {
    h.(calls := h.calls[c := h.calls[c].(phase := p)])
  }

  function Log(logs: seq<seq<CallId>>, n: ConnId, c: CallId): seq<seq<CallId>> {
    if n < |logs| then logs[n := logs[n] + [c]] else logs
  }

  /** One atomic step; an event that is not enabled leaves everything as it is, which for
      TestAndSet is one turn of the spin. */
  function Step(h: Hub, e: Event): Hub {
    match e
    case Number =>
      var id := (h.lastId + 1) % ID_SPACE;
      h.(lastId := id, ids := h.ids + [id],
         acquired := h.acquired + [[]], wire := h.wire + [[]], finished := h.finished + [[]])
    case Register(n) =>
      if n >= |h.ids| || n in h.registered then h
      else if h.ids[n] in h.sessions then h.(registered := h.registered + {n})
      else h.(registered := h.registered + {n}, sessions := h.sessions[h.ids[n] := n])
    case Remove(s) => h.(sessions := h.sessions - {s})
    case Begin(s) => h.(calls := h.calls + [Call(s, Looking)])
    case Lookup(c) =>
      if !At(h, c, (p: Phase) => p.Looking?) then h
      else if h.calls[c].session !in h.sessions then Move(h, c, Dropped)
      else Move(h, c, Waiting(h.sessions[h.calls[c].session]))
    case TestAndSet(c) =>
      if !At(h, c, (p: Phase) => p.Waiting?) || h.calls[c].phase.conn in h.locked then h
      else
        var n := h.calls[c].phase.conn;
        Move(h, c, Holding(n)).(locked := h.locked + {n}, acquired := Log(h.acquired, n, c))
    case Start(c) =>
      if !At(h, c, (p: Phase) => p.Holding?) then h
      else
        var n := h.calls[c].phase.conn;
        Move(h, c, InFlight(n)).(wire := Log(h.wire, n, c))
    case Written(c, error) =>
      if !At(h, c, (p: Phase) => p.InFlight?) then h
      else
        var n := h.calls[c].phase.conn;
        Move(h, c, if error then Erasing(n) else Completed(n))
          .(locked := h.locked - {n}, finished := Log(h.finished, n, c))
    case Erase(c) =>
      if !At(h, c, (p: Phase) => p.Erasing?) then h
      else Move(h, c, Failed(h.calls[c].phase.conn)).(sessions := h.sessions - {h.calls[c].session})
  }

  function Run(h: Hub, run: seq<Event>): Hub {
    if run == [] then h else Step(Run(h, run[..|run| - 1]), run[|run| - 1])
  }

  // ----- Invariants -----

  predicate Distinct<T(==)>(xs: seq<T>) {
    forall i, j | 0 <= i < j < |xs| :: xs[i] != xs[j]
  }

  /** The three logs of one connection list exactly the calls that got that far on it. */
  ghost predicate LogsOk(h: Hub, n: ConnId)
    requires n < |h.acquired| && n < |h.wire| && n < |h.finished|
  {
    && (forall c | c in h.acquired[n] || c in h.wire[n] || c in h.finished[n] :: c < |h.calls|)
    && forall c | 0 <= c < |h.calls| ::
         var p := h.calls[c].phase;
         && (c in h.acquired[n] <==> p.Acquired() && p.conn == n)
         && (c in h.wire[n] <==> p.Started() && p.conn == n)
         && (c in h.finished[n] <==> p.Finished() && p.conn == n)
  }

  /** Each log is a prefix of the one before, and the flag is the difference between the first
      and the last. */
  ghost predicate OrderOk(h: Hub, n: ConnId)
    requires n < |h.acquired| && n < |h.wire| && n < |h.finished|
  {
    && Distinct(h.acquired[n])
    && h.finished[n] <= h.wire[n] <= h.acquired[n]
    && |h.acquired[n]| == |h.finished[n]| + (if n in h.locked then 1 else 0)
  }

  ghost predicate ConnOk(h: Hub, n: ConnId)
    requires n < |h.acquired| && n < |h.wire| && n < |h.finished|
  {
    LogsOk(h, n) && OrderOk(h, n)
  }

  /** What is said about locks and bound calls outside the logs. */
  ghost predicate LocksNumbered(h: Hub) {
    && Sized(h)
    && (forall n | n in h.locked :: n < |h.ids|)
    && forall c | 0 <= c < |h.calls| && h.calls[c].phase.Bound() :: h.calls[c].phase.conn < |h.ids|
  }

  ghost predicate LocksOk(h: Hub) {
    LocksNumbered(h) && forall n | 0 <= n < |h.ids| :: ConnOk(h, n)
  }

  /** A table entry and a bound call both name a connection numbered with their session id. */
  ghost predicate RoutesOk(h: Hub) {
    && (forall s | s in h.sessions ::
          h.sessions[s] < |h.ids| && h.ids[h.sessions[s]] == s && h.sessions[s] in h.registered)
    && (forall n | n in h.registered :: n < |h.ids|)
    && forall c | 0 <= c < |h.calls| && h.calls[c].phase.Bound() ::
         h.calls[c].phase.conn < |h.ids| && h.ids[h.calls[c].phase.conn] == h.calls[c].session
  }

  lemma RegisterKeepsRoutes(h: Hub, n: ConnId)
    requires RoutesOk(h)
    ensures RoutesOk(Step(h, Register(n)))
  {
    if n < |h.ids| && n !in h.registered {
      var h' := Step(h, Register(n));
      assert forall s | s in h'.sessions :: s in h.sessions || (s == h.ids[n] && h'.sessions[s] == n);
    }
  }

  lemma StepKeepsRoutes(h: Hub, e: Event)
    requires RoutesOk(h)
    ensures RoutesOk(Step(h, e))
  {
    if e.Register? {
      RegisterKeepsRoutes(h, e.conn);
    }
  }

  ghost predicate Sized(h: Hub) {
    |h.acquired| == |h.wire| == |h.finished| == |h.ids|
  }

  lemma TestAndSetKeepsConn(h: Hub, c: CallId, n: ConnId)
    requires Sized(h) && n < |h.ids| && ConnOk(h, n)
    ensures n < |Step(h, TestAndSet(c)).acquired| && ConnOk(Step(h, TestAndSet(c)), n)
  {
    var h' := Step(h, TestAndSet(c));
    if h' != h && h.calls[c].phase.conn == n {
      assert h.acquired[n] == h.wire[n] == h.finished[n];
      assert h'.acquired[n] == h.acquired[n] + [c];
    }
  }

  lemma StartKeepsConn(h: Hub, c: CallId, n: ConnId)
    requires Sized(h) && n < |h.ids| && ConnOk(h, n)
    ensures n < |Step(h, Start(c)).acquired| && n < |Step(h, Start(c)).wire| && ConnOk(Step(h, Start(c)), n)
  {
    var h' := Step(h, Start(c));
    if h' != h && h.calls[c].phase.conn == n {
      HolderIsLast(h, n, c);
      assert h'.wire[n] == h.wire[n] + [c] == h.acquired[n];
    }
  }

  lemma WrittenKeepsConn(h: Hub, c: CallId, error: bool, n: ConnId)
    requires Sized(h) && n < |h.ids| && ConnOk(h, n)
    ensures n < |Step(h, Written(c, error)).finished| && ConnOk(Step(h, Written(c, error)), n)
  {
    var h' := Step(h, Written(c, error));
    if h' != h && h.calls[c].phase.conn == n {
      HolderIsLast(h, n, c);
      assert h'.finished[n] == h.finished[n] + [c] == h.acquired[n];
    }
  }

  lemma StepKeepsSized(h: Hub, e: Event)
    requires Sized(h)
    ensures Sized(Step(h, e)) && |h.ids| <= |Step(h, e).ids|
  {
  }

  /** An event that touches no flag and starts no write. */
  lemma OthersKeepConn(h: Hub, e: Event, n: ConnId)
    requires Sized(h) && Sized(Step(h, e)) && n < |h.ids| <= |Step(h, e).ids| && ConnOk(h, n)
    requires !e.TestAndSet? && !e.Start? && !e.Written?
    ensures ConnOk(Step(h, e), n)
  {
    var h' := Step(h, e);
    assert h'.acquired[n] == h.acquired[n] && h'.wire[n] == h.wire[n] && h'.finished[n] == h.finished[n];
  }

  lemma StepKeepsConn(h: Hub, e: Event, n: ConnId)
    requires Sized(h) && n < |h.ids| && ConnOk(h, n)
    ensures Sized(Step(h, e)) && n < |Step(h, e).ids| && ConnOk(Step(h, e), n)
  {
    StepKeepsSized(h, e);
    match e {
      case TestAndSet(c) => TestAndSetKeepsConn(h, c, n);
      case Start(c) => StartKeepsConn(h, c, n);
      case Written(c, error) => WrittenKeepsConn(h, c, error, n);
      case _ => OthersKeepConn(h, e, n);
    }
  }

  /** The only call between setting and clearing a flag is the last one that set it. */
  lemma HolderIsLast(h: Hub, n: ConnId, c: CallId)
    requires n < |h.acquired| && n < |h.wire| && n < |h.finished| && ConnOk(h, n)
    requires c < |h.calls| && h.calls[c].phase.Busy() && h.calls[c].phase.conn == n
    ensures n in h.locked && h.acquired[n] == h.finished[n] + [c]
    ensures h.wire[n] == if h.calls[c].phase.Holding? then h.finished[n] else h.acquired[n]
  {
    assert c in h.acquired[n] && c !in h.finished[n];
    var i :| 0 <= i < |h.acquired[n]| && h.acquired[n][i] == c;
    assert i >= |h.finished[n]|;
  }

  lemma StepKeepsNumbered(h: Hub, e: Event)
    requires LocksNumbered(h) && RoutesOk(h)
    ensures LocksNumbered(Step(h, e))
  {
  }

  lemma NewConnIsOk(h: Hub, e: Event, n: ConnId)
    requires LocksNumbered(h) && RoutesOk(h) && n == |h.ids| && n < |Step(h, e).ids|
    ensures Sized(Step(h, e)) && ConnOk(Step(h, e), n)
  {
    assert e.Number?;
  }

  lemma StepKeepsLocks(h: Hub, e: Event)
    requires LocksOk(h) && RoutesOk(h)
    ensures LocksOk(Step(h, e))
  {
    StepKeepsNumbered(h, e);
    forall n | 0 <= n < |Step(h, e).ids| ensures ConnOk(Step(h, e), n) {
      if n < |h.ids| {
        StepKeepsConn(h, e, n);
      } else {
        NewConnIsOk(h, e, n);
      }
    }
  }

  lemma {:induction false} Reachable(run: seq<Event>)
    ensures LocksOk(Run(EMPTY, run)) && RoutesOk(Run(EMPTY, run))
  {
    if run != [] {
      Reachable(run[..|run| - 1]);
      StepKeepsLocks(Run(EMPTY, run[..|run| - 1]), run[|run| - 1]);
      StepKeepsRoutes(Run(EMPTY, run[..|run| - 1]), run[|run| - 1]);
    }
  }

  // ----- What every reachable state guarantees -----

  predicate BusyOn(h: Hub, c: CallId, n: ConnId) {
    c < |h.calls| && h.calls[c].phase.Busy() && h.calls[c].phase.conn == n
  }

  /** A flag is set exactly while one call is between setting and clearing it, and so no two
      writes are ever outstanding on one stream. */
  lemma FlagIsSetForOneCall(run: seq<Event>, n: ConnId)
    ensures n in Run(EMPTY, run).locked <==> exists c :: BusyOn(Run(EMPTY, run), c, n)
    ensures forall c, d :: BusyOn(Run(EMPTY, run), c, n) && BusyOn(Run(EMPTY, run), d, n) ==> c == d
  {
    Reachable(run);
    var h := Run(EMPTY, run);
    forall c: CallId | BusyOn(h, c, n)
      ensures n in h.locked && n < |h.acquired| && h.acquired[n] != []
      ensures c == h.acquired[n][|h.acquired[n]| - 1]
    {
      assert ConnOk(h, n);
      HolderIsLast(h, n, c);
    }
    if n in h.locked {
      assert ConnOk(h, n);
      var c := h.acquired[n][|h.finished[n]|];
      assert c in h.acquired[n];
      assert h.finished[n] == h.acquired[n][..|h.finished[n]|];
      assert BusyOn(h, c, n);
    }
  }

  /** Per stream, writes start and complete in the order in which their calls set the flag, and
      at most one call is ahead of the completions. */
  lemma CompletionsFollowTheLock(run: seq<Event>, n: ConnId)
    requires n < |Run(EMPTY, run).ids|
    ensures var h := Run(EMPTY, run);
      && |h.acquired| == |h.wire| == |h.finished| == |h.ids|
      && h.finished[n] <= h.wire[n] <= h.acquired[n]
      && |h.acquired[n]| <= |h.finished[n]| + 1
      && Distinct(h.acquired[n])
  {
    Reachable(run);
    assert ConnOk(Run(EMPTY, run), n);
  }

  /** A call never moves back, never changes session or stream, and stays as it ended. */
  predicate Advances(from: Call, to: Call) {
    && to.session == from.session
    && from.phase.Rank() <= to.phase.Rank()
    && (from.phase.Terminal() ==> to == from)
    && (from.phase.Bound() ==> to.phase.Bound() && to.phase.conn == from.phase.conn)
  }

  lemma StepAdvances(h: Hub, e: Event, c: CallId)
    requires c < |h.calls|
    ensures c < |Step(h, e).calls| && Advances(h.calls[c], Step(h, e).calls[c])
  {
  }

  lemma {:induction false} CallsOnlyAdvance(h: Hub, run: seq<Event>, c: CallId)
    requires c < |h.calls|
    ensures c < |Run(h, run).calls| && Advances(h.calls[c], Run(h, run).calls[c])
  {
    if run != [] {
      CallsOnlyAdvance(h, run[..|run| - 1], c);
      StepAdvances(Run(h, run[..|run| - 1]), run[|run| - 1], c);
    }
  }

  lemma NextId(k: nat)
    ensures (k % ID_SPACE + 1) % ID_SPACE == (k + 1) % ID_SPACE
  {
    var q, r := k / ID_SPACE, k % ID_SPACE;
    assert k == q * ID_SPACE + r;
    if r + 1 == ID_SPACE {
      assert k + 1 == (q + 1) * ID_SPACE;
    } else {
      assert k + 1 == q * ID_SPACE + (r + 1);
    }
  }

  function IdOf(n: ConnId): SessionId {
    (n + 1) % ID_SPACE
  }

  lemma StepNumbers(h: Hub, e: Event)
    ensures if e.Number?
            then Step(h, e).lastId == (h.lastId + 1) % ID_SPACE && Step(h, e).ids == h.ids + [Step(h, e).lastId]
            else Step(h, e).lastId == h.lastId && Step(h, e).ids == h.ids
  {
  }

  predicate CountsUp(ids: seq<SessionId>) {
    forall n | 0 <= n < |ids| :: ids[n] == IdOf(n)
  }

  lemma CountsUpSnoc(ids: seq<SessionId>)
    requires CountsUp(ids)
    ensures CountsUp(ids + [(|ids| % ID_SPACE + 1) % ID_SPACE])
  {
    NextId(|ids|);
  }

  lemma {:induction false} IdsCountUp(run: seq<Event>)
    ensures Run(EMPTY, run).lastId == |Run(EMPTY, run).ids| % ID_SPACE
    ensures CountsUp(Run(EMPTY, run).ids)
  {
    if run != [] {
      var h := Run(EMPTY, run[..|run| - 1]);
      IdsCountUp(run[..|run| - 1]);
      CountsUpSnoc(h.ids);
      NextId(|h.ids|);
      StepNumbers(h, run[|run| - 1]);
    }
  }

  lemma IdsDiffer(i: ConnId, j: ConnId)
    requires i < j < ID_SPACE
    ensures IdOf(i) != IdOf(j)
  {
    assert IdOf(i) == i + 1;
  }

  lemma IdsWrap()
    ensures IdOf(ID_SPACE) == IdOf(0)
  {
  }

  /** Session ids repeat exactly when the 32-bit counter has gone all the way round. */
  lemma IdsAreDistinctUntilTheyWrap(run: seq<Event>)
    ensures Distinct(Run(EMPTY, run).ids) <==> |Run(EMPTY, run).ids| <= ID_SPACE
  {
    IdsCountUp(run);
    var ids := Run(EMPTY, run).ids;
    if |ids| > ID_SPACE {
      IdsWrap();
      assert ids[0] == ids[ID_SPACE];
    } else {
      forall i, j | 0 <= i < j < |ids| ensures ids[i] != ids[j] {
        IdsDiffer(i, j);
      }
    }
  }

  /** A write lands on the stream of a connection numbered with the caller's session id; while
      the ids have not wrapped no other connection ever had that id, and no other stream carries
      the call. */
  lemma WritesReachTheirOwnSession(run: seq<Event>, n: ConnId, c: CallId)
    requires n < |Run(EMPTY, run).wire| && c in Run(EMPTY, run).wire[n]
    ensures var h := Run(EMPTY, run);
      && n < |h.ids| && c < |h.calls| && h.ids[n] == h.calls[c].session
      && (forall m | 0 <= m < |h.wire| && m != n :: c !in h.wire[m])
      && (|h.ids| <= ID_SPACE ==> forall m | 0 <= m < |h.ids| && m != n :: h.ids[m] != h.calls[c].session)
  {
    Reachable(run);
    IdsAreDistinctUntilTheyWrap(run);
    var h := Run(EMPTY, run);
    assert ConnOk(h, n);
    forall m | 0 <= m < |h.wire| && m != n ensures c !in h.wire[m] {
      assert ConnOk(h, m);
    }
  }

  /** emplace never overwrites: a connection gets its own id in the table exactly if no entry
      with that id is left. */
  lemma RegisterBindsAFreeId(run: seq<Event>, n: ConnId)
    requires n < |Run(EMPTY, run).ids| && n !in Run(EMPTY, run).registered
    ensures var h := Run(EMPTY, run);
      var h' := Step(h, Register(n));
      h.ids[n] in h'.sessions && (h'.sessions[h.ids[n]] == n <==> h.ids[n] !in h.sessions)
  {
    Reachable(run);
  }

  // ----- What changes an entry, and what becomes of a call -----

  /** The sessions that calls were begun for, in order. */
  function Begins(run: seq<Event>): seq<SessionId> {
    if run == [] then [] else
      var e := run[|run| - 1];
      Begins(run[..|run| - 1]) + if e.Begin? then [e.session] else []
  }

  lemma {:induction false} CallsAreTheBegins(run: seq<Event>)
    ensures |Run(EMPTY, run).calls| == |Begins(run)|
    ensures forall c | 0 <= c < |Begins(run)| :: Run(EMPTY, run).calls[c].session == Begins(run)[c]
  {
    if run != [] {
      var h, e := Run(EMPTY, run[..|run| - 1]), run[|run| - 1];
      CallsAreTheBegins(run[..|run| - 1]);
      StepKeepsSessions(h, e);
    }
  }

  lemma StepKeepsSessions(h: Hub, e: Event)
    ensures |Step(h, e).calls| == |h.calls| + if e.Begin? then 1 else 0
    ensures forall c | 0 <= c < |h.calls| :: Step(h, e).calls[c].session == h.calls[c].session
    ensures e.Begin? ==> Step(h, e).calls[|h.calls|] == Call(e.session, Looking)
  {
  }

  /** How the write of a call that got past it ended. */
  predicate OutcomeLogged(run: seq<Event>, c: CallId, p: Phase) {
    && (p.Completed? ==> Written(c, false) in run)
    && (p.Erasing? || p.Failed? ==> Written(c, true) in run)
  }

  lemma OutcomeStep(h: Hub, e: Event, c: CallId)
    requires c < |h.calls|
    ensures c < |Step(h, e).calls|
    ensures var p, p' := h.calls[c].phase, Step(h, e).calls[c].phase;
      && (p'.Completed? ==> p.Completed? || e == Written(c, false))
      && (p'.Erasing? ==> p.Erasing? || e == Written(c, true))
      && (p'.Failed? ==> p.Failed? || p.Erasing?)
  {
  }

  /** A call is completed only by a write without an error, and comes to erase its session only by one
      with an error. */
  lemma {:induction false} OutcomeIsHistory(run: seq<Event>, c: CallId)
    requires c < |Run(EMPTY, run).calls|
    ensures OutcomeLogged(run, c, Run(EMPTY, run).calls[c].phase)
  {
    var n := |run| - 1;
    var h := Run(EMPTY, run[..n]);
    assert run == run[..n] + [run[n]];
    StepKeepsSessions(h, run[n]);
    if c < |h.calls| {
      OutcomeIsHistory(run[..n], c);
      OutcomeStep(h, run[n], c);
    }
  }

  /** The event takes the entry of the id away: the connection is removed, or a call for it whose write
      failed erases it. */
  predicate Unbinds(h: Hub, e: Event, s: SessionId) {
    || e == Remove(s)
    || (e.Erase? && e.call < |h.calls| && h.calls[e.call].session == s && h.calls[e.call].phase.Erasing?)
  }

  /** The event enters a connection numbered with the id, for the first time. */
  predicate Binds(h: Hub, e: Event, s: SessionId) {
    e.Register? && e.conn < |h.ids| && e.conn !in h.registered && h.ids[e.conn] == s
  }

  /** In every reachable state, an entry disappears exactly by one of these two events, no entry is ever
      replaced, and one appears exactly when a connection is entered under a free id; a call that erases
      has a failed write behind it. */
  lemma EntriesChangeOnlySo(run: seq<Event>, e: Event, s: SessionId)
    ensures var h := Run(EMPTY, run);
      var h' := Step(h, e);
      && (s in h.sessions ==> (s !in h'.sessions <==> Unbinds(h, e, s)))
      && (s in h.sessions && s in h'.sessions ==> h'.sessions[s] == h.sessions[s])
      && (s !in h.sessions ==> (s in h'.sessions <==> Binds(h, e, s)))
      && (s !in h.sessions && s in h'.sessions ==> h'.sessions[s] == e.conn)
      && (Unbinds(h, e, s) && e.Erase? ==> Written(e.call, true) in run)
  {
    if e.Erase? && e.call < |Run(EMPTY, run).calls| {
      OutcomeIsHistory(run, e.call);
    }
  }

  function Numbers(k: nat): seq<Event> {
    seq(k, _ => Number)
  }

  lemma {:induction false} NumbersOnlyNumber(h: Hub, k: nat)
    requires |h.acquired| == |h.wire| == |h.finished| == |h.ids|
    ensures var h' := Run(h, Numbers(k));
      && h'.sessions == h.sessions && h'.registered == h.registered && h'.calls == h.calls
      && h.ids <= h'.ids && |h'.ids| == |h.ids| + k
  {
    if k > 0 {
      NumbersOnlyNumber(h, k - 1);
      assert Numbers(k)[..k - 1] == Numbers(k - 1);
    }
  }

  lemma {:induction false} RunAppend(h: Hub, a: seq<Event>, b: seq<Event>)
    ensures Run(h, a + b) == Run(Run(h, a), b)
  {
    if b == [] {
      assert a + b == a;
    } else {
      RunAppend(h, a, b[..|b| - 1]);
      assert (a + b)[..|a + b| - 1] == a + b[..|b| - 1];
    }
  }

  /** One session is connected and kept open, and then the counter goes all the way round. */
  const FULL_TURN: seq<Event> := [Number, Register(0)] + Numbers(ID_SPACE)

  lemma AfterAFullTurn()
    ensures var h := Run(EMPTY, FULL_TURN);
      && h.sessions == map[1 := 0] && h.registered == {0} && h.calls == []
      && |h.ids| == ID_SPACE + 1 && h.ids[ID_SPACE] == 1
  {
    var start := [Number, Register(0)];
    assert start[..1] == [Number];
    var g := Run(EMPTY, [Number]);
    assert g == Step(EMPTY, Number);
    var h0 := Run(EMPTY, start);
    assert h0 == Step(g, Register(0));
    RunAppend(EMPTY, start, Numbers(ID_SPACE));
    NumbersOnlyNumber(h0, ID_SPACE);
    IdsCountUp(FULL_TURN);
  }

  /** The connection numbered after a full turn then shares the first one's id: it stays without a
      table entry, and a call meant for it waits for the old session's stream. */
  lemma WrappedIdReachesTheOldStream()
    ensures var h0 := Run(EMPTY, FULL_TURN);
      |h0.ids| == ID_SPACE + 1 &&
      var h := Step(Step(Step(h0, Register(ID_SPACE)), Begin(h0.ids[ID_SPACE])), Lookup(0));
      ID_SPACE in h.registered && |h.ids| == ID_SPACE + 1 && h.calls == [Call(h.ids[ID_SPACE], Waiting(0))]
  {
    AfterAFullTurn();
  }

  // ----- The operations -----

  /** The static tables of the socket, with the local variables of every running AddOutgoing in
      `calls`. The ghost fields only record history. */
  class WebCoSocket {
    var sessions: map<SessionId, ConnId>
    var sessionId: SessionId
    var flags: set<ConnId>
    var calls: seq<Call>
    var streams: seq<seq<CallId>>
    ghost var ids: seq<SessionId>
    ghost var registered: set<ConnId>
    ghost var acquired: seq<seq<CallId>>
    ghost var finished: seq<seq<CallId>>

    ghost function Value(): Hub
      reads this
    {
      Hub(sessions, sessionId, ids, registered, flags, calls, acquired, streams, finished)
    }

    constructor ()
      ensures Value() == EMPTY
    {
      sessions, sessionId, flags, calls, streams := map[], 0, {}, [], [];
      ids, registered, acquired, finished := [], {}, [], [];
    }

    /** First half of AddConnection, outside the mutex. */
    method NumberConnection() returns (n: ConnId, id: SessionId)
      requires |streams| == |ids|
      modifies this
      ensures Value() == Step(old(Value()), Number)
      ensures n == |old(ids)| && ids == old(ids) + [id] && sessionId == id == (old(sessionId) + 1) % 0x1_0000_0000
      ensures sessions == old(sessions) && flags == old(flags) && calls == old(calls)
    {
      sessionId := (sessionId + 1) % ID_SPACE;
      n, id := |streams|, sessionId;
      streams := streams + [[]];
      ids, acquired, finished := ids + [id], acquired + [[]], finished + [[]];
    }

    /** Second half of AddConnection: the mutex and the emplace. */
    method RegisterConnection(n: ConnId, id: SessionId)
      requires n < |ids| && ids[n] == id && n !in registered
      modifies this
      ensures Value() == Step(old(Value()), Register(n))
      ensures sessions == if id in old(sessions) then old(sessions) else old(sessions)[id := n]
    {
      if id !in sessions {
        sessions := sessions[id := n];
      }
      registered := registered + {n};
    }

    method RemoveConnection(id: SessionId)
      modifies this
      ensures Value() == Step(old(Value()), Remove(id))
      ensures sessions == old(sessions) - {id} && calls == old(calls)
    {
      sessions := sessions - {id};
    }

    method AddOutgoing(id: SessionId) returns (c: CallId)
      modifies this
      ensures Value() == Step(old(Value()), Begin(id)) && c == |old(calls)|
      ensures calls == old(calls) + [Call(id, Looking)]
    {
      c := |calls|;
      calls := calls + [Call(id, Looking)];
    }

    method FindSession(c: CallId) returns (found: bool)
      requires c < |calls| && calls[c].phase.Looking?
      modifies this
      ensures Value() == Step(old(Value()), Lookup(c))
      ensures found == (old(calls)[c].session in sessions) && sessions == old(sessions) && |calls| == |old(calls)|
      ensures calls[c].phase == if found then Waiting(sessions[calls[c].session]) else Dropped
    {
      var id := calls[c].session;
      found := id in sessions;
      if !found {
        calls := calls[c := Call(id, Dropped)];
        return;
      }
      calls := calls[c := Call(id, Waiting(sessions[id]))];
    }

    /** One test_and_set of the spin; the caller repeats it until it returns false. */
    method TestAndSetFlag(c: CallId) returns (wasSet: bool)
      requires c < |calls| && calls[c].phase.Waiting?
      modifies this
      ensures Value() == Step(old(Value()), TestAndSet(c))
      ensures wasSet <==> old(calls[c].phase.conn in flags)
      ensures flags == old(flags) + {old(calls)[c].phase.conn} && |calls| == |old(calls)|
      ensures calls[c].phase == if wasSet then old(calls)[c].phase else Holding(old(calls)[c].phase.conn)
    {
      var n := calls[c].phase.conn;
      wasSet := n in flags;
      flags := flags + {n};
      if !wasSet {
        calls := calls[c := calls[c].(phase := Holding(n))];
        acquired := Log(acquired, n, c);
      } else {
        assert flags == old(flags);
      }
    }

    method AsyncWrite(c: CallId)
      requires c < |calls| && calls[c].phase.Holding? && calls[c].phase.conn < |streams|
      modifies this
      ensures Value() == Step(old(Value()), Start(c))
      ensures |calls| == |old(calls)| && calls[c].phase == InFlight(old(calls)[c].phase.conn)
      ensures streams == var n := calls[c].phase.conn; old(streams)[n := old(streams)[n] + [c]]
    {
      var n := calls[c].phase.conn;
      streams := streams[n := streams[n] + [c]];
      calls := calls[c := calls[c].(phase := InFlight(n))];
    }

    /** The completion handler clears the flag first; a failed write then has a session to erase. */
    method OnWritten(c: CallId, error: bool)
      requires c < |calls| && calls[c].phase.InFlight?
      modifies this
      ensures Value() == Step(old(Value()), Written(c, error))
      ensures |calls| == |old(calls)| && flags == old(flags) - {old(calls)[c].phase.conn} && sessions == old(sessions)
      ensures calls[c].phase == var n := old(calls)[c].phase.conn; if error then Erasing(n) else Completed(n)
    {
      var n := calls[c].phase.conn;
      flags := flags - {n};
      finished := Log(finished, n, c);
      if error {
        calls := calls[c := calls[c].(phase := Erasing(n))];
      } else {
        calls := calls[c := calls[c].(phase := Completed(n))];
      }
    }

    method KillSession(c: CallId)
      requires c < |calls| && calls[c].phase.Erasing?
      modifies this
      ensures Value() == Step(old(Value()), Erase(c))
      ensures sessions == old(sessions) - {old(calls)[c].session}
    {
      RemoveConnection(calls[c].session);
      calls := calls[c := calls[c].(phase := Failed(calls[c].phase.conn))];
    }

    /** The callback runs once for every session of the snapshot taken under the mutex. */
    method ForEachSession() returns (visited: seq<SessionId>)
      ensures multiset(visited) == multiset(sessions.Keys)
    {
      var rest := sessions.Keys;
      visited := [];
      while rest != {}
        invariant rest <= sessions.Keys
        invariant multiset(visited) + multiset(rest) == multiset(sessions.Keys)
      {
        var s :| s in rest;
        visited := visited + [s];
        rest := rest - {s};
      }
    }
  }
}
