/**
 Account subscriptions: which session holds which upstream handle for which account.

 Subscribing takes the table's mutex twice, around the upstream call that returns the handle;
 an update collects the sessions it could not reach under the mutex and erases them after
 releasing it. Cancels and closing sessions come in between.
 */
module AccountSubscriptions {

  type Account = string
  type SessionId = nat
  type Handle = nat      // 0 until the upstream call has returned

  datatype Holder = Holder(account: Account, session: SessionId)

  /** `owner` is every handle upstream ever returned and for whom, `awaiting` those not saved yet;
      `entering` counts upstream calls under way, and `orphans` erasures an update still owes. */
  datatype Registry = Registry(
    table: Table,
    entering: multiset<Holder>,
    awaiting: map<Handle, Holder>,
    owner: map<Handle, Holder>,
    cancelled: set<(Account, Handle)>,
    orphans: multiset<(Holder, Handle)>)

  const EMPTY := Registry(map[], multiset{}, map[], map[], {}, multiset{})

  datatype Event =
    | Enter(who: Holder)
    | Return(who: Holder, handle: Handle)
    | Save(handle: Handle)
    | Cancel(who: Holder)
    | Scan(account: Account, failed: set<SessionId>)
    | EraseOrphan(who: Holder, handle: Handle)
    | EraseSession(session: SessionId)

  type Table = map<Account, map<SessionId, Handle>>

  datatype Entry = Absent | Entry(handle: Handle)

  /** The table as a reader sees it. */
  function Look(t: Table, x: Holder): Entry {
    if x.account in t && x.session in t[x.account] then Entry(t[x.account][x.session]) else Absent
  }

  function Put(t: Table, x: Holder, h: Handle): (t': Table)
    ensures forall y :: Look(t', y) == if y == x then Entry(h) else Look(t, y)
  {
    t[x.account := (if x.account in t then t[x.account] else map[])[x.session := h]]
  }

  /** Erasing for the empty account name finds no entry at all. */
  function Erased(t: Table, x: Holder): (t': Table)
    ensures forall y :: Look(t', y) == if y == x && x.account != "" then Absent else Look(t, y)
    ensures t'.Keys == t.Keys
  {
    if x.account != "" && x.account in t then t[x.account := t[x.account] - {x.session}] else t
  }

  /** The handles an erasure passes to CancelAccountUpdates. */
  function Dropped(t: Table, x: Holder, h: Handle): set<Handle> {
    (if h != 0 then {h} else {}) +
    (if x.account != "" && Look(t, x).Entry? then {Look(t, x).handle} else {})
  }

  function Erase(r: Registry, x: Holder, h: Handle): Registry {
    r.(table := Erased(r.table, x),
       cancelled := r.cancelled + For(x.account, Dropped(r.table, x, h)))
  }

  function For(a: Account, hs: set<Handle>): (cs: set<(Account, Handle)>)
    ensures forall c :: c in cs <==> c.0 == a && c.1 in hs
  {
    set h | h in hs :: (a, h)
  }

  function Unreached(r: Registry, account: Account, failed: set<SessionId>): set<(Holder, Handle)> {
    if account !in r.table then {}
    else set s | s in r.table[account] && s in failed :: (Holder(account, s), r.table[account][s])
  }

  /** One critical section; an event that cannot happen in `r` changes nothing. */
  function Step(r: Registry, e: Event): Registry {
    match e
    case Enter(x) =>
      r.(table := if Look(r.table, x).Entry? then r.table else Put(r.table, x, 0),
         entering := r.entering + multiset{x})
    case Return(x, h) =>
      if x !in r.entering || h == 0 || h in r.owner then r
      else r.(entering := r.entering - multiset{x}, awaiting := r.awaiting[h := x], owner := r.owner[h := x])
    case Save(h) =>
      if h !in r.awaiting then r
      else r.(table := Put(r.table, r.awaiting[h], h), awaiting := r.awaiting - {h})
    case Cancel(x) => Erase(r, x, 0)
    case Scan(a, failed) => r.(orphans := r.orphans + multiset(Unreached(r, a, failed)))
    case EraseOrphan(x, h) =>
      if (x, h) !in r.orphans then r
      else Erase(r, x, h).(orphans := r.orphans - multiset{(x, h)})
    case EraseSession(s) => Erase(r, Holder("", s), 0)
  }

  function Run(r: Registry, run: seq<Event>): Registry {
    if run == [] then r else Step(Run(r, run[..|run| - 1]), run[|run| - 1])
  }

  // ----- Conservation of handles -----

  predicate Recorded(r: Registry, h: Handle)
    requires h in r.owner
  {
    Look(r.table, r.owner[h]) == Entry(h)
  }

  predicate IsCancelled(r: Registry, h: Handle)
    requires h in r.owner
  {
    (r.owner[h].account, h) in r.cancelled
  }

  /** Exactly one of: waiting to be saved, recorded for its owner, cancelled for its account. */
  ghost predicate InOnePlace(r: Registry, h: Handle)
    requires h in r.owner
  {
    if h in r.awaiting then !Recorded(r, h) && !IsCancelled(r, h) else Recorded(r, h) != IsCancelled(r, h)
  }

  /** Every handle returned is in one place, and the table holds nobody else's handle. */
  ghost predicate Conserved(r: Registry) {
    && 0 !in r.owner
    && (forall h | h in r.awaiting :: OwnedBy(r, h, r.awaiting[h]))
    && (forall x | !Blank(Look(r.table, x)) :: OwnedBy(r, Look(r.table, x).handle, x))
    && forall h | h in r.owner :: InOnePlace(r, h)
  }

  predicate OwnedBy(r: Registry, h: Handle, x: Holder) {
    h in r.owner && r.owner[h] == x
  }

  /** The session holds the account: an entry, an upstream call under way, or a handle to save. */
  predicate Holds(r: Registry, x: Holder) {
    Look(r.table, x).Entry? || x in r.entering || x in r.awaiting.Values
  }

  /** No session subscribes an account it already holds, and no account is unnamed. */
  ghost predicate Orderly(run: seq<Event>) {
    forall i | 0 <= i < |run| && run[i].Enter? ::
      run[i].who.account != "" && !Holds(Run(EMPTY, run[..i]), run[i].who)
  }

  /** Nothing a save could overwrite. */
  predicate Blank(e: Entry) {
    e == Absent || e == Entry(0)
  }

  /** No session subscribes the same account twice at once, and the entry it is about to save
      has no handle yet. */
  ghost predicate EnteringOk(r: Registry) {
    forall x | x in r.entering ::
      r.entering[x] == 1 && x.account != "" && Blank(Look(r.table, x))
  }

  ghost predicate AwaitingOk(r: Registry) {
    && (forall h | h in r.awaiting ::
          r.awaiting[h].account != "" && r.awaiting[h] !in r.entering && Blank(Look(r.table, r.awaiting[h])))
    && (forall h, k | h in r.awaiting && k in r.awaiting && r.awaiting[h] == r.awaiting[k] :: h == k)
  }

  /** An orphan is a handle that had been recorded for its session. */
  ghost predicate OrphansOk(r: Registry) {
    forall o | o in r.orphans :: o.0.account != "" && (o.1 == 0 || (OwnedBy(r, o.1, o.0) && o.1 !in r.awaiting))
  }

  ghost predicate NamesOk(r: Registry) {
    && (forall x | Look(r.table, x).Entry? :: x.account != "")
    && (forall c | c in r.cancelled :: c.1 == 0 || (c.1 in r.owner && r.owner[c.1].account == c.0))
  }

  ghost predicate Tidy(r: Registry) {
    EnteringOk(r) && AwaitingOk(r) && OrphansOk(r) && NamesOk(r)
  }

  ghost predicate Good(r: Registry) {
    Conserved(r) && Tidy(r)
  }

  /** What may be erased for `x` together with its entry: nothing, or a handle of `x`. */
  ghost predicate Erasable(r: Registry, x: Holder, h: Handle) {
    h == 0 || (OwnedBy(r, h, x) && h !in r.awaiting && x.account != "")
  }

  lemma DroppedIsOwned(r: Registry, x: Holder, h: Handle, k: Handle)
    requires Conserved(r) && Erasable(r, x, h) && k in Dropped(r.table, x, h) && k != 0
    ensures OwnedBy(r, k, x) && k !in r.awaiting && x.account != ""
  {
    if k != h {
      assert Look(r.table, x) == Entry(k);
      assert InOnePlace(r, k);
    }
  }

  lemma EraseKeepsConserved(r: Registry, x: Holder, h: Handle)
    requires Conserved(r) && Erasable(r, x, h)
    ensures Conserved(Erase(r, x, h))
  {
    var r' := Erase(r, x, h);
    forall k | k in r.owner ensures InOnePlace(r', k) {
      assert InOnePlace(r, k);
      if k in Dropped(r.table, x, h) {
        DroppedIsOwned(r, x, h, k);
      }
    }
  }

  lemma EraseKeepsGood(r: Registry, x: Holder, h: Handle)
    requires Good(r) && Erasable(r, x, h)
    ensures Good(Erase(r, x, h))
  {
    EraseKeepsConserved(r, x, h);
    forall k | k in Dropped(r.table, x, h) && k != 0 ensures OwnedBy(r, k, x) {
      DroppedIsOwned(r, x, h, k);
    }
  }

  lemma EnterKeepsGood(r: Registry, x: Holder)
    requires Good(r) && x.account != "" && !Holds(r, x)
    ensures Good(Step(r, Enter(x)))
  {
    var r' := Step(r, Enter(x));
    forall h | h in r.owner ensures InOnePlace(r', h) {
      assert InOnePlace(r, h);
    }
    forall h | h in r.awaiting ensures r.awaiting[h] != x {
      assert r.awaiting[h] in r.awaiting.Values;
    }
    assert Conserved(r');
  }

  /** Upstream returns a handle it never returned before. */
  predicate CanReturn(r: Registry, x: Holder, h: Handle) {
    x in r.entering && h != 0 && h !in r.owner
  }

  lemma ReturnKeepsConserved(r: Registry, x: Holder, h: Handle)
    requires Conserved(r) && NamesOk(r) && CanReturn(r, x, h)
    ensures Conserved(Step(r, Return(x, h)))
  {
    var r' := Step(r, Return(x, h));
    forall k | k in r'.owner ensures InOnePlace(r', k) {
      assert k != h ==> InOnePlace(r, k);
    }
  }

  lemma ReturnKeepsAwaiting(r: Registry, x: Holder, h: Handle)
    requires EnteringOk(r) && AwaitingOk(r) && CanReturn(r, x, h)
    ensures EnteringOk(Step(r, Return(x, h))) && AwaitingOk(Step(r, Return(x, h)))
  {
    var r' := Step(r, Return(x, h));
    assert forall y | y in r'.entering :: y in r.entering && y != x;
    assert forall k | k in r.awaiting :: r.awaiting[k] != x;
  }

  lemma ReturnKeepsNames(r: Registry, x: Holder, h: Handle)
    requires OrphansOk(r) && NamesOk(r) && CanReturn(r, x, h)
    ensures OrphansOk(Step(r, Return(x, h))) && NamesOk(Step(r, Return(x, h)))
  {
  }

  lemma ReturnKeepsGood(r: Registry, x: Holder, h: Handle)
    requires Good(r)
    ensures Good(Step(r, Return(x, h)))
  {
    if CanReturn(r, x, h) {
      ReturnKeepsConserved(r, x, h);
      ReturnKeepsAwaiting(r, x, h);
      ReturnKeepsNames(r, x, h);
    } else {
      assert Step(r, Return(x, h)) == r;
    }
  }

  /** Saving loses nothing when the entry it overwrites has no handle. */
  lemma SaveKeepsConserved(r: Registry, h: Handle)
    requires Conserved(r) && h in r.awaiting
    requires Blank(Look(r.table, r.awaiting[h]))
    ensures Conserved(Step(r, Save(h)))
  {
    var r' := Step(r, Save(h));
    forall k | k in r.owner ensures InOnePlace(r', k) {
      assert InOnePlace(r, k);
    }
  }

  lemma ScanKeepsGood(r: Registry, a: Account, failed: set<SessionId>)
    requires Good(r)
    ensures Good(Step(r, Scan(a, failed)))
  {
    var r' := Step(r, Scan(a, failed));
    forall o | o in Unreached(r, a, failed)
      ensures o.0.account != "" && (o.1 == 0 || (OwnedBy(r, o.1, o.0) && o.1 !in r.awaiting))
    {
      assert Look(r.table, o.0) == Entry(o.1);
      if o.1 in r.awaiting {
        assert InOnePlace(r, o.1);
      }
    }
    forall h | h in r.owner ensures InOnePlace(r', h) {
      assert InOnePlace(r, h);
    }
    assert Conserved(r');
  }

  lemma SaveKeepsGood(r: Registry, h: Handle)
    requires Good(r)
    ensures Good(Step(r, Save(h)))
  {
    if h in r.awaiting {
      SaveKeepsConserved(r, h);
    }
  }

  lemma FewerOrphansKeepGood(r: Registry, o: (Holder, Handle))
    requires Good(r)
    ensures Good(r.(orphans := r.orphans - multiset{o}))
  {
    var r' := r.(orphans := r.orphans - multiset{o});
    forall k | k in r'.owner ensures InOnePlace(r', k) {
      assert InOnePlace(r, k);
    }
    assert forall p | p in r'.orphans :: p in r.orphans;
  }

  lemma EraseOrphanKeepsGood(r: Registry, x: Holder, h: Handle)
    requires Good(r)
    ensures Good(Step(r, EraseOrphan(x, h)))
  {
    if (x, h) in r.orphans {
      EraseKeepsGood(r, x, h);
      FewerOrphansKeepGood(Erase(r, x, h), (x, h));
    }
  }

  lemma StepKeepsGood(r: Registry, e: Event)
    requires Good(r)
    requires e.Enter? ==> e.who.account != "" && !Holds(r, e.who)
    ensures Good(Step(r, e))
  {
    match e {
      case Enter(x) => EnterKeepsGood(r, x);
      case Return(x, h) => ReturnKeepsGood(r, x, h);
      case Save(h) => SaveKeepsGood(r, h);
      case Cancel(x) => EraseKeepsGood(r, x, 0);
      case Scan(a, failed) => ScanKeepsGood(r, a, failed);
      case EraseOrphan(x, h) => EraseOrphanKeepsGood(r, x, h);
      case EraseSession(s) => EraseKeepsGood(r, Holder("", s), 0);
    }
  }

  /** Over every orderly interleaving no handle is lost, held twice or held by two sessions. */
  lemma {:induction false} HandlesAreConserved(run: seq<Event>)
    requires Orderly(run)
    ensures Good(Run(EMPTY, run))
  {
    if run != [] {
      var before := run[..|run| - 1];
      forall i | 0 <= i < |before| && before[i].Enter?
        ensures before[i].who.account != "" && !Holds(Run(EMPTY, before[..i]), before[i].who)
      {
        assert run[i].Enter? && before[..i] == run[..i];
      }
      HandlesAreConserved(before);
      StepKeepsGood(Run(EMPTY, before), run[|run| - 1]);
    }
  }

  /** Awaiting its save, recorded for one session, or cancelled, and only one of these; wherever it
      is, it is there for the session and account it was returned for. */
  ghost predicate Placed(r: Registry, h: Handle)
    requires h in r.owner
  {
    && (if h in r.awaiting then 1 else 0)
       + (if exists x :: Look(r.table, x) == Entry(h) then 1 else 0)
       + (if exists a :: (a, h) in r.cancelled then 1 else 0) == 1
    && (h in r.awaiting ==> r.awaiting[h] == r.owner[h])
    && (forall x | Look(r.table, x) == Entry(h) :: x == r.owner[h])
    && (forall a | (a, h) in r.cancelled :: a == r.owner[h].account)
  }

  lemma GoodPlaces(r: Registry, h: Handle)
    requires Good(r) && h in r.owner
    ensures Placed(r, h)
  {
    assert InOnePlace(r, h);
    assert forall x | Look(r.table, x) == Entry(h) :: !Blank(Look(r.table, x)) && OwnedBy(r, h, x);
  }

  lemma HandleIsInOnePlace(run: seq<Event>)
    requires Orderly(run)
    ensures forall h | h in Run(EMPTY, run).owner :: Placed(Run(EMPTY, run), h)
  {
    HandlesAreConserved(run);
    forall h | h in Run(EMPTY, run).owner ensures Placed(Run(EMPTY, run), h) {
      GoodPlaces(Run(EMPTY, run), h);
    }
  }

  /** The guard of the proviso is exact: saving keeps every handle in one place if and only if the
      entry it overwrites has no handle. */
  lemma SaveConservesIffTheEntryIsBlank(r: Registry, h: Handle)
    requires Conserved(r) && h in r.awaiting
    ensures Conserved(Step(r, Save(h))) <==> Blank(Look(r.table, r.awaiting[h]))
  {
    var x := r.awaiting[h];
    if Blank(Look(r.table, x)) {
      SaveKeepsConserved(r, h);
    } else {
      var k := Look(r.table, x).handle;
      assert InOnePlace(r, k) && InOnePlace(r, h);
      assert !InOnePlace(Step(r, Save(h)), k);
    }
  }

  /** Subscribing again an account that is recorded with a handle loses that handle: it is then
      nowhere, and nobody will ever cancel it. */
  lemma ResubscribingLosesTheHandle(r: Registry, x: Holder, h: Handle, k: Handle)
    requires Good(r) && Look(r.table, x) == Entry(h) && h != 0 && k != 0 && k !in r.owner
    ensures var r' := Subscribed(r, x, k);
      h in r'.owner && h !in r'.awaiting && !Recorded(r', h) && !IsCancelled(r', h)
  {
    assert InOnePlace(r, h);
    var r1 := Step(r, Enter(x));
    assert x in r1.entering;
    var r2 := Step(r1, Return(x, k));
    assert r2.awaiting == r.awaiting[k := x];
  }

  /** A session's first complete subscription. */
  function Subscribed(r: Registry, x: Holder, h: Handle): Registry {
    Step(Step(Step(r, Enter(x)), Return(x, h)), Save(h))
  }

  lemma FirstSubscriptionIsGood(x: Holder)
    requires x.account != ""
    ensures Good(Subscribed(EMPTY, x, 1))
    ensures Look(Subscribed(EMPTY, x, 1).table, x) == Entry(1) && Subscribed(EMPTY, x, 1).owner == map[1 := x]
  {
    StepKeepsGood(EMPTY, Enter(x));
    var r1 := Step(EMPTY, Enter(x));
    assert x in r1.entering && r1.owner == map[];
    StepKeepsGood(r1, Return(x, 1));
    var r2 := Step(r1, Return(x, 1));
    assert r2.awaiting == map[1 := x] && r2.owner == map[1 := x];
    StepKeepsGood(r2, Save(1));
  }

  lemma ASecondSubscriptionLosesTheFirst(x: Holder)
    requires x.account != ""
    ensures var r := Subscribed(Subscribed(EMPTY, x, 1), x, 2);
      1 in r.owner && 1 !in r.awaiting && !Recorded(r, 1) && !IsCancelled(r, 1)
  {
    FirstSubscriptionIsGood(x);
    ResubscribingLosesTheHandle(Subscribed(EMPTY, x, 1), x, 1, 2);
  }

  // ----- What each event does -----

  /** The event takes the entry of `y` away. */
  predicate Removes(r: Registry, e: Event, y: Holder) {
    y.account != "" && (e == Cancel(y) || (e.EraseOrphan? && e.who == y && (y, e.handle) in r.orphans))
  }

  predicate Saves(r: Registry, e: Event, y: Holder) {
    e.Save? && e.handle in r.awaiting && r.awaiting[e.handle] == y
  }

  /** An entry appears blank when its session enters, gets the handle that was returned for it when that
      is saved, goes when it is cancelled or erased as unreached, and is not touched by anything else. */
  lemma EntriesChangeOnlySo(r: Registry, e: Event, y: Holder)
    ensures Look(Step(r, e).table, y) ==
      if Removes(r, e, y) then Absent
      else if Saves(r, e, y) then Entry(e.handle)
      else if e == Enter(y) && Look(r.table, y) == Absent then Entry(0)
      else Look(r.table, y)
  {
  }

  /** A cancel passes the handle of the entry to CancelAccountUpdates and nothing else; an erasure of an
      unreached session also the handle it was scanned with. */
  lemma HandlesAreCancelledOnlySo(r: Registry, e: Event, a: Account, k: Handle)
    ensures (a, k) in Step(r, e).cancelled <==>
      || (a, k) in r.cancelled
      || (e.Cancel? && e.who.account == a && a != "" && Look(r.table, e.who) == Entry(k))
      || (e.EraseOrphan? && (e.who, e.handle) in r.orphans && e.who.account == a
          && ((k == e.handle && k != 0) || (a != "" && Look(r.table, e.who) == Entry(k))))
  {
    if e.EraseSession? {
      assert Dropped(r.table, Holder("", e.session), 0) == {};
    }
  }

  /** A new handle, returned for a session that entered, awaits its save for that session until it is
      saved. */
  lemma ReturnedHandleAwaitsItsSave(r: Registry, x: Holder, h: Handle, e: Event)
    ensures CanReturn(r, x, h) ==>
      h in Step(r, Return(x, h)).awaiting && Step(r, Return(x, h)).awaiting[h] == x && h in Step(r, Return(x, h)).owner
    ensures h in r.awaiting && e != Save(h) && !(e.Return? && e.handle == h) ==>
      h in Step(r, e).awaiting && Step(r, e).awaiting[h] == r.awaiting[h]
    ensures h in r.awaiting ==> h !in Step(r, Save(h)).awaiting
  {
  }

  /** An update owes an erasure, with the handle it saw, for each session that it did not reach. */
  lemma ScanOwesTheUnreached(r: Registry, a: Account, failed: set<SessionId>, x: Holder, h: Handle)
    ensures (x, h) in Step(r, Scan(a, failed)).orphans <==>
      (x, h) in r.orphans || (x.account == a && x.session in failed && Look(r.table, x) == Entry(h))
  {
  }

  /** An erasure touches one entry, keeps the account's inner map even when it is emptied, and
      cancels the entry's handle and the handle it was given. */
  lemma EraseTouchesOneEntry(r: Registry, x: Holder, h: Handle, y: Holder)
    ensures var r' := Erase(r, x, h);
      && r'.table.Keys == r.table.Keys
      && (y != x ==> Look(r'.table, y) == Look(r.table, y))
      && (x.account != "" ==> Look(r'.table, x) == Absent)
      && forall a, k :: (a, k) in r'.cancelled <==>
           || (a, k) in r.cancelled
           || (a == x.account && ((k == h && h != 0) || (x.account != "" && Look(r.table, x) == Entry(k))))
  {
  }

  /** Closing a session passes no account name, so every entry of every session stays, its own
      included: they are gone afterwards exactly if there were none. */
  lemma ClosingASessionErasesNothing(r: Registry, s: SessionId)
    ensures Step(r, EraseSession(s)) == r
    ensures (forall a :: Look(Step(r, EraseSession(s)).table, Holder(a, s)).Absent?)
            <==> (forall a :: Look(r.table, Holder(a, s)).Absent?)
  {
    assert Dropped(r.table, Holder("", s), 0) == {};
    assert Step(r, EraseSession(s)).cancelled == r.cancelled;
  }

  // ----- The operations -----

  /** `t'` is `t` without the entries of `account` for sessions outside `reached`; erasing for the
      empty account name removes none. */
  ghost predicate WithoutMissed(t: Table, t': Table, account: Account, reached: set<SessionId>) {
    forall x :: Look(t', x) ==
      if x.account == account && account != "" && x.session !in reached then Absent else Look(t, x)
  }

  /** What is cancelled for them: every handle, the zero one of an unsaved entry only if it is found. */
  function MissedHandles(t: Table, account: Account, reached: set<SessionId>): set<(Account, Handle)> {
    if account !in t then {}
    else
      set s | s in t[account] && s !in reached && (account != "" || t[account][s] != 0) :: (account, t[account][s])
  }

  function Missed(t: Table, account: Account, reached: set<SessionId>): set<SessionId> {
    if account !in t then {} else t[account].Keys - reached
  }

  predicate IsMissed(t: Table, account: Account, reached: set<SessionId>, s: SessionId, c: (Account, Handle)) {
    && account in t && s in t[account] && s !in reached && (account != "" || t[account][s] != 0)
    && c == (account, t[account][s])
  }

  lemma MissedHandle(t: Table, account: Account, reached: set<SessionId>, c: (Account, Handle))
    ensures c in MissedHandles(t, account, reached) <==> exists s :: IsMissed(t, account, reached, s, c)
  {
    if c in MissedHandles(t, account, reached) {
      var s :|
        s in t[account] && s !in reached && (account != "" || t[account][s] != 0) && c == (account, t[account][s]);
      assert IsMissed(t, account, reached, s, c);
    }
  }

  lemma MissedOneMore(t: Table, account: Account, reached: set<SessionId>, s: SessionId)
    requires account in t && s in t[account] && s !in reached
    ensures MissedHandles(t, account, reached) == MissedHandles(t, account, reached + {s}) + CancelledFor(t, account, s)
  {
    forall c
      ensures c in MissedHandles(t, account, reached) <==>
        c in MissedHandles(t, account, reached + {s}) || c in CancelledFor(t, account, s)
    {
      MissedHandle(t, account, reached, c);
      MissedHandle(t, account, reached + {s}, c);
      if r :| IsMissed(t, account, reached, r, c) {
        assert r == s || IsMissed(t, account, reached + {s}, r, c);
      }
      if r :| IsMissed(t, account, reached + {s}, r, c) {
        assert IsMissed(t, account, reached, r, c);
      }
      if c in CancelledFor(t, account, s) {
        assert IsMissed(t, account, reached, s, c);
      }
    }
  }

  function CancelledFor(t: Table, account: Account, s: SessionId): set<(Account, Handle)>
    requires account in t && s in t[account]
  {
    if account != "" || t[account][s] != 0 then {(account, t[account][s])} else {}
  }

  /** One erasure of the entry that was missed. */
  lemma EraseOneMissed(before: Table, t: Table, account: Account, reached: set<SessionId>, s: SessionId)
    requires account in before && s in before[account] && s !in reached
    requires WithoutMissed(before, t, account, reached + {s})
    ensures WithoutMissed(before, Erased(t, Holder(account, s)), account, reached)
    ensures For(account, Dropped(t, Holder(account, s), before[account][s])) == CancelledFor(before, account, s)
  {
    var x := Holder(account, s);
    assert Look(t, x) == Look(before, x) == Entry(before[account][s]);
  }

  /** `t'` is `t` but for one entry. */
  ghost predicate OnlyEntry(t: Table, t': Table, x: Holder, e: Entry) {
    forall y :: Look(t', y) == if y == x then e else Look(t, y)
  }

  class AccountGateway {
    var accountSubscriptions: Table
    var cancelled: set<(Account, Handle)>   // what CancelAccountUpdates was called with
    ghost var entering: multiset<Holder>
    ghost var awaiting: map<Handle, Holder>
    ghost var owner: map<Handle, Holder>
    ghost var orphans: multiset<(Holder, Handle)>

    ghost function Value(): Registry
      reads this
    {
      Registry(accountSubscriptions, entering, awaiting, owner, cancelled, orphans)
    }

    constructor ()
      ensures Value() == EMPTY
    {
      accountSubscriptions, cancelled := map[], {};
      entering, awaiting, owner, orphans := multiset{}, map[], map[], multiset{};
    }

    /** First phase of AddAccountSubscription: the upstream call needs the entry to be there. */
    method BeginSubscription(account: Account, session: SessionId)
      modifies this
      ensures Value() == Step(old(Value()), Enter(Holder(account, session)))
      ensures var x := Holder(account, session);
        var before := Look(old(accountSubscriptions), x);
        OnlyEntry(old(accountSubscriptions), accountSubscriptions, x, if before.Absent? then Entry(0) else before)
    {
      if account !in accountSubscriptions {
        accountSubscriptions := accountSubscriptions[account := map[]];
      }
      if session !in accountSubscriptions[account] {
        var sessions: map<SessionId, Handle> := accountSubscriptions[account];
        sessions := sessions[session := 0];
        accountSubscriptions := accountSubscriptions[account := sessions];
      }
      entering := entering + multiset{Holder(account, session)};
    }

    /** Second phase: the handle is stored whatever happened to the entry meanwhile. */
    method SaveHandle(account: Account, session: SessionId, handle: Handle)
      requires handle in awaiting && awaiting[handle] == Holder(account, session)
      modifies this
      ensures Value() == Step(old(Value()), Save(handle))
      ensures OnlyEntry(old(accountSubscriptions), accountSubscriptions, Holder(account, session), Entry(handle))
    {
      if account !in accountSubscriptions {
        accountSubscriptions := accountSubscriptions[account := map[]];
      }
      var sessions: map<SessionId, Handle> := accountSubscriptions[account];
      sessions := sessions[session := handle];
      accountSubscriptions := accountSubscriptions[account := sessions];
      awaiting := awaiting - {handle};
    }

    /** The loop leaves at the matching account, before its removal of an emptied inner map. */
    method EraseAccountSubscription(id: SessionId, account: Account, handle: Handle)
      modifies this`accountSubscriptions, this`cancelled
      ensures Value() == Erase(old(Value()), Holder(account, id), handle)
    {
      var handles: set<Handle> := {};
      if handle != 0 {
        handles := handles + {handle};
      }
      ghost var before := accountSubscriptions;
      ghost var first := handles;
      var rest := accountSubscriptions.Keys;
      while rest != {}
        invariant rest <= before.Keys
        invariant account != "" && account in before ==> account in rest
        invariant accountSubscriptions == before && handles == first && cancelled == old(cancelled)
      {
        var key :| key in rest;
        if account != "" && key == account {
          var sessionIds: map<SessionId, Handle> := accountSubscriptions[key];
          if id in sessionIds {
            handles := handles + {sessionIds[id]};
            sessionIds := sessionIds - {id};
            accountSubscriptions := accountSubscriptions[key := sessionIds];
          }
          break;
        }
        rest := rest - {key};
      }
      ghost var x := Holder(account, id);
      assert handles == Dropped(before, x, handle);
      cancelled := cancelled + For(account, handles);
      assert account in before && id !in before[account] ==> before[account] - {id} == before[account];
      assert accountSubscriptions == Erased(before, x);
    }

    /** The part of UpdateAccountValue under the lock: who was missed, and was anybody reached. */
    method PushToSubscribers(sessions: map<SessionId, Handle>, reached: set<SessionId>)
      returns (haveSubscription: bool, missed: map<SessionId, Handle>)
      ensures haveSubscription <==> exists s :: s in sessions && s in reached
      ensures missed == map s | s in sessions && s !in reached :: sessions[s]
    {
      haveSubscription, missed := false, map[];
      var rest := sessions.Keys;
      while rest != {}
        invariant rest <= sessions.Keys
        invariant haveSubscription <==> exists s :: s in sessions && s !in rest && s in reached
        invariant missed == map s | s in sessions && s !in rest && s !in reached :: sessions[s]
      {
        var s :| s in rest;
        if s in reached {
          haveSubscription := true;
        } else {
          missed := missed[s := sessions[s]];
        }
        rest := rest - {s};
      }
    }

    /** The critical section of UpdateAccountValue, `reached` being the sessions whose push succeeds. */
    method PushUpdate(account: Account, reached: set<SessionId>)
      returns (haveSubscription: bool, missed: map<SessionId, Handle>)
      modifies this`orphans
      ensures Value() == Step(old(Value()), Scan(account, Missed(accountSubscriptions, account, reached)))
      ensures haveSubscription <==>
        account in accountSubscriptions && exists s :: s in accountSubscriptions[account] && s in reached
      ensures missed.Keys == Missed(accountSubscriptions, account, reached)
      ensures forall s | s in missed ::
        missed[s] == accountSubscriptions[account][s] && (Holder(account, s), missed[s]) in orphans
    {
      haveSubscription, missed := false, map[];
      if account in accountSubscriptions {
        haveSubscription, missed := PushToSubscribers(accountSubscriptions[account], reached);
      }
      orphans := orphans + multiset(Unreached(Value(), account, Missed(accountSubscriptions, account, reached)));
    }

    /** One of the erasures it owes once the lock is released. */
    method EraseMissed(account: Account, session: SessionId, handle: Handle)
      requires (Holder(account, session), handle) in orphans
      modifies this`accountSubscriptions, this`cancelled, this`orphans
      ensures Value() == Step(old(Value()), EraseOrphan(Holder(account, session), handle))
      ensures accountSubscriptions == Erased(old(accountSubscriptions), Holder(account, session))
      ensures cancelled ==
        old(cancelled) + For(account, Dropped(old(accountSubscriptions), Holder(account, session), handle))
      ensures orphans == old(orphans) - multiset{(Holder(account, session), handle)}
    {
      EraseAccountSubscription(session, account, handle);
      orphans := orphans - multiset{(Holder(account, session), handle)};
    }

    method EraseNext(account: Account, s: SessionId, handle: Handle, ghost before: Table, ghost left: set<SessionId>)
      requires account in before && s in before[account] && s !in left && handle == before[account][s]
      requires WithoutMissed(before, accountSubscriptions, account, left + {s})
      requires (Holder(account, s), handle) in orphans
      modifies this`accountSubscriptions, this`cancelled, this`orphans
      ensures WithoutMissed(before, accountSubscriptions, account, left)
      ensures cancelled == old(cancelled) + CancelledFor(before, account, s)
      ensures orphans == old(orphans) - multiset{(Holder(account, s), handle)}
    {
      EraseOneMissed(before, accountSubscriptions, account, left, s);
      EraseMissed(account, s, handle);
    }

    method EraseAllMissed(account: Account, missed: map<SessionId, Handle>, ghost reached: set<SessionId>)
      requires missed.Keys == Missed(accountSubscriptions, account, reached)
      requires forall s | s in missed ::
        missed[s] == accountSubscriptions[account][s] && (Holder(account, s), missed[s]) in orphans
      modifies this`accountSubscriptions, this`cancelled, this`orphans
      ensures WithoutMissed(old(accountSubscriptions), accountSubscriptions, account, reached)
      ensures cancelled == old(cancelled) + MissedHandles(old(accountSubscriptions), account, reached)
    {
      ghost var before, cancels := accountSubscriptions, cancelled;
      var owed := missed.Keys;
      while owed != {}
        invariant owed <= missed.Keys
        invariant forall s | s in owed :: (Holder(account, s), missed[s]) in orphans
        invariant WithoutMissed(before, accountSubscriptions, account, reached + owed)
        invariant cancelled == cancels + MissedHandles(before, account, reached + owed)
      {
        var s :| s in owed;
        ghost var left := reached + (owed - {s});
        assert left + {s} == reached + owed;
        MissedOneMore(before, account, left, s);
        EraseNext(account, s, missed[s], before, left);
        owed := owed - {s};
      }
      assert reached + owed == reached;
    }

    /** The whole update, when nothing comes between its critical sections. */
    method UpdateAccountValue(account: Account, reached: set<SessionId>) returns (haveSubscription: bool)
      modifies this`accountSubscriptions, this`cancelled, this`orphans
      ensures haveSubscription <==>
        account in old(accountSubscriptions) && exists s :: s in old(accountSubscriptions)[account] && s in reached
      ensures WithoutMissed(old(accountSubscriptions), accountSubscriptions, account, reached)
      ensures cancelled == old(cancelled) + MissedHandles(old(accountSubscriptions), account, reached)
    {
      var missed;
      haveSubscription, missed := PushUpdate(account, reached);
      EraseAllMissed(account, missed, reached);
    }

    method CancelAccountSubscription(account: Account, session: SessionId)
      modifies this`accountSubscriptions, this`cancelled
      ensures Value() == Step(old(Value()), Cancel(Holder(account, session)))
      ensures account != "" ==>
        OnlyEntry(old(accountSubscriptions), accountSubscriptions, Holder(account, session), Absent)
      ensures account != "" ==>
        var before := Look(old(accountSubscriptions), Holder(account, session));
        cancelled == old(cancelled) + if before.Entry? then {(account, before.handle)} else {}
    {
      EraseAccountSubscription(session, account, 0);
      ghost var dropped := Dropped(old(accountSubscriptions), Holder(account, session), 0);
      assert forall c :: c in For(account, dropped) <==> c.0 == account && c.1 in dropped;
    }
  }
}
