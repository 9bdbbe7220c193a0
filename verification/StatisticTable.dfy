/**
 The stored procedure mrk_statistic_update in its two dialects.

 A call replaces one group of rows of a contract: the all-time rows when the day count is zero,
 else the rows of the year. Whether it inserts or updates is decided by one row of the group.
 The MySQL version rolls back and signals when an insert violates the primary key; the MS SQL
 version, which stores ids as unsigned bytes, loses only the statement that failed.
 */
module StatisticTable {

  type Contract = nat
  type Key = (Contract, int)          // contract_id, statistics_id
  type Table = map<Key, real>

  datatype Args = Args(
    contract: Contract, dayCount: int, lastUpdate: int,
    low: real, lowDay: int, high: real, highDay: int, average: real)

  /** The ids of the group a call is about, and the value each row must have after it. */
  function GroupOf(dayCount: int): set<int> {
    if dayCount == 0 then {1, -1, 2, -2} else {3, -3, 4, -4, 0, 5}
  }

  const ALL_IDS := {1, -1, 2, -2, 3, -3, 4, -4, 0, 5}

  function LowId(dayCount: int): int {
    if dayCount == 0 then 1 else 3
  }

  function Wanted(a: Args, id: int): real {
    if id == 1 || id == 3 then a.low
    else if id == -1 || id == -3 then a.lowDay as real
    else if id == 2 || id == 4 then a.high
    else if id == -2 || id == -4 then a.highDay as real
    else if id == 0 then a.lastUpdate as real
    else a.average
  }

  predicate HasRow(t: Table, c: Contract, id: int, value: real) {
    (c, id) in t && t[(c, id)] == value
  }

  /** The rows of the call's group are its arguments: the lows under 1 or 3, the highs under 2 or 4,
      their days under the negated ids, and of a year also the update day under 0 and the average
      under 5. */
  predicate Holds(t: Table, a: Args) {
    if a.dayCount == 0 then
      && HasRow(t, a.contract, 1, a.low) && HasRow(t, a.contract, -1, a.lowDay as real)
      && HasRow(t, a.contract, 2, a.high) && HasRow(t, a.contract, -2, a.highDay as real)
    else
      && HasRow(t, a.contract, 3, a.low) && HasRow(t, a.contract, -3, a.lowDay as real)
      && HasRow(t, a.contract, 4, a.high) && HasRow(t, a.contract, -4, a.highDay as real)
      && HasRow(t, a.contract, 0, a.lastUpdate as real) && HasRow(t, a.contract, 5, a.average)
  }

  lemma HoldsIffWanted(t: Table, a: Args)
    ensures Holds(t, a) <==> forall id | id in GroupOf(a.dayCount) :: HasRow(t, a.contract, id, Wanted(a, id))
  {
    var ids := GroupOf(a.dayCount);
    if a.dayCount == 0 {
      assert 1 in ids && -1 in ids && 2 in ids && -2 in ids;
    } else {
      assert 3 in ids && -3 in ids && 4 in ids && -4 in ids && 0 in ids && 5 in ids;
    }
  }

  /** All rows of the group, or none. */
  predicate Whole(t: Table, c: Contract, dayCount: int) {
    || (forall id | id in GroupOf(dayCount) :: (c, id) in t)
    || (forall id | id in GroupOf(dayCount) :: (c, id) !in t)
  }

  /** The condition under which no insert of the call meets an existing row. */
  predicate CanWrite(t: Table, c: Contract, dayCount: int) {
    (c, LowId(dayCount)) in t || forall id | id in GroupOf(dayCount) :: (c, id) !in t
  }

  predicate InGroup(a: Args, k: Key) {
    k.0 == a.contract && k.1 in GroupOf(a.dayCount)
  }

  /** `t'` is what a call leaves of `t`: with the low row there, the rows of the group that exist
      are overwritten; with no row of the group there, all are added; else nothing changes. */
  ghost predicate Effect(t: Table, a: Args, t': Table) {
    forall k :: At(t', k) ==
      if InGroup(a, k) && CanWrite(t, a.contract, a.dayCount) &&
         (k in t || (a.contract, LowId(a.dayCount)) !in t)
      then Cell(Wanted(a, k.1))
      else At(t, k)
  }

  datatype Row = NoRow | Cell(value: real)

  function At(t: Table, k: Key): Row {
    if k in t then Cell(t[k]) else NoRow
  }

  // ----- The MySQL procedure -----

  class MySqlTable {
    var rows: Table

    constructor ()
      ensures rows == map[]
    {
      rows := map[];
    }

    /** An insert fails on an existing key and then changes nothing. */
    method Insert(c: Contract, id: int, value: real) returns (ok: bool)
      modifies this
      ensures ok == ((c, id) !in old(rows))
      ensures rows == if ok then old(rows)[(c, id) := value] else old(rows)
    {
      ok := (c, id) !in rows;
      if ok {
        rows := rows[(c, id) := value];
      }
    }

    method Update(c: Contract, id: int, value: real)
      modifies this
      ensures rows == if (c, id) in old(rows) then old(rows)[(c, id) := value] else old(rows)
    {
      if (c, id) in rows {
        rows := rows[(c, id) := value];
      }
    }

    /** The statements of the insert branch, up to the first that fails. */
    method InsertGroup(a: Args, low: int, lowDay: int) returns (ok: bool)
      requires low == LowId(a.dayCount) && lowDay == -low
      modifies this
      ensures ok == forall id | id in GroupOf(a.dayCount) :: (a.contract, id) !in old(rows)
      ensures ok ==> rows == Written(old(rows), a)
    {
      var c := a.contract;
      ok := Insert(c, low, a.low);
      if ok { ok := Insert(c, lowDay, a.lowDay as real); }
      if ok { ok := Insert(c, low + 1, a.high); }
      if ok { ok := Insert(c, lowDay - 1, a.highDay as real); }
      if a.dayCount != 0 {
        if ok { ok := Insert(c, 0, a.lastUpdate as real); }
        if ok { ok := Insert(c, 5, a.average); }
      }
    }

    method UpdateGroup(a: Args, low: int, lowDay: int)
      requires low == LowId(a.dayCount) && lowDay == -low
      modifies this
      ensures rows == Overwritten(old(rows), a)
    {
      var c := a.contract;
      Update(c, low, a.low);
      Update(c, lowDay, a.lowDay as real);
      Update(c, low + 1, a.high);
      Update(c, lowDay - 1, a.highDay as real);
      if a.dayCount != 0 {
        Update(c, 0, a.lastUpdate as real);
        Update(c, 5, a.average);
      }
    }

    /** True if the transaction was committed, false if it was rolled back. */
    method StatisticUpdate(a: Args) returns (committed: bool)
      modifies this
      ensures committed == CanWrite(old(rows), a.contract, a.dayCount)
      ensures Effect(old(rows), a, rows)
      ensures Holds(rows, a) <==> Whole(old(rows), a.contract, a.dayCount)
    {
      ghost var before := rows;
      var saved := rows;
      var low := if a.dayCount == 0 then 1 else 3;
      var lowDay := if a.dayCount == 0 then -1 else -3;
      WrittenEffect(rows, a);
      OverwrittenEffect(rows, a);
      if (a.contract, low) !in rows {
        committed := InsertGroup(a, low, lowDay);
        if !committed {
          rows := saved;
        }
      } else {
        UpdateGroup(a, low, lowDay);
        committed := true;
      }
      EffectHoldsIffWhole(before, a, rows);
    }
  }

  // ----- The statements of a branch taken together -----

  function Set(t: Table, c: Contract, id: int, value: real): Table {
    t[(c, id) := value]
  }

  function SetIfThere(t: Table, c: Contract, id: int, value: real): Table {
    if (c, id) in t then t[(c, id) := value] else t
  }

  function Written(t: Table, a: Args): Table {
    var low := LowId(a.dayCount);
    var t1 := Set(Set(t, a.contract, low, a.low), a.contract, -low, a.lowDay as real);
    var t2 := Set(Set(t1, a.contract, low + 1, a.high), a.contract, -low - 1, a.highDay as real);
    if a.dayCount == 0 then t2
    else Set(Set(t2, a.contract, 0, a.lastUpdate as real), a.contract, 5, a.average)
  }

  function Overwritten(t: Table, a: Args): Table {
    var low := LowId(a.dayCount);
    var t1 := SetIfThere(SetIfThere(t, a.contract, low, a.low), a.contract, -low, a.lowDay as real);
    var t2 := SetIfThere(SetIfThere(t1, a.contract, low + 1, a.high), a.contract, -low - 1, a.highDay as real);
    if a.dayCount == 0 then t2
    else SetIfThere(SetIfThere(t2, a.contract, 0, a.lastUpdate as real), a.contract, 5, a.average)
  }

  lemma WrittenEffect(t: Table, a: Args)
    ensures forall k :: At(Written(t, a), k) == if InGroup(a, k) then Cell(Wanted(a, k.1)) else At(t, k)
  {
  }

  lemma OverwrittenAt(t: Table, a: Args, k: Key)
    ensures At(Overwritten(t, a), k) == if InGroup(a, k) && k in t then Cell(Wanted(a, k.1)) else At(t, k)
  {
  }

  lemma OverwrittenEffect(t: Table, a: Args)
    ensures forall k :: At(Overwritten(t, a), k) == if InGroup(a, k) && k in t then Cell(Wanted(a, k.1)) else At(t, k)
  {
    forall k ensures At(Overwritten(t, a), k) == if InGroup(a, k) && k in t then Cell(Wanted(a, k.1)) else At(t, k) {
      OverwrittenAt(t, a, k);
    }
  }

  // ----- What one call does, and what it needs -----

  /** The procedure as a function of the table. */
  function Called(t: Table, a: Args): (t': Table)
    ensures Effect(t, a, t')
  {
    WrittenEffect(t, a);
    OverwrittenEffect(t, a);
    if !CanWrite(t, a.contract, a.dayCount) then t
    else if (a.contract, LowId(a.dayCount)) in t then Overwritten(t, a)
    else Written(t, a)
  }

  /** After the call the group's rows are its arguments, if and only if the group was whole before. */
  lemma CallHoldsIffTheGroupWasWhole(t: Table, a: Args)
    ensures Holds(Called(t, a), a) <==> Whole(t, a.contract, a.dayCount)
  {
    EffectHoldsIffWhole(t, a, Called(t, a));
  }

  lemma EffectHoldsIffWhole(t: Table, a: Args, t': Table)
    requires Effect(t, a, t')
    ensures Holds(t', a) <==> Whole(t, a.contract, a.dayCount)
  {
    HoldsIffWanted(t', a);
    assert LowId(a.dayCount) in GroupOf(a.dayCount);
    forall id | id in GroupOf(a.dayCount)
      ensures At(t', (a.contract, id)) ==
        if CanWrite(t, a.contract, a.dayCount) && ((a.contract, id) in t || (a.contract, LowId(a.dayCount)) !in t)
        then Cell(Wanted(a, id)) else At(t, (a.contract, id))
    {
      assert InGroup(a, (a.contract, id));
    }
  }

  // ----- Runs of calls, with rows of other statistics written in between -----

  datatype Event = Call(args: Args) | Other(contract: Contract, id: int, row: Row)

  function Step(t: Table, e: Event): Table {
    match e
    case Call(a) => Called(t, a)
    case Other(c, id, row) =>
      if id in ALL_IDS then t
      else if row.NoRow? then t - {(c, id)}
      else t[(c, id) := row.value]
  }

  function Run(run: seq<Event>): Table {
    if run == [] then map[] else Step(Run(run[..|run| - 1]), run[|run| - 1])
  }

  predicate SameGroup(a: Args, c: Contract, dayCount: int) {
    a.contract == c && (a.dayCount == 0 <==> dayCount == 0)
  }

  lemma StepKeepsWhole(t: Table, e: Event, c: Contract, dayCount: int)
    requires Whole(t, c, dayCount)
    ensures Whole(Step(t, e), c, dayCount)
    ensures !(e.Call? && SameGroup(e.args, c, dayCount)) ==>
      forall id | id in GroupOf(dayCount) :: At(Step(t, e), (c, id)) == At(t, (c, id))
  {
    if e.Call? && SameGroup(e.args, c, dayCount) {
      CallHoldsIffTheGroupWasWhole(t, e.args);
    } else {
      forall id | id in GroupOf(dayCount) ensures At(Step(t, e), (c, id)) == At(t, (c, id)) {
        assert e.Call? ==> !InGroup(e.args, (c, id));
      }
      forall id | id in GroupOf(dayCount) ensures (c, id) in Step(t, e) <==> (c, id) in t {
        assert At(Step(t, e), (c, id)) == At(t, (c, id));
      }
    }
  }

  /** In every run each group of each contract is whole, so no insert ever violates the key. */
  lemma {:induction false} GroupsStayWhole(run: seq<Event>, c: Contract, dayCount: int)
    ensures Whole(Run(run), c, dayCount) && CanWrite(Run(run), c, dayCount)
  {
    assert LowId(dayCount) in GroupOf(dayCount);
    if run != [] {
      GroupsStayWhole(run[..|run| - 1], c, dayCount);
      StepKeepsWhole(Run(run[..|run| - 1]), run[|run| - 1], c, dayCount);
    }
  }

  /** And its rows are the arguments of the last call for that contract and group. */
  lemma {:induction false} RowsAreTheLastArguments(run: seq<Event>, k: nat)
    requires k < |run| && run[k].Call?
    requires forall j | k < j < |run| && run[j].Call? ::
      !SameGroup(run[j].args, run[k].args.contract, run[k].args.dayCount)
    ensures Holds(Run(run), run[k].args)
  {
    var n := |run| - 1;
    var a := run[k].args;
    GroupsStayWhole(run[..n], a.contract, a.dayCount);
    if k == n {
      CallHoldsIffTheGroupWasWhole(Run(run[..n]), a);
    } else {
      RowsAreTheLastArguments(run[..n], k);
      HoldsIffWanted(Run(run[..n]), a);
      HoldsIffWanted(Run(run), a);
      StepKeepsWhole(Run(run[..n]), run[n], a.contract, a.dayCount);
      forall id | id in GroupOf(a.dayCount)
        ensures HasRow(Run(run), a.contract, id, Wanted(a, id))
      {
        assert At(Run(run), (a.contract, id)) == At(Run(run[..n]), (a.contract, id));
      }
    }
  }

  // ----- The MS SQL procedure -----

  /** How an id is stored in an unsigned byte. */
  function Byte(id: int): int {
    id % 256
  }

  /** The two tables hold the same rows, ids of the second taken modulo 256. */
  ghost predicate Encodes(t: Table, u: Table) {
    forall c, id | id in ALL_IDS :: At(t, (c, id)) == At(u, (c, Byte(id)))
  }

  /** The id a byte stands for. */
  function Signed(b: int): int {
    if b > 127 then b - 256 else b
  }

  predicate MsInGroup(a: Args, k: Key) {
    k.0 == a.contract && 0 <= k.1 < 256 && Signed(k.1) in GroupOf(a.dayCount)
  }

  /** What a call leaves: with the low row there it overwrites what exists; without it, every insert
      that meets no row takes effect. */
  ghost predicate MsEffect(u: Table, a: Args, u': Table) {
    forall k :: At(u', k) == MsCell(u, a, k)
  }

  function MsCell(u: Table, a: Args, k: Key): Row {
    if MsInGroup(a, k) && (k in u) == ((a.contract, LowId(a.dayCount)) in u)
    then Cell(Wanted(a, Signed(k.1)))
    else At(u, k)
  }

  function SetIfAbsent(t: Table, c: Contract, id: int, value: real): Table {
    if (c, id) in t then t else t[(c, id) := value]
  }

  function MsInserted(u: Table, a: Args, low: int, lowDay: int): Table {
    var u1 := SetIfAbsent(SetIfAbsent(u, a.contract, low, a.low), a.contract, lowDay, a.lowDay as real);
    var u2 := SetIfAbsent(SetIfAbsent(u1, a.contract, low + 1, a.high), a.contract, lowDay - 1, a.highDay as real);
    if a.dayCount == 0 then u2
    else SetIfAbsent(SetIfAbsent(u2, a.contract, 0, a.lastUpdate as real), a.contract, 5, a.average)
  }

  function MsUpdated(u: Table, a: Args, low: int, lowDay: int): Table {
    var u1 := SetIfThere(SetIfThere(u, a.contract, low, a.low), a.contract, lowDay, a.lowDay as real);
    var u2 := SetIfThere(SetIfThere(u1, a.contract, low + 1, a.high), a.contract, lowDay - 1, a.highDay as real);
    if a.dayCount == 0 then u2
    else SetIfThere(SetIfThere(u2, a.contract, 0, a.lastUpdate as real), a.contract, 5, a.average)
  }

  predicate MsIds(a: Args, low: int, lowDay: int) {
    if a.dayCount == 0 then low == 1 && lowDay == 255 else low == 3 && lowDay == 253
  }

  lemma MsInsertedAt(u: Table, a: Args, low: int, lowDay: int, k: Key)
    requires MsIds(a, low, lowDay)
    ensures At(MsInserted(u, a, low, lowDay), k) ==
      if MsInGroup(a, k) && k !in u then Cell(Wanted(a, Signed(k.1))) else At(u, k)
  {
  }

  lemma MsUpdatedAt(u: Table, a: Args, low: int, lowDay: int, k: Key)
    requires MsIds(a, low, lowDay)
    ensures At(MsUpdated(u, a, low, lowDay), k) ==
      if MsInGroup(a, k) && k in u then Cell(Wanted(a, Signed(k.1))) else At(u, k)
  {
  }

  class MsSqlTable {
    var rows: Table

    constructor ()
      ensures rows == map[]
    {
      rows := map[];
    }

    /** A failed insert ends its statement only. */
    method Insert(c: Contract, id: int, value: real)
      modifies this
      ensures rows == SetIfAbsent(old(rows), c, id, value)
    {
      if (c, id) !in rows {
        rows := rows[(c, id) := value];
      }
    }

    method Update(c: Contract, id: int, value: real)
      modifies this
      ensures rows == SetIfThere(old(rows), c, id, value)
    {
      if (c, id) in rows {
        rows := rows[(c, id) := value];
      }
    }

    method InsertGroup(a: Args, low: int, lowDay: int)
      modifies this
      ensures rows == MsInserted(old(rows), a, low, lowDay)
    {
      var c := a.contract;
      Insert(c, low, a.low);
      Insert(c, lowDay, a.lowDay as real);
      Insert(c, low + 1, a.high);
      Insert(c, lowDay - 1, a.highDay as real);
      if a.dayCount != 0 {
        Insert(c, 0, a.lastUpdate as real);
        Insert(c, 5, a.average);
      }
    }

    method UpdateGroup(a: Args, low: int, lowDay: int)
      modifies this
      ensures rows == MsUpdated(old(rows), a, low, lowDay)
    {
      var c := a.contract;
      Update(c, low, a.low);
      Update(c, lowDay, a.lowDay as real);
      Update(c, low + 1, a.high);
      Update(c, lowDay - 1, a.highDay as real);
      if a.dayCount != 0 {
        Update(c, 0, a.lastUpdate as real);
        Update(c, 5, a.average);
      }
    }

    method StatisticUpdate(a: Args)
      modifies this
      ensures MsEffect(old(rows), a, rows)
    {
      var low := if a.dayCount == 0 then 1 else 3;
      var lowDay := if a.dayCount == 0 then 255 else 253;
      ghost var u := rows;
      if (a.contract, low) !in rows {
        InsertGroup(a, low, lowDay);
        forall k ensures At(rows, k) == MsCell(u, a, k) {
          MsInsertedAt(u, a, low, lowDay, k);
        }
      } else {
        UpdateGroup(a, low, lowDay);
        forall k ensures At(rows, k) == MsCell(u, a, k) {
          MsUpdatedAt(u, a, low, lowDay, k);
        }
      }
    }
  }

  lemma MsSimulatesAt(t: Table, u: Table, a: Args, u': Table, c: Contract, id: int)
    requires Encodes(t, u) && MsEffect(u, a, u') && CanWrite(t, a.contract, a.dayCount) && id in ALL_IDS
    ensures At(Called(t, a), (c, id)) == At(u', (c, Byte(id)))
  {
    var low := LowId(a.dayCount);
    assert At(t, (c, id)) == At(u, (c, Byte(id)));
    assert At(t, (a.contract, low)) == At(u, (a.contract, Byte(low))) && Byte(low) == low;
    assert Signed(Byte(id)) == id;
    assert InGroup(a, (c, id)) <==> MsInGroup(a, (c, Byte(id)));
    assert At(u', (c, Byte(id))) == MsCell(u, a, (c, Byte(id)));
  }

  /** The MS SQL version does what the MySQL version does, ids taken modulo 256, exactly when no
      insert of the call meets an existing row. */
  lemma MsSqlSimulatesIffNoInsertFails(t: Table, u: Table, a: Args, u': Table)
    requires Encodes(t, u) && MsEffect(u, a, u')
    ensures Encodes(Called(t, a), u') <==> CanWrite(t, a.contract, a.dayCount)
  {
    var t', low := Called(t, a), LowId(a.dayCount);
    assert low in GroupOf(a.dayCount) && Byte(low) == low;
    assert At(t, (a.contract, low)) == At(u, (a.contract, low));
    if CanWrite(t, a.contract, a.dayCount) {
      forall c, id | id in ALL_IDS ensures At(t', (c, id)) == At(u', (c, Byte(id))) {
        MsSimulatesAt(t, u, a, u', c, id);
      }
    } else {
      assert At(u', (a.contract, low)) == MsCell(u, a, (a.contract, low)) == Cell(Wanted(a, low));
      assert At(t', (a.contract, low)) == NoRow;
    }
  }

  /** One event on the second table: a call, or a write that leaves the rows of both groups alone. */
  ghost predicate MsStep(u: Table, e: Event, u': Table) {
    match e
    case Call(a) => MsEffect(u, a, u')
    case Other(_, _, _) => forall c, id | id in ALL_IDS :: At(u', (c, Byte(id))) == At(u, (c, Byte(id)))
  }

  lemma OtherLeavesTheGroups(t: Table, e: Event, c: Contract, id: int)
    requires e.Other? && id in ALL_IDS
    ensures At(Step(t, e), (c, id)) == At(t, (c, id))
  {
  }

  /** So over every run from empty tables the two keep holding the same rows. */
  lemma {:induction false} MsSqlFollowsEveryRun(run: seq<Event>, us: seq<Table>)
    requires |us| == |run| + 1 && us[0] == map[]
    requires forall k | 0 <= k < |run| :: MsStep(us[k], run[k], us[k + 1])
    ensures Encodes(Run(run), us[|run|])
  {
    if run != [] {
      var n := |run| - 1;
      var t, u, u', e := Run(run[..n]), us[n], us[n + 1], run[n];
      MsSqlFollowsEveryRun(run[..n], us[..n + 1]);
      assert MsStep(u, e, u');
      match e {
        case Call(a) =>
          GroupsStayWhole(run[..n], a.contract, a.dayCount);
          MsSqlSimulatesIffNoInsertFails(t, u, a, u');
        case Other(_, _, _) =>
          forall c, id | id in ALL_IDS ensures At(Step(t, e), (c, id)) == At(u', (c, Byte(id))) {
            OtherLeavesTheGroups(t, e, c, id);
            assert At(t, (c, id)) == At(u, (c, Byte(id)));
          }
      }
    }
  }
}
