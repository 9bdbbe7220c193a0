/**
 Statistics requests: the filter over the stored rows, and the statistics computed for a contract
 whose stored ones are missing.
 */
module StatRequests {
  import opened Wrappers

  type Contract = nat
  type Day = int

  // The ids of the stored rows; a day is stored under the negated id of its statistic.
  const UPDATE_DAY := 0
  const ATH := 2
  const PWL := 6

  // ----- The row filter -----

  datatype Row = Row(contract: Contract, id: int, value: real)

  function Abs(x: int): nat {
    if x < 0 then -x else x
  }

  /** Last written before the previous trading day of the contract. */
  predicate StaleRow(r: Row, previousDay: Contract -> Day) {
    r.id == UPDATE_DAY && r.value.Floor < previousDay(r.contract)
  }

  predicate Stale(rows: seq<Row>, c: Contract, previousDay: Contract -> Day) {
    exists i :: 0 <= i < |rows| && rows[i].contract == c && StaleRow(rows[i], previousDay)
  }

  predicate Exempt(r: Row) {
    Abs(r.id) == PWL || Abs(r.id) == ATH
  }

  predicate KeptRow(r: Row, stale: bool) {
    r.id != UPDATE_DAY && (Exempt(r) || !stale)
  }

  /** What the single pass keeps: staleness is what the rows up to this one have shown. */
  function OnePass(rows: seq<Row>, previousDay: Contract -> Day): seq<Row> {
    if rows == [] then []
    else
      var before, r := rows[..|rows| - 1], rows[|rows| - 1];
      OnePass(before, previousDay) + if KeptRow(r, Stale(before, r.contract, previousDay)) then [r] else []
  }

  /** The filter meant: first find the stale contracts of `all`, then filter. */
  function TwoPass(rows: seq<Row>, all: seq<Row>, previousDay: Contract -> Day): seq<Row> {
    if rows == [] then []
    else
      var before, r := rows[..|rows| - 1], rows[|rows| - 1];
      TwoPass(before, all, previousDay) + if KeptRow(r, Stale(all, r.contract, previousDay)) then [r] else []
  }

  method FilterRows(rows: seq<Row>, previousDay: Contract -> Day) returns (kept: seq<Row>, recalc: set<Contract>)
    ensures kept == OnePass(rows, previousDay)
    ensures forall c :: c in recalc <==> Stale(rows, c, previousDay)
  {
    kept, recalc := [], {};
    for i := 0 to |rows|
      invariant kept == OnePass(rows[..i], previousDay)
      invariant forall c :: c in recalc <==> Stale(rows[..i], c, previousDay)
    {
      var r := rows[i];
      assert rows[..i + 1][..i] == rows[..i];
      forall c ensures Stale(rows[..i + 1], c, previousDay) <==>
        (Stale(rows[..i], c, previousDay) || (c == r.contract && StaleRow(r, previousDay)))
      {
        StaleAfter(rows[..i + 1], c, previousDay);
      }
      if r.id == UPDATE_DAY {
        if r.value.Floor < previousDay(r.contract) {
          recalc := recalc + {r.contract};
        }
        continue;
      }
      if Abs(r.id) != PWL && Abs(r.id) != ATH && r.contract in recalc {
        continue;
      }
      kept := kept + [r];
    }
    assert rows[..|rows|] == rows;
  }

  lemma StaleAfter(rows: seq<Row>, c: Contract, previousDay: Contract -> Day)
    requires rows != []
    ensures Stale(rows, c, previousDay) <==>
      var before, last := rows[..|rows| - 1], rows[|rows| - 1];
      Stale(before, c, previousDay) || (last.contract == c && StaleRow(last, previousDay))
  {
    var before := rows[..|rows| - 1];
    if Stale(before, c, previousDay) {
      var i :| 0 <= i < |before| && before[i].contract == c && StaleRow(before[i], previousDay);
      assert rows[i].contract == c && StaleRow(rows[i], previousDay);
    }
    if Stale(rows, c, previousDay) {
      var i :| 0 <= i < |rows| && rows[i].contract == c && StaleRow(rows[i], previousDay);
      assert i < |rows| - 1 ==> rows[..|rows| - 1][i] == rows[i];
    }
  }

  /** Row `k` comes before anything shows that its contract is stale, and would have been dropped. */
  predicate TooEarly(rows: seq<Row>, k: nat, previousDay: Contract -> Day) {
    && k < |rows| && rows[k].id != UPDATE_DAY && !Exempt(rows[k])
    && Stale(rows, rows[k].contract, previousDay) && !Stale(rows[..k], rows[k].contract, previousDay)
  }

  lemma {:induction false} PassesUpTo(rows: seq<Row>, n: nat, previousDay: Contract -> Day)
    requires n <= |rows|
    ensures |TwoPass(rows[..n], rows, previousDay)| <= |OnePass(rows[..n], previousDay)|
    ensures if exists k: nat :: k < n && TooEarly(rows, k, previousDay)
            then |TwoPass(rows[..n], rows, previousDay)| < |OnePass(rows[..n], previousDay)|
            else TwoPass(rows[..n], rows, previousDay) == OnePass(rows[..n], previousDay)
  {
    if n > 0 {
      PassesUpTo(rows, n - 1, previousDay);
      assert rows[..n][..n - 1] == rows[..n - 1];
      var r := rows[n - 1];
      if Stale(rows[..n - 1], r.contract, previousDay) {
        var i :| 0 <= i < n - 1 && rows[..n - 1][i].contract == r.contract && StaleRow(rows[..n - 1][i], previousDay);
        assert rows[i] == rows[..n - 1][i];
      }
      assert KeptRow(r, Stale(rows, r.contract, previousDay))
               != KeptRow(r, Stale(rows[..n - 1], r.contract, previousDay))
             <==> TooEarly(rows, n - 1, previousDay);
    }
  }

  /** On any rows, the single pass is the two-pass filter if and only if no row comes too early. */
  lemma OnePassIsTwoPassIffNoneComesTooEarly(rows: seq<Row>, previousDay: Contract -> Day)
    ensures OnePass(rows, previousDay) == TwoPass(rows, rows, previousDay)
            <==> !exists k: nat :: TooEarly(rows, k, previousDay)
  {
    assert rows[..|rows|] == rows;
    PassesUpTo(rows, |rows|, previousDay);
  }

  lemma UpdateDaysComeFirst(rows: seq<Row>, k: nat, previousDay: Contract -> Day)
    requires forall i, j | 0 <= i < j < |rows| :: Abs(rows[i].id) <= Abs(rows[j].id)
    requires k < |rows| && rows[k].id != UPDATE_DAY && Stale(rows, rows[k].contract, previousDay)
    ensures Stale(rows[..k], rows[k].contract, previousDay)
  {
    var i :| 0 <= i < |rows| && rows[i].contract == rows[k].contract && StaleRow(rows[i], previousDay);
    assert i < k;
    assert rows[..k][i] == rows[i];
  }

  /** Ordered by the absolute value of the id, as the query orders them, none does: the update day
      has id 0. */
  lemma OrderedRowsAreFilteredAsMeant(rows: seq<Row>, previousDay: Contract -> Day)
    requires forall i, j | 0 <= i < j < |rows| :: Abs(rows[i].id) <= Abs(rows[j].id)
    ensures OnePass(rows, previousDay) == TwoPass(rows, rows, previousDay)
  {
    forall k: nat | k < |rows| && rows[k].id != UPDATE_DAY && Stale(rows, rows[k].contract, previousDay)
      ensures Stale(rows[..k], rows[k].contract, previousDay)
    {
      UpdateDaysComeFirst(rows, k, previousDay);
    }
    OnePassIsTwoPassIffNoneComesTooEarly(rows, previousDay);
  }

  predicate Ascends(at: seq<nat>) {
    forall i, j | 0 <= i < j < |at| :: at[i] < at[j]
  }

  /** `out` are the rows at the positions `at`, in their order. */
  predicate Picks(at: seq<nat>, out: seq<Row>, rows: seq<Row>) {
    Ascends(at) && |out| == |at| && forall i | 0 <= i < |at| :: at[i] < |rows| && out[i] == rows[at[i]]
  }

  lemma PicksSnoc(at: seq<nat>, out: seq<Row>, rows: seq<Row>, r: Row)
    requires Picks(at, out, rows)
    ensures Picks(at, out, rows + [r]) && Picks(at + [|rows|], out + [r], rows + [r])
    ensures |rows| !in at && forall k: nat :: k in at + [|rows|] <==> k in at || k == |rows|
  {
  }

  /** Shown by the rows before `n`: the contract was last updated before its previous trading day. */
  predicate OutOfDate(rows: seq<Row>, n: nat, c: Contract, previousDay: Contract -> Day)
    requires n <= |rows|
  {
    exists i :: 0 <= i < n && rows[i].contract == c && rows[i].id == 0 && rows[i].value.Floor < previousDay(c)
  }

  lemma StaleIffOutOfDate(rows: seq<Row>, n: nat, c: Contract, previousDay: Contract -> Day)
    requires n <= |rows|
    ensures Stale(rows[..n], c, previousDay) <==> OutOfDate(rows, n, c, previousDay)
  {
    if Stale(rows[..n], c, previousDay) {
      var i :| 0 <= i < n && rows[..n][i].contract == c && StaleRow(rows[..n][i], previousDay);
      assert rows[i] == rows[..n][i];
    }
    if i :| 0 <= i < n && rows[i].contract == c && rows[i].id == 0 && rows[i].value.Floor < previousDay(c) {
      assert rows[..n][i] == rows[i];
    }
  }

  /** Row `k` is no update day, and is of the two statistics that no date matters for, or of a contract
      that nothing before it has shown to be out of date. */
  predicate Passes(rows: seq<Row>, k: nat, previousDay: Contract -> Day) {
    && k < |rows| && rows[k].id != 0
    && (rows[k].id in {2, -2, 6, -6} || !OutOfDate(rows, k, rows[k].contract, previousDay))
  }

  /** The single pass keeps, in their order, exactly the rows that pass. */
  lemma {:induction false} OnePassKeepsWhatPasses(rows: seq<Row>, previousDay: Contract -> Day)
    returns (at: seq<nat>)
    ensures Picks(at, OnePass(rows, previousDay), rows)
    ensures forall k: nat :: k in at <==> Passes(rows, k, previousDay)
  {
    at := [];
    if rows != [] {
      var n := |rows| - 1;
      at := OnePassKeepsWhatPasses(rows[..n], previousDay);
      PicksSnoc(at, OnePass(rows[..n], previousDay), rows[..n], rows[n]);
      assert rows[..n] + [rows[n]] == rows;
      forall k: nat | k < n ensures Passes(rows[..n], k, previousDay) <==> Passes(rows, k, previousDay) {
        OutOfDatePrefix(rows, n, k, rows[k].contract, previousDay);
      }
      StaleIffOutOfDate(rows, n, rows[n].contract, previousDay);
      if Passes(rows, n, previousDay) {
        at := at + [n];
      } else {
        assert OnePass(rows[..n], previousDay) + [] == OnePass(rows[..n], previousDay);
      }
    }
  }

  lemma OutOfDatePrefix(rows: seq<Row>, n: nat, k: nat, c: Contract, previousDay: Contract -> Day)
    requires k <= n <= |rows|
    ensures OutOfDate(rows[..n], k, c, previousDay) <==> OutOfDate(rows, k, c, previousDay)
  {
    if i :| 0 <= i < k && rows[i].contract == c && rows[i].id == 0 && rows[i].value.Floor < previousDay(c) {
      assert rows[..n][i] == rows[i];
    }
  }

  /** Ordered by the absolute value of the id, the rows kept depend on the contract's update day alone. */
  lemma OrderedRowsKept(rows: seq<Row>, previousDay: Contract -> Day) returns (at: seq<nat>)
    requires forall i, j | 0 <= i < j < |rows| :: Abs(rows[i].id) <= Abs(rows[j].id)
    ensures Picks(at, OnePass(rows, previousDay), rows)
    ensures forall k: nat :: k in at <==>
      && k < |rows| && rows[k].id != 0
      && (rows[k].id in {2, -2, 6, -6} || !OutOfDate(rows, |rows|, rows[k].contract, previousDay))
  {
    at := OnePassKeepsWhatPasses(rows, previousDay);
    forall k: nat | k < |rows| && rows[k].id != 0
      ensures OutOfDate(rows, k, rows[k].contract, previousDay)
              <==> OutOfDate(rows, |rows|, rows[k].contract, previousDay) {
      StaleIffOutOfDate(rows, k, rows[k].contract, previousDay);
      StaleIffOutOfDate(rows, |rows|, rows[k].contract, previousDay);
      assert rows[..|rows|] == rows;
      if Stale(rows, rows[k].contract, previousDay) {
        UpdateDaysComeFirst(rows, k, previousDay);
      }
    }
  }

  // ----- The statistics computed for one contract -----

  datatype Stat = Atl | Ath | YearLow | YearHigh | MA100 | Pwl

  /** The days a query goes back: all of them, or a year. */
  datatype Span = AllTime | Year

  function SpanOf(s: Stat): Span {
    if s == Atl || s == Ath then AllTime else Year
  }

  datatype Result = Result(low: real, lowDay: Day, high: real, highDay: Day, average: real)

  /** One entry of the message: a statistic, or the day of one. */
  datatype Entry = Main(stat: Stat, value: real) | DayOf(stat: Stat, day: Day)

  predicate Has(message: seq<Entry>, s: Stat) {
    exists i :: 0 <= i < |message| && message[i].Main? && message[i].stat == s
  }

  /** No statistic and no day occurs twice. */
  predicate NoneTwice(message: seq<Entry>) {
    forall i, j | 0 <= i < j < |message| :: message[i].stat != message[j].stat || message[i].Main? != message[j].Main?
  }

  function MainValue(s: Stat, r: Result): real {
    if s == MA100 then r.average else if s == Atl || s == YearLow then r.low else r.high
  }

  /** The entries of a statistic: its value, and its day unless it is an average. */
  function EntriesOf(s: Stat, r: Result): seq<Entry> {
    [Main(s, MainValue(s, r))] +
    if s == MA100 then [] else [DayOf(s, if s == Atl || s == YearLow then r.lowDay else r.highDay)]
  }

  /** The entries an answer may give rise to: the lows carry its low and the day of it, the highs its
      high and the day of that, and the moving average its average and no day. */
  predicate Carries(e: Entry, r: Result) {
    match e
    case Main(s, value) => (
      match s
      case Atl => value == r.low
      case YearLow => value == r.low
      case Ath => value == r.high
      case YearHigh => value == r.high
      case MA100 => value == r.average
      case Pwl => false)
    case DayOf(s, day) => (
      match s
      case Atl => day == r.lowDay
      case YearLow => day == r.lowDay
      case Ath => day == r.highDay
      case YearHigh => day == r.highDay
      case MA100 => false
      case Pwl => false)
  }

  /** The statistic at `i` is followed by its day, unless it has none. */
  predicate DayFollows(message: seq<Entry>, i: nat)
    requires i < |message|
  {
    message[i].stat in {Atl, Ath, YearLow, YearHigh} ==>
      i + 1 < |message| && message[i + 1].DayOf? && message[i + 1].stat == message[i].stat
  }

  predicate StatPrecedes(message: seq<Entry>, i: nat)
    requires i < |message|
  {
    0 < i && message[i - 1].Main? && message[i - 1].stat == message[i].stat
  }

  /** Every statistic that has a day is followed by it, and days stand nowhere else. */
  predicate EachWithItsDay(message: seq<Entry>) {
    forall i: nat | i < |message| ::
      if message[i].Main? then DayFollows(message, i) else StatPrecedes(message, i)
  }

  lemma EachWithItsDayAppend(a: seq<Entry>, b: seq<Entry>)
    requires EachWithItsDay(a) && EachWithItsDay(b)
    ensures EachWithItsDay(a + b)
  {
    var m := a + b;
    forall i: nat | i < |m| ensures if m[i].Main? then DayFollows(m, i) else StatPrecedes(m, i) {
      if i < |a| {
        assert if a[i].Main? then DayFollows(a, i) else StatPrecedes(a, i);
      } else {
        assert if b[i - |a|].Main? then DayFollows(b, i - |a|) else StatPrecedes(b, i - |a|);
      }
    }
  }

  lemma EntriesCarryTheAnswer(s: Stat, r: Result)
    requires s != Pwl
    ensures EachWithItsDay(EntriesOf(s, r)) && forall e | e in EntriesOf(s, r) :: Carries(e, r)
  {
    var es := EntriesOf(s, r);
    assert es[0] == Main(s, MainValue(s, r));
    if s != MA100 {
      assert es[1] == DayOf(s, if s == Atl || s == YearLow then r.lowDay else r.highDay);
      assert EachWithItsDay(es);
    }
  }

  lemma {:induction false} CollectHasItsDays(requested: seq<Stat>, stats: seq<Stat>, r: Result)
    requires Pwl !in stats
    ensures EachWithItsDay(Collect(requested, stats, r))
  {
    if stats != [] {
      CollectHasItsDays(requested, stats[..|stats| - 1], r);
      EntriesCarryTheAnswer(stats[|stats| - 1], r);
      EachWithItsDayAppend(Collect(requested, stats[..|stats| - 1], r), Wanted(requested, stats[|stats| - 1], r));
    }
  }

  /** The statistic asked for comes first, and the others of its span in the order year low, year high,
      average. */
  predicate ComesBefore(asked: Stat, a: Stat, b: Stat) {
    a == asked || (b != asked && Rank(a) < Rank(b))
  }

  function Rank(s: Stat): nat {
    match s
    case YearLow => 1
    case YearHigh => 2
    case MA100 => 3
    case Ath => 4
    case Atl => 5
    case Pwl => 6
  }

  predicate InOrder(asked: Stat, message: seq<Entry>) {
    forall i, j | 0 <= i < j < |message| && message[i].stat != message[j].stat ::
      ComesBefore(asked, message[i].stat, message[j].stat)
  }

  lemma InOrderAppend(asked: Stat, a: seq<Entry>, b: seq<Entry>, s: Stat)
    requires InOrder(asked, a) && (forall e | e in b :: e.stat == s)
    requires forall e | e in a :: ComesBefore(asked, e.stat, s)
    ensures InOrder(asked, a + b)
  {
    forall i, j | 0 <= i < j < |a + b| && (a + b)[i].stat != (a + b)[j].stat
      ensures ComesBefore(asked, (a + b)[i].stat, (a + b)[j].stat) {
      if i < |a| {
        assert a[i] in a;
      }
      if j >= |a| {
        assert b[j - |a|] in b;
      }
    }
  }

  lemma {:induction false} CollectIsInOrder(asked: Stat, requested: seq<Stat>, stats: seq<Stat>, r: Result)
    requires forall i, j | 0 <= i < j < |stats| :: ComesBefore(asked, stats[i], stats[j])
    ensures InOrder(asked, Collect(requested, stats, r))
    ensures forall e | e in Collect(requested, stats, r) :: e.stat in stats
  {
    if stats != [] {
      var n := |stats| - 1;
      CollectIsInOrder(asked, requested, stats[..n], r);
      EntriesOfOne(stats[n], r);
      forall e | e in Collect(requested, stats[..n], r)
        ensures ComesBefore(asked, e.stat, stats[n]) && e.stat in stats {
        assert e.stat in stats[..n];
      }
      InOrderAppend(asked, Collect(requested, stats[..n], r), Wanted(requested, stats[n], r), stats[n]);
    }
  }

  /** What one answer adds, read off the answer alone. */
  lemma SpanIsInOrder(requested: seq<Stat>, s: Stat, r: Result)
    requires s != Pwl
    ensures var more := SpanEntries(requested, s, r);
      InOrder(s, more) && EachWithItsDay(more) && forall e | e in more :: Carries(e, r)
  {
    OrderIsTheSpan(s, Pwl);
    CollectIsInOrder(s, requested, Order(s), r);
    CollectHasItsDays(requested, Order(s), r);
    CollectHoldsEachOnce(requested, Order(s), r);
    forall e | e in SpanEntries(requested, s, r) ensures Carries(e, r) {
      EntriesCarryTheAnswer(e.stat, r);
    }
  }

  /** The span of a statistic in the order in which it is added: the one that asked first. */
  function Order(s: Stat): seq<Stat> {
    match s
    case YearLow => [YearLow, YearHigh, MA100]
    case YearHigh => [YearHigh, YearLow, MA100]
    case MA100 => [MA100, YearLow, YearHigh]
    case Ath => [Ath, Atl]
    case Atl => [Atl, Ath]
    case Pwl => [Pwl]
  }

  function Wanted(requested: seq<Stat>, s: Stat, r: Result): seq<Entry> {
    if s in requested then EntriesOf(s, r) else []
  }

  function Collect(requested: seq<Stat>, stats: seq<Stat>, r: Result): seq<Entry> {
    if stats == [] then []
    else Collect(requested, stats[..|stats| - 1], r) + Wanted(requested, stats[|stats| - 1], r)
  }

  /** What one answer adds. */
  function SpanEntries(requested: seq<Stat>, s: Stat, r: Result): seq<Entry> {
    Collect(requested, Order(s), r)
  }

  predicate Distinct(stats: seq<Stat>) {
    forall i, j | 0 <= i < j < |stats| :: stats[i] != stats[j]
  }

  lemma EntriesOfOne(s: Stat, r: Result)
    ensures NoneTwice(EntriesOf(s, r)) && Has(EntriesOf(s, r), s)
    ensures forall e | e in EntriesOf(s, r) :: e.stat == s
  {
    assert EntriesOf(s, r)[0] == Main(s, MainValue(s, r));
  }

  lemma {:induction false} CollectHoldsEachOnce(requested: seq<Stat>, stats: seq<Stat>, r: Result)
    requires Distinct(stats)
    ensures NoneTwice(Collect(requested, stats, r))
    ensures forall e | e in Collect(requested, stats, r) ::
      e.stat in stats && e.stat in requested && e in EntriesOf(e.stat, r)
    ensures forall t | t in stats && t in requested :: Has(Collect(requested, stats, r), t)
  {
    if stats != [] {
      var before, s := stats[..|stats| - 1], stats[|stats| - 1];
      CollectHoldsEachOnce(requested, before, r);
      EntriesOfOne(s, r);
      assert s !in before;
      NoneTwiceAppend(Collect(requested, before, r), Wanted(requested, s, r));
      forall t | t in stats && t in requested ensures Has(Collect(requested, stats, r), t) {
        HasAppend(Collect(requested, before, r), Wanted(requested, s, r), t);
        assert t in before || t == s;
      }
    }
  }

  lemma OrderIsTheSpan(s: Stat, t: Stat)
    requires s != Pwl
    ensures Distinct(Order(s)) && (t in Order(s) <==> t != Pwl && SpanOf(t) == SpanOf(s))
  {
    var o := Order(s);
    match s {
      case YearLow => assert o[0] == YearLow && o[1] == YearHigh && o[2] == MA100;
      case YearHigh => assert o[0] == YearHigh && o[1] == YearLow && o[2] == MA100;
      case MA100 => assert o[0] == MA100 && o[1] == YearLow && o[2] == YearHigh;
      case Ath => assert o[0] == Ath && o[1] == Atl;
      case Atl => assert o[0] == Atl && o[1] == Ath;
    }
  }

  lemma Collect2(requested: seq<Stat>, s: Stat, t: Stat, r: Result)
    ensures Collect(requested, [s, t], r) == Wanted(requested, s, r) + Wanted(requested, t, r)
  {
    assert [s, t][..1] == [s] && [s][..0] == [];
    assert Collect(requested, [s], r) == Wanted(requested, s, r);
  }

  lemma Collect3(requested: seq<Stat>, s: Stat, t: Stat, u: Stat, r: Result)
    ensures Collect(requested, [s, t, u], r)
            == Wanted(requested, s, r) + Wanted(requested, t, r) + Wanted(requested, u, r)
  {
    assert [s, t, u][..2] == [s, t];
    Collect2(requested, s, t, r);
  }

  method Add(message: seq<Entry>, requested: seq<Stat>, s: Stat, r: Result) returns (message': seq<Entry>)
    ensures message' == message + Wanted(requested, s, r)
  {
    message' := message;
    if s !in requested {
      return;
    }
    message' := message' + [Main(s, MainValue(s, r))];
    if s != MA100 {
      var low := s == Atl || s == YearLow;
      message' := message' + [DayOf(s, if low then r.lowDay else r.highDay)];
    }
  }

  lemma Regroup(m: seq<Entry>, a: seq<Entry>, b: seq<Entry>, c: seq<Entry>)
    ensures m + a + b + c == m + (a + b + c)
  {
  }

  method Add3(message: seq<Entry>, requested: seq<Stat>, s: Stat, t: Stat, u: Stat, r: Result)
    returns (message': seq<Entry>)
    ensures message' == message + Collect(requested, [s, t, u], r)
  {
    Collect3(requested, s, t, u, r);
    ghost var a, b, c := Wanted(requested, s, r), Wanted(requested, t, r), Wanted(requested, u, r);
    message' := Add(message, requested, s, r);
    message' := Add(message', requested, t, r);
    message' := Add(message', requested, u, r);
    Regroup(message, a, b, c);
  }

  method AddSpan(message: seq<Entry>, requested: seq<Stat>, s: Stat, r: Result) returns (message': seq<Entry>)
    requires s != Pwl
    ensures message' == message + SpanEntries(requested, s, r)
  {
    if s == YearLow {
      message' := Add3(message, requested, s, YearHigh, MA100, r);
    } else if s == YearHigh {
      message' := Add3(message, requested, s, YearLow, MA100, r);
    } else if s == MA100 {
      message' := Add3(message, requested, s, YearLow, YearHigh, r);
    } else if s == Ath {
      Collect2(requested, s, Atl, r);
      message' := Add(message, requested, s, r);
      message' := Add(message', requested, Atl, r);
    } else {
      Collect2(requested, s, Ath, r);
      message' := Add(message, requested, s, r);
      message' := Add(message', requested, Ath, r);
    }
  }

  /** A query made for a statistic at an iteration, the days it goes back, and its answer, `None` if it
      threw. Zero days are all there are. */
  datatype Query = Query(stat: Stat, days: nat, answer: Option<Result>)

  function Parts(requested: seq<Stat>, calls: seq<Query>): seq<Entry> {
    if calls == [] then []
    else
      var q := calls[|calls| - 1];
      Parts(requested, calls[..|calls| - 1]) +
      if q.answer.Some? then SpanEntries(requested, q.stat, q.answer.value) else []
  }

  /** The message once the answers of the queries have been added to what it started with. */
  function Built(requested: seq<Stat>, start: seq<Entry>, calls: seq<Query>): seq<Entry> {
    if calls == [] then start
    else
      var before, q := Built(requested, start, calls[..|calls| - 1]), calls[|calls| - 1];
      if q.answer.Some? then before + SpanEntries(requested, q.stat, q.answer.value) else before
  }

  lemma {:induction false} BuiltIsParts(requested: seq<Stat>, start: seq<Entry>, calls: seq<Query>)
    ensures Built(requested, start, calls) == start + Parts(requested, calls)
  {
    if calls != [] {
      BuiltIsParts(requested, start, calls[..|calls| - 1]);
    }
  }

  /** A query for a requested statistic: over all days for an all-time one, else over a year. */
  predicate IsAsked(requested: seq<Stat>, q: Query) {
    q.stat in requested && q.stat != Pwl && q.days == if q.stat == Ath || q.stat == Atl then 0 else 365
  }

  /** At most one query per span, each for a requested statistic, over its days. */
  predicate OncePerSpan(requested: seq<Stat>, calls: seq<Query>) {
    && (forall i | 0 <= i < |calls| :: IsAsked(requested, calls[i]))
    && forall i, j | 0 <= i < j < |calls| :: SpanOf(calls[i].stat) != SpanOf(calls[j].stat)
  }

  lemma HasAppend(a: seq<Entry>, b: seq<Entry>, s: Stat)
    ensures Has(a + b, s) <==> Has(a, s) || Has(b, s)
  {
    if Has(a, s) {
      var i :| 0 <= i < |a| && a[i].Main? && a[i].stat == s;
      assert (a + b)[i] == a[i];
    }
    if Has(b, s) {
      var i :| 0 <= i < |b| && b[i].Main? && b[i].stat == s;
      assert (a + b)[|a| + i] == b[i];
    }
  }

  lemma NoneTwiceAppend(a: seq<Entry>, b: seq<Entry>)
    requires NoneTwice(a) && NoneTwice(b) && forall x, y | x in a && y in b :: x.stat != y.stat
    ensures NoneTwice(a + b)
  {
  }

  predicate From(e: Entry, q: Query) {
    SpanOf(q.stat) == SpanOf(e.stat) && q.answer.Some? && Carries(e, q.answer.value)
  }

  predicate Sourced(e: Entry, requested: seq<Stat>, calls: seq<Query>) {
    e.stat != Pwl && e.stat in requested && exists q :: q in calls && From(e, q)
  }

  lemma SpanFacts(requested: seq<Stat>, q: Query)
    requires q.stat != Pwl && q.answer.Some?
    ensures NoneTwice(SpanEntries(requested, q.stat, q.answer.value))
    ensures forall e | e in SpanEntries(requested, q.stat, q.answer.value) ::
      e.stat != Pwl && e.stat in requested && From(e, q)
    ensures forall t | t in requested && t != Pwl && SpanOf(t) == SpanOf(q.stat) ::
      Has(SpanEntries(requested, q.stat, q.answer.value), t)
  {
    OrderIsTheSpan(q.stat, Pwl);
    CollectHoldsEachOnce(requested, Order(q.stat), q.answer.value);
    SpanIsInOrder(requested, q.stat, q.answer.value);
    forall t ensures t in Order(q.stat) <==> t != Pwl && SpanOf(t) == SpanOf(q.stat) {
      OrderIsTheSpan(q.stat, t);
    }
  }

  lemma {:induction false} PartsHoldEachOnce(requested: seq<Stat>, calls: seq<Query>)
    requires OncePerSpan(requested, calls)
    ensures NoneTwice(Parts(requested, calls)) && EachWithItsDay(Parts(requested, calls))
    ensures forall e | e in Parts(requested, calls) :: Sourced(e, requested, calls)
  {
    if calls != [] {
      var before, q := calls[..|calls| - 1], calls[|calls| - 1];
      PartsHoldEachOnce(requested, before);
      forall e | e in Parts(requested, before)
        ensures Sourced(e, requested, calls) && SpanOf(e.stat) != SpanOf(q.stat)
      {
        var p :| p in before && From(e, p);
        assert p in calls;
      }
      if q.answer.Some? {
        SpanFacts(requested, q);
        assert q in calls;
        NoneTwiceAppend(Parts(requested, before), SpanEntries(requested, q.stat, q.answer.value));
        SpanIsInOrder(requested, q.stat, q.answer.value);
        EachWithItsDayAppend(Parts(requested, before), SpanEntries(requested, q.stat, q.answer.value));
      }
    }
  }

  lemma {:induction false} PartsHoldWhatWasAnswered(requested: seq<Stat>, calls: seq<Query>, q: Query, t: Stat)
    requires OncePerSpan(requested, calls) && q in calls && q.answer.Some?
    requires t in requested && t != Pwl && SpanOf(t) == SpanOf(q.stat)
    ensures Has(Parts(requested, calls), t)
  {
    var before, last := calls[..|calls| - 1], calls[|calls| - 1];
    var more := if last.answer.Some? then SpanEntries(requested, last.stat, last.answer.value) else [];
    HasAppend(Parts(requested, before), more, t);
    if last == q {
      SpanFacts(requested, q);
    } else {
      PartsHoldWhatWasAnswered(requested, before, q, t);
    }
  }

  lemma AtMostTwoQueries(requested: seq<Stat>, calls: seq<Query>)
    requires OncePerSpan(requested, calls)
    ensures |calls| <= 2
  {
    if |calls| > 2 {
      OneOfTwo(SpanOf(calls[0].stat), SpanOf(calls[1].stat), SpanOf(calls[2].stat));
    }
  }

  lemma OneOfTwo(a: Span, b: Span, c: Span)
    ensures a == b || b == c || a == c
  {
  }

  /** A statistic asked for at iteration `k` was skipped because the contract has no data a year old. */
  predicate SkippedAt(requested: seq<Stat>, k: nat, tooRecent: nat -> bool)
    requires k < |requested|
  {
    SpanOf(requested[k]) == AllTime && tooRecent(k)
  }

  /** The first `n` statistics requested are in the rows sent before or in the message, unless skipped. */
  predicate Covers(requested: seq<Stat>, n: nat, stored: set<Stat>, message: seq<Entry>, tooRecent: nat -> bool) {
    forall k: nat | k < n && k < |requested| ::
      requested[k] in stored || Has(message, requested[k]) || SkippedAt(requested, k, tooRecent)
  }

  lemma QueryAsked(requested: seq<Stat>, start: seq<Entry>, calls: seq<Query>, q: Query)
    requires OncePerSpan(requested, calls) && IsAsked(requested, q)
    requires forall p | p in calls :: SpanOf(p.stat) != SpanOf(q.stat)
    ensures OncePerSpan(requested, calls + [q])
    ensures var before := Built(requested, start, calls);
      Built(requested, start, calls + [q])
      == if q.answer.Some? then before + SpanEntries(requested, q.stat, q.answer.value) else before
  {
    assert (calls + [q])[..|calls|] == calls;
  }

  lemma MessageGrows(message: seq<Entry>, more: seq<Entry>)
    ensures forall t | Has(message, t) :: Has(message + more, t)
  {
    forall t | Has(message, t) ensures Has(message + more, t) {
      HasAppend(message, more, t);
    }
  }

  /** The message before the loop: the price of 2020-02-20, if it is wanted and the contract's first
      timestamp is known. */
  function StartOf(requested: seq<Stat>, stored: set<Stat>, haveHead: bool, pwl: real): seq<Entry> {
    if Pwl in requested && Pwl !in stored && haveHead then [Main(Pwl, pwl)] else []
  }

  /** Some statistic needs a query, and the empty timestamp is read for it. */
  predicate ReadsEmptyHead(requested: seq<Stat>, stored: set<Stat>, haveHead: bool) {
    !haveHead && exists k: nat | k < |requested| :: SpanOf(requested[k]) == Year && requested[k] !in stored
  }

  /** What one answered query adds to what was covered. */
  lemma AnswerCovers(requested: seq<Stat>, message: seq<Entry>, q: Query)
    requires q.stat in requested && q.stat != Pwl && q.answer.Some?
    ensures var more := SpanEntries(requested, q.stat, q.answer.value);
      Has(message + more, q.stat) && forall t | Has(message, t) :: Has(message + more, t)
  {
    var more := SpanEntries(requested, q.stat, q.answer.value);
    MessageGrows(message, more);
    SpanFacts(requested, q);
    HasAppend(message, more, q.stat);
  }

  /** One query, and what its answer adds; nothing is added if it throws. */
  method AskFor(requested: seq<Stat>, ghost start: seq<Entry>, message: seq<Entry>, calls: seq<Query>, s: Stat,
                answer: Option<Result>)
    returns (message': seq<Entry>, calls': seq<Query>)
    requires OncePerSpan(requested, calls) && message == Built(requested, start, calls) && s in requested && s != Pwl
    requires forall q | q in calls :: SpanOf(q.stat) != SpanOf(s)
    ensures OncePerSpan(requested, calls') && message' == Built(requested, start, calls')
    ensures exists days :: calls' == calls + [Query(s, days, answer)]
    ensures answer.Some? ==> Has(message', s) && forall t | Has(message, t) :: Has(message', t)
  {
    var q := Query(s, if s == Ath || s == Atl then 0 else 365, answer);
    QueryAsked(requested, start, calls, q);
    calls' := calls + [q];
    if answer.None? {
      message' := message;
    } else {
      AnswerCovers(requested, message, q);
      message' := AddSpan(message, requested, s, answer.value);
    }
  }

  /** The loop after `k` statistics, while it has not ended early. */
  ghost predicate Progress(requested: seq<Stat>, stored: set<Stat>, start: seq<Entry>, haveHead: bool,
                           tooRecent: nat -> bool, k: nat, message: seq<Entry>, calls: seq<Query>) {
    && OncePerSpan(requested, calls) && (forall q | q in calls :: q.answer.Some?)
    && message == Built(requested, start, calls)
    && Covers(requested, k, stored, message, tooRecent)
    && (!haveHead ==>
         && calls == [] && message == []
         && forall i: nat | i < k && i < |requested| :: SpanOf(requested[i]) == AllTime || requested[i] in stored)
  }

  /** How an iteration ends: the loop goes on, a query threw, or the empty timestamp is read. */
  datatype Next = GoOn | Thrown | EmptyHead

  method ConsiderStat(requested: seq<Stat>, stored: set<Stat>, ghost start: seq<Entry>, haveHead: bool,
                      tooRecent: nat -> bool, answer: Option<Result>, k: nat, message: seq<Entry>, calls: seq<Query>)
    returns (message': seq<Entry>, calls': seq<Query>, next: Next)
    requires k < |requested| && Progress(requested, stored, start, haveHead, tooRecent, k, message, calls)
    requires (forall e | e in start :: e.Main? && e.stat == Pwl) && (!haveHead ==> tooRecent(k))
    requires haveHead && Pwl in requested ==> Pwl in stored || start != []
    ensures next.GoOn? ==> Progress(requested, stored, start, haveHead, tooRecent, k + 1, message', calls')
    ensures OncePerSpan(requested, calls') && message' == Built(requested, start, calls')
    ensures next.Thrown? ==> haveHead && answer.None?
    ensures next.EmptyHead? ==> !haveHead && SpanOf(requested[k]) == Year && requested[k] !in stored
  {
    var s := requested[k];
    message', calls', next := message, calls, GoOn;
    if s in stored || Has(message, s) || (SpanOf(s) == AllTime && tooRecent(k)) {
      return;
    }
    if !haveHead {
      next := EmptyHead;
      return;
    }
    NotAskedBefore(requested, stored, start, calls, s);
    message', calls' := AskFor(requested, start, message, calls, s, answer);
    if answer.None? {
      next := Thrown;
    }
  }

  /** The statistics of one contract. `stored` are those the row filter sent; `haveHead` tells whether the
      contract's first timestamp is known, and `pwl` is the price computed for it. `tooRecent(k)` tells at
      iteration `k` that the contract has no data a year old, and `answers(k)` is the query's answer then. */
  method ComputeStats(requested: seq<Stat>, stored: set<Stat>, haveHead: bool, pwl: real, tooRecent: nat -> bool,
                      answers: nat -> Option<Result>)
    returns (message: seq<Entry>, calls: seq<Query>, emptyHead: bool)
    requires !haveHead ==> forall k :: tooRecent(k)
    ensures NoneTwice(message) && EachWithItsDay(message)
    ensures OncePerSpan(requested, calls) && |calls| <= 2
    ensures var start := StartOf(requested, stored, haveHead, pwl);
      start <= message && forall i | |start| <= i < |message| :: Sourced(message[i], requested, calls)
    ensures emptyHead <==> ReadsEmptyHead(requested, stored, haveHead)
    ensures !emptyHead && (forall k :: answers(k).Some?) ==>
      Covers(requested, |requested|, stored, message, tooRecent)
  {
    message, calls := StartOf(requested, stored, haveHead, pwl), [];
    ghost var start := message;
    var next, k: nat := GoOn, 0;
    while k < |requested| && next.GoOn?
      invariant k <= |requested|
      invariant OncePerSpan(requested, calls) && message == Built(requested, start, calls)
      invariant next.GoOn? ==> Progress(requested, stored, start, haveHead, tooRecent, k, message, calls)
      invariant next.Thrown? ==> haveHead && exists i: nat :: answers(i).None?
      invariant next.EmptyHead? ==> ReadsEmptyHead(requested, stored, haveHead)
      decreases |requested| - k
    {
      message, calls, next :=
        ConsiderStat(requested, stored, start, haveHead, tooRecent, answers(k), k, message, calls);
      k := k + 1;
    }
    emptyHead := next.EmptyHead?;
    AtMostTwoQueries(requested, calls);
    StartAndParts(requested, start, calls);
  }

  lemma StartAndParts(requested: seq<Stat>, start: seq<Entry>, calls: seq<Query>)
    requires OncePerSpan(requested, calls) && |start| <= 1 && forall e | e in start :: e.Main? && e.stat == Pwl
    ensures var message := Built(requested, start, calls);
      && start <= message && NoneTwice(message) && EachWithItsDay(message)
      && forall i | |start| <= i < |message| :: Sourced(message[i], requested, calls)
  {
    BuiltIsParts(requested, start, calls);
    PartsHoldEachOnce(requested, calls);
    NoneTwiceAppend(start, Parts(requested, calls));
    EachWithItsDayAppend(start, Parts(requested, calls));
    forall i | |start| <= i < |start| + |Parts(requested, calls)|
      ensures Sourced((start + Parts(requested, calls))[i], requested, calls)
    {
      assert (start + Parts(requested, calls))[i] in Parts(requested, calls);
    }
  }

  lemma NotAskedBefore(requested: seq<Stat>, stored: set<Stat>, start: seq<Entry>, calls: seq<Query>, s: Stat)
    requires OncePerSpan(requested, calls) && (forall q | q in calls :: q.answer.Some?)
    requires forall e | e in start :: e.Main? && e.stat == Pwl
    requires s in requested && s !in stored && !Has(Built(requested, start, calls), s)
    requires Pwl in requested ==> Pwl in stored || start != []
    ensures s != Pwl && forall q | q in calls :: SpanOf(q.stat) != SpanOf(s)
  {
    BuiltIsParts(requested, start, calls);
    HasAppend(start, Parts(requested, calls), s);
    if start != [] {
      assert start[0].Main? && start[0].stat == Pwl;
    }
    forall q | q in calls ensures SpanOf(q.stat) != SpanOf(s) {
      if SpanOf(q.stat) == SpanOf(s) {
        PartsHoldWhatWasAnswered(requested, calls, q, s);
      }
    }
  }
}
