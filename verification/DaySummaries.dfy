/**
 The previous-day loader of one contract: the map of trading days still to be summarized, and
 the passes that take days out of it while they iterate over it.

 Fetched bars are inputs; a fetch that throws is `None`. Prices are reals.
 */
module DaySummaries {
  import opened Wrappers

  type Day = int

  /** `day` is the trading day of the bar's time. */
  datatype Bar = Bar(day: Day, open: real, high: real, low: real, close: real)

  datatype Summary = Summary(
    day: Day, ask: real, bid: real, count: nat, open: real, close: real, high: real, low: real)

  /** A day with its summary, or with the empty pointer left when the summary was moved out. */
  type Slot = (Day, Option<Summary>)

  function Blank(day: Day): Summary {
    Summary(day, 0.0, 0.0, 0, 0.0, 0.0, 0.0, 0.0)
  }

  // ----- Grouping bars by day -----

  /** The bars of one day, in their order. */
  function OfDay(bars: seq<Bar>, day: Day): seq<Bar> {
    if bars == [] then []
    else
      var b := bars[|bars| - 1];
      OfDay(bars[..|bars| - 1], day) + if b.day == day then [b] else []
  }

  type Groups = map<Day, seq<Bar>>

  predicate HasBars(bars: seq<Bar>, day: Day) {
    exists i :: 0 <= i < |bars| && bars[i].day == day
  }

  /** The groups as they grow bar by bar. */
  function Grouped(bars: seq<Bar>): (g: Groups)
    ensures forall d | d in g :: g[d] != []
  {
    if bars == [] then map[] else
      var g, b := Grouped(bars[..|bars| - 1]), bars[|bars| - 1];
      g[b.day := (if b.day in g then g[b.day] else []) + [b]]
  }

  /** Each day with bars has its bars in their order, and no other day has a group. */
  lemma {:induction false} GroupsAreTheDays(bars: seq<Bar>, day: Day)
    ensures day in Grouped(bars) <==> HasBars(bars, day)
    ensures day in Grouped(bars) ==> Grouped(bars)[day] == OfDay(bars, day)
    ensures day !in Grouped(bars) ==> OfDay(bars, day) == []
  {
    if bars != [] {
      var before, b := bars[..|bars| - 1], bars[|bars| - 1];
      GroupsAreTheDays(before, day);
      HasBarsSnoc(before, b, day);
      assert bars == before + [b];
    }
  }

  lemma HasBarsSnoc(bars: seq<Bar>, b: Bar, day: Day)
    ensures HasBars(bars + [b], day) <==> HasBars(bars, day) || b.day == day
  {
    if i :| 0 <= i < |bars| && bars[i].day == day {
      assert (bars + [b])[i].day == day;
    }
    assert (bars + [b])[|bars|] == b;
  }

  method GroupByDay(bars: seq<Bar>) returns (g: Groups)
    ensures g == Grouped(bars)
  {
    g := map[];
    for i := 0 to |bars|
      invariant g == Grouped(bars[..i])
    {
      assert bars[..i + 1][..i] == bars[..i];
      var b := bars[i];
      if b.day !in g {
        g := g[b.day := []];
      }
      g := g[b.day := g[b.day] + [b]];
    }
    assert bars[..|bars|] == bars;
  }

  /** A group holds the bars of its day and no others, none lost and none doubled. */
  lemma {:induction false} GroupHasTheDaysBars(bars: seq<Bar>, day: Day, b: Bar)
    ensures multiset(OfDay(bars, day))[b] == if b.day == day then multiset(bars)[b] else 0
  {
    if bars != [] {
      var before, last := bars[..|bars| - 1], bars[|bars| - 1];
      GroupHasTheDaysBars(before, day, b);
      assert bars == before + [last];
      assert multiset(OfDay(before, day) + [last])[b] == multiset(OfDay(before, day))[b] + if last == b then 1 else 0;
    }
  }

  /** It opens with the first bar of the day and closes with the last. */
  lemma {:induction false} GroupOpensAndCloses(bars: seq<Bar>, day: Day, i: nat, j: nat)
    requires i <= j < |bars| && bars[i].day == day && bars[j].day == day
    requires forall k | 0 <= k < |bars| && bars[k].day == day :: i <= k <= j
    ensures var g := OfDay(bars, day); g != [] && g[0] == bars[i] && g[|g| - 1] == bars[j]
  {
    var n := |bars| - 1;
    var before := bars[..n];
    if j < n {
      GroupOpensAndCloses(before, day, i, j);
    } else if i == n {
      NoBarsOfDay(before, day);
    } else {
      var l := LastBefore(before, day, i);
      GroupOpensAndCloses(before, day, i, l);
    }
  }

  lemma {:induction false} NoBarsOfDay(bars: seq<Bar>, day: Day)
    requires forall k | 0 <= k < |bars| :: bars[k].day != day
    ensures OfDay(bars, day) == []
  {
    if bars != [] {
      NoBarsOfDay(bars[..|bars| - 1], day);
    }
  }

  lemma LastBefore(bars: seq<Bar>, day: Day, i: nat) returns (l: nat)
    requires i < |bars| && bars[i].day == day
    ensures i <= l < |bars| && bars[l].day == day && forall k | l < k < |bars| :: bars[k].day != day
  {
    l := |bars| - 1;
    while bars[l].day != day
      invariant i <= l < |bars|
      invariant forall k | l < k < |bars| :: bars[k].day != day
      decreases l
    {
      l := l - 1;
    }
  }

  // ----- Summarizing one day -----

  /** The loop starts the high at zero and the low at the largest number there is. */
  function HighOf(bars: seq<Bar>): real {
    if bars == [] then 0.0
    else
      var high, b := HighOf(bars[..|bars| - 1]), bars[|bars| - 1];
      if b.high < high then high else b.high
  }

  function LowOf(bars: seq<Bar>, limit: real): real {
    if bars == [] then limit
    else
      var low, b := LowOf(bars[..|bars| - 1], limit), bars[|bars| - 1];
      if low < b.low then low else b.low
  }

  /** The day's bars give the count; the bars of the regular hours, when they were fetched and have
      the day, replace them for everything else. */
  function Summarize(s: Summary, trades: seq<Bar>, regular: seq<Bar>, previous: bool, limit: real): Summary
    requires trades != []
  {
    var used := if regular != [] then regular else trades;
    var s' := s.(count := |trades|, open := used[0].open, close := used[|used| - 1].close);
    if previous then s'
    else
      var low := LowOf(used, limit);
      s'.(high := HighOf(used), low := if low == limit then 0.0 else low)
  }

  method SummarizeDay(s: Summary, trades: seq<Bar>, regular: seq<Bar>, previous: bool, limit: real) returns (r: Summary)
    requires trades != [] && (previous ==> regular == [])
    ensures r == Summarize(s, trades, regular, previous, limit)
    ensures Completes(r, s, trades, if regular != [] then regular else trades, previous, limit)
  {
    SummarizeCompletes(s, trades, regular, previous, limit);
    var ibTrades := trades;
    r := s.(count := |ibTrades|, open := ibTrades[0].open, close := ibTrades[|ibTrades| - 1].close);
    if !previous {
      if regular != [] {
        ibTrades := regular;
        r := r.(open := ibTrades[0].open, close := ibTrades[|ibTrades| - 1].close);
      }
      var high, low := 0.0, limit;
      for i := 0 to |ibTrades|
        invariant high == HighOf(ibTrades[..i]) && low == LowOf(ibTrades[..i], limit)
      {
        assert ibTrades[..i + 1][..i] == ibTrades[..i];
        high := if ibTrades[i].high < high then high else ibTrades[i].high;
        low := if low < ibTrades[i].low then low else ibTrades[i].low;
      }
      assert ibTrades[..|ibTrades|] == ibTrades;
      r := r.(high := high, low := if low == limit then 0.0 else low);
    }
  }

  /** `high` and `low` bound the bars and are taken by one, but that a high is never below zero, and a
      low is zero when no bar is below the limit. */
  predicate Bounds(bars: seq<Bar>, limit: real, high: real, low: real) {
    && 0.0 <= high && (forall i | 0 <= i < |bars| :: bars[i].high <= high)
    && (high == 0.0 || exists i :: 0 <= i < |bars| && bars[i].high == high)
    && if forall i | 0 <= i < |bars| :: limit <= bars[i].low then low == 0.0 else IsLowest(bars, low)
  }

  predicate IsLowest(bars: seq<Bar>, low: real) {
    (forall i | 0 <= i < |bars| :: low <= bars[i].low) && exists i :: 0 <= i < |bars| && bars[i].low == low
  }

  /** `r` completes `s` with the count of the day's trades, and with the prices of the bars used. */
  predicate Completes(r: Summary, s: Summary, trades: seq<Bar>, used: seq<Bar>, previous: bool, limit: real) {
    && r.day == s.day && r.ask == s.ask && r.bid == s.bid && r.count == |trades|
    && used != [] && r.open == used[0].open && r.close == used[|used| - 1].close
    && if previous then r.high == s.high && r.low == s.low else Bounds(used, limit, r.high, r.low)
  }

  lemma SummarizeCompletes(s: Summary, trades: seq<Bar>, regular: seq<Bar>, previous: bool, limit: real)
    requires trades != []
    ensures Completes(Summarize(s, trades, regular, previous, limit), s, trades,
                      if regular != [] then regular else trades, previous, limit)
  {
    BoundsOfBars(if regular != [] then regular else trades, limit);
  }

  predicate Priced(b: Bar) {
    0.0 <= b.low && b.low <= b.open <= b.high && b.low <= b.close <= b.high
  }

  lemma {:induction false} BoundsOfBars(bars: seq<Bar>, limit: real)
    ensures forall i | 0 <= i < |bars| :: LowOf(bars, limit) <= bars[i].low && bars[i].high <= HighOf(bars)
    ensures 0.0 <= HighOf(bars) && LowOf(bars, limit) <= limit
    ensures HighOf(bars) == 0.0 || exists i :: 0 <= i < |bars| && bars[i].high == HighOf(bars)
    ensures LowOf(bars, limit) == limit || exists i :: 0 <= i < |bars| && bars[i].low == LowOf(bars, limit)
  {
    if bars != [] {
      BoundsOfBars(bars[..|bars| - 1], limit);
      assert bars == bars[..|bars| - 1] + [bars[|bars| - 1]];
    }
  }

  /** A summary that is not of a previous day stays within its low and its high, whichever bars it
      was made from. */
  lemma SummaryStaysInBounds(s: Summary, trades: seq<Bar>, regular: seq<Bar>, limit: real)
    requires trades != []
    requires forall b | b in trades + regular :: Priced(b)
    ensures var r := Summarize(s, trades, regular, false, limit);
      r.low <= r.open <= r.high && r.low <= r.close <= r.high
  {
    var used := if regular != [] then regular else trades;
    BoundsOfBars(used, limit);
    assert used[0] in trades + regular && used[|used| - 1] in trades + regular;
  }

  /** The high is the greatest high of the bars exactly if that is not negative, because the loop
      starts from zero. */
  lemma HighIsTheGreatestIffNotNegative(bars: seq<Bar>, greatest: real)
    requires exists i :: 0 <= i < |bars| && bars[i].high == greatest
    requires forall i | 0 <= i < |bars| :: bars[i].high <= greatest
    ensures HighOf(bars) == greatest <==> 0.0 <= greatest
  {
    BoundsOfBars(bars, 0.0);
  }

  // ----- The days to summarize -----

  predicate Ascending(bars: seq<Slot>) {
    forall i, j | 0 <= i < j < |bars| :: bars[i].0 < bars[j].0
  }

  /** emplace into the sorted map. */
  function Emplace(bars: seq<Slot>, day: Day): seq<Slot> {
    if bars == [] || day < bars[0].0 then [(day, Some(Blank(day)))] + bars
    else if day == bars[0].0 then bars
    else [bars[0]] + Emplace(bars[1..], day)
  }

  /** `count` trading days back from `day`, oldest first. */
  function TradingDays(day: Day, count: nat, prev: Day -> Day): seq<Day>
    decreases count
  {
    if count == 0 then [] else TradingDays(prev(day), count - 1, prev) + [day]
  }

  function DaysOf(bars: seq<Slot>): (days: seq<Day>)
    ensures |days| == |bars| && forall i | 0 <= i < |bars| :: days[i] == bars[i].0
  {
    if bars == [] then [] else [bars[0].0] + DaysOf(bars[1..])
  }

  function Back(day: Day, n: nat, prev: Day -> Day): Day
    decreases n
  {
    if n == 0 then day else Back(prev(day), n - 1, prev)
  }

  lemma {:induction false} TradingDaysMore(day: Day, n: nat, prev: Day -> Day)
    ensures TradingDays(day, n + 1, prev) == [Back(day, n, prev)] + TradingDays(day, n, prev)
    ensures Back(day, n + 1, prev) == prev(Back(day, n, prev))
    decreases n
  {
    if n > 0 {
      TradingDaysMore(prev(day), n - 1, prev);
    }
  }

  /** The loop ends with exactly `count` days, because each day it visits is a new one. */
  method CollectDays(current: Day, count: nat, prev: Day -> Day) returns (bars: seq<Slot>)
    requires forall d :: prev(d) < d
    ensures DaysOf(bars) == TradingDays(current, count, prev) && |bars| == count
    ensures Ascending(bars) && forall i | 0 <= i < |bars| :: bars[i].1 == Some(Blank(bars[i].0))
  {
    bars := [];
    var day := current;
    while |bars| < count
      invariant |bars| <= count && day == Back(current, |bars|, prev)
      invariant DaysOf(bars) == TradingDays(current, |bars|, prev)
      invariant Ascending(bars) && forall i | 0 <= i < |bars| :: day < bars[i].0 && bars[i].1 == Some(Blank(bars[i].0))
    {
      TradingDaysMore(current, |bars|, prev);
      bars := Emplace(bars, day);
      day := prev(day);
    }
  }

  // ----- One pass over the days -----

  /** How a pass ends: over all days, before the loop because an earlier fetch threw, inside it
      because the fetch of the regular hours threw, or on an empty pointer. */
  datatype Outcome = Finished | Skipped | FetchFailed(day: Day) | NullSlot(day: Day)

  /** The regular hours as a fetch for the given day returns them; `Unwanted` if not fetched. */
  datatype Regular = Unwanted | Fetched(bars: seq<Bar>) | Threw

  datatype Pass = Pass(left: seq<Slot>, consumed: seq<Summary>, outcome: Outcome)

  function RegularBars(regular: Regular, day: Day): seq<Bar> {
    if regular.Fetched? then OfDay(regular.bars, day) else []
  }

  /** What a pass leaves in the map and takes out of it. */
  function PassOver(bars: seq<Slot>, trades: Groups, regular: Day -> Regular, previous: bool, limit: real): Pass
    requires forall d | d in trades :: trades[d] != []
  {
    if bars == [] then Pass([], [], Finished)
    else
      var (day, slot) := bars[0];
      if day !in trades then
        var rest := PassOver(bars[1..], trades, regular, previous, limit);
        rest.(left := [bars[0]] + rest.left)
      else if slot.None? then Pass(bars, [], NullSlot(day))
      else if regular(day).Threw? then Pass([(day, None)] + bars[1..], [], FetchFailed(day))
      else
        var rest := PassOver(bars[1..], trades, regular, previous, limit);
        var s := Summarize(slot.value, trades[day], RegularBars(regular(day), day), previous, limit);
        rest.(consumed := [s] + rest.consumed)
  }

  /** How often a day is in the map with its summary, and among the summaries consumed. */
  function Intact(bars: seq<Slot>, d: Day): nat {
    if bars == [] then 0
    else Intact(bars[1..], d) + if bars[0].0 == d && bars[0].1.Some? then 1 else 0
  }

  function Summarized(ss: seq<Summary>, d: Day): nat {
    if ss == [] then 0 else Summarized(ss[1..], d) + if ss[0].day == d then 1 else 0
  }

  function Lost(o: Outcome, d: Day): nat {
    if o == FetchFailed(d) then 1 else 0
  }

  /** Every day still in the map with its summary has a summary of that day. */
  predicate Labelled(bars: seq<Slot>) {
    forall i | 0 <= i < |bars| && bars[i].1.Some? :: bars[i].1.value.day == bars[i].0
  }

  lemma ConsSlot(slot: Slot, bars: seq<Slot>, d: Day)
    ensures Intact([slot] + bars, d) == Intact(bars, d) + if slot.0 == d && slot.1.Some? then 1 else 0
  {
    assert ([slot] + bars)[1..] == bars;
  }

  lemma ConsSummary(s: Summary, ss: seq<Summary>, d: Day)
    ensures Summarized([s] + ss, d) == Summarized(ss, d) + if s.day == d then 1 else 0
  {
    assert ([s] + ss)[1..] == ss;
  }

  /** Every day whose summary was there is consumed once or left untouched, except the one day, if
      any, at which the inner fetch threw: its summary is gone. */
  lemma {:induction false} PassConservesTheDays(
    bars: seq<Slot>, trades: Groups, regular: Day -> Regular, previous: bool, limit: real, d: Day)
    requires (forall d | d in trades :: trades[d] != []) && Labelled(bars)
    ensures var p := PassOver(bars, trades, regular, previous, limit);
      Summarized(p.consumed, d) + Intact(p.left, d) + Lost(p.outcome, d) == Intact(bars, d)
  {
    if bars != [] {
      var (day, slot) := bars[0];
      var rest := PassOver(bars[1..], trades, regular, previous, limit);
      if day !in trades {
        PassConservesTheDays(bars[1..], trades, regular, previous, limit, d);
        ConsSlot(bars[0], rest.left, d);
      } else if slot.Some? && !regular(day).Threw? {
        PassConservesTheDays(bars[1..], trades, regular, previous, limit, d);
        var s := Summarize(slot.value, trades[day], RegularBars(regular(day), day), previous, limit);
        ConsSummary(s, rest.consumed, d);
      } else if slot.Some? {
        ConsSlot((day, None), bars[1..], d);
      }
    }
  }

  /** A pass consumes only days that have bars, and a finished one leaves exactly those without. */
  lemma {:induction false} PassTakesTheDaysWithBars(
    bars: seq<Slot>, trades: Groups, regular: Day -> Regular, previous: bool, limit: real)
    requires (forall d | d in trades :: trades[d] != []) && Labelled(bars)
    ensures var p := PassOver(bars, trades, regular, previous, limit);
      && Labelled(p.left)
      && (forall s | s in p.consumed :: s.day in trades)
      && (p.outcome.Finished? ==> forall slot :: slot in p.left <==> slot in bars && slot.0 !in trades)
  {
    if bars != [] {
      var (day, slot) := bars[0];
      assert bars == [bars[0]] + bars[1..];
      if day !in trades || (slot.Some? && !regular(day).Threw?) {
        PassTakesTheDaysWithBars(bars[1..], trades, regular, previous, limit);
      }
    }
  }

  // ----- Where a pass ends -----

  predicate AllThere(bars: seq<Slot>) {
    forall i | 0 <= i < |bars| :: bars[i].1.Some?
  }

  /** Day `d` has bars, and fetching the regular hours for it throws. */
  predicate Throws(trades: Groups, regular: Day -> Regular, d: Day) {
    d in trades && regular(d).Threw?
  }

  predicate FirstThrow(days: seq<Day>, trades: Groups, regular: Day -> Regular, d: Day) {
    exists i :: 0 <= i < |days| && days[i] == d && Throws(trades, regular, d)
                && forall j | 0 <= j < i :: !Throws(trades, regular, days[j])
  }

  lemma FirstThrowCons(day: Day, days: seq<Day>, trades: Groups, regular: Day -> Regular, d: Day)
    ensures FirstThrow([day] + days, trades, regular, d) <==>
      if Throws(trades, regular, day) then d == day else FirstThrow(days, trades, regular, d)
  {
    var all := [day] + days;
    if Throws(trades, regular, day) {
      assert all[0] == day;
    } else {
      if i :| 0 <= i < |days| && days[i] == d && Throws(trades, regular, d)
              && forall j | 0 <= j < i :: !Throws(trades, regular, days[j]) {
        assert all[i + 1] == d;
        forall j | 0 <= j < i + 1 ensures !Throws(trades, regular, all[j]) {
          assert j > 0 ==> all[j] == days[j - 1];
        }
      }
      if i :| 0 <= i < |all| && all[i] == d && Throws(trades, regular, d)
              && forall j | 0 <= j < i :: !Throws(trades, regular, all[j]) {
        assert i > 0 && days[i - 1] == d;
        forall j | 0 <= j < i - 1 ensures !Throws(trades, regular, days[j]) {
          assert all[j + 1] == days[j];
        }
      }
    }
  }

  /** While no summary is missing a pass fails, if at all, at the first day whose regular hours throw,
      and then its summary is the one that is missing. */
  lemma {:induction false} PassFailsAtTheFirstThrow(
    bars: seq<Slot>, trades: Groups, regular: Day -> Regular, previous: bool, limit: real, d: Day)
    requires (forall d | d in trades :: trades[d] != []) && AllThere(bars)
    ensures var p := PassOver(bars, trades, regular, previous, limit);
      && (p.outcome == FetchFailed(d) <==> FirstThrow(DaysOf(bars), trades, regular, d))
      && (p.outcome.Finished? || p.outcome.FetchFailed?)
      && ((d, None) in p.left <==> p.outcome == FetchFailed(d))
  {
    if bars != [] {
      var day := bars[0].0;
      assert DaysOf(bars) == [day] + DaysOf(bars[1..]);
      FirstThrowCons(day, DaysOf(bars[1..]), trades, regular, d);
      PassFailsAtTheFirstThrow(bars[1..], trades, regular, previous, limit, d);
    }
  }

  /** Without fetches inside the loop a pass ends early exactly at a day with bars and no summary. */
  lemma {:induction false} PassMeetsTheMissingSummary(
    bars: seq<Slot>, trades: Groups, regular: Day -> Regular, previous: bool, limit: real)
    requires (forall d | d in trades :: trades[d] != []) && (forall d :: regular(d).Unwanted?)
    ensures var p := PassOver(bars, trades, regular, previous, limit);
      if exists d :: d in trades && (d, None) in bars then p.outcome.NullSlot? else p.outcome.Finished?
  {
    if bars != [] {
      PassMeetsTheMissingSummary(bars[1..], trades, regular, previous, limit);
      var (day, slot) := bars[0];
      assert bars == [bars[0]] + bars[1..];
      if day in trades && slot.None? {
        assert (day, None) in bars;
      }
    }
  }

  lemma {:induction false} SummarizedAppend(a: seq<Summary>, b: seq<Summary>, d: Day)
    ensures Summarized(a + b, d) == Summarized(a, d) + Summarized(b, d)
  {
    if a == [] {
      assert a + b == b;
    } else {
      SummarizedAppend(a[1..], b, d);
      assert (a + b)[1..] == a[1..] + b;
    }
  }

  /** A pass continued after some of the days. */
  function Onto(kept: seq<Slot>, consumed: seq<Summary>, p: Pass): Pass {
    Pass(kept + p.left, consumed + p.consumed, p.outcome)
  }

  lemma OntoKeep(kept: seq<Slot>, consumed: seq<Summary>, slot: Slot, p: Pass)
    ensures Onto(kept, consumed, p.(left := [slot] + p.left)) == Onto(kept + [slot], consumed, p)
  {
    assert kept + ([slot] + p.left) == kept + [slot] + p.left;
  }

  lemma OntoTake(kept: seq<Slot>, consumed: seq<Summary>, s: Summary, p: Pass)
    ensures Onto(kept, consumed, p.(consumed := [s] + p.consumed)) == Onto(kept, consumed + [s], p)
  {
    assert consumed + ([s] + p.consumed) == consumed + [s] + p.consumed;
  }

  /** What the rest of a pass comes to at each kind of day. */
  lemma PassKeepsDay(kept: seq<Slot>, consumed: seq<Summary>, rest: seq<Slot>, trades: Groups, regular: Day -> Regular,
                     previous: bool, limit: real)
    requires (forall d | d in trades :: trades[d] != []) && rest != [] && rest[0].0 !in trades
    ensures Onto(kept, consumed, PassOver(rest, trades, regular, previous, limit))
            == Onto(kept + [rest[0]], consumed, PassOver(rest[1..], trades, regular, previous, limit))
  {
    OntoKeep(kept, consumed, rest[0], PassOver(rest[1..], trades, regular, previous, limit));
  }

  lemma PassTakesDay(kept: seq<Slot>, consumed: seq<Summary>, rest: seq<Slot>, trades: Groups, regular: Day -> Regular,
                     previous: bool, limit: real)
    requires (forall d | d in trades :: trades[d] != []) && rest != [] && rest[0].0 in trades
    requires rest[0].1.Some? && !regular(rest[0].0).Threw?
    ensures var (day, slot) := rest[0];
      var s := Summarize(slot.value, trades[day], RegularBars(regular(day), day), previous, limit);
      Onto(kept, consumed, PassOver(rest, trades, regular, previous, limit))
      == Onto(kept, consumed + [s], PassOver(rest[1..], trades, regular, previous, limit))
  {
    var (day, slot) := rest[0];
    var s := Summarize(slot.value, trades[day], RegularBars(regular(day), day), previous, limit);
    OntoTake(kept, consumed, s, PassOver(rest[1..], trades, regular, previous, limit));
  }

  lemma PassStopsAtDay(kept: seq<Slot>, consumed: seq<Summary>, rest: seq<Slot>, trades: Groups,
                       regular: Day -> Regular, previous: bool, limit: real)
    requires (forall d | d in trades :: trades[d] != []) && rest != [] && rest[0].0 in trades
    requires rest[0].1.None? || regular(rest[0].0).Threw?
    ensures Onto(kept, consumed, PassOver(rest, trades, regular, previous, limit))
            == Pass((kept + rest)[|kept| := (rest[0].0, None)], consumed,
                    if rest[0].1.None? then NullSlot(rest[0].0) else FetchFailed(rest[0].0))
  {
    assert consumed + [] == consumed;
    assert (kept + rest)[|kept| := (rest[0].0, None)] == kept + ([(rest[0].0, None)] + rest[1..]);
    assert rest[0].1.None? ==> [(rest[0].0, None)] + rest[1..] == rest;
  }

  // ----- The loads of one contract -----

  /** What the fetches of one load return; `None` throws. The regular hours are fetched inside the
      loop, at the day given. */
  datatype Fetches = Fetches(
    asks: Option<seq<Bar>>,
    bids: Option<seq<Bar>>,
    trades: Option<seq<Bar>>,
    regular: Day -> Option<seq<Bar>>)

  /** The contract and the market: is it an option, is it before the market opens, and are the
      contract, the markets of its type, and the stock market open. */
  datatype Market = Market(isOption: bool, isPreMarket: bool, open: bool, typeOpen: bool, stockOpen: bool)

  /** The number of days to load. */
  function CountOf(m: Market): nat {
    if (m.isOption && m.stockOpen) || (m.typeOpen && !m.isPreMarket) then 1 else 2
  }

  /** Regular hours are wanted for neither previous days, nor loads already restricted to them, nor
      before the market opens. */
  function RegularOf(f: Fetches, wanted: bool): Day -> Regular {
    d => if !wanted then Unwanted else if f.regular(d).None? then Threw else Fetched(f.regular(d).value)
  }

  /** A summary with its ask, or its bid, set to the last close of the day's quotes. */
  function Quoted(slot: Slot, quotes: Groups, ask: bool): Slot
    requires slot.1.Some? && forall d | d in quotes :: quotes[d] != []
  {
    var (day, s) := slot;
    if day !in quotes then slot
    else
      var close := quotes[day][|quotes[day]| - 1].close;
      (day, Some(if ask then s.value.(ask := close) else s.value.(bid := close)))
  }

  function QuotedAll(bars: seq<Slot>, quotes: Groups, ask: bool): (r: seq<Slot>)
    requires AllThere(bars) && forall d | d in quotes :: quotes[d] != []
    ensures |r| == |bars| && AllThere(r) && forall i | 0 <= i < |bars| :: r[i] == Quoted(bars[i], quotes, ask)
  {
    if bars == [] then [] else QuotedAll(bars[..|bars| - 1], quotes, ask) + [Quoted(bars[|bars| - 1], quotes, ask)]
  }

  /** What the fetches before the loop of a load lead to: an early end, or slots and trades to go over. */
  datatype Start = Ended(left: seq<Slot>) | Ready(bars: seq<Slot>, trades: Groups)

  function StartQuotes(bars: seq<Slot>, f: Fetches): Start
    requires AllThere(bars)
  {
    if f.asks.None? then Ended(bars)
    else
      var asked := QuotedAll(bars, Grouped(f.asks.value), true);
      if f.bids.None? then Ended(asked) else Ready(QuotedAll(asked, Grouped(f.bids.value), false), map[])
  }

  function StartOf(bars: seq<Slot>, previous: bool, m: Market, f: Fetches): (start: Start)
    requires !previous ==> AllThere(bars)
    ensures start.Ready? ==> forall d | d in start.trades :: start.trades[d] != []
  {
    var start := if !m.open && !previous then StartQuotes(bars, f) else Ready(bars, map[]);
    if start.Ended? || (previous && m.isOption) then start
    else if f.trades.None? then Ended(start.bars)
    else Ready(start.bars, Grouped(f.trades.value))
  }

  /** One load: quotes, trades, and the pass. A fetch that throws before the loop skips the pass. */
  function LoadOver(bars: seq<Slot>, useRth: bool, previous: bool, m: Market, f: Fetches, limit: real): Pass
    requires !previous ==> AllThere(bars)
  {
    match StartOf(bars, previous, m, f)
    case Ended(left) => Pass(left, [], Skipped)
    case Ready(ready, trades) =>
      PassOver(ready, trades, RegularOf(f, !previous && !useRth && !m.isPreMarket), previous, limit)
  }

  function Blanks(days: seq<Day>): (bars: seq<Slot>)
    ensures |bars| == |days| && forall i | 0 <= i < |days| :: bars[i] == (days[i], Some(Blank(days[i])))
  {
    if days == [] then [] else Blanks(days[..|days| - 1]) + [(days[|days| - 1], Some(Blank(days[|days| - 1])))]
  }

  function UseRth(m: Market): bool {
    m.isOption || CountOf(m) == 1
  }

  /** The first load of all days, and for stocks outside the regular hours a second one over the
      days the first left. */
  function FirstLoad(days: seq<Day>, m: Market, first: Fetches, limit: real): Pass {
    LoadOver(Blanks(days), UseRth(m), false, m, first, limit)
  }

  function LastLoad(days: seq<Day>, m: Market, first: Fetches, second: Fetches, limit: real): Pass {
    var p := FirstLoad(days, m, first, limit);
    if UseRth(m) then Pass(p.left, [], Skipped) else LoadOver(p.left, true, true, m, second, limit)
  }

  // ----- Which days the two loads conserve -----

  /** The quotes leave days and summaries where they are. */
  predicate SameSlots(bars: seq<Slot>, bars': seq<Slot>) {
    && |bars'| == |bars|
    && forall i | 0 <= i < |bars| :: bars'[i].0 == bars[i].0 && bars'[i].1.Some? == bars[i].1.Some?
  }

  lemma {:induction false} SameSlotsSameDays(bars: seq<Slot>, bars': seq<Slot>, d: Day)
    requires SameSlots(bars, bars')
    ensures Intact(bars', d) == Intact(bars, d) && DaysOf(bars') == DaysOf(bars)
  {
    if bars != [] {
      SameSlotsSameDays(bars[1..], bars'[1..], d);
      assert DaysOf(bars') == DaysOf(bars);
    }
  }

  predicate QuotesAnswered(m: Market, f: Fetches) {
    m.open || (f.asks.Some? && f.bids.Some?)
  }

  /** The regular hours are fetched at all: not before the market opens, and not in a restricted load. */
  predicate FetchesRegular(m: Market) {
    !m.isOption && CountOf(m) != 1 && !m.isPreMarket
  }

  predicate IsLost(first: Fetches, d: Day) {
    first.trades.Some? && HasBars(first.trades.value, d) && first.regular(d).None?
  }

  /** Some day that has bars cannot have its regular hours fetched, in a load that gets that far. */
  predicate LosesADay(days: seq<Day>, m: Market, first: Fetches) {
    FetchesRegular(m) && QuotesAnswered(m, first)
    && exists i :: 0 <= i < |days| && IsLost(first, days[i])
  }

  /** The day lost is the first such day. */
  predicate LostDay(days: seq<Day>, m: Market, first: Fetches, d: Day) {
    FetchesRegular(m) && QuotesAnswered(m, first)
    && exists i :: 0 <= i < |days| && days[i] == d && IsLost(first, d)
                   && forall j | 0 <= j < i :: !IsLost(first, days[j])
  }

  lemma {:induction false} SomeDayIsFirst(days: seq<Day>, m: Market, first: Fetches)
    ensures LosesADay(days, m, first) <==> exists d :: LostDay(days, m, first, d)
  {
    if LosesADay(days, m, first) {
      var i := 0;
      while !IsLost(first, days[i])
        invariant 0 <= i < |days| && forall j | 0 <= j < i :: !IsLost(first, days[j])
        invariant exists k :: i <= k < |days| && IsLost(first, days[k])
        decreases |days| - i
      {
        i := i + 1;
      }
      assert LostDay(days, m, first, days[i]);
    }
  }

  /** A load of current days gets to its loop exactly if the fetches before it are answered. */
  lemma StartOfCurrentDays(bars: seq<Slot>, m: Market, f: Fetches)
    requires AllThere(bars)
    ensures var start := StartOf(bars, false, m, f);
      && (start.Ready? <==> QuotesAnswered(m, f) && f.trades.Some?)
      && SameSlots(bars, if start.Ready? then start.bars else start.left)
      && (start.Ready? ==> start.trades == Grouped(f.trades.value))
  {
  }

  lemma DaysOfSlots(days: seq<Day>, bars: seq<Slot>)
    requires SameSlots(Blanks(days), bars)
    ensures DaysOf(bars) == days && AllThere(bars)
  {
  }

  lemma ThrowsIsLost(first: Fetches, days: seq<Day>, d: Day)
    requires first.trades.Some?
    ensures FirstThrow(days, Grouped(first.trades.value), RegularOf(first, true), d) <==>
      exists i :: 0 <= i < |days| && days[i] == d && IsLost(first, d)
                  && forall j | 0 <= j < i :: !IsLost(first, days[j])
  {
    forall e ensures Throws(Grouped(first.trades.value), RegularOf(first, true), e) <==> IsLost(first, e) {
      GroupsAreTheDays(first.trades.value, e);
    }
  }

  /** The first load ends at the lost day if there is one, and leaves that day without its summary. */
  lemma FirstLoadFailsAtTheLostDay(days: seq<Day>, m: Market, first: Fetches, limit: real, d: Day)
    ensures var p := FirstLoad(days, m, first, limit);
      && (p.outcome == FetchFailed(d) <==> LostDay(days, m, first, d))
      && ((d, None) in p.left <==> p.outcome == FetchFailed(d))
      && !p.outcome.NullSlot?
  {
    var start := StartOf(Blanks(days), false, m, first);
    StartOfCurrentDays(Blanks(days), m, first);
    if start.Ready? {
      var regular := RegularOf(first, FetchesRegular(m));
      DaysOfSlots(days, start.bars);
      PassFailsAtTheFirstThrow(start.bars, start.trades, regular, false, limit, d);
      if FetchesRegular(m) {
        ThrowsIsLost(first, days, d);
      } else {
        assert !FirstThrow(days, start.trades, regular, d);
      }
    }
  }

  predicate DaysGoUp(days: seq<Day>) {
    forall i, j | 0 <= i < j < |days| :: days[i] < days[j]
  }

  predicate DistinctDays(days: seq<Day>) {
    forall i, j | 0 <= i < j < |days| :: days[i] != days[j]
  }

  lemma {:induction false} BlanksAreThereOnce(days: seq<Day>, bars: seq<Slot>, d: Day)
    requires DistinctDays(days) && SameSlots(Blanks(days), bars)
    ensures Intact(bars, d) == if d in days then 1 else 0
  {
    if days != [] {
      assert days == [days[0]] + days[1..];
      BlanksAreThereOnce(days[1..], bars[1..], d);
    }
  }

  /** A load of current days consumes or leaves every day, but for the one at which it fails. */
  lemma CurrentLoadConserves(bars: seq<Slot>, useRth: bool, m: Market, f: Fetches, limit: real, d: Day)
    requires AllThere(bars) && Labelled(bars)
    ensures var p := LoadOver(bars, useRth, false, m, f, limit);
      Summarized(p.consumed, d) + Intact(p.left, d) + Lost(p.outcome, d) == Intact(bars, d) && Labelled(p.left)
  {
    var start := StartOf(bars, false, m, f);
    StartOfCurrentDays(bars, m, f);
    StartKeepsLabels(bars, m, f);
    if start.Ready? {
      var regular := RegularOf(f, !useRth && !m.isPreMarket);
      SameSlotsSameDays(bars, start.bars, d);
      PassConservesTheDays(start.bars, start.trades, regular, false, limit, d);
      PassTakesTheDaysWithBars(start.bars, start.trades, regular, false, limit);
    } else {
      SameSlotsSameDays(bars, start.left, d);
    }
  }

  lemma StartKeepsLabels(bars: seq<Slot>, m: Market, f: Fetches)
    requires AllThere(bars) && Labelled(bars)
    ensures var start := StartOf(bars, false, m, f);
      Labelled(if start.Ready? then start.bars else start.left)
  {
  }

  /** A load of previous days fetches nothing inside its loop and so conserves every day. */
  lemma PreviousLoadConserves(bars: seq<Slot>, m: Market, f: Fetches, limit: real, d: Day)
    requires Labelled(bars)
    ensures var p := LoadOver(bars, true, true, m, f, limit);
      Summarized(p.consumed, d) + Intact(p.left, d) == Intact(bars, d)
  {
    var start := StartOf(bars, true, m, f);
    if start.Ready? {
      PassConservesTheDays(start.bars, start.trades, RegularOf(f, false), true, limit, d);
      PassMeetsTheMissingSummary(start.bars, start.trades, RegularOf(f, false), true, limit);
    }
  }

  /** How often a day is consumed by the two loads or left by them. */
  function Kept(days: seq<Day>, m: Market, first: Fetches, second: Fetches, limit: real, d: Day): nat {
    var p, q := FirstLoad(days, m, first, limit), LastLoad(days, m, first, second, limit);
    Summarized(p.consumed + q.consumed, d) + Intact(q.left, d)
  }

  /** Every day is consumed or left exactly once, except the lost day, which is neither. */
  lemma LoadsKeepAllButTheLostDay(
    days: seq<Day>, m: Market, first: Fetches, second: Fetches, limit: real, d: Day)
    requires DistinctDays(days)
    ensures Kept(days, m, first, second, limit, d)
            == if d in days && !LostDay(days, m, first, d) then 1 else 0
  {
    var p, q := FirstLoad(days, m, first, limit), LastLoad(days, m, first, second, limit);
    BlanksAreThereOnce(days, Blanks(days), d);
    FirstLoadFailsAtTheLostDay(days, m, first, limit, d);
    CurrentLoadConserves(Blanks(days), UseRth(m), m, first, limit, d);
    if !UseRth(m) {
      PreviousLoadConserves(p.left, m, second, limit, d);
    }
    SummarizedAppend(p.consumed, q.consumed, d);
  }

  /** The days consumed and the days left partition the trading days if and only if no day that has
      bars has its regular hours fetched in vain. */
  lemma LoadsPartitionTheDaysIffNoneIsLost(
    days: seq<Day>, m: Market, first: Fetches, second: Fetches, limit: real)
    requires DistinctDays(days)
    ensures (forall d :: Kept(days, m, first, second, limit, d) == if d in days then 1 else 0)
            <==> !LosesADay(days, m, first)
  {
    SomeDayIsFirst(days, m, first);
    forall d ensures Kept(days, m, first, second, limit, d)
                     == if d in days && !LostDay(days, m, first, d) then 1 else 0 {
      LoadsKeepAllButTheLostDay(days, m, first, second, limit, d);
    }
    if d :| LostDay(days, m, first, d) {
      assert d in days;
    }
  }

  /** The second load follows the empty pointer the first left if and only if it fetched bars for the
      day that was lost. */
  lemma EmptyPointerIffTheLostDayHasBars(
    days: seq<Day>, m: Market, first: Fetches, second: Fetches, limit: real)
    ensures LastLoad(days, m, first, second, limit).outcome.NullSlot? <==>
      exists d :: LostDay(days, m, first, d) && second.trades.Some? && HasBars(second.trades.value, d)
  {
    var p := FirstLoad(days, m, first, limit);
    forall d ensures (d, None) in p.left <==> LostDay(days, m, first, d) {
      FirstLoadFailsAtTheLostDay(days, m, first, limit, d);
    }
    if !UseRth(m) && second.trades.Some? {
      PassMeetsTheMissingSummary(p.left, Grouped(second.trades.value), RegularOf(second, false), true, limit);
      forall d ensures d in Grouped(second.trades.value) <==> HasBars(second.trades.value, d) {
        GroupsAreTheDays(second.trades.value, d);
      }
    }
  }

  /** The days asked for are `count` distinct ones: the current day, and before each day the one the
      calendar puts there. */
  lemma {:induction false} TradingDaysAreDistinct(day: Day, count: nat, prev: Day -> Day)
    requires forall d :: prev(d) < d
    ensures var days := TradingDays(day, count, prev);
      && |days| == count && DistinctDays(days) && DaysGoUp(days) && (forall d | d in days :: d <= day)
      && (count > 0 ==> days[count - 1] == day)
      && forall i | 0 <= i < count - 1 :: days[i] == prev(days[i + 1])
    decreases count
  {
    if count > 0 {
      var rest := TradingDays(prev(day), count - 1, prev);
      TradingDaysAreDistinct(prev(day), count - 1, prev);
      assert forall i | 0 <= i < |rest| :: rest[i] in rest;
    }
  }

  /** Such an input: a stock before or after trading, with a bar for the current day and regular hours
      that cannot be fetched. The day is gone, and fetching its bars again follows the empty pointer. */
  lemma AFailedFetchLosesTheDay(b: Bar, prev: Day -> Day, limit: real)
    requires forall d :: prev(d) < d
    ensures var m, f := ClosedStock(), Unfetched(b);
      var days := TradingDays(b.day, CountOf(m), prev);
      && LosesADay(days, m, f) && b.day in days
      && Kept(days, m, f, f, limit, b.day) == 0
      && LastLoad(days, m, f, f, limit).outcome.NullSlot?
  {
    var m, f := ClosedStock(), Unfetched(b);
    var days := TradingDays(b.day, 2, prev);
    TradingDaysAreDistinct(b.day, 2, prev);
    assert TradingDays(prev(b.day), 1, prev) == TradingDays(prev(prev(b.day)), 0, prev) + [prev(b.day)];
    assert days == [prev(b.day), b.day];
    assert [b][0] == b && !HasBars([b], prev(b.day)) && days[1] == b.day;
    assert LostDay(days, m, f, b.day);
    LoadsKeepAllButTheLostDay(days, m, f, f, limit, b.day);
    EmptyPointerIffTheLostDayHasBars(days, m, f, f, limit);
  }

  /** A stock, its market closed and not about to open. */
  function ClosedStock(): Market {
    Market(false, false, false, false, false)
  }

  /** No quotes, one bar, and regular hours that cannot be fetched. */
  function Unfetched(b: Bar): Fetches {
    Fetches(Some([]), Some([]), Some([b]), _ => None)
  }

  // ----- What the summaries of the two loads hold -----

  predicate FirstOfDay(bars: seq<Bar>, day: Day, i: nat) {
    i < |bars| && bars[i].day == day && forall k | 0 <= k < i :: bars[k].day != day
  }

  predicate LastOfDay(bars: seq<Bar>, day: Day, i: nat) {
    i < |bars| && bars[i].day == day && forall k | i < k < |bars| :: bars[k].day != day
  }

  predicate OpensAt(bars: seq<Bar>, day: Day, price: real) {
    exists i: nat :: i < |bars| && FirstOfDay(bars, day, i) && bars[i].open == price
  }

  predicate ClosesAt(bars: seq<Bar>, day: Day, price: real) {
    exists i: nat :: i < |bars| && LastOfDay(bars, day, i) && bars[i].close == price
  }

  /** The first and the last bar of a day are the ends of its group. */
  lemma DayHasEnds(bars: seq<Bar>, day: Day)
    requires OfDay(bars, day) != []
    ensures var g := OfDay(bars, day);
      OpensAt(bars, day, g[0].open) && ClosesAt(bars, day, g[|g| - 1].close)
  {
    GroupsAreTheDays(bars, day);
    var k: nat :| k < |bars| && bars[k].day == day;
    var i := FirstUpTo(bars, day, k);
    var j := LastBefore(bars, day, k);
    GroupOpensAndCloses(bars, day, i, j);
    assert FirstOfDay(bars, day, i) && LastOfDay(bars, day, j);
  }

  lemma FirstUpTo(bars: seq<Bar>, day: Day, k: nat) returns (i: nat)
    requires k < |bars| && bars[k].day == day
    ensures i <= k && FirstOfDay(bars, day, i)
  {
    i := 0;
    while bars[i].day != day
      invariant i <= k && forall j | 0 <= j < i :: bars[j].day != day
      decreases k - i
    {
      i := i + 1;
    }
  }

  /** The positions of a day's bars. */
  function Positions(bars: seq<Bar>, day: Day): set<nat> {
    set i: nat | i < |bars| && bars[i].day == day
  }

  lemma {:induction false} DayHasItsCount(bars: seq<Bar>, day: Day)
    ensures |OfDay(bars, day)| == |Positions(bars, day)|
  {
    if bars != [] {
      var n := |bars| - 1;
      DayHasItsCount(bars[..n], day);
      assert Positions(bars, day) == Positions(bars[..n], day) + if bars[n].day == day then {n} else {};
    }
  }

  /** The high and the low over the bars of one day. */
  predicate DayBounds(bars: seq<Bar>, day: Day, limit: real, high: real, low: real) {
    && 0.0 <= high && (forall i | 0 <= i < |bars| && bars[i].day == day :: bars[i].high <= high)
    && (high == 0.0 || exists i :: 0 <= i < |bars| && bars[i].day == day && bars[i].high == high)
    && if forall i | 0 <= i < |bars| && bars[i].day == day :: limit <= bars[i].low then low == 0.0
       else IsDayLowest(bars, day, low)
  }

  predicate IsDayLowest(bars: seq<Bar>, day: Day, low: real) {
    && (forall i | 0 <= i < |bars| && bars[i].day == day :: low <= bars[i].low)
    && exists i :: 0 <= i < |bars| && bars[i].day == day && bars[i].low == low
  }

  lemma {:induction false} DayIsItsBars(bars: seq<Bar>, day: Day, b: Bar)
    ensures b in OfDay(bars, day) <==> b in bars && b.day == day
  {
    GroupHasTheDaysBars(bars, day, b);
    assert b in OfDay(bars, day) <==> multiset(OfDay(bars, day))[b] > 0;
    assert b in bars <==> multiset(bars)[b] > 0;
  }

  lemma BoundsOfTheDay(bars: seq<Bar>, day: Day, limit: real, high: real, low: real)
    requires Bounds(OfDay(bars, day), limit, high, low)
    ensures DayBounds(bars, day, limit, high, low)
  {
    var g := OfDay(bars, day);
    forall b ensures b in g <==> b in bars && b.day == day {
      DayIsItsBars(bars, day, b);
    }
    forall i | 0 <= i < |bars| && bars[i].day == day ensures bars[i] in g {
      assert bars[i] in bars;
    }
    forall i | 0 <= i < |g| ensures g[i] in bars && g[i].day == day {
      assert g[i] in g;
    }
  }

  /** A summary of the day's bars: their number, and the open, close, high and low of those used. */
  predicate IsDaySummary(s: Summary, trades: seq<Bar>, used: seq<Bar>, previous: bool, limit: real) {
    && s.count == |Positions(trades, s.day)|
    && OpensAt(used, s.day, s.open) && ClosesAt(used, s.day, s.close)
    && if previous then s.high == 0.0 && s.low == 0.0 else DayBounds(used, s.day, limit, s.high, s.low)
  }

  /** The last close of the day's quotes, and zero for a day without. */
  predicate QuoteIs(quotes: Option<seq<Bar>>, day: Day, price: real) {
    if quotes.Some? && HasBars(quotes.value, day) then ClosesAt(quotes.value, day, price) else price == 0.0
  }

  /** The quotes that a first load sets: none while the contract is open, and no bids when fetching
      the asks threw. */
  predicate HasQuotes(s: Summary, m: Market, f: Fetches) {
    && QuoteIs(if m.open then None else f.asks, s.day, s.ask)
    && QuoteIs(if m.open || f.asks.None? then None else f.bids, s.day, s.bid)
  }

  /** A summary in the map holds its day and quotes, and nothing else yet. */
  predicate OnlyQuoted(slot: Slot, m: Market, f: Fetches) {
    slot.1.Some? ==>
      var s := slot.1.value;
      s.day == slot.0 && s.high == 0.0 && s.low == 0.0 && HasQuotes(s, m, f)
  }

  lemma QuoteOfTheDay(quotes: seq<Bar>, day: Day)
    ensures var g := Grouped(quotes);
      if day in g then QuoteIs(Some(quotes), day, g[day][|g[day]| - 1].close) else !HasBars(quotes, day)
  {
    GroupsAreTheDays(quotes, day);
    if day in Grouped(quotes) {
      DayHasEnds(quotes, day);
    }
  }

  lemma QuotedTakesTheLastClose(slot: Slot, quotes: seq<Bar>, ask: bool)
    requires slot.1.Some? && (if ask then slot.1.value.ask else slot.1.value.bid) == 0.0
    ensures var q, s := Quoted(slot, Grouped(quotes), ask), slot.1.value;
      && q.0 == slot.0 && q.1.Some?
      && QuoteIs(Some(quotes), slot.0, if ask then q.1.value.ask else q.1.value.bid)
      && q.1.value == if ask then s.(ask := q.1.value.ask) else s.(bid := q.1.value.bid)
  {
    QuoteOfTheDay(quotes, slot.0);
  }

  /** The fetches before the loop of the first load put every day's quotes in. */
  lemma StartSetsTheQuotes(days: seq<Day>, m: Market, f: Fetches)
    ensures var start := StartOf(Blanks(days), false, m, f);
      forall slot | slot in (if start.Ready? then start.bars else start.left) :: OnlyQuoted(slot, m, f)
  {
    var bars := Blanks(days);
    if !m.open && f.asks.Some? {
      var asked := QuotedAll(bars, Grouped(f.asks.value), true);
      forall i | 0 <= i < |days|
        ensures asked[i].1.value.bid == 0.0 && (f.bids.None? ==> OnlyQuoted(asked[i], m, f)) {
        QuotedTakesTheLastClose(bars[i], f.asks.value, true);
      }
      if f.bids.Some? {
        var both := QuotedAll(asked, Grouped(f.bids.value), false);
        forall i | 0 <= i < |days| ensures OnlyQuoted(both[i], m, f) {
          QuotedTakesTheLastClose(bars[i], f.asks.value, true);
          QuotedTakesTheLastClose(asked[i], f.bids.value, false);
        }
      }
    }
  }

  /** A slot whose summary `s` completes with the bars fetched for its day. */
  predicate CompletesSlot(
    s: Summary, slot: Slot, trades: Groups, regular: Day -> Regular, previous: bool, limit: real)
  {
    && slot.1.Some? && slot.0 in trades && !regular(slot.0).Threw?
    && var hours := RegularBars(regular(slot.0), slot.0);
       Completes(s, slot.1.value, trades[slot.0], if hours != [] then hours else trades[slot.0], previous, limit)
  }

  predicate CompletesOne(
    s: Summary, bars: seq<Slot>, trades: Groups, regular: Day -> Regular, previous: bool, limit: real)
  {
    exists slot :: slot in bars && CompletesSlot(s, slot, trades, regular, previous, limit)
  }

  /** What a pass consumes are summaries of the map completed with their own days' bars, and what it
      leaves is in the map as it was, or missing. */
  lemma {:induction false} ConsumedCompletesASlot(
    bars: seq<Slot>, trades: Groups, regular: Day -> Regular, previous: bool, limit: real)
    requires forall d | d in trades :: trades[d] != []
    ensures var p := PassOver(bars, trades, regular, previous, limit);
      && (forall s | s in p.consumed :: CompletesOne(s, bars, trades, regular, previous, limit))
      && (forall slot | slot in p.left :: slot in bars || slot.1.None?)
  {
    if bars != [] {
      var (day, slot) := bars[0];
      assert bars == [bars[0]] + bars[1..];
      ConsumedCompletesASlot(bars[1..], trades, regular, previous, limit);
      var rest := PassOver(bars[1..], trades, regular, previous, limit);
      forall s | s in rest.consumed ensures CompletesOne(s, bars, trades, regular, previous, limit) {
        assert CompletesOne(s, bars[1..], trades, regular, previous, limit);
        var slot :| slot in bars[1..] && CompletesSlot(s, slot, trades, regular, previous, limit);
        assert slot in bars;
      }
      if day in trades && slot.Some? && !regular(day).Threw? {
        var hours := RegularBars(regular(day), day);
        SummarizeCompletes(slot.value, trades[day], hours, previous, limit);
        var taken := Summarize(slot.value, trades[day], hours, previous, limit);
        assert CompletesSlot(taken, bars[0], trades, regular, previous, limit);
        assert CompletesOne(taken, bars, trades, regular, previous, limit);
      }
    }
  }

  /** Day `d` of the map has bars, and so ends the pass if its summary is missing or fetching its
      regular hours throws. */
  predicate Blocks(slot: Slot, trades: Groups, regular: Day -> Regular) {
    slot.0 in trades && (slot.1.None? || regular(slot.0).Threw?)
  }

  predicate Reached(bars: seq<Slot>, trades: Groups, regular: Day -> Regular, d: Day) {
    exists i :: 0 <= i < |bars| && bars[i].0 == d && forall j | 0 <= j <= i :: !Blocks(bars[j], trades, regular)
  }

  lemma ReachedCons(bars: seq<Slot>, trades: Groups, regular: Day -> Regular, d: Day)
    requires bars != []
    ensures Reached(bars, trades, regular, d) <==>
      !Blocks(bars[0], trades, regular) && (bars[0].0 == d || Reached(bars[1..], trades, regular, d))
  {
    var rest := bars[1..];
    if i :| 0 <= i < |bars| && bars[i].0 == d && forall j | 0 <= j <= i :: !Blocks(bars[j], trades, regular) {
      if i > 0 {
        assert rest[i - 1].0 == d;
        forall j | 0 <= j <= i - 1 ensures !Blocks(rest[j], trades, regular) {
          assert rest[j] == bars[j + 1];
        }
      }
    }
    if !Blocks(bars[0], trades, regular) {
      if i :| 0 <= i < |rest| && rest[i].0 == d && forall j | 0 <= j <= i :: !Blocks(rest[j], trades, regular) {
        assert bars[i + 1].0 == d;
        forall j | 0 <= j <= i + 1 ensures !Blocks(bars[j], trades, regular) {
          assert j > 0 ==> bars[j] == rest[j - 1];
        }
      }
      if bars[0].0 == d {
        assert Reached(bars, trades, regular, d);
      }
    }
  }

  /** A day's summary is consumed if and only if the day has bars and the pass gets past it. */
  lemma {:induction false} ConsumedIffReached(
    bars: seq<Slot>, trades: Groups, regular: Day -> Regular, previous: bool, limit: real, d: Day)
    requires (forall d | d in trades :: trades[d] != []) && Labelled(bars)
    ensures var p := PassOver(bars, trades, regular, previous, limit);
      (exists s :: s in p.consumed && s.day == d) <==> d in trades && Reached(bars, trades, regular, d)
  {
    if bars != [] {
      ReachedCons(bars, trades, regular, d);
      ConsumedIffReached(bars[1..], trades, regular, previous, limit, d);
      var (day, slot) := bars[0];
      var p := PassOver(bars, trades, regular, previous, limit);
      if day in trades && !Blocks(bars[0], trades, regular) {
        var s := Summarize(slot.value, trades[day], RegularBars(regular(day), day), previous, limit);
        var rest := PassOver(bars[1..], trades, regular, previous, limit);
        assert p.consumed == [s] + rest.consumed && s.day == day;
      }
    }
  }

  predicate DaysAscend(ss: seq<Summary>) {
    forall i, j | 0 <= i < j < |ss| :: ss[i].day < ss[j].day
  }

  lemma DaysAscendCons(s: Summary, ss: seq<Summary>)
    requires DaysAscend(ss) && forall x | x in ss :: s.day < x.day
    ensures DaysAscend([s] + ss)
  {
  }

  lemma SlotsAscend(slot: Slot, left: seq<Slot>, rest: seq<Slot>)
    requires Ascending(left) && Ascending([slot] + rest)
    requires forall x | x in left :: rest != [] && rest[0].0 <= x.0
    ensures Ascending([slot] + left)
  {
    if rest != [] {
      assert ([slot] + rest)[0].0 < ([slot] + rest)[1].0;
    }
    forall i | 0 <= i < |left| ensures slot.0 < left[i].0 {
      assert left[i] in left;
    }
  }

  /** A pass goes up: what it consumes is in ascending order of days. */
  lemma {:induction false} PassGoesUp(
    bars: seq<Slot>, trades: Groups, regular: Day -> Regular, previous: bool, limit: real)
    requires (forall d | d in trades :: trades[d] != []) && Labelled(bars) && Ascending(bars)
    ensures var p := PassOver(bars, trades, regular, previous, limit);
      && DaysAscend(p.consumed) && Ascending(p.left)
      && (forall s | s in p.consumed :: bars != [] && bars[0].0 <= s.day)
      && (forall slot | slot in p.left :: bars != [] && bars[0].0 <= slot.0)
  {
    if bars != [] {
      PassGoesUp(bars[1..], trades, regular, previous, limit);
      var rest := PassOver(bars[1..], trades, regular, previous, limit);
      var (day, slot) := bars[0];
      if day !in trades {
        SlotsAscend(bars[0], rest.left, bars[1..]);
      } else if !Blocks(bars[0], trades, regular) {
        DaysAscendCons(Summarize(slot.value, trades[day], RegularBars(regular(day), day), previous, limit),
                       rest.consumed);
      }
    }
  }

  lemma CompletedFromTheDay(
    s: Summary, blank: Summary, trades: seq<Bar>, used: seq<Bar>, previous: bool, limit: real)
    requires Completes(s, blank, OfDay(trades, s.day), OfDay(used, s.day), previous, limit)
    requires blank.high == 0.0 == blank.low
    ensures IsDaySummary(s, trades, used, previous, limit)
  {
    DayHasItsCount(trades, s.day);
    DayHasEnds(used, s.day);
    if !previous {
      BoundsOfTheDay(used, s.day, limit, s.high, s.low);
    }
  }

  /** A completed summary of the first load or the last, in terms of the bars fetched. */
  lemma CompletedIsDaySummary(s: Summary, slot: Slot, trades: seq<Bar>, regular: Day -> Regular, previous: bool,
                              limit: real)
    requires CompletesSlot(s, slot, Grouped(trades), regular, previous, limit)
    requires slot.1.value.day == slot.0 && slot.1.value.high == 0.0 == slot.1.value.low
    ensures var hours := regular(s.day);
      IsDaySummary(s, trades, if hours.Fetched? && HasBars(hours.bars, s.day) then hours.bars else trades,
                   previous, limit)
  {
    var day := slot.0;
    var hours := regular(day);
    GroupsAreTheDays(trades, day);
    if hours.Fetched? {
      GroupsAreTheDays(hours.bars, day);
    }
    var used := if hours.Fetched? && HasBars(hours.bars, day) then hours.bars else trades;
    CompletedFromTheDay(s, slot.1.value, trades, used, previous, limit);
  }

  /** The bars the first load uses for a day's prices: those of the regular hours where it fetches
      them and they have the day. */
  function BarsUsed(m: Market, f: Fetches, day: Day): seq<Bar> {
    if FetchesRegular(m) && f.regular(day).Some? && HasBars(f.regular(day).value, day) then f.regular(day).value
    else if f.trades.Some? then f.trades.value
    else []
  }

  /** So every summary a pass consumes is that of its day, with the quotes the map had for it. */
  lemma ConsumedIsDaySummary(bars: seq<Slot>, trades: seq<Bar>, regular: Day -> Regular, previous: bool, limit: real,
                             m: Market, first: Fetches, s: Summary)
    requires forall slot | slot in bars :: OnlyQuoted(slot, m, first)
    requires s in PassOver(bars, Grouped(trades), regular, previous, limit).consumed
    ensures var hours := regular(s.day);
      && HasQuotes(s, m, first)
      && IsDaySummary(s, trades, if hours.Fetched? && HasBars(hours.bars, s.day) then hours.bars else trades,
                      previous, limit)
  {
    ConsumedCompletesASlot(bars, Grouped(trades), regular, previous, limit);
    assert CompletesOne(s, bars, Grouped(trades), regular, previous, limit);
    var slot :| slot in bars && CompletesSlot(s, slot, Grouped(trades), regular, previous, limit);
    CompletedIsDaySummary(s, slot, trades, regular, previous, limit);
  }

  lemma FirstLoadIsRight(days: seq<Day>, m: Market, first: Fetches, limit: real, s: Summary)
    requires s in FirstLoad(days, m, first, limit).consumed
    ensures first.trades.Some? && HasQuotes(s, m, first)
    ensures IsDaySummary(s, first.trades.value, BarsUsed(m, first, s.day), false, limit)
  {
    StartSetsTheQuotes(days, m, first);
    StartOfCurrentDays(Blanks(days), m, first);
    var start := StartOf(Blanks(days), false, m, first);
    var regular := RegularOf(first, FetchesRegular(m));
    ConsumedIsDaySummary(start.bars, first.trades.value, regular, false, limit, m, first, s);
  }

  lemma FirstLoadLeavesTheQuotes(days: seq<Day>, m: Market, first: Fetches, limit: real)
    ensures forall slot | slot in FirstLoad(days, m, first, limit).left :: OnlyQuoted(slot, m, first)
  {
    StartSetsTheQuotes(days, m, first);
    var start := StartOf(Blanks(days), false, m, first);
    if start.Ready? {
      ConsumedCompletesASlot(start.bars, start.trades, RegularOf(first, FetchesRegular(m)), false, limit);
    }
  }

  predicate OfFirstLoad(s: Summary, m: Market, first: Fetches, limit: real) {
    && first.trades.Some? && HasQuotes(s, m, first)
    && IsDaySummary(s, first.trades.value, BarsUsed(m, first, s.day), false, limit)
  }

  predicate OfLastLoad(s: Summary, m: Market, first: Fetches, second: Fetches, limit: real) {
    && second.trades.Some? && HasQuotes(s, m, first)
    && IsDaySummary(s, second.trades.value, second.trades.value, true, limit)
  }

  /** Every summary pushed is that of its day. In the first load it counts the day's trades, opens and
      closes with the first and the last bar used, and has their high and low; in the second, of the
      days before, it has no high and no low. The quotes are those of the first load. */
  lemma PushedSummariesAreRight(days: seq<Day>, m: Market, first: Fetches, second: Fetches, limit: real)
    ensures forall s | s in FirstLoad(days, m, first, limit).consumed :: OfFirstLoad(s, m, first, limit)
    ensures forall s | s in LastLoad(days, m, first, second, limit).consumed :: OfLastLoad(s, m, first, second, limit)
  {
    forall s | s in FirstLoad(days, m, first, limit).consumed ensures OfFirstLoad(s, m, first, limit) {
      FirstLoadIsRight(days, m, first, limit, s);
    }
    forall s | s in LastLoad(days, m, first, second, limit).consumed ensures OfLastLoad(s, m, first, second, limit) {
      var left := FirstLoad(days, m, first, limit).left;
      FirstLoadLeavesTheQuotes(days, m, first, limit);
      ConsumedIsDaySummary(left, second.trades.value, RegularOf(second, false), true, limit, m, first, s);
    }
  }

  // ----- Which summaries the two loads push -----

  predicate Holds(ss: seq<Summary>, d: Day) {
    exists s :: s in ss && s.day == d
  }

  lemma {:induction false} HoldsIffSummarized(ss: seq<Summary>, d: Day)
    ensures Holds(ss, d) <==> Summarized(ss, d) > 0
  {
    if ss != [] {
      HoldsIffSummarized(ss[1..], d);
      assert ss == [ss[0]] + ss[1..];
    }
  }

  lemma {:induction false} IntactIffThere(bars: seq<Slot>, d: Day)
    ensures Intact(bars, d) > 0 <==> exists i :: 0 <= i < |bars| && bars[i].0 == d && bars[i].1.Some?
  {
    if bars != [] {
      IntactIffThere(bars[1..], d);
      if i :| 0 <= i < |bars| - 1 && bars[1..][i].0 == d && bars[1..][i].1.Some? {
        assert bars[i + 1].0 == d;
      }
      if i :| 0 <= i < |bars| && bars[i].0 == d && bars[i].1.Some? {
        assert i > 0 ==> bars[1..][i - 1] == bars[i];
      }
    }
  }

  /** Day `d` is asked for, and no day up to it has its regular hours fetched in vain. */
  predicate NoneLostUpTo(days: seq<Day>, m: Market, first: Fetches, d: Day) {
    exists i :: 0 <= i < |days| && days[i] == d
                && (FetchesRegular(m) ==> forall j | 0 <= j <= i :: !IsLost(first, days[j]))
  }

  lemma ReachedIffNoneLost(days: seq<Day>, bars: seq<Slot>, m: Market, first: Fetches, d: Day)
    requires first.trades.Some? && |bars| == |days|
    requires forall i | 0 <= i < |bars| :: bars[i].0 == days[i] && bars[i].1.Some?
    ensures Reached(bars, Grouped(first.trades.value), RegularOf(first, FetchesRegular(m)), d)
            <==> NoneLostUpTo(days, m, first, d)
  {
    var trades, regular := Grouped(first.trades.value), RegularOf(first, FetchesRegular(m));
    forall i | 0 <= i < |days|
      ensures Blocks(bars[i], trades, regular) <==> FetchesRegular(m) && IsLost(first, days[i]) {
      GroupsAreTheDays(first.trades.value, days[i]);
    }
  }

  /** The first load pushes a day's summary if and only if its fetches are answered, the day has
      trades, and no day up to it has its regular hours fetched in vain. */
  lemma FirstLoadPushes(days: seq<Day>, m: Market, first: Fetches, limit: real, d: Day)
    ensures Holds(FirstLoad(days, m, first, limit).consumed, d) <==>
      && QuotesAnswered(m, first) && first.trades.Some? && HasBars(first.trades.value, d)
      && NoneLostUpTo(days, m, first, d)
  {
    var start := StartOf(Blanks(days), false, m, first);
    StartOfCurrentDays(Blanks(days), m, first);
    if start.Ready? {
      StartKeepsLabels(Blanks(days), m, first);
      var regular := RegularOf(first, FetchesRegular(m));
      ConsumedIffReached(start.bars, start.trades, regular, false, limit, d);
      GroupsAreTheDays(first.trades.value, d);
      ReachedIffNoneLost(days, start.bars, m, first, d);
    }
  }

  lemma FirstLoadGoesUp(days: seq<Day>, m: Market, first: Fetches, limit: real)
    requires DaysGoUp(days)
    ensures var p := FirstLoad(days, m, first, limit);
      DaysAscend(p.consumed) && Ascending(p.left) && Labelled(p.left)
  {
    var start := StartOf(Blanks(days), false, m, first);
    StartOfCurrentDays(Blanks(days), m, first);
    StartKeepsLabels(Blanks(days), m, first);
    if start.Ready? {
      assert Ascending(start.bars);
      var regular := RegularOf(first, FetchesRegular(m));
      PassGoesUp(start.bars, start.trades, regular, false, limit);
      PassTakesTheDaysWithBars(start.bars, start.trades, regular, false, limit);
    }
  }

  /** Each load pushes its summaries in the order of the days. */
  lemma LoadsGoUp(days: seq<Day>, m: Market, first: Fetches, second: Fetches, limit: real)
    requires DaysGoUp(days)
    ensures DaysAscend(FirstLoad(days, m, first, limit).consumed)
    ensures DaysAscend(LastLoad(days, m, first, second, limit).consumed)
  {
    FirstLoadGoesUp(days, m, first, limit);
    if !UseRth(m) && second.trades.Some? {
      PassGoesUp(FirstLoad(days, m, first, limit).left, Grouped(second.trades.value), RegularOf(second, false),
                 true, limit);
    }
  }

  /** The lost day or a later one, when the second load has bars for the lost day. */
  predicate BehindTheLostDay(days: seq<Day>, m: Market, first: Fetches, second: seq<Bar>, d: Day) {
    exists e :: e in days && e <= d && LostDay(days, m, first, e) && HasBars(second, e)
  }

  /** The second load pushes a day's summary if and only if there is one, the day has bars in it, the
      first load did not push it, and it does not come behind the empty pointer. */
  lemma LastLoadPushes(days: seq<Day>, m: Market, first: Fetches, second: Fetches, limit: real, d: Day)
    requires DaysGoUp(days)
    ensures Holds(LastLoad(days, m, first, second, limit).consumed, d) <==>
      && !UseRth(m) && second.trades.Some? && HasBars(second.trades.value, d)
      && d in days && !Holds(FirstLoad(days, m, first, limit).consumed, d)
      && !BehindTheLostDay(days, m, first, second.trades.value, d)
  {
    if !UseRth(m) && second.trades.Some? {
      FirstLoadGoesUp(days, m, first, limit);
      ConsumedIffReached(FirstLoad(days, m, first, limit).left, Grouped(second.trades.value),
                         RegularOf(second, false), true, limit, d);
      GroupsAreTheDays(second.trades.value, d);
      if HasBars(second.trades.value, d) {
        ReachedAgainIff(days, m, first, second, limit, d);
      }
    }
  }

  /** The days with bars that the second pass gets past. */
  lemma ReachedAgainIff(days: seq<Day>, m: Market, first: Fetches, second: Fetches, limit: real, d: Day)
    requires DaysGoUp(days) && second.trades.Some? && HasBars(second.trades.value, d)
    ensures Reached(FirstLoad(days, m, first, limit).left, Grouped(second.trades.value), RegularOf(second, false), d)
            <==> d in days && !Holds(FirstLoad(days, m, first, limit).consumed, d)
                 && !BehindTheLostDay(days, m, first, second.trades.value, d)
  {
    var left := FirstLoad(days, m, first, limit).left;
    var trades, regular := Grouped(second.trades.value), RegularOf(second, false);
    if Reached(left, trades, regular, d) {
      NothingLostBefore(days, m, first, second, limit, d);
    } else if d in days && !Holds(FirstLoad(days, m, first, limit).consumed, d) && !LostDay(days, m, first, d) {
      StuckBehindTheLostDay(days, m, first, second, limit, d);
    }
  }

  lemma StuckBehindTheLostDay(days: seq<Day>, m: Market, first: Fetches, second: Fetches, limit: real, d: Day)
    requires DaysGoUp(days) && second.trades.Some?
    requires d in days && !Holds(FirstLoad(days, m, first, limit).consumed, d) && !LostDay(days, m, first, d)
    requires !Reached(FirstLoad(days, m, first, limit).left, Grouped(second.trades.value), RegularOf(second, false), d)
    ensures BehindTheLostDay(days, m, first, second.trades.value, d)
  {
    var left := FirstLoad(days, m, first, limit).left;
    FirstLoadGoesUp(days, m, first, limit);
    FirstLoadLeavesIff(days, m, first, limit, d);
    var e := BlockUpTo(left, Grouped(second.trades.value), RegularOf(second, false), d);
    FirstLoadFailsAtTheLostDay(days, m, first, limit, e);
    GroupsAreTheDays(second.trades.value, e);
  }

  lemma BlockUpTo(bars: seq<Slot>, trades: Groups, regular: Day -> Regular, d: Day) returns (e: Day)
    requires Ascending(bars) && (exists i :: 0 <= i < |bars| && bars[i].0 == d && bars[i].1.Some?)
    requires !Reached(bars, trades, regular, d) && forall day :: regular(day).Unwanted?
    ensures e <= d && e in trades && (e, None) in bars
  {
    var i :| 0 <= i < |bars| && bars[i].0 == d;
    var j :| 0 <= j <= i && Blocks(bars[j], trades, regular);
    e := bars[j].0;
    assert bars[j] == (e, None);
  }

  /** The first load leaves a day with its summary unless it pushed it or lost it. */
  lemma FirstLoadLeavesIff(days: seq<Day>, m: Market, first: Fetches, limit: real, d: Day)
    requires DaysGoUp(days)
    ensures var p := FirstLoad(days, m, first, limit);
      (exists i :: 0 <= i < |p.left| && p.left[i].0 == d && p.left[i].1.Some?)
      <==> d in days && !Holds(p.consumed, d) && !LostDay(days, m, first, d)
  {
    var p := FirstLoad(days, m, first, limit);
    BlanksAreThereOnce(days, Blanks(days), d);
    FirstLoadFailsAtTheLostDay(days, m, first, limit, d);
    CurrentLoadConserves(Blanks(days), UseRth(m), m, first, limit, d);
    HoldsIffSummarized(p.consumed, d);
    IntactIffThere(p.left, d);
  }

  lemma NothingLostBefore(days: seq<Day>, m: Market, first: Fetches, second: Fetches, limit: real, d: Day)
    requires DaysGoUp(days) && second.trades.Some? && HasBars(second.trades.value, d)
    requires Reached(FirstLoad(days, m, first, limit).left, Grouped(second.trades.value), RegularOf(second, false), d)
    ensures !BehindTheLostDay(days, m, first, second.trades.value, d)
    ensures d in days && !Holds(FirstLoad(days, m, first, limit).consumed, d)
  {
    var left := FirstLoad(days, m, first, limit).left;
    var trades, regular := Grouped(second.trades.value), RegularOf(second, false);
    FirstLoadGoesUp(days, m, first, limit);
    GroupsAreTheDays(second.trades.value, d);
    NoBlockUpTo(left, trades, regular, d, d);
    FirstLoadLeavesIff(days, m, first, limit, d);
    forall e | e <= d && HasBars(second.trades.value, e) ensures !LostDay(days, m, first, e) {
      GroupsAreTheDays(second.trades.value, e);
      NoBlockUpTo(left, trades, regular, d, e);
      FirstLoadFailsAtTheLostDay(days, m, first, limit, e);
    }
  }

  lemma NoBlockUpTo(bars: seq<Slot>, trades: Groups, regular: Day -> Regular, d: Day, e: Day)
    requires Ascending(bars) && Reached(bars, trades, regular, d) && e <= d && e in trades
    ensures (e, None) !in bars
    ensures d in trades ==> exists i :: 0 <= i < |bars| && bars[i].0 == d && bars[i].1.Some?
  {
    var i :| 0 <= i < |bars| && bars[i].0 == d && forall j | 0 <= j <= i :: !Blocks(bars[j], trades, regular);
    assert d in trades ==> !Blocks(bars[i], trades, regular);
  }

  /** Only stocks are loaded twice, and only when they are closed or not yet open; regular hours are
      wanted only when they are closed. Exactly what is loaded twice asks for two days, except that an
      option does so too while neither it nor the stock market is open. */
  lemma WhatIsLoaded(m: Market, current: Day, prev: Day -> Day)
    requires forall d :: prev(d) < d
    ensures UseRth(m) <==> m.isOption || (m.typeOpen && !m.isPreMarket)
    ensures FetchesRegular(m) <==> !m.isOption && !m.typeOpen && !m.isPreMarket
    ensures !UseRth(m) ==> TradingDays(current, CountOf(m), prev) == [prev(current), current]
    ensures m.isOption ==> (TradingDays(current, CountOf(m), prev) == [current] <==>
      m.stockOpen || (m.typeOpen && !m.isPreMarket))
    ensures UseRth(m) && !m.isOption ==> TradingDays(current, CountOf(m), prev) == [current]
  {
    var one := TradingDays(current, 1, prev);
    assert one == TradingDays(prev(current), 0, prev) + [current] == [current];
    var two := TradingDays(current, 2, prev);
    assert TradingDays(prev(current), 1, prev) == TradingDays(prev(prev(current)), 0, prev) + [prev(current)];
    assert two == [prev(current), current];
  }

  // ----- The operations -----

  /** Completes the summary of one day, unless the fetch of the regular hours throws. */
  method TakeDay(s: Summary, day: Day, ibTrades: seq<Bar>, fetched: Regular, previous: bool, limit: real)
    returns (taken: Option<Summary>)
    requires ibTrades != [] && (previous ==> fetched.Unwanted?)
    ensures taken == if fetched.Threw? then None
                     else Some(Summarize(s, ibTrades, RegularBars(fetched, day), previous, limit))
  {
    var hours := [];
    if !previous {
      if fetched.Threw? {
        return None;
      }
      if fetched.Fetched? {
        var groups := GroupByDay(fetched.bars);
        GroupsAreTheDays(fetched.bars, day);
        if day in groups {
          hours := groups[day];
        }
      }
    }
    var summary := SummarizeDay(s, ibTrades, hours, previous, limit);
    taken := Some(summary);
  }

  class DayLoader {
    var bars: seq<Slot>
    var pushed: seq<Summary>

    constructor (bars: seq<Slot>)
      ensures this.bars == bars && pushed == []
    {
      this.bars, pushed := bars, [];
    }

    method PushSummary(session: nat, summary: Summary)
      modifies this`pushed
      ensures pushed == old(pushed) + if session != 0 then [summary] else []
    {
      if session != 0 {
        pushed := pushed + [summary];
      }
    }

    /** One turn of the loop for a day with bars: the summary is moved out of the map, and the day is
        erased when the summary is complete. */
    method ConsumeAt(session: nat, i: nat, ibTrades: seq<Bar>, fetched: Regular, previous: bool, limit: real)
      returns (taken: Option<Summary>)
      requires i < |bars| && bars[i].1.Some? && ibTrades != [] && (previous ==> fetched.Unwanted?)
      modifies this
      ensures taken == if fetched.Threw? then None
                       else Some(Summarize(old(bars)[i].1.value, ibTrades,
                                           RegularBars(fetched, old(bars)[i].0), previous, limit))
      ensures taken.None? ==> bars == old(bars)[i := (old(bars)[i].0, None)] && pushed == old(pushed)
      ensures taken.Some? ==>
        && bars == old(bars)[..i] + old(bars)[i + 1..]
        && pushed == old(pushed) + if session != 0 then [taken.value] else []
    {
      var (day, slot) := bars[i];
      bars := bars[i := (day, None)];
      taken := TakeDay(slot.value, day, ibTrades, fetched, previous, limit);
      if taken.Some? {
        PushSummary(session, taken.value);
        bars := bars[..i] + bars[i + 1..];
      }
    }

    /** The loop of one load: erases a day from the map while iterating over it. */
    method LoadPass(session: nat, trades: Groups, regular: Day -> Regular, previous: bool, limit: real)
      returns (consumed: seq<Summary>, outcome: Outcome)
      requires forall d | d in trades :: trades[d] != []
      requires previous ==> forall d :: regular(d) == Unwanted
      modifies this
      ensures PassOver(old(bars), trades, regular, previous, limit) == Pass(bars, consumed, outcome)
      ensures pushed == old(pushed) + if session != 0 then consumed else []
    {
      consumed := [];
      ghost var all := PassOver(bars, trades, regular, previous, limit);
      ghost var kept: seq<Slot>, rest := [], bars;
      var i := 0;
      while i < |bars|
        invariant bars == kept + rest && |kept| == i
        invariant pushed == old(pushed) + if session != 0 then consumed else []
        invariant all == Onto(kept, consumed, PassOver(rest, trades, regular, previous, limit))
        decreases |rest|
      {
        var (day, slot) := bars[i];
        assert rest[0] == bars[i];
        if day !in trades {
          PassKeepsDay(kept, consumed, rest, trades, regular, previous, limit);
          kept, rest := kept + [rest[0]], rest[1..];
          i := i + 1;
        } else if slot.None? {
          PassStopsAtDay(kept, consumed, rest, trades, regular, previous, limit);
          assert bars == bars[i := (day, None)];
          return consumed, NullSlot(day);
        } else {
          ghost var before := bars;
          var taken := ConsumeAt(session, i, trades[day], regular(day), previous, limit);
          if taken.None? {
            PassStopsAtDay(kept, consumed, rest, trades, regular, previous, limit);
            return consumed, FetchFailed(day);
          }
          PassTakesDay(kept, consumed, rest, trades, regular, previous, limit);
          consumed := consumed + [taken.value];
          assert before[..i] == kept && before[i + 1..] == rest[1..];
          rest := rest[1..];
        }
      }
      outcome := Finished;
    }

    /** Sets the ask, or the bid, of every day still in the map that has quotes to their last close. */
    method SetQuotes(quotes: Groups, ask: bool)
      requires (forall d | d in quotes :: quotes[d] != []) && AllThere(bars)
      modifies this`bars
      ensures bars == QuotedAll(old(bars), quotes, ask)
    {
      for i := 0 to |bars|
        invariant |bars| == |old(bars)| && AllThere(bars)
        invariant forall k | i <= k < |bars| :: bars[k] == old(bars)[k]
        invariant forall k | 0 <= k < i :: bars[k] == Quoted(old(bars)[k], quotes, ask)
      {
        var (day, slot) := bars[i];
        if day in quotes {
          var close := quotes[day][|quotes[day]| - 1].close;
          var s := if ask then slot.value.(ask := close) else slot.value.(bid := close);
          bars := bars[i := (day, Some(s))];
        }
      }
    }

    /** One load: quotes, trades, and the pass. A fetch that throws before the loop skips the pass. */
    method Load(session: nat, useRth: bool, previous: bool, m: Market, f: Fetches, limit: real)
      returns (consumed: seq<Summary>, outcome: Outcome)
      requires !previous ==> AllThere(bars)
      modifies this
      ensures Pass(bars, consumed, outcome) == LoadOver(old(bars), useRth, previous, m, f, limit)
      ensures pushed == old(pushed) + if session != 0 then consumed else []
    {
      consumed, outcome := [], Skipped;
      if !m.open && !previous {
        if f.asks.None? {
          return;
        }
        var asks := GroupByDay(f.asks.value);
        SetQuotes(asks, true);
        if f.bids.None? {
          return;
        }
        var bids := GroupByDay(f.bids.value);
        SetQuotes(bids, false);
      }
      var trades: Groups := map[];
      if !previous || !m.isOption {
        if f.trades.None? {
          return;
        }
        trades := GroupByDay(f.trades.value);
      }
      var regular := RegularOf(f, !previous && !useRth && !m.isPreMarket);
      assert previous ==> regular == RegularOf(f, false);
      consumed, outcome := LoadPass(session, trades, regular, previous, limit);
    }

    method RunFirst(session: nat, ghost days: seq<Day>, m: Market, first: Fetches, limit: real)
      returns (consumed: seq<Summary>, outcome: Outcome)
      requires bars == Blanks(days) && pushed == []
      modifies this
      ensures Pass(bars, consumed, outcome) == FirstLoad(days, m, first, limit)
      ensures pushed == if session != 0 then consumed else []
    {
      consumed, outcome := Load(session, m.isOption || CountOf(m) == 1, false, m, first, limit);
      assert [] + consumed == consumed;
    }

    /** The second load of a stock outside the regular hours. */
    method RunLast(session: nat, ghost days: seq<Day>, m: Market, ghost first: Fetches, second: Fetches,
                   limit: real)
      returns (consumed: seq<Summary>, outcome: Outcome)
      requires bars == FirstLoad(days, m, first, limit).left
      modifies this
      ensures Pass(bars, consumed, outcome) == LastLoad(days, m, first, second, limit)
      ensures pushed == old(pushed) + if session != 0 then consumed else []
    {
      consumed, outcome := [], Skipped;
      if m.isOption || CountOf(m) == 1 {
        assert pushed + [] == pushed;
      } else {
        consumed, outcome := Load(session, true, true, m, second, limit);
      }
    }
  }

  method InitialBars(current: Day, count: nat, prev: Day -> Day) returns (bars: seq<Slot>)
    requires forall d :: prev(d) < d
    ensures bars == Blanks(TradingDays(current, count, prev))
  {
    bars := CollectDays(current, count, prev);
  }

  /** The whole loader of one contract: the trading days, the first load, and for stocks outside
      the regular hours a second one over the days before. */
  method Previous(session: nat, current: Day, prev: Day -> Day, m: Market, first: Fetches, second: Fetches, limit: real)
    returns (loader: DayLoader, consumed: seq<Summary>, outcome: Outcome, last: Outcome)
    requires forall d :: prev(d) < d
    ensures var days := TradingDays(current, CountOf(m), prev);
      var p, q := FirstLoad(days, m, first, limit), LastLoad(days, m, first, second, limit);
      && consumed == p.consumed + q.consumed && loader.bars == q.left
      && outcome == p.outcome && last == q.outcome
      && (forall s | s in p.consumed :: OfFirstLoad(s, m, first, limit))
      && (forall s | s in q.consumed :: OfLastLoad(s, m, first, second, limit))
    ensures fresh(loader) && loader.pushed == if session != 0 then consumed else []
  {
    var count := CountOf(m);
    var bars := InitialBars(current, count, prev);
    ghost var days := TradingDays(current, count, prev);
    PushedSummariesAreRight(days, m, first, second, limit);
    loader := new DayLoader(bars);
    consumed, outcome := loader.RunFirst(session, days, m, first, limit);
    var more;
    more, last := loader.RunLast(session, days, m, first, second, limit);
    consumed := consumed + more;
  }
}
