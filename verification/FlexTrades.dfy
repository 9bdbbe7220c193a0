/**
 Trades and orders of the flex statements: deduplicated by id over all files, kept by day, and
 sent for a range of days.
 */
module FlexTrades {

  const SECONDS_PER_DAY := 86400

  /** A 32-bit time in seconds; a day index is stored in 16 bits. */
  type Time = t: nat | t < 0x1_0000_0000
  type Day = nat

  datatype Item = Item(id: nat, time: Time, data: int)

  /** One element of a statement; both kinds carry the id of their order, which may be missing. */
  datatype Element = OrderElement(order: Item) | TradeElement(orderId: nat, trade: Item)

  function DayOf(t: int): int {
    t / SECONDS_PER_DAY
  }

  function BeginningOfDay(t: int): int {
    DayOf(t) * SECONDS_PER_DAY
  }

  function EndOfDay(t: int): int {
    DayOf(t) * SECONDS_PER_DAY + SECONDS_PER_DAY - 1
  }

  /** The first and the last second of the day that the time is in. */
  lemma DayHoldsItsTimes(t: int)
    ensures BeginningOfDay(t) <= t <= EndOfDay(t) && EndOfDay(t) - BeginningOfDay(t) == 86399
    ensures BeginningOfDay(t) % 86400 == 0
  {
  }

  /** The 16-bit key never truncates, and a 16-bit counter goes past the last day without wrapping. */
  lemma DayFitsSixteenBits(t: Time)
    ensures 0 <= DayOf(t) < 0x1_0000 && DayOf(t) % 0x1_0000 == DayOf(t)
    ensures (DayOf(EndOfDay(t)) + 1) % 0x1_0000 == DayOf(t) + 1
  {
  }

  // ----- Loading -----

  datatype Loaded = Loaded(trades: map<nat, Item>, orders: map<nat, Item>)

  predicate IsTrade(e: Element, id: nat) {
    e.TradeElement? && e.orderId != 0 && e.trade.id == id
  }

  predicate IsOrder(e: Element, id: nat) {
    e.OrderElement? && id != 0 && e.order.id == id
  }

  function Keep(l: Loaded, e: Element): Loaded {
    match e
    case OrderElement(o) => if o.id == 0 || o.id in l.orders then l else l.(orders := l.orders[o.id := o])
    case TradeElement(orderId, t) => if orderId == 0 || t.id in l.trades then l else l.(trades := l.trades[t.id := t])
  }

  function LoadAll(l: Loaded, es: seq<Element>): Loaded {
    if es == [] then l else Keep(LoadAll(l, es[..|es| - 1]), es[|es| - 1])
  }

  const NOTHING := Loaded(map[], map[])

  function Flat(files: seq<seq<Element>>): seq<Element> {
    if files == [] then [] else Flat(files[..|files| - 1]) + files[|files| - 1]
  }

  predicate FirstTrade(es: seq<Element>, id: nat, i: nat) {
    i < |es| && IsTrade(es[i], id) && forall j | 0 <= j < i :: !IsTrade(es[j], id)
  }

  predicate FirstOrder(es: seq<Element>, id: nat, i: nat) {
    i < |es| && IsOrder(es[i], id) && forall j | 0 <= j < i :: !IsOrder(es[j], id)
  }

  /** Where nothing is kept for an id yet, it is the first element that carries it. */
  lemma {:induction false} FirstTradeWins(l: Loaded, es: seq<Element>, id: nat)
    ensures var all := LoadAll(l, es).trades;
      && (id in all <==> id in l.trades || exists i: nat :: FirstTrade(es, id, i))
      && (id in l.trades ==> id in all && all[id] == l.trades[id])
      && forall i: nat | id !in l.trades && FirstTrade(es, id, i) :: all[id] == es[i].trade
  {
    if es != [] {
      var n := |es| - 1;
      FirstTradeWins(l, es[..n], id);
      forall i: nat | i < n ensures FirstTrade(es, id, i) <==> FirstTrade(es[..n], id, i) {
      }
      if IsTrade(es[n], id) && id !in LoadAll(l, es[..n]).trades {
        NoTradeKept(es[..n], id);
        assert FirstTrade(es, id, n);
      }
    }
  }

  lemma NoTradeKept(es: seq<Element>, id: nat)
    requires !exists i: nat :: FirstTrade(es, id, i)
    ensures forall j | 0 <= j < |es| :: !IsTrade(es[j], id)
  {
    var i := 0;
    while i < |es|
      invariant i <= |es| && forall j | 0 <= j < i :: !IsTrade(es[j], id)
    {
      assert !FirstTrade(es, id, i);
      i := i + 1;
    }
  }

  lemma {:induction false} FirstOrderWins(l: Loaded, es: seq<Element>, id: nat)
    ensures var all := LoadAll(l, es).orders;
      && (id in all <==> id in l.orders || exists i: nat :: FirstOrder(es, id, i))
      && (id in l.orders ==> id in all && all[id] == l.orders[id])
      && forall i: nat | id !in l.orders && FirstOrder(es, id, i) :: all[id] == es[i].order
  {
    if es != [] {
      var n := |es| - 1;
      FirstOrderWins(l, es[..n], id);
      forall i: nat | i < n ensures FirstOrder(es, id, i) <==> FirstOrder(es[..n], id, i) {
      }
      if IsOrder(es[n], id) && id !in LoadAll(l, es[..n]).orders {
        NoOrderKept(es[..n], id);
        assert FirstOrder(es, id, n);
      }
    }
  }

  lemma NoOrderKept(es: seq<Element>, id: nat)
    requires !exists i: nat :: FirstOrder(es, id, i)
    ensures forall j | 0 <= j < |es| :: !IsOrder(es[j], id)
  {
    var i := 0;
    while i < |es|
      invariant i <= |es| && forall j | 0 <= j < i :: !IsOrder(es[j], id)
    {
      assert !FirstOrder(es, id, i);
      i := i + 1;
    }
  }

  // ----- What is kept, over files and positions -----

  predicate IsItem(items: map<nat, Item>, x: Item) {
    x.id in items && items[x.id] == x
  }

  predicate TradeAt(files: seq<seq<Element>>, id: nat, f: nat, i: nat) {
    f < |files| && i < |files[f]| && IsTrade(files[f][i], id)
  }

  /** The first trade with the id: in the first file that has one, at its first position there. */
  ghost predicate FirstTradeIn(files: seq<seq<Element>>, id: nat, f: nat, i: nat) {
    && TradeAt(files, id, f, i)
    && forall f': nat, i': nat | TradeAt(files, id, f', i') :: f < f' || (f == f' && i <= i')
  }

  ghost predicate TradeKept(files: seq<seq<Element>>, x: Item) {
    exists f: nat, i: nat :: FirstTradeIn(files, x.id, f, i) && files[f][i].trade == x
  }

  predicate OrderAt(files: seq<seq<Element>>, id: nat, f: nat, i: nat) {
    f < |files| && i < |files[f]| && IsOrder(files[f][i], id)
  }

  /** The first order with the id: in the first file that has one, at its first position there. */
  ghost predicate FirstOrderIn(files: seq<seq<Element>>, id: nat, f: nat, i: nat) {
    && OrderAt(files, id, f, i)
    && forall f': nat, i': nat | OrderAt(files, id, f', i') :: f < f' || (f == f' && i <= i')
  }

  ghost predicate OrderKept(files: seq<seq<Element>>, x: Item) {
    exists f: nat, i: nat :: FirstOrderIn(files, x.id, f, i) && files[f][i].order == x
  }

  lemma {:induction false} LoadAppend(l: Loaded, a: seq<Element>, b: seq<Element>)
    ensures LoadAll(l, a + b) == LoadAll(LoadAll(l, a), b)
  {
    if b == [] {
      assert a + b == a;
    } else {
      LoadAppend(l, a, b[..|b| - 1]);
      assert (a + b)[..|a + b| - 1] == a + b[..|b| - 1];
    }
  }

  /** Loading elements whose ids are all there already changes nothing. */
  lemma {:induction false} KnownElementsChangeNothing(l: Loaded, es: seq<Element>)
    requires forall e | e in es :: Keep(l, e) == l
    ensures LoadAll(l, es) == l
  {
    if es != [] {
      KnownElementsChangeNothing(l, es[..|es| - 1]);
      assert es[|es| - 1] in es;
    }
  }

  lemma {:induction false} LoadedIsKnown(l: Loaded, es: seq<Element>, e: Element)
    requires e in es
    ensures Keep(LoadAll(l, es), e) == LoadAll(l, es)
  {
    var n := |es| - 1;
    if e == es[n] {
    } else {
      assert e in es[..n];
      LoadedIsKnown(l, es[..n], e);
    }
  }

  /** Meeting a file a second time, after any others, changes nothing. */
  lemma LoadingAFileTwiceChangesNothing(a: seq<Element>, file: seq<Element>, b: seq<Element>)
    ensures LoadAll(NOTHING, a + file + b + file) == LoadAll(NOTHING, a + file + b)
  {
    var all := a + file + b;
    LoadAppend(NOTHING, all, file);
    forall e | e in file ensures Keep(LoadAll(NOTHING, all), e) == LoadAll(NOTHING, all) {
      var i :| 0 <= i < |file| && file[i] == e;
      assert all[|a| + i] == e;
      LoadedIsKnown(NOTHING, all, e);
    }
    KnownElementsChangeNothing(LoadAll(NOTHING, all), file);
  }

  /** What is kept for an id over all files is its first trade, or order, and nothing else is kept. */
  lemma {:induction false} FirstTradeOfTheFiles(files: seq<seq<Element>>, id: nat)
    ensures var all := LoadAll(NOTHING, Flat(files)).trades;
      if id in all then all[id].id == id && TradeKept(files, all[id])
      else forall f: nat, i: nat :: !TradeAt(files, id, f, i)
  {
    if files != [] {
      var n := |files| - 1;
      var before, l := files[..n], LoadAll(NOTHING, Flat(files[..n]));
      FirstTradeOfTheFiles(before, id);
      LoadAppend(NOTHING, Flat(before), files[n]);
      FirstTradeWins(l, files[n], id);
      forall f: nat, i: nat ensures TradeAt(files, id, f, i) <==>
        if f == n then i < |files[n]| && IsTrade(files[n][i], id) else TradeAt(before, id, f, i) {
      }
      if id in l.trades {
        var f: nat, i: nat :| FirstTradeIn(before, id, f, i) && before[f][i].trade == l.trades[id];
        assert FirstTradeIn(files, id, f, i);
      } else if i: nat :| FirstTrade(files[n], id, i) {
        assert FirstTradeIn(files, id, n, i);
      } else {
        NoTradeKept(files[n], id);
      }
    }
  }

  lemma {:induction false} FirstOrderOfTheFiles(files: seq<seq<Element>>, id: nat)
    ensures var all := LoadAll(NOTHING, Flat(files)).orders;
      if id in all then all[id].id == id && OrderKept(files, all[id])
      else forall f: nat, i: nat :: !OrderAt(files, id, f, i)
  {
    if files != [] {
      var n := |files| - 1;
      var before, l := files[..n], LoadAll(NOTHING, Flat(files[..n]));
      FirstOrderOfTheFiles(before, id);
      LoadAppend(NOTHING, Flat(before), files[n]);
      FirstOrderWins(l, files[n], id);
      forall f: nat, i: nat ensures OrderAt(files, id, f, i) <==>
        if f == n then i < |files[n]| && IsOrder(files[n][i], id) else OrderAt(before, id, f, i) {
      }
      if id in l.orders {
        var f: nat, i: nat :| FirstOrderIn(before, id, f, i) && before[f][i].order == l.orders[id];
        assert FirstOrderIn(files, id, f, i);
      } else if i: nat :| FirstOrder(files[n], id, i) {
        assert FirstOrderIn(files, id, n, i);
      } else {
        NoOrderKept(files[n], id);
      }
    }
  }

  lemma FilesKeepTheFirst(files: seq<seq<Element>>, trades: map<nat, Item>, orders: map<nat, Item>)
    requires Loaded(trades, orders) == LoadAll(NOTHING, Flat(files))
    ensures KeepsTrades(trades, files) && KeepsOrders(orders, files)
  {
    forall id: nat ensures id in trades <==> exists f: nat, i: nat :: TradeAt(files, id, f, i) {
      FirstTradeOfTheFiles(files, id);
    }
    forall x ensures IsItem(trades, x) <==> TradeKept(files, x) {
      FirstTradeOfTheFiles(files, x.id);
    }
    forall id: nat ensures id in orders <==> exists f: nat, i: nat :: OrderAt(files, id, f, i) {
      FirstOrderOfTheFiles(files, id);
    }
    forall x ensures IsItem(orders, x) <==> OrderKept(files, x) {
      FirstOrderOfTheFiles(files, x.id);
    }
  }

  /** An id has an entry if and only if some file has a trade of it, and its entry is the first. */
  ghost predicate KeepsTrades(trades: map<nat, Item>, files: seq<seq<Element>>) {
    && (forall id: nat :: id in trades <==> exists f: nat, i: nat :: TradeAt(files, id, f, i))
    && (forall x :: IsItem(trades, x) <==> TradeKept(files, x))
  }

  ghost predicate KeepsOrders(orders: map<nat, Item>, files: seq<seq<Element>>) {
    && (forall id: nat :: id in orders <==> exists f: nat, i: nat :: OrderAt(files, id, f, i))
    && (forall x :: IsItem(orders, x) <==> OrderKept(files, x))
  }

  method LoadFiles(files: seq<seq<Element>>) returns (trades: map<nat, Item>, orders: map<nat, Item>)
    ensures Loaded(trades, orders) == LoadAll(NOTHING, Flat(files))
    ensures KeepsTrades(trades, files) && KeepsOrders(orders, files)
  {
    trades, orders := map[], map[];
    for f := 0 to |files|
      invariant Loaded(trades, orders) == LoadAll(NOTHING, Flat(files[..f]))
    {
      var es := files[f];
      assert files[..f + 1][..f] == files[..f];
      LoadAppend(NOTHING, Flat(files[..f]), es);
      ghost var start := Loaded(trades, orders);
      for i := 0 to |es|
        invariant Loaded(trades, orders) == LoadAll(start, es[..i])
      {
        assert es[..i + 1][..i] == es[..i];
        var e := es[i];
        var orderId := if e.OrderElement? then e.order.id else e.orderId;
        if orderId == 0 {
          continue;
        }
        if e.OrderElement? {
          if orderId in orders {
            continue;
          }
          orders := orders[orderId := e.order];
        } else {
          if e.trade.id in trades {
            continue;
          }
          trades := trades[e.trade.id := e.trade];
        }
      }
      assert es[..|es|] == es;
    }
    assert files[..|files|] == files;
    FilesKeepTheFirst(files, trades, orders);
  }

  // ----- The day index -----

  predicate ById(xs: seq<Item>) {
    forall i, j | 0 <= i < j < |xs| :: xs[i].id < xs[j].id
  }

  predicate OwnIds(items: map<nat, Item>) {
    forall id | id in items :: items[id].id == id
  }

  predicate Filed(days: map<Day, seq<Item>>, x: Item, d: Day) {
    d in days && x in days[d]
  }

  /** Each day lists, by id, exactly the items of that day among those with an id in `done`. */
  ghost predicate Indexed(days: map<Day, seq<Item>>, items: map<nat, Item>, done: set<nat>) {
    && (forall d | d in days :: ById(days[d]))
    && forall x, d :: Filed(days, x, d) <==> IsItem(items, x) && x.id in done && DayOf(x.time) == d
  }

  lemma {:induction false} LeastExists(ids: set<nat>, k: nat)
    requires k in ids
    ensures exists least :: least in ids && forall j | j in ids :: least <= j
    decreases k
  {
    if j :| j in ids && j < k {
      LeastExists(ids, j);
    }
  }

  function File(days: map<Day, seq<Item>>, day: Day, x: Item): map<Day, seq<Item>> {
    days[day := (if day in days then days[day] else []) + [x]]
  }

  lemma FileOne(days: map<Day, seq<Item>>, items: map<nat, Item>, done: set<nat>, id: nat, day: Day)
    requires OwnIds(items) && Indexed(days, items, done) && id in items && forall i | i in done :: i < id
    requires day == DayOf(items[id].time)
    ensures Indexed(File(days, day, items[id]), items, done + {id})
  {
    var x := items[id];
    var old' := if day in days then days[day] else [];
    var days' := File(days, day, x);
    forall y, d ensures Filed(days', y, d) <==> Filed(days, y, d) || (y == x && d == day) {
    }
    forall i | 0 <= i < |old'| ensures old'[i].id < id {
      assert Filed(days, old'[i], day);
    }
  }

  method IndexByDay(items: map<nat, Item>) returns (days: map<Day, seq<Item>>)
    requires OwnIds(items)
    ensures Indexed(days, items, items.Keys)
  {
    days := map[];
    var rest := items.Keys;
    ghost var done: set<nat> := {};
    while rest != {}
      invariant rest !! done && rest + done == items.Keys
      invariant forall i, j | i in done && j in rest :: i < j
      invariant Indexed(days, items, done)
    {
      ghost var some :| some in rest;
      LeastExists(rest, some);
      var id :| id in rest && forall j | j in rest :: id <= j;
      var x := items[id];
      DayFitsSixteenBits(x.time);
      var day := DayOf(x.time) % 0x1_0000;
      FileOne(days, items, done, id, day);
      ghost var filed := File(days, day, x);
      if day !in days {
        days := days[day := []];
      }
      days := days[day := days[day] + [x]];
      assert days == filed;
      rest := rest - {id};
      done := done + {id};
    }
    assert done == items.Keys;
  }

  // ----- Sending a range of days -----

  predicate ByDayThenId(xs: seq<Item>) {
    forall i, j | 0 <= i < j < |xs| ::
      DayOf(xs[i].time) < DayOf(xs[j].time) || (DayOf(xs[i].time) == DayOf(xs[j].time) && xs[i].id < xs[j].id)
  }

  /** `xs` are the items of the days from `lo` up to but without `hi`, in order, each once. */
  ghost predicate Covers(xs: seq<Item>, items: map<nat, Item>, lo: int, hi: int) {
    ByDayThenId(xs) && forall x :: x in xs <==> IsItem(items, x) && lo <= DayOf(x.time) < hi
  }

  lemma CoverOneMore(xs: seq<Item>, days: map<Day, seq<Item>>, items: map<nat, Item>, lo: int, day: Day)
    requires Covers(xs, items, lo, day) && Indexed(days, items, items.Keys) && lo <= day
    ensures Covers(xs + if day in days then days[day] else [], items, lo, day + 1)
  {
    var more := if day in days then days[day] else [];
    forall x ensures x in more <==> IsItem(items, x) && DayOf(x.time) == day {
      assert Filed(days, x, day) <==> x in more;
    }
    forall i | 0 <= i < |xs| ensures DayOf(xs[i].time) < day {
      assert xs[i] in xs;
    }
    forall i | 0 <= i < |more| ensures DayOf(more[i].time) == day {
      assert more[i] in more;
    }
  }

  method SendTrades(tradeDays: map<Day, seq<Item>>, orderDays: map<Day, seq<Item>>,
                    ghost allTrades: map<nat, Item>, ghost allOrders: map<nat, Item>, start: int, end: int)
    returns (trades: seq<Item>, orders: seq<Item>)
    requires Indexed(tradeDays, allTrades, allTrades.Keys) && Indexed(orderDays, allOrders, allOrders.Keys)
    requires 0 <= start && 0 <= end
    ensures InTimes(trades, allTrades, BeginningOfDay(start), EndOfDay(end))
    ensures InTimes(orders, allOrders, BeginningOfDay(start), EndOfDay(end))
  {
    var startDay, endDay := DayOf(BeginningOfDay(start)), DayOf(EndOfDay(end));
    trades, orders := [], [];
    var day := startDay;
    while day <= endDay
      invariant startDay <= day && (day <= endDay + 1 || day == startDay)
      invariant Covers(trades, allTrades, startDay, day) && Covers(orders, allOrders, startDay, day)
    {
      CoverOneMore(orders, orderDays, allOrders, startDay, day);
      CoverOneMore(trades, tradeDays, allTrades, startDay, day);
      if day in orderDays {
        orders := orders + orderDays[day];
      }
      if day in tradeDays {
        trades := trades + tradeDays[day];
      }
      day := day + 1;
    }
    DaysAreTimes(trades, allTrades, start, end, day);
    DaysAreTimes(orders, allOrders, start, end, day);
  }

  /** `xs` are the items with a time between the two, in order of day and id, each once. */
  ghost predicate InTimes(xs: seq<Item>, items: map<nat, Item>, first: int, last: int) {
    ByDayThenId(xs) && forall x :: x in xs <==> IsItem(items, x) && first <= x.time <= last
  }

  lemma DaysAreTimes(xs: seq<Item>, items: map<nat, Item>, start: int, end: int, day: int)
    requires 0 <= start && 0 <= end
    requires Covers(xs, items, DayOf(BeginningOfDay(start)), day)
    requires day == DayOf(EndOfDay(end)) + 1 || (day == DayOf(BeginningOfDay(start)) && day > DayOf(EndOfDay(end)))
    ensures InTimes(xs, items, BeginningOfDay(start), EndOfDay(end))
  {
    forall x: Item ensures BeginningOfDay(start) <= x.time <= EndOfDay(end) <==>
      DayOf(BeginningOfDay(start)) <= DayOf(x.time) <= DayOf(EndOfDay(end))
    {
    }
  }

  /** `xs` are the first trades of their ids with a time between the two, in order of day and id. */
  ghost predicate TradesBetween(xs: seq<Item>, files: seq<seq<Element>>, first: int, last: int) {
    ByDayThenId(xs) && forall x :: x in xs <==> TradeKept(files, x) && first <= x.time <= last
  }

  ghost predicate OrdersBetween(xs: seq<Item>, files: seq<seq<Element>>, first: int, last: int) {
    ByDayThenId(xs) && forall x :: x in xs <==> OrderKept(files, x) && first <= x.time <= last
  }

  /** A flex request on freshly loaded files. */
  method Request(files: seq<seq<Element>>, start: int, end: int) returns (trades: seq<Item>, orders: seq<Item>)
    requires 0 <= start && 0 <= end
    ensures TradesBetween(trades, files, BeginningOfDay(start), EndOfDay(end))
    ensures OrdersBetween(orders, files, BeginningOfDay(start), EndOfDay(end))
  {
    var allTrades, allOrders := LoadFiles(files);
    forall id | id in allTrades || id in allOrders
      ensures (id in allTrades ==> allTrades[id].id == id) && (id in allOrders ==> allOrders[id].id == id)
    {
      FirstTradeOfTheFiles(files, id);
      FirstOrderOfTheFiles(files, id);
    }
    var tradeDays := IndexByDay(allTrades);
    var orderDays := IndexByDay(allOrders);
    trades, orders := SendTrades(tradeDays, orderDays, allTrades, allOrders, start, end);
  }
}
