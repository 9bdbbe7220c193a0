/**
 The cache of loaded flex statements. A request first compares a checksum of the directory with
 the one kept from the last load, and loads the directory when they differ or nothing is cached.

 The checksum is computed before the load waits for its lock, so the directory can change between.
 A load stores its checksum first and its data afterwards; a request compares checksums and then
 looks at the cache, both without the lock, so the stores of a load can fall around or between them.
 */
module FlexCache {
  import opened FlexTrades
  import opened Wrappers

  datatype File = File(path: string, time: nat, elements: seq<Element>)

  /** What the checksum is computed from. */
  datatype Stamp = Stamp(path: string, time: nat)

  type Checksum = seq<Stamp> -> nat

  datatype Directory = Missing | Present(files: seq<File>)

  function Stamps(files: seq<File>): seq<Stamp> {
    if files == [] then [] else
      Stamps(files[..|files| - 1]) + [Stamp(files[|files| - 1].path, files[|files| - 1].time)]
  }

  /** Every file, whatever its extension, with its path and its write time. */
  lemma {:induction false} StampsAreOfEachFile(files: seq<File>, i: nat)
    requires i < |files|
    ensures |Stamps(files)| == |files|
    ensures Stamps(files)[i].path == files[i].path && Stamps(files)[i].time == files[i].time
  {
    var n := |files| - 1;
    if n > 0 {
      StampsAreOfEachFile(files[..n], if i < n then i else 0);
    }
  }

  predicate IsXml(path: string) {
    |path| > 4 && path[|path| - 4..] == ".xml" && path[|path| - 5] != '/'
  }

  /** A path with the extension, and a name before it. */
  lemma XmlIffItsExtension(path: string)
    ensures IsXml(path) <==> exists stem :: stem != [] && stem[|stem| - 1] != '/' && path == stem + ".xml"
  {
    if IsXml(path) {
      var stem := path[..|path| - 4];
      assert path == stem + ".xml" && stem[|stem| - 1] == path[|path| - 5];
    }
  }

  function Statements(files: seq<File>): seq<seq<Element>> {
    if files == [] then [] else
      var last := files[|files| - 1];
      Statements(files[..|files| - 1]) + if IsXml(last.path) then [last.elements] else []
  }

  /** A fresh load. */
  function DataOf(files: seq<File>): Loaded {
    LoadAll(NOTHING, Flat(Statements(files)))
  }

  // ----- What a fresh load finds -----

  predicate TradeInFile(files: seq<File>, id: nat, f: nat, i: nat) {
    && f < |files| && IsXml(files[f].path)
    && i < |files[f].elements| && IsTrade(files[f].elements[i], id)
  }

  ghost predicate FirstTradeInFile(files: seq<File>, id: nat, f: nat, i: nat) {
    && TradeInFile(files, id, f, i)
    && forall f': nat, i': nat | TradeInFile(files, id, f', i') :: f < f' || (f == f' && i <= i')
  }

  ghost predicate TradeFound(files: seq<File>, x: Item) {
    exists f: nat, i: nat :: FirstTradeInFile(files, x.id, f, i) && files[f].elements[i].trade == x
  }

  predicate OrderInFile(files: seq<File>, id: nat, f: nat, i: nat) {
    && f < |files| && IsXml(files[f].path)
    && i < |files[f].elements| && IsOrder(files[f].elements[i], id)
  }

  ghost predicate FirstOrderInFile(files: seq<File>, id: nat, f: nat, i: nat) {
    && OrderInFile(files, id, f, i)
    && forall f': nat, i': nat | OrderInFile(files, id, f', i') :: f < f' || (f == f' && i <= i')
  }

  ghost predicate OrderFound(files: seq<File>, x: Item) {
    exists f: nat, i: nat :: FirstOrderInFile(files, x.id, f, i) && files[f].elements[i].order == x
  }

  lemma DataOfOneMore(files: seq<File>)
    requires files != []
    ensures var n := |files| - 1;
      DataOf(files) == if IsXml(files[n].path) then LoadAll(DataOf(files[..n]), files[n].elements)
                       else DataOf(files[..n])
  {
    var n := |files| - 1;
    var before := Statements(files[..n]);
    if IsXml(files[n].path) {
      assert (before + [files[n].elements])[..|before|] == before;
      LoadAppend(NOTHING, Flat(before), files[n].elements);
    } else {
      assert before + [] == before;
    }
  }

  lemma {:induction false} LoadHasFirstTrade(files: seq<File>, id: nat)
    ensures var all := DataOf(files).trades;
      if id in all then all[id].id == id && TradeFound(files, all[id])
      else forall f: nat, i: nat :: !TradeInFile(files, id, f, i)
  {
    if files != [] {
      var n := |files| - 1;
      var before, l := files[..n], DataOf(files[..n]);
      LoadHasFirstTrade(before, id);
      DataOfOneMore(files);
      forall f: nat, i: nat ensures TradeInFile(files, id, f, i) <==>
        if f < n then TradeInFile(before, id, f, i) else TradeInFile(files, id, f, i) && f == n {
      }
      if id in l.trades {
        var f: nat, i: nat :| FirstTradeInFile(before, id, f, i) && before[f].elements[i].trade == l.trades[id];
        assert FirstTradeInFile(files, id, f, i);
        FirstTradeWins(l, files[n].elements, id);
      } else if IsXml(files[n].path) {
        LastFileHasFirstTrade(files, id);
      }
    }
  }

  lemma LastFileHasFirstTrade(files: seq<File>, id: nat)
    requires files != [] && IsXml(files[|files| - 1].path)
    requires forall f: nat, i: nat | f < |files| - 1 :: !TradeInFile(files, id, f, i)
    requires id !in DataOf(files[..|files| - 1]).trades
    ensures var all := DataOf(files).trades;
      if id in all then all[id].id == id && TradeFound(files, all[id])
      else forall f: nat, i: nat :: !TradeInFile(files, id, f, i)
  {
    var n := |files| - 1;
    var es, l := files[n].elements, DataOf(files[..n]);
    DataOfOneMore(files);
    FirstTradeWins(l, es, id);
    if i: nat :| FirstTrade(es, id, i) {
      assert FirstTradeInFile(files, id, n, i);
    } else {
      NoTradeKept(es, id);
    }
  }

  lemma {:induction false} LoadHasFirstOrder(files: seq<File>, id: nat)
    ensures var all := DataOf(files).orders;
      if id in all then all[id].id == id && OrderFound(files, all[id])
      else forall f: nat, i: nat :: !OrderInFile(files, id, f, i)
  {
    if files != [] {
      var n := |files| - 1;
      var before, l := files[..n], DataOf(files[..n]);
      LoadHasFirstOrder(before, id);
      DataOfOneMore(files);
      forall f: nat, i: nat ensures OrderInFile(files, id, f, i) <==>
        if f < n then OrderInFile(before, id, f, i) else OrderInFile(files, id, f, i) && f == n {
      }
      if id in l.orders {
        var f: nat, i: nat :| FirstOrderInFile(before, id, f, i) && before[f].elements[i].order == l.orders[id];
        assert FirstOrderInFile(files, id, f, i);
        FirstOrderWins(l, files[n].elements, id);
      } else if IsXml(files[n].path) {
        LastFileHasFirstOrder(files, id);
      }
    }
  }

  lemma LastFileHasFirstOrder(files: seq<File>, id: nat)
    requires files != [] && IsXml(files[|files| - 1].path)
    requires forall f: nat, i: nat | f < |files| - 1 :: !OrderInFile(files, id, f, i)
    requires id !in DataOf(files[..|files| - 1]).orders
    ensures var all := DataOf(files).orders;
      if id in all then all[id].id == id && OrderFound(files, all[id])
      else forall f: nat, i: nat :: !OrderInFile(files, id, f, i)
  {
    var n := |files| - 1;
    var es, l := files[n].elements, DataOf(files[..n]);
    DataOfOneMore(files);
    FirstOrderWins(l, es, id);
    if i: nat :| FirstOrder(es, id, i) {
      assert FirstOrderInFile(files, id, n, i);
    } else {
      NoOrderKept(es, id);
    }
  }

  /** A fresh load has an entry for exactly the ids that some xml file has a trade, or an order, of, and
      it is the first one. */
  lemma FreshLoadHasTheFirst(files: seq<File>)
    ensures var l := DataOf(files);
      && (forall x :: IsItem(l.trades, x) <==> TradeFound(files, x))
      && (forall x :: IsItem(l.orders, x) <==> OrderFound(files, x))
      && (forall id: nat :: id in l.trades <==> exists f: nat, i: nat :: TradeInFile(files, id, f, i))
      && (forall id: nat :: id in l.orders <==> exists f: nat, i: nat :: OrderInFile(files, id, f, i))
  {
    var l := DataOf(files);
    forall x ensures IsItem(l.trades, x) <==> TradeFound(files, x) {
      LoadHasFirstTrade(files, x.id);
    }
    forall x ensures IsItem(l.orders, x) <==> OrderFound(files, x) {
      LoadHasFirstOrder(files, x.id);
    }
    forall id: nat ensures id in l.trades <==> exists f: nat, i: nat :: TradeInFile(files, id, f, i) {
      LoadHasFirstTrade(files, id);
    }
    forall id: nat ensures id in l.orders <==> exists f: nat, i: nat :: OrderInFile(files, id, f, i) {
      LoadHasFirstOrder(files, id);
    }
  }

  // ----- Requests and loads -----

  /** A load under way: the checksum its request computed, the data it found, and whether it has
      stored the checksum. */
  datatype Load = Load(crc: nat, data: Loaded, crcStored: bool)

  /** A request has computed its checksum, has found it equal to the one stored, or is on its way to a
      load. */
  datatype Phase = Scanned(crc: nat) | Matched(crc: nat) | Waiting(crc: nat)

  datatype State = State(dir: Directory, crc: nat, cache: Option<Loaded>, requests: map<nat, Phase>, load: Option<Load>)

  /** `found` are the files as the loop of a load read them, each at its own time; `None` if it threw. */
  datatype Event =
    | Change(dir: Directory)
    | Evict
    | Scan(id: nat)
    | Compare(id: nat)
    | Get(id: nat)
    | Read(id: nat, found: Option<seq<File>>)
    | StoreCrc
    | StoreData

  function Initial(dir: Directory): State {
    State(dir, 0, None, map[], None)
  }

  predicate Scans(s: State, e: Event) {
    e.Scan? && e.id !in s.requests && s.dir.Present?
  }

  predicate Compares(s: State, e: Event) {
    e.Compare? && e.id in s.requests && s.requests[e.id].Scanned?
  }

  /** The checksum computed is the one stored. */
  predicate Matches(s: State, e: Event) {
    Compares(s, e) && s.requests[e.id].crc == s.crc
  }

  predicate Gets(s: State, e: Event) {
    e.Get? && e.id in s.requests && s.requests[e.id].Matched?
  }

  /** Something is cached and so is what the request is given. */
  predicate Hits(s: State, e: Event) {
    Gets(s, e) && s.cache.Some?
  }

  /** The lock admits one load at a time. */
  predicate Starts(s: State, e: Event) {
    e.Read? && e.id in s.requests && s.requests[e.id].Waiting? && s.load.None?
  }

  predicate Reads(s: State, e: Event) {
    Starts(s, e) && e.found.Some?
  }

  predicate StoresCrc(s: State, e: Event) {
    e.StoreCrc? && s.load.Some? && !s.load.value.crcStored
  }

  predicate StoresData(s: State, e: Event) {
    e.StoreData? && s.load.Some? && s.load.value.crcStored
  }

  /** A load has stored its checksum but not yet its data. */
  predicate BetweenStores(s: State) {
    s.load.Some? && s.load.value.crcStored
  }

  /** An event that cannot happen in `s` changes nothing. */
  function Step(sum: Checksum, s: State, e: Event): State {
    match e
    case Change(dir) => s.(dir := dir)
    case Evict => s.(cache := None)
    case Scan(id) =>
      if Scans(s, e) then s.(requests := s.requests[id := Scanned(sum(Stamps(s.dir.files)))]) else s
    case Compare(id) =>
      if !Compares(s, e) then s
      else
        var crc := s.requests[id].crc;
        s.(requests := s.requests[id := if crc == s.crc then Matched(crc) else Waiting(crc)])
    case Get(id) =>
      if Hits(s, e) then s.(requests := s.requests - {id})
      else if Gets(s, e) then s.(requests := s.requests[id := Waiting(s.requests[id].crc)])
      else s
    case Read(id, found) =>
      if !Starts(s, e) then s
      else
        var load := if found.Some? then Some(Load(s.requests[id].crc, DataOf(found.value), false)) else None;
        s.(requests := s.requests - {id}, load := load)
    case StoreCrc =>
      if StoresCrc(s, e) then s.(crc := s.load.value.crc, load := Some(s.load.value.(crcStored := true))) else s
    case StoreData =>
      if StoresData(s, e) then s.(cache := Some(s.load.value.data), load := None) else s
  }

  function After(sum: Checksum, start: Directory, run: seq<Event>): State {
    if run == [] then Initial(start) else Step(sum, After(sum, start, run[..|run| - 1]), run[|run| - 1])
  }

  /** What a request is given in this step: from the cache, or when its load is done. */
  function Answer(s: State, e: Event): Option<Loaded> {
    if Hits(s, e) then s.cache
    else if StoresData(s, e) then Some(s.load.value.data)
    else None
  }

  // ----- What the cache holds -----

  /** The directory a load's request had checked, and the data the load found. */
  datatype Source = Source(checked: Directory, found: Loaded)

  /** The directory that request `id` computed its checksum from. */
  function Checked(sum: Checksum, start: Directory, run: seq<Event>, id: nat): Directory {
    if run == [] then Missing else
      var before := run[..|run| - 1];
      var s, e := After(sum, start, before), run[|run| - 1];
      if Scans(s, e) && e.id == id then s.dir else Checked(sum, start, before, id)
  }

  /** The source of the load under way. */
  function LoadSource(sum: Checksum, start: Directory, run: seq<Event>): Option<Source> {
    if run == [] then None else
      var before := run[..|run| - 1];
      var s, e := After(sum, start, before), run[|run| - 1];
      if Reads(s, e) then Some(Source(Checked(sum, start, before, e.id), DataOf(e.found.value)))
      else if StoresData(s, e) then None
      else LoadSource(sum, start, before)
  }

  /** The source of the load now cached. */
  function CacheSource(sum: Checksum, start: Directory, run: seq<Event>): Option<Source> {
    if run == [] then None else
      var before := run[..|run| - 1];
      var s, e := After(sum, start, before), run[|run| - 1];
      if e.Evict? then None
      else if StoresData(s, e) then LoadSource(sum, start, before)
      else CacheSource(sum, start, before)
  }

  /** The run changes the directory only to members of `dirs`. */
  predicate Within(dirs: set<Directory>, start: Directory, run: seq<Event>) {
    start in dirs && forall i | 0 <= i < |run| && run[i].Change? :: run[i].dir in dirs
  }

  /** The checksum tells directories apart that hold different trades or orders. */
  predicate Tells(sum: Checksum, dirs: set<Directory>) {
    forall a, b | a in dirs && b in dirs && a.Present? && b.Present? && sum(Stamps(a.files)) == sum(Stamps(b.files)) ::
      DataOf(a.files) == DataOf(b.files)
  }

  /** `crc` is the checksum of `d`. */
  predicate IsSum(sum: Checksum, dirs: set<Directory>, d: Directory, crc: nat) {
    d in dirs && d.Present? && crc == sum(Stamps(d.files))
  }

  ghost predicate RequestsRemember(sum: Checksum, dirs: set<Directory>, start: Directory, run: seq<Event>) {
    forall id | id in After(sum, start, run).requests ::
      IsSum(sum, dirs, Checked(sum, start, run, id), After(sum, start, run).requests[id].crc)
  }

  ghost predicate LoadRemembers(sum: Checksum, dirs: set<Directory>, start: Directory, run: seq<Event>) {
    var s, src := After(sum, start, run), LoadSource(sum, start, run);
    && (s.load.Some? <==> src.Some?)
    && (src.Some? ==>
         && IsSum(sum, dirs, src.value.checked, s.load.value.crc) && s.load.value.data == src.value.found
         && (s.load.value.crcStored ==> s.crc == s.load.value.crc))
  }

  ghost predicate CacheRemembers(sum: Checksum, dirs: set<Directory>, start: Directory, run: seq<Event>) {
    var s, src := After(sum, start, run), CacheSource(sum, start, run);
    && (s.cache.Some? <==> src.Some?)
    && (src.Some? ==>
         && src.value.checked in dirs && src.value.checked.Present? && s.cache.value == src.value.found
         && (!BetweenStores(s) ==> IsSum(sum, dirs, src.value.checked, s.crc)))
  }

  lemma {:induction false} RequestsAreHistory(sum: Checksum, dirs: set<Directory>, start: Directory, run: seq<Event>)
    requires Within(dirs, start, run)
    ensures After(sum, start, run).dir in dirs && RequestsRemember(sum, dirs, start, run)
  {
    if run != [] {
      var before, e := run[..|run| - 1], run[|run| - 1];
      RequestsAreHistory(sum, dirs, start, before);
      var s := After(sum, start, before);
      forall id | id in Step(sum, s, e).requests
        ensures IsSum(sum, dirs, Checked(sum, start, run, id), Step(sum, s, e).requests[id].crc)
      {
        if id in s.requests {
          assert Checked(sum, start, run, id) == Checked(sum, start, before, id);
        }
      }
    }
  }

  lemma {:induction false} LoadIsHistory(sum: Checksum, dirs: set<Directory>, start: Directory, run: seq<Event>)
    requires Within(dirs, start, run)
    ensures LoadRemembers(sum, dirs, start, run)
  {
    if run != [] {
      var before, e := run[..|run| - 1], run[|run| - 1];
      LoadIsHistory(sum, dirs, start, before);
      RequestsAreHistory(sum, dirs, start, before);
      var s := After(sum, start, before);
      if Reads(s, e) {
        assert LoadSource(sum, start, run) == Some(Source(Checked(sum, start, before, e.id), DataOf(e.found.value)));
      } else {
        assert StoresData(s, e) || LoadSource(sum, start, run) == LoadSource(sum, start, before);
      }
    }
  }

  /** What is cached is what its load found, under the checksum of what its request had checked unless
      a later load has already stored its own. */
  lemma {:induction false} CacheIsHistory(sum: Checksum, dirs: set<Directory>, start: Directory, run: seq<Event>)
    requires Within(dirs, start, run)
    ensures CacheRemembers(sum, dirs, start, run)
  {
    if run != [] {
      var before, e := run[..|run| - 1], run[|run| - 1];
      CacheIsHistory(sum, dirs, start, before);
      LoadIsHistory(sum, dirs, start, before);
      var s := After(sum, start, before);
      if StoresData(s, e) {
        assert CacheSource(sum, start, run) == LoadSource(sum, start, before);
      } else {
        assert e.Evict? || CacheSource(sum, start, run) == CacheSource(sum, start, before);
      }
    }
  }

  // ----- Which answers are stale -----

  /** A load would not give this for the directory. */
  predicate Differs(d: Directory, data: Loaded) {
    d.Present? && DataOf(d.files) != data
  }

  /** The checksum now stored was computed from other data than what is cached: because the cached
      load was overtaken by a change, or because a load of other data is between its two stores. */
  predicate Mismatched(sum: Checksum, start: Directory, run: seq<Event>) {
    var load, cached := LoadSource(sum, start, run), CacheSource(sum, start, run);
    && cached.Some?
    && if BetweenStores(After(sum, start, run)) then load.Some? && Differs(load.value.checked, cached.value.found)
       else Differs(cached.value.checked, cached.value.found)
  }

  /** The run up to the last comparison of request `id` that found its checksum stored. */
  function UpToMatch(sum: Checksum, start: Directory, run: seq<Event>, id: nat): seq<Event> {
    if run == [] then [] else
      var before := run[..|run| - 1];
      if Matches(After(sum, start, before), run[|run| - 1]) && run[|run| - 1].id == id then before
      else UpToMatch(sum, start, before, id)
  }

  /** A load stored its data since that comparison. */
  predicate StoredSince(sum: Checksum, start: Directory, run: seq<Event>, id: nat) {
    run != [] &&
      var before := run[..|run| - 1];
      var s, e := After(sum, start, before), run[|run| - 1];
      !(Matches(s, e) && e.id == id) && (StoresData(s, e) || StoredSince(sum, start, before, id))
  }

  predicate IsMatched(s: State, id: nat) {
    id in s.requests && s.requests[id].Matched?
  }

  lemma MatchSeesTheMismatch(sum: Checksum, dirs: set<Directory>, start: Directory, run: seq<Event>, id: nat)
    requires Within(dirs, start, run) && Tells(sum, dirs) && Matches(After(sum, start, run), Compare(id))
    ensures var s := After(sum, start, run);
      s.cache.Some? ==> (Differs(Checked(sum, start, run, id), s.cache.value) <==> Mismatched(sum, start, run))
  {
    RequestsAreHistory(sum, dirs, start, run);
    LoadIsHistory(sum, dirs, start, run);
    CacheIsHistory(sum, dirs, start, run);
  }

  /** Until a load stores its data, what a request that found its checksum stored would be given differs
      from what it checked exactly if there was a mismatch when it compared. */
  lemma {:induction false} MatchedRemembers(
    sum: Checksum, dirs: set<Directory>, start: Directory, run: seq<Event>, id: nat)
    requires Within(dirs, start, run) && Tells(sum, dirs)
    requires IsMatched(After(sum, start, run), id) && !StoredSince(sum, start, run, id)
    ensures var s := After(sum, start, run);
      s.cache.Some? ==>
        (Differs(Checked(sum, start, run, id), s.cache.value) <==>
         Mismatched(sum, start, UpToMatch(sum, start, run, id)))
  {
    var before, e := run[..|run| - 1], run[|run| - 1];
    var s := After(sum, start, before);
    if Matches(s, e) && e.id == id {
      assert e == Compare(id);
      MatchSeesTheMismatch(sum, dirs, start, before, id);
    } else {
      MatchedRemembers(sum, dirs, start, before, id);
    }
    assert Checked(sum, start, run, id) == Checked(sum, start, before, id);
  }

  /**
   In any run, with any number of requests and loads under way, a request that is answered from the
   cache is given other data than it had checked exactly in these cases. If no load stored its data
   between its comparison and its look at the cache: when it compared, the cached load had found other
   data than was checked, or a load of other data than the cached had stored its checksum only. If one
   did: the last of them found other data than the request had checked.
   */
  lemma StaleAnswerIff(sum: Checksum, dirs: set<Directory>, start: Directory, run: seq<Event>, id: nat)
    requires Within(dirs, start, run) && Tells(sum, dirs) && Hits(After(sum, start, run), Get(id))
    ensures var s := After(sum, start, run);
      && CacheSource(sum, start, run).Some? && Answer(s, Get(id)).Some?
      && (Differs(Checked(sum, start, run, id), Answer(s, Get(id)).value) <==>
          if StoredSince(sum, start, run, id)
          then Differs(Checked(sum, start, run, id), CacheSource(sum, start, run).value.found)
          else Mismatched(sum, start, UpToMatch(sum, start, run, id)))
  {
    CacheIsHistory(sum, dirs, start, run);
    if !StoredSince(sum, start, run, id) {
      MatchedRemembers(sum, dirs, start, run, id);
    }
  }

  /** A request that saw `d` and is not interrupted would be given something other than a load of `d`. */
  predicate Stale(sum: Checksum, s: State, d: Directory) {
    d.Present? && sum(Stamps(d.files)) == s.crc && s.cache.Some? && Differs(d, s.cache.value)
  }

  /** What such a request is given: the cache, or nothing. */
  lemma UndisturbedRequest(sum: Checksum, s: State, d: Directory, id: nat)
    requires id !in s.requests && d.Present?
    ensures var s' := Step(sum, Step(sum, s.(dir := d), Scan(id)), Compare(id));
      (Answer(s', Get(id)).Some? && Differs(d, Answer(s', Get(id)).value)) <==> Stale(sum, s, d)
  {
  }

  /** After any run the next request can, for some directory, be given a stale answer although nothing
      comes in between exactly if there is a mismatch. */
  lemma StaleIffOvertakenOrBetweenStores(sum: Checksum, dirs: set<Directory>, start: Directory, run: seq<Event>)
    requires Within(dirs, start, run) && Tells(sum, dirs)
    ensures (exists d | d in dirs :: Stale(sum, After(sum, start, run), d)) <==> Mismatched(sum, start, run)
  {
    LoadIsHistory(sum, dirs, start, run);
    CacheIsHistory(sum, dirs, start, run);
    var s := After(sum, start, run);
    if Mismatched(sum, start, run) {
      var load, cached := LoadSource(sum, start, run), CacheSource(sum, start, run);
      var d := if BetweenStores(s) then load.value.checked else cached.value.checked;
      assert Stale(sum, s, d);
    }
  }

  // ----- Runs in which no load is overtaken -----

  /** Every load of the run finds the data its request had checked. */
  predicate Calm(sum: Checksum, start: Directory, run: seq<Event>) {
    forall i | 0 <= i < |run| :: CalmAt(sum, start, run, i)
  }

  predicate CalmAt(sum: Checksum, start: Directory, run: seq<Event>, i: nat)
    requires i < |run|
  {
    Reads(After(sum, start, run[..i]), run[i]) ==>
      !Differs(Checked(sum, start, run[..i], run[i].id), DataOf(run[i].found.value))
  }

  lemma CalmBefore(sum: Checksum, start: Directory, run: seq<Event>)
    requires run != [] && Calm(sum, start, run)
    ensures Calm(sum, start, run[..|run| - 1]) && CalmAt(sum, start, run, |run| - 1)
  {
    var n := |run| - 1;
    forall i: nat | i < n ensures CalmAt(sum, start, run[..n], i) {
      assert CalmAt(sum, start, run, i) && run[..n][..i] == run[..i];
    }
  }

  lemma {:induction false} CalmIsNotOvertaken(sum: Checksum, start: Directory, run: seq<Event>)
    requires Calm(sum, start, run)
    ensures var load, cached := LoadSource(sum, start, run), CacheSource(sum, start, run);
      && (load.Some? ==> !Differs(load.value.checked, load.value.found))
      && (cached.Some? ==> !Differs(cached.value.checked, cached.value.found))
  {
    if run != [] {
      CalmBefore(sum, start, run);
      CalmIsNotOvertaken(sum, start, run[..|run| - 1]);
    }
  }

  lemma {:induction false} CalmUpToMatch(sum: Checksum, start: Directory, run: seq<Event>, id: nat)
    requires Calm(sum, start, run)
    ensures Calm(sum, start, UpToMatch(sum, start, run, id))
  {
    if run != [] {
      CalmBefore(sum, start, run);
      CalmUpToMatch(sum, start, run[..|run| - 1], id);
    }
  }

  /** In such a run a request is given what a fresh load of the directory it checked gives, unless it
      compared while a load was between its stores, or one stored its data before it looked. */
  lemma CalmRunsReadFresh(sum: Checksum, dirs: set<Directory>, start: Directory, run: seq<Event>, id: nat)
    requires Within(dirs, start, run) && Tells(sum, dirs) && Calm(sum, start, run)
    requires Hits(After(sum, start, run), Get(id))
    requires !StoredSince(sum, start, run, id)
    requires !BetweenStores(After(sum, start, UpToMatch(sum, start, run, id)))
    ensures var d := Checked(sum, start, run, id);
      d.Present? && Answer(After(sum, start, run), Get(id)) == Some(DataOf(d.files))
  {
    RequestsAreHistory(sum, dirs, start, run);
    StaleAnswerIff(sum, dirs, start, run, id);
    CalmUpToMatch(sum, start, run, id);
    CalmIsNotOvertaken(sum, start, UpToMatch(sum, start, run, id));
  }

  /** In any run a load gives what it found. */
  lemma LoadsGiveWhatTheyFound(sum: Checksum, dirs: set<Directory>, start: Directory, run: seq<Event>)
    requires Within(dirs, start, run) && StoresData(After(sum, start, run), StoreData)
    ensures LoadSource(sum, start, run).Some?
    ensures Answer(After(sum, start, run), StoreData) == Some(LoadSource(sum, start, run).value.found)
  {
    LoadIsHistory(sum, dirs, start, run);
  }

  // ----- The three ways to a stale answer -----

  /** A complete request; `files` are what its load finds if it needs one. */
  function Request(id: nat, files: seq<File>): seq<Event> {
    [Scan(id), Compare(id), Get(id)] + Loading(id, files)
  }

  function Loading(id: nat, files: seq<File>): seq<Event> {
    [Read(id, Some(files)), StoreCrc, StoreData]
  }

  function From(sum: Checksum, s: State, run: seq<Event>): State
    decreases |run|
  {
    if run == [] then s else From(sum, Step(sum, s, run[0]), run[1..])
  }

  lemma {:induction false} AfterIsFrom(sum: Checksum, start: Directory, run: seq<Event>, more: seq<Event>)
    ensures After(sum, start, run + more) == From(sum, After(sum, start, run), more)
    decreases |more|
  {
    if more == [] {
      assert run + more == run;
    } else {
      var next := run + [more[0]];
      assert run + more == next + more[1..] && next[..|run|] == run;
      AfterIsFrom(sum, start, next, more[1..]);
    }
  }

  lemma {:induction false} FromAppend(sum: Checksum, s: State, a: seq<Event>, b: seq<Event>)
    ensures From(sum, s, a + b) == From(sum, From(sum, s, a), b)
    decreases |a|
  {
    if a == [] {
      assert a + b == b;
    } else {
      assert (a + b)[1..] == a[1..] + b;
      FromAppend(sum, Step(sum, s, a[0]), a[1..], b);
    }
  }

  lemma FromThree(sum: Checksum, s: State, a: Event, b: Event, c: Event)
    ensures From(sum, s, [a, b, c]) == Step(sum, Step(sum, Step(sum, s, a), b), c)
  {
    assert [a, b, c][1..] == [b, c] && [b, c][1..] == [c] && [c][1..] == [];
    assert From(sum, s, [a, b, c]) == From(sum, Step(sum, s, a), [b, c]);
    assert From(sum, Step(sum, s, a), [b, c]) == From(sum, Step(sum, Step(sum, s, a), b), [c]);
    assert From(sum, Step(sum, Step(sum, s, a), b), [c]) == From(sum, Step(sum, Step(sum, Step(sum, s, a), b), c), []);
  }

  lemma FromOne(sum: Checksum, s: State, a: Event)
    ensures From(sum, s, [a]) == Step(sum, s, a)
  {
    assert [a][1..] == [];
    assert From(sum, s, [a]) == From(sum, Step(sum, s, a), []);
  }

  /** A state with no request and no load under way. */
  function Quiet(dir: Directory, crc: nat, cache: Option<Loaded>): State {
    State(dir, crc, cache, map[], None)
  }

  /** A request that does not find its checksum stored goes to a load. */
  lemma ScanAndMiss(sum: Checksum, files: seq<File>, crc: nat, cache: Option<Loaded>, id: nat)
    requires sum(Stamps(files)) != crc || cache.None?
    ensures From(sum, Quiet(Present(files), crc, cache), [Scan(id), Compare(id), Get(id)])
            == Quiet(Present(files), crc, cache).(requests := map[id := Waiting(sum(Stamps(files)))])
  {
    var s, c := Quiet(Present(files), crc, cache), sum(Stamps(files));
    FromThree(sum, s, Scan(id), Compare(id), Get(id));
    assert Step(sum, s, Scan(id)) == s.(requests := map[id := Scanned(c)]);
    if c == crc {
      assert Step(sum, s.(requests := map[id := Scanned(c)]), Compare(id)) == s.(requests := map[id := Matched(c)]);
      assert Step(sum, s.(requests := map[id := Matched(c)]), Get(id)) == s.(requests := map[id := Waiting(c)]);
    } else {
      assert Step(sum, s.(requests := map[id := Scanned(c)]), Compare(id)) == s.(requests := map[id := Waiting(c)]);
    }
  }

  lemma LoadAll3(sum: Checksum, dir: Directory, crc: nat, cache: Option<Loaded>, id: nat, c: nat, files: seq<File>)
    ensures From(sum, Quiet(dir, crc, cache).(requests := map[id := Waiting(c)]), Loading(id, files))
            == Quiet(dir, c, Some(DataOf(files)))
  {
    var s := Quiet(dir, crc, cache).(requests := map[id := Waiting(c)]);
    FromThree(sum, s, Read(id, Some(files)), StoreCrc, StoreData);
    var s1 := Step(sum, s, Read(id, Some(files)));
    assert s1 == Quiet(dir, crc, cache).(load := Some(Load(c, DataOf(files), false)));
  }

  /** One request overtaken by a change that is later undone: the next one reads what is no longer there. */
  lemma UndoneChangeIsStillRead(sum: Checksum, a: seq<File>, b: seq<File>)
    requires DataOf(a) != DataOf(b)
    ensures var run := [Scan(1), Compare(1), Get(1)] + [Change(Present(b))] + Loading(1, b);
      var s := After(sum, Present(a), run);
      s == Quiet(Present(b), sum(Stamps(a)), Some(DataOf(b))) && Stale(sum, s, Present(a))
  {
    var s0, ask := Initial(Present(a)), [Scan(1), Compare(1), Get(1)];
    assert [] + ask == ask && After(sum, Present(a), []) == s0;
    AfterIsFrom(sum, Present(a), [], ask);
    AfterIsFrom(sum, Present(a), ask, [Change(Present(b))]);
    AfterIsFrom(sum, Present(a), ask + [Change(Present(b))], Loading(1, b));
    ScanAndMiss(sum, a, 0, None, 1);
    FromOne(sum, After(sum, Present(a), ask), Change(Present(b)));
    LoadAll3(sum, Present(b), 0, None, 1, sum(Stamps(a)), b);
  }

  /** The state once `a` was loaded, the directory has changed to `b`, and a second request has read it. */
  function SecondHasRead(a: seq<File>, b: seq<File>): seq<Event> {
    Request(1, a) + [Change(Present(b))] + [Scan(2), Compare(2), Get(2)] + [Read(2, Some(b))]
  }

  lemma SecondReads(sum: Checksum, a: seq<File>, b: seq<File>)
    requires sum(Stamps(a)) != sum(Stamps(b))
    ensures After(sum, Present(a), SecondHasRead(a, b))
            == Quiet(Present(b), sum(Stamps(a)), Some(DataOf(a))).(load := Some(Load(sum(Stamps(b)), DataOf(b), false)))
  {
    var s0, ask, ask2 := Initial(Present(a)), [Scan(1), Compare(1), Get(1)], [Scan(2), Compare(2), Get(2)];
    assert [] + Request(1, a) == Request(1, a) && After(sum, Present(a), []) == s0;
    AfterIsFrom(sum, Present(a), [], Request(1, a));
    FromAppend(sum, s0, ask, Loading(1, a));
    ScanAndMiss(sum, a, 0, None, 1);
    LoadAll3(sum, Present(a), 0, None, 1, sum(Stamps(a)), a);
    var s1 := Quiet(Present(a), sum(Stamps(a)), Some(DataOf(a)));
    AfterIsFrom(sum, Present(a), Request(1, a), [Change(Present(b))]);
    FromOne(sum, s1, Change(Present(b)));
    var s2 := s1.(dir := Present(b));
    AfterIsFrom(sum, Present(a), Request(1, a) + [Change(Present(b))], ask2);
    ScanAndMiss(sum, b, sum(Stamps(a)), Some(DataOf(a)), 2);
    AfterIsFrom(sum, Present(a), Request(1, a) + [Change(Present(b))] + ask2, [Read(2, Some(b))]);
    FromOne(sum, s2.(requests := map[2 := Waiting(sum(Stamps(b)))]), Read(2, Some(b)));
  }

  /** No load overtaken: the second has stored its checksum only, and a request asking then reads the
      data from before the change. */
  lemma AskingBetweenTheStoresReadsOldData(sum: Checksum, a: seq<File>, b: seq<File>)
    requires DataOf(a) != DataOf(b) && sum(Stamps(a)) != sum(Stamps(b))
    ensures var s := After(sum, Present(a), SecondHasRead(a, b) + [StoreCrc]);
      s.dir == Present(b) && s.requests == map[] && Stale(sum, s, Present(b))
  {
    SecondReads(sum, a, b);
    AfterIsFrom(sum, Present(a), SecondHasRead(a, b), [StoreCrc]);
    FromOne(sum, After(sum, Present(a), SecondHasRead(a, b)), StoreCrc);
  }

  /** No load overtaken: the change is undone before the second load stores anything, a third request
      compares then and looks at the cache after both stores. The directory is the first one all the
      time, and the request reads the data of the second. */
  lemma StoringBeforeTheLookReadsOtherData(sum: Checksum, a: seq<File>, b: seq<File>)
    requires DataOf(a) != DataOf(b) && sum(Stamps(a)) != sum(Stamps(b))
    ensures var run := SecondHasRead(a, b)
                       + [Change(Present(a)), Scan(3), Compare(3)] + [StoreCrc] + [StoreData];
      var s := After(sum, Present(a), run);
      s.dir == Present(a) && Answer(s, Get(3)) == Some(DataOf(b))
  {
    var before, look := SecondHasRead(a, b), [Change(Present(a)), Scan(3), Compare(3)];
    SecondReads(sum, a, b);
    var s := After(sum, Present(a), before);
    AfterIsFrom(sum, Present(a), before, look);
    FromThree(sum, s, Change(Present(a)), Scan(3), Compare(3));
    var ca := sum(Stamps(a));
    var s1 := s.(dir := Present(a));
    assert Step(sum, s1, Scan(3)) == s1.(requests := map[3 := Scanned(ca)]);
    assert Step(sum, s1.(requests := map[3 := Scanned(ca)]), Compare(3)) == s1.(requests := map[3 := Matched(ca)]);
    AfterIsFrom(sum, Present(a), before + look, [StoreCrc]);
    AfterIsFrom(sum, Present(a), before + look + [StoreCrc], [StoreData]);
    FromOne(sum, s1.(requests := map[3 := Matched(ca)]), StoreCrc);
    FromOne(sum, After(sum, Present(a), before + look + [StoreCrc]), StoreData);
  }

  // ----- Requests one after the other -----

  /** What can happen when no request starts before the one before it is done, and nothing else
      happens during a request. */
  datatype Act = Changes(dir: Directory) | Evicts | Requests(id: nat)

  /** The events of an act; a request's load finds the directory as it is. */
  function Events(s: State, act: Act): seq<Event> {
    match act
    case Changes(dir) => [Change(dir)]
    case Evicts => [Evict]
    case Requests(id) => Request(id, if s.dir.Present? then s.dir.files else [])
  }

  function Sequential(sum: Checksum, start: Directory, acts: seq<Act>): State {
    if acts == [] then Initial(start)
    else
      var s := Sequential(sum, start, acts[..|acts| - 1]);
      From(sum, s, Events(s, acts[|acts| - 1]))
  }

  /** The first answer given in the events. */
  function Given(sum: Checksum, s: State, events: seq<Event>): Option<Loaded>
    decreases |events|
  {
    if events == [] then None
    else if Answer(s, events[0]).Some? then Answer(s, events[0])
    else Given(sum, Step(sum, s, events[0]), events[1..])
  }

  lemma GivenSix(sum: Checksum, s: State, a: Event, b: Event, c: Event, d: Event, e: Event, f: Event)
    requires Answer(s, a).None? && Answer(Step(sum, s, a), b).None?
    ensures var s2 := Step(sum, Step(sum, s, a), b);
      Given(sum, s, [a, b, c] + [d, e, f]) ==
        if Answer(s2, c).Some? then Answer(s2, c) else Given(sum, Step(sum, s2, c), [d, e, f])
  {
    var s1 := Step(sum, s, a);
    var s2 := Step(sum, s1, b);
    var all := [a, b, c] + [d, e, f];
    var tail := [b, c] + [d, e, f];
    assert all[1..] == tail && tail[1..] == [c] + [d, e, f] && ([c] + [d, e, f])[1..] == [d, e, f];
    assert all[0] == a && Given(sum, s, all) == Given(sum, s1, tail);
    assert tail[0] == b && Given(sum, s1, tail) == Given(sum, s2, [c] + [d, e, f]);
  }

  ghost predicate Idle(sum: Checksum, dirs: set<Directory>, s: State) {
    && s.dir in dirs && s.requests == map[] && s.load.None?
    && (s.cache.Some? ==>
         exists d :: d in dirs && d.Present? && s.crc == sum(Stamps(d.files)) && s.cache.value == DataOf(d.files))
  }

  predicate Hit(sum: Checksum, s: State) {
    s.dir.Present? && sum(Stamps(s.dir.files)) == s.crc && s.cache.Some?
  }

  /** A request on its own: a hit changes nothing, and otherwise the directory is loaded. */
  lemma RequestAlone(sum: Checksum, s: State, id: nat)
    requires s.requests == map[] && s.load.None? && s.dir.Present?
    ensures From(sum, s, Request(id, s.dir.files)) ==
      if Hit(sum, s) then s else Quiet(s.dir, sum(Stamps(s.dir.files)), Some(DataOf(s.dir.files)))
    ensures Given(sum, s, Request(id, s.dir.files)) == if Hit(sum, s) then s.cache else Some(DataOf(s.dir.files))
  {
    var files, c := s.dir.files, sum(Stamps(s.dir.files));
    var ask := [Scan(id), Compare(id), Get(id)];
    FromAppend(sum, s, ask, Loading(id, files));
    GivenSix(sum, s, Scan(id), Compare(id), Get(id), Read(id, Some(files)), StoreCrc, StoreData);
    var s1 := s.(requests := map[id := Scanned(c)]);
    assert Step(sum, s, Scan(id)) == s1;
    if Hit(sum, s) {
      FromThree(sum, s, Scan(id), Compare(id), Get(id));
      assert Step(sum, s1, Compare(id)) == s.(requests := map[id := Matched(c)]);
      assert From(sum, s, ask) == s;
      FromThree(sum, s, Read(id, Some(files)), StoreCrc, StoreData);
    } else {
      ScanAndMiss(sum, files, s.crc, s.cache, id);
      LoadAll3(sum, s.dir, s.crc, s.cache, id, c, files);
      FromThree(sum, s, Scan(id), Compare(id), Get(id));
      GivenByLoad(sum, s.(requests := map[id := Waiting(c)]), id, files);
    }
  }

  lemma GivenByLoad(sum: Checksum, s: State, id: nat, files: seq<File>)
    requires id in s.requests && s.requests[id].Waiting? && s.load.None?
    ensures Given(sum, s, Loading(id, files)) == Some(DataOf(files))
  {
    var all := Loading(id, files);
    assert all[1..] == [StoreCrc, StoreData] && all[1..][1..] == [StoreData];
    var s1 := Step(sum, s, Read(id, Some(files)));
    var s2 := Step(sum, s1, StoreCrc);
    assert Given(sum, s, all) == Given(sum, s1, all[1..]) == Given(sum, s2, [StoreData]);
  }

  lemma NobodyAsks(sum: Checksum, s: State, id: nat, files: seq<File>)
    requires s.requests == map[] && s.load.None? && s.dir.Missing?
    ensures From(sum, s, Request(id, files)) == s
  {
    FromAppend(sum, s, [Scan(id), Compare(id), Get(id)], Loading(id, files));
    FromThree(sum, s, Scan(id), Compare(id), Get(id));
    FromThree(sum, s, Read(id, Some(files)), StoreCrc, StoreData);
  }

  lemma {:induction false} SequentialIsIdle(sum: Checksum, dirs: set<Directory>, start: Directory, acts: seq<Act>)
    requires start in dirs && forall i | 0 <= i < |acts| && acts[i].Changes? :: acts[i].dir in dirs
    ensures Idle(sum, dirs, Sequential(sum, start, acts))
  {
    if acts != [] {
      var before, act := acts[..|acts| - 1], acts[|acts| - 1];
      SequentialIsIdle(sum, dirs, start, before);
      var s := Sequential(sum, start, before);
      match act {
        case Requests(id) =>
          if s.dir.Present? {
            RequestAlone(sum, s, id);
          } else {
            NobodyAsks(sum, s, id, []);
          }
        case Changes(dir) => FromOne(sum, s, Change(dir));
        case Evicts => FromOne(sum, s, Evict);
      }
    }
  }

  /** Over every sequential run of changes, evictions and requests, each request is given what a fresh
      load of the current directory gives. */
  lemma SequentialRequestsReadFresh(
    sum: Checksum, dirs: set<Directory>, start: Directory, acts: seq<Act>, id: nat)
    requires start in dirs && forall i | 0 <= i < |acts| && acts[i].Changes? :: acts[i].dir in dirs
    requires Tells(sum, dirs) && Sequential(sum, start, acts).dir.Present?
    ensures var s := Sequential(sum, start, acts);
      Given(sum, s, Events(s, Requests(id))) == Some(DataOf(s.dir.files))
  {
    SequentialIsIdle(sum, dirs, start, acts);
    RequestAlone(sum, Sequential(sum, start, acts), id);
  }

  /** Distinct checksums for distinct listings, and contents fixed by path and write time, are enough. */
  lemma InjectiveTells(sum: Checksum, dirs: set<Directory>)
    requires forall x, y | sum(x) == sum(y) :: x == y
    requires forall a, b, f, g | a in dirs && b in dirs && a.Present? && b.Present? && f in a.files && g in b.files ::
      f.path == g.path && f.time == g.time ==> f.elements == g.elements
    ensures Tells(sum, dirs)
  {
    forall a, b | a in dirs && b in dirs && a.Present? && b.Present? && sum(Stamps(a.files)) == sum(Stamps(b.files))
      ensures DataOf(a.files) == DataOf(b.files)
    {
      SameStamps(a.files, b.files);
    }
  }

  lemma {:induction false} SameStamps(a: seq<File>, b: seq<File>)
    requires Stamps(a) == Stamps(b)
    requires forall f, g | f in a && g in b :: f.path == g.path && f.time == g.time ==> f.elements == g.elements
    ensures a == b
  {
    if a != [] && b != [] {
      var m, n := |a| - 1, |b| - 1;
      assert Stamps(a)[..|Stamps(a)| - 1] == Stamps(a[..m]);
      assert Stamps(b)[..|Stamps(b)| - 1] == Stamps(b[..n]);
      assert Stamps(a)[|Stamps(a)| - 1] == Stamp(a[m].path, a[m].time);
      assert Stamps(b)[|Stamps(b)| - 1] == Stamp(b[n].path, b[n].time);
      SameStamps(a[..m], b[..n]);
      assert a == a[..m] + [a[m]] && b == b[..n] + [b[n]];
      assert a[m] in a && b[n] in b;
    }
  }

  // ----- The process-wide cache -----

  class Cache {
    const sum: Checksum
    var dir: Directory
    var directoryCrc: nat
    var data: Option<Loaded>
    var requests: map<nat, Phase>
    var load: Option<Load>

    ghost function Value(): State
      reads this
    {
      State(dir, directoryCrc, data, requests, load)
    }

    constructor (sum: Checksum, dir: Directory)
      ensures Value() == Initial(dir) && this.sum == sum
    {
      this.sum := sum;
      this.dir, directoryCrc, data, requests, load := dir, 0, None, map[], None;
    }

    /** The first part of await_ready: computes the checksum. */
    method ScanDirectory(id: nat)
      requires id !in requests
      modifies this`requests
      ensures Value() == Step(sum, old(Value()), Scan(id))
      ensures requests == if dir.Present? then old(requests)[id := Scanned(sum(Stamps(dir.files)))] else old(requests)
    {
      if dir.Present? {
        var files := dir.files;
        var stream: seq<Stamp> := [];
        for i := 0 to |files|
          invariant stream == Stamps(files[..i])
        {
          assert files[..i + 1][..i] == files[..i];
          stream := stream + [Stamp(files[i].path, files[i].time)];
        }
        assert files[..|files|] == files;
        requests := requests[id := Scanned(sum(stream))];
      }
    }

    /** Compares it with the one stored, without any lock. */
    method CompareChecksum(id: nat) returns (equal: bool)
      requires id in requests && requests[id].Scanned?
      modifies this`requests
      ensures Value() == Step(sum, old(Value()), Compare(id)) && equal == Matches(old(Value()), Compare(id))
      ensures equal <==> old(requests)[id].crc == directoryCrc
      ensures requests == old(requests)[id := if equal then Matched(directoryCrc) else Waiting(old(requests)[id].crc)]
    {
      var crc := requests[id].crc;
      equal := crc == directoryCrc;
      requests := requests[id := if equal then Matched(crc) else Waiting(crc)];
    }

    /** Looks at the cache, without any lock; without a result the request goes on to a load. */
    method GetCached(id: nat) returns (result: Option<Loaded>)
      requires id in requests && requests[id].Matched?
      modifies this`requests
      ensures Value() == Step(sum, old(Value()), Get(id)) && result == Answer(old(Value()), Get(id))
      ensures result == data
      ensures if data.Some? then requests == old(requests) - {id}
              else requests == old(requests)[id := Waiting(old(requests)[id].crc)]
    {
      result := data;
      if result.Some? {
        requests := requests - {id};
      } else {
        requests := requests[id := Waiting(requests[id].crc)];
      }
    }

    /** The loop over the directory, under the lock. */
    method ReadDirectory(id: nat, found: Option<seq<File>>)
      requires id in requests && requests[id].Waiting? && load.None?
      modifies this`requests, this`load
      ensures Value() == Step(sum, old(Value()), Read(id, found)) && requests == old(requests) - {id}
      ensures load == if found.None? then None
                      else Some(Load(old(requests)[id].crc, DataOf(found.value), false))
    {
      if found.Some? {
        var files := found.value;
        var statements: seq<seq<Element>> := [];
        for i := 0 to |files|
          invariant statements == Statements(files[..i])
        {
          assert files[..i + 1][..i] == files[..i];
          if IsXml(files[i].path) {
            statements := statements + [files[i].elements];
          }
        }
        assert files[..|files|] == files;
        var trades, orders := LoadFiles(statements);
        load := Some(Load(requests[id].crc, Loaded(trades, orders), false));
      }
      requests := requests - {id};
    }

    method StoreChecksum()
      requires load.Some? && !load.value.crcStored
      modifies this`directoryCrc, this`load
      ensures Value() == Step(sum, old(Value()), StoreCrc)
      ensures directoryCrc == old(load).value.crc && load == Some(old(load).value.(crcStored := true))
    {
      directoryCrc := load.value.crc;
      load := Some(load.value.(crcStored := true));
    }

    method StoreLoaded() returns (result: Option<Loaded>)
      requires load.Some? && load.value.crcStored
      modifies this`data, this`load
      ensures Value() == Step(sum, old(Value()), StoreData) && result == Answer(old(Value()), StoreData)
      ensures data == Some(old(load).value.data) == result && load == None
    {
      data := Some(load.value.data);
      load := None;
      result := data;
    }
  }
}
