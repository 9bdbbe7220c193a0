/**
 The tweet search of a symbol: the tweets of the last seven days are kept, and those of up to ten
 fetched pages are merged into them through an index by time.
 */
module TweetMerge {

  const MAX_PAGES := 10
  const MAX_TAGS := 4
  const POPULAR := 5
  const WEEK := 7 * 24 * 60 * 60
  const FRESH := 20 * 60

  datatype Metrics = Metrics(retweet: nat, reply: nat, like: nat, quote: nat)

  /** A tweet as the server sends it; `tags` are the tags found in its text. */
  datatype Tweet = Tweet(id: nat, author: nat, createdAt: int, text: string, metrics: Metrics, tags: seq<string>)

  /** A tweet as it is kept, with its time cut to 32 bits. */
  datatype Stored = Stored(id: nat, author: nat, createdAt: nat, text: string, metrics: Metrics)

  datatype Key = Key(time: int, id: nat)

  /** A kept tweet with the time under which the index holds it. */
  datatype Entry = Entry(time: int, tweet: Stored)

  function KeyOf(e: Entry): Key {
    Key(e.time, e.tweet.id)
  }

  function KeyOfTweet(t: Tweet): Key {
    Key(t.createdAt, t.id)
  }

  function Kept(t: Tweet): Entry {
    Entry(t.createdAt, Stored(t.id, t.author, t.createdAt % 0x1_0000_0000, t.text, t.metrics))
  }

  // ----- The keyed merge -----

  /** The first position of a key, or the length of the list. */
  function Position(es: seq<Entry>, k: Key): (p: nat)
    ensures p <= |es| && (p < |es| ==> KeyOf(es[p]) == k)
    ensures forall j | 0 <= j < p :: KeyOf(es[j]) != k
  {
    if es == [] then 0 else
      var n := |es| - 1;
      var p := Position(es[..n], k);
      if p < n || KeyOf(es[n]) == k then p else n + 1
  }

  function Upsert(es: seq<Entry>, t: Tweet): seq<Entry> {
    var p := Position(es, KeyOfTweet(t));
    if p < |es| then es[p := Entry(es[p].time, es[p].tweet.(metrics := t.metrics))] else es + [Kept(t)]
  }

  function UpsertAll(es: seq<Entry>, ts: seq<Tweet>): seq<Entry> {
    if ts == [] then es else Upsert(UpsertAll(es, ts[..|ts| - 1]), ts[|ts| - 1])
  }

  predicate HasKey(ts: seq<Tweet>, k: Key) {
    exists j | 0 <= j < |ts| :: KeyOfTweet(ts[j]) == k
  }

  predicate FirstWithKey(ts: seq<Tweet>, k: Key, j: nat) {
    j < |ts| && KeyOfTweet(ts[j]) == k && !HasKey(ts[..j], k)
  }

  predicate LastWithKey(ts: seq<Tweet>, k: Key, j: nat) {
    j < |ts| && KeyOfTweet(ts[j]) == k && !HasKey(ts[j + 1..], k)
  }

  predicate SameTweet(a: Entry, b: Entry) {
    a.time == b.time && a.tweet.(metrics := b.tweet.metrics) == b.tweet
  }

  /** The kept tweets stay where they are, with their time, author and text. */
  lemma {:induction false} KeptTweetsStay(es: seq<Entry>, ts: seq<Tweet>)
    ensures |es| <= |UpsertAll(es, ts)|
    ensures forall i | 0 <= i < |es| :: SameTweet(UpsertAll(es, ts)[i], es[i])
  {
    if ts != [] {
      KeptTweetsStay(es, ts[..|ts| - 1]);
    }
  }

  predicate Unique(es: seq<Entry>) {
    forall i, j | 0 <= i < j < |es| :: KeyOf(es[i]) != KeyOf(es[j])
  }

  lemma {:induction false} KeysStayUnique(es: seq<Entry>, ts: seq<Tweet>)
    requires Unique(es)
    ensures Unique(UpsertAll(es, ts))
  {
    if ts != [] {
      KeysStayUnique(es, ts[..|ts| - 1]);
    }
  }

  /** A key keeps its position, whatever is merged after it. */
  lemma PositionAfterUpsert(es: seq<Entry>, t: Tweet, k: Key)
    ensures Position(es, k) < |es| || k == KeyOfTweet(t) ==> Position(Upsert(es, t), k) == Position(es, k)
    ensures Position(Upsert(es, t), k) < |Upsert(es, t)| <==> Position(es, k) < |es| || k == KeyOfTweet(t)
  {
    var p, q, out := Position(es, k), Position(Upsert(es, t), k), Upsert(es, t);
    assert forall i | 0 <= i < |es| :: KeyOf(out[i]) == KeyOf(es[i]);
    if p < |es| {
      assert KeyOf(out[p]) == k;
    }
  }

  lemma EntryAfterUpsert(es: seq<Entry>, t: Tweet, k: Key)
    ensures var out := Upsert(es, t);
      var p := Position(out, k);
      p < |out| ==> if k == KeyOfTweet(t) then out[p].tweet.metrics == t.metrics else p < |es| && out[p] == es[p]
  {
    PositionAfterUpsert(es, t, k);
  }

  lemma HasKeySnoc(ts: seq<Tweet>, k: Key)
    requires ts != []
    ensures HasKey(ts, k) <==> HasKey(ts[..|ts| - 1], k) || KeyOfTweet(ts[|ts| - 1]) == k
  {
    var n := |ts| - 1;
    if HasKey(ts[..n], k) {
      var j :| 0 <= j < n && KeyOfTweet(ts[..n][j]) == k;
      assert KeyOfTweet(ts[j]) == k;
    }
    if j :| 0 <= j < |ts| && KeyOfTweet(ts[j]) == k && j < n {
      assert KeyOfTweet(ts[..n][j]) == k;
    }
  }

  /** The keys of the merged list are those of both lists, and a kept key stays where it was. */
  lemma {:induction false} KeysAreTheUnion(es: seq<Entry>, ts: seq<Tweet>, k: Key)
    ensures Position(UpsertAll(es, ts), k) < |UpsertAll(es, ts)| <==> Position(es, k) < |es| || HasKey(ts, k)
    ensures Position(es, k) < |es| ==> Position(UpsertAll(es, ts), k) == Position(es, k)
  {
    if ts != [] {
      var n := |ts| - 1;
      KeysAreTheUnion(es, ts[..n], k);
      PositionAfterUpsert(UpsertAll(es, ts[..n]), ts[n], k);
      HasKeySnoc(ts, k);
    }
  }

  lemma LastSnoc(ts: seq<Tweet>, k: Key, j: nat)
    requires LastWithKey(ts, k, j) && j < |ts| - 1
    ensures LastWithKey(ts[..|ts| - 1], k, j) && KeyOfTweet(ts[|ts| - 1]) != k
  {
    var n := |ts| - 1;
    var rest := ts[j + 1..];
    HasKeySnoc(rest, k);
    assert rest[|rest| - 1] == ts[n];
    assert ts[..n][j + 1..] == rest[..|rest| - 1];
  }

  /** The key is in the list, with these metrics. */
  predicate HasMetrics(es: seq<Entry>, k: Key, m: Metrics) {
    Position(es, k) < |es| && es[Position(es, k)].tweet.metrics == m
  }

  lemma MetricsAfterUpsert(es: seq<Entry>, t: Tweet, k: Key, m: Metrics)
    requires if k == KeyOfTweet(t) then m == t.metrics else HasMetrics(es, k, m)
    ensures HasMetrics(Upsert(es, t), k, m)
  {
    PositionAfterUpsert(es, t, k);
    EntryAfterUpsert(es, t, k);
  }

  /** The metrics under a key are the last that came, or the old ones if none came. */
  lemma {:induction false} MetricsAreTheLast(es: seq<Entry>, ts: seq<Tweet>, k: Key, j: nat)
    requires LastWithKey(ts, k, j)
    ensures HasMetrics(UpsertAll(es, ts), k, ts[j].metrics)
  {
    var n := |ts| - 1;
    if j < n {
      LastSnoc(ts, k, j);
      MetricsAreTheLast(es, ts[..n], k, j);
    }
    MetricsAfterUpsert(UpsertAll(es, ts[..n]), ts[n], k, ts[j].metrics);
  }

  lemma {:induction false} OthersAreUntouched(es: seq<Entry>, ts: seq<Tweet>, k: Key)
    requires !HasKey(ts, k) && Position(es, k) < |es|
    ensures |es| <= |UpsertAll(es, ts)| && UpsertAll(es, ts)[Position(es, k)] == es[Position(es, k)]
  {
    KeptTweetsStay(es, ts);
    if ts != [] {
      var n := |ts| - 1;
      HasKeySnoc(ts, k);
      OthersAreUntouched(es, ts[..n], k);
      KeysAreTheUnion(es, ts, k);
      EntryAfterUpsert(UpsertAll(es, ts[..n]), ts[n], k);
    }
  }

  /** Where a merged tweet comes from: `origin[i]` is the first tweet with the key of `out[|es| + i]`. */
  ghost predicate Appended(es: seq<Entry>, ts: seq<Tweet>, out: seq<Entry>, origin: seq<nat>) {
    && |out| == |es| + |origin|
    && (forall i | 0 <= i < |origin| :: OriginOf(es, ts, out[|es| + i], origin[i]))
    && forall i, j | 0 <= i < j < |origin| :: origin[i] < origin[j]
  }

  ghost predicate OriginOf(es: seq<Entry>, ts: seq<Tweet>, e: Entry, j: nat) {
    && Position(es, KeyOf(e)) == |es| && FirstWithKey(ts, KeyOf(e), j)
    && e.time == ts[j].createdAt && e.tweet.id == ts[j].id
    && e.tweet.author == ts[j].author && e.tweet.text == ts[j].text
    && e.tweet.createdAt == ts[j].createdAt % 0x1_0000_0000
  }

  /** New tweets follow the kept ones in the order they first came, each with the time, id, author and
      text it first had. */
  lemma {:induction false} NewTweetsAreTheFirst(es: seq<Entry>, ts: seq<Tweet>) returns (origin: seq<nat>)
    ensures Appended(es, ts, UpsertAll(es, ts), origin)
  {
    origin := [];
    if ts != [] {
      var n := |ts| - 1;
      var before, t := UpsertAll(es, ts[..n]), ts[n];
      var k := KeyOfTweet(t);
      origin := NewTweetsAreTheFirst(es, ts[..n]);
      forall i | 0 <= i < |origin| ensures OriginOf(es, ts, Upsert(before, t)[|es| + i], origin[i]) {
        assert OriginOf(es, ts[..n], before[|es| + i], origin[i]);
        assert ts[..n][..origin[i]] == ts[..origin[i]];
      }
      KeysAreTheUnion(es, ts[..n], k);
      if Position(before, k) == |before| {
        assert FirstWithKey(ts, k, n);
        origin := origin + [n];
      }
    }
  }

  /** A position that is not the first of its key, or whose key does not come again, is untouched. */
  lemma {:induction false} OtherPositionsAreUntouched(es: seq<Entry>, ts: seq<Tweet>, p: nat)
    requires p < |es| && (Position(es, KeyOf(es[p])) != p || !HasKey(ts, KeyOf(es[p])))
    ensures p < |UpsertAll(es, ts)| && UpsertAll(es, ts)[p] == es[p]
  {
    if ts != [] {
      var n, k := |ts| - 1, KeyOf(es[p]);
      HasKeySnoc(ts, k);
      OtherPositionsAreUntouched(es, ts[..n], p);
      KeysAreTheUnion(es, ts[..n], k);
    }
  }

  lemma {:induction false} LastExists(ts: seq<Tweet>, k: Key) returns (j: nat)
    requires HasKey(ts, k)
    ensures LastWithKey(ts, k, j)
  {
    j := |ts| - 1;
    if KeyOfTweet(ts[j]) != k {
      HasKeySnoc(ts, k);
      j := LastExists(ts[..|ts| - 1], k);
      var rest := ts[j + 1..];
      assert rest[..|rest| - 1] == ts[..|ts| - 1][j + 1..] && rest[|rest| - 1] == ts[|ts| - 1];
      if HasKey(rest, k) {
        HasKeySnoc(rest, k);
      }
    }
  }

  /** The metrics at every position: the last that came for the key, at the first position of the key,
      and otherwise those that were there. */
  predicate MetricsAre(es: seq<Entry>, ts: seq<Tweet>, out: seq<Entry>, p: nat)
    requires p < |out|
  {
    var k := KeyOf(out[p]);
    if HasKey(ts, k) && forall q | 0 <= q < p :: KeyOf(out[q]) != k
    then exists j: nat :: j < |ts| && LastWithKey(ts, k, j) && out[p].tweet.metrics == ts[j].metrics
    else p < |es| && out[p].tweet.metrics == es[p].tweet.metrics
  }

  lemma EveryPositionsMetrics(es: seq<Entry>, ts: seq<Tweet>, p: nat)
    requires p < |UpsertAll(es, ts)|
    ensures MetricsAre(es, ts, UpsertAll(es, ts), p)
  {
    var out := UpsertAll(es, ts);
    var k := KeyOf(out[p]);
    KeysAreTheUnion(es, ts, k);
    KeptTweetsStay(es, ts);
    if HasKey(ts, k) && forall q | 0 <= q < p :: KeyOf(out[q]) != k {
      var j := LastExists(ts, k);
      MetricsAreTheLast(es, ts, k, j);
      assert Position(out, k) == p;
    } else {
      if p >= |es| {
        NotBeyondTheKept(es, ts, p);
      }
      assert KeyOf(es[p]) == k;
      OtherPositionsAreUntouched(es, ts, p);
    }
  }

  /** Every new position is the first of its key, and its key came. */
  lemma NotBeyondTheKept(es: seq<Entry>, ts: seq<Tweet>, p: nat)
    requires p < |UpsertAll(es, ts)| && p >= |es|
    ensures HasKey(ts, KeyOf(UpsertAll(es, ts)[p]))
    ensures forall q | 0 <= q < p :: KeyOf(UpsertAll(es, ts)[q]) != KeyOf(UpsertAll(es, ts)[p])
  {
    var out, k := UpsertAll(es, ts), KeyOf(UpsertAll(es, ts)[p]);
    var origin := NewTweetsAreTheFirst(es, ts);
    var i := p - |es|;
    assert OriginOf(es, ts, out[|es| + i], origin[i]);
    KeptTweetsStay(es, ts);
    forall q | 0 <= q < p ensures KeyOf(out[q]) != k {
      if q < |es| {
        assert KeyOf(out[q]) == KeyOf(es[q]) && Position(es, KeyOf(out[|es| + i])) == |es|;
      } else if KeyOf(out[q]) == k {
        assert OriginOf(es, ts, out[|es| + (q - |es|)], origin[q - |es|]);
        OneFirst(ts, k, origin[q - |es|], origin[i]);
      }
    }
  }

  lemma OneFirst(ts: seq<Tweet>, k: Key, i: nat, j: nat)
    requires FirstWithKey(ts, k, i) && FirstWithKey(ts, k, j)
    ensures i == j
  {
  }

  // ----- Which tweets are accepted -----

  datatype Rules = Rules(symbol: string, minimumLikes: nat, blocked: set<nat>)

  predicate SameLetter(a: char, b: char) {
    a == b || ('a' <= a <= 'z' && a as int - b as int == 32) || ('A' <= a <= 'Z' && b as int - a as int == 32)
  }

  predicate SameIgnoringCase(a: string, b: string) {
    |a| == |b| && forall i | 0 <= i < |a| :: SameLetter(a[i], b[i])
  }

  predicate NamesSymbol(tag: string, symbol: string) {
    |tag| == |symbol| + 1 && tag[0] == '$' && SameIgnoringCase(tag[1..], symbol)
  }

  predicate HashFound(rules: Rules, t: Tweet) {
    SameIgnoringCase(rules.symbol, "SPY") ==> exists i | 0 <= i < |t.tags| :: NamesSymbol(t.tags[i], rules.symbol)
  }

  function Lower(c: char): char {
    if 'A' <= c <= 'Z' then (c as int + 32) as char else c
  }

  lemma SameLetterIffSameLower(a: char, b: char)
    ensures SameLetter(a, b) <==> Lower(a) == Lower(b)
  {
    if 'A' <= a <= 'Z' {
      assert Lower(a) as int == a as int + 32;
    }
    if 'A' <= b <= 'Z' {
      assert Lower(b) as int == b as int + 32;
    }
  }

  predicate SameLowered(a: string, b: string) {
    |a| == |b| && forall i | 0 <= i < |a| :: Lower(a[i]) == Lower(b[i])
  }

  /** Only a search for SPY looks at the tags: one must be the symbol after a dollar sign, whatever the
      case of its letters. */
  lemma OnlySpyNeedsItsTag(rules: Rules, t: Tweet)
    ensures HashFound(rules, t) <==>
      !SameLowered(rules.symbol, "spy") || exists tag :: tag in t.tags && IsDollarSymbol(tag, rules.symbol)
  {
    forall a: string, b: string ensures SameIgnoringCase(a, b) <==> SameLowered(a, b) {
      SameCasesIffLowered(a, b);
    }
    assert Lower('S') == 's' && Lower('P') == 'p' && Lower('Y') == 'y' && Lower('s') == 's' && Lower('p') == 'p'
           && Lower('y') == 'y';
    forall i | 0 <= i < |t.tags| ensures NamesSymbol(t.tags[i], rules.symbol) <==>
      IsDollarSymbol(t.tags[i], rules.symbol) {
      var tag := t.tags[i];
      if tag != [] && tag[0] == '$' {
        assert tag == "$" + tag[1..];
      }
      if name :| tag == "$" + name && SameLowered(name, rules.symbol) {
        assert tag[1..] == name;
      }
    }
  }

  ghost predicate IsDollarSymbol(tag: string, symbol: string) {
    exists name :: tag == "$" + name && SameLowered(name, symbol)
  }

  lemma SameCasesIffLowered(a: string, b: string)
    ensures SameIgnoringCase(a, b) <==> SameLowered(a, b)
  {
    if |a| == |b| {
      forall i | 0 <= i < |a| ensures SameLetter(a[i], b[i]) <==> Lower(a[i]) == Lower(b[i]) {
        SameLetterIffSameLower(a[i], b[i]);
      }
    }
  }

  /** The author of such a tweet is blocked for the rest of the search. */
  predicate Overtagged(rules: Rules, t: Tweet) {
    t.author !in rules.blocked && HashFound(rules, t) && |t.tags| > 4
  }

  predicate BlockedBefore(rules: Rules, ts: seq<Tweet>, author: nat) {
    exists j | 0 <= j < |ts| :: ts[j].author == author && Overtagged(rules, ts[j])
  }

  /** A tweet counts when its author was not blocked by then and it passes the filters itself. */
  predicate Accepts(rules: Rules, earlier: seq<Tweet>, t: Tweet) {
    && t.author !in rules.blocked && !BlockedBefore(rules, earlier, t.author)
    && HashFound(rules, t) && |t.tags| <= 4 && t.metrics.like >= rules.minimumLikes
  }

  function Accepted(rules: Rules, ts: seq<Tweet>): seq<Tweet> {
    if ts == [] then [] else
      var n := |ts| - 1;
      Accepted(rules, ts[..n]) + if Accepts(rules, ts[..n], ts[n]) then [ts[n]] else []
  }

  /** The overtagged tweets that block their author, each author once. */
  function Blocking(rules: Rules, ts: seq<Tweet>): seq<Tweet> {
    if ts == [] then [] else
      var n := |ts| - 1;
      Blocking(rules, ts[..n])
      + if Overtagged(rules, ts[n]) && !BlockedBefore(rules, ts[..n], ts[n].author) then [ts[n]] else []
  }

  predicate Ascends(r: seq<nat>) {
    forall i, j | 0 <= i < j < |r| :: r[i] < r[j]
  }

  /** `out` are the tweets at the positions `at`, in their order. */
  predicate Picks(at: seq<nat>, out: seq<Tweet>, ts: seq<Tweet>) {
    Ascends(at) && |out| == |at| && forall i | 0 <= i < |at| :: at[i] < |ts| && out[i] == ts[at[i]]
  }

  lemma PicksSnoc(at: seq<nat>, out: seq<Tweet>, ts: seq<Tweet>, t: Tweet)
    requires Picks(at, out, ts)
    ensures Picks(at, out, ts + [t]) && Picks(at + [|ts|], out + [t], ts + [t])
    ensures forall j: nat :: j in at + [|ts|] <==> j in at || j == |ts|
    ensures |ts| !in at
  {
  }

  /** The accepted tweets, in their order, are exactly those that pass given the tweets before them. */
  lemma {:induction false} AcceptedArePicked(rules: Rules, ts: seq<Tweet>) returns (at: seq<nat>)
    ensures Picks(at, Accepted(rules, ts), ts)
    ensures forall j: nat :: j in at <==> j < |ts| && Accepts(rules, ts[..j], ts[j])
  {
    at := [];
    if ts != [] {
      var n := |ts| - 1;
      at := AcceptedArePicked(rules, ts[..n]);
      PicksSnoc(at, Accepted(rules, ts[..n]), ts[..n], ts[n]);
      assert ts[..n] + [ts[n]] == ts;
      assert forall j: nat | j < n :: ts[..n][..j] == ts[..j];
      if Accepts(rules, ts[..n], ts[n]) {
        at := at + [n];
      } else {
        assert Accepted(rules, ts[..n]) + [] == Accepted(rules, ts[..n]);
      }
    }
  }

  /** The blocking tweets are the overtagged ones whose author was not blocked by an earlier one. */
  lemma {:induction false} BlockingArePicked(rules: Rules, ts: seq<Tweet>) returns (at: seq<nat>)
    ensures Picks(at, Blocking(rules, ts), ts)
    ensures forall j: nat :: j in at <==>
      j < |ts| && Overtagged(rules, ts[j]) && !BlockedBefore(rules, ts[..j], ts[j].author)
  {
    at := [];
    if ts != [] {
      var n := |ts| - 1;
      at := BlockingArePicked(rules, ts[..n]);
      PicksSnoc(at, Blocking(rules, ts[..n]), ts[..n], ts[n]);
      assert ts[..n] + [ts[n]] == ts;
      assert forall j: nat | j < n :: ts[..n][..j] == ts[..j];
      if Overtagged(rules, ts[n]) && !BlockedBefore(rules, ts[..n], ts[n].author) {
        at := at + [n];
      } else {
        assert Blocking(rules, ts[..n]) + [] == Blocking(rules, ts[..n]);
      }
    }
  }

  // ----- The search, tweet by tweet -----

  datatype State = State(entries: seq<Entry>, newBlocked: set<nat>, ignored: map<string, nat>)

  datatype Verdict = Drop | Block | Accept

  function Judge(rules: Rules, newBlocked: set<nat>, t: Tweet): Verdict {
    if t.author in newBlocked || t.author in rules.blocked then Drop
    else if !HashFound(rules, t) then Drop
    else if |t.tags| > MAX_TAGS then Block
    else if t.metrics.like < rules.minimumLikes then Drop
    else Accept
  }

  function Bump(ignored: map<string, nat>, tags: seq<string>): map<string, nat> {
    if tags == [] then ignored else
      var m := Bump(ignored, tags[..|tags| - 1]);
      var tag := tags[|tags| - 1];
      m[tag := (if tag in m then m[tag] else 0) + 1]
  }

  function Take(rules: Rules, s: State, t: Tweet): State {
    match Judge(rules, s.newBlocked, t)
    case Drop => s
    case Block => State(s.entries, s.newBlocked + {t.author}, Bump(s.ignored, t.tags))
    case Accept => s.(entries := Upsert(s.entries, t))
  }

  function TakeAll(rules: Rules, s: State, ts: seq<Tweet>): State {
    if ts == [] then s else Take(rules, TakeAll(rules, s, ts[..|ts| - 1]), ts[|ts| - 1])
  }

  lemma {:induction false} NewlyBlocked(rules: Rules, s: State, ts: seq<Tweet>, author: nat)
    requires s.newBlocked == {}
    ensures author in TakeAll(rules, s, ts).newBlocked <==> BlockedBefore(rules, ts, author)
  {
    if ts != [] {
      var n := |ts| - 1;
      NewlyBlocked(rules, s, ts[..n], author);
      NewlyBlocked(rules, s, ts[..n], ts[n].author);
      assert BlockedBefore(rules, ts, author) <==>
        BlockedBefore(rules, ts[..n], author) || (ts[n].author == author && Overtagged(rules, ts[n])) by {
        if BlockedBefore(rules, ts[..n], author) {
          var j :| 0 <= j < n && ts[..n][j].author == author && Overtagged(rules, ts[..n][j]);
          assert ts[j].author == author;
        }
      }
    }
  }

  /** The search is the keyed merge of the accepted tweets, and counts the tags of the blocking ones. */
  lemma {:induction false} SearchIsKeyedMerge(rules: Rules, s: State, ts: seq<Tweet>)
    requires s.newBlocked == {}
    ensures TakeAll(rules, s, ts).entries == UpsertAll(s.entries, Accepted(rules, ts))
    ensures TakeAll(rules, s, ts).ignored == BumpAll(s.ignored, Blocking(rules, ts))
  {
    if ts != [] {
      var n := |ts| - 1;
      var accepted, blocking := Accepted(rules, ts[..n]), Blocking(rules, ts[..n]);
      SearchIsKeyedMerge(rules, s, ts[..n]);
      NewlyBlocked(rules, s, ts[..n], ts[n].author);
      assert (accepted + [ts[n]])[..|accepted|] == accepted && accepted + [] == accepted;
      assert (blocking + [ts[n]])[..|blocking|] == blocking && blocking + [] == blocking;
      match Judge(rules, TakeAll(rules, s, ts[..n]).newBlocked, ts[n])
      case Drop => assert Accepted(rules, ts) == accepted && Blocking(rules, ts) == blocking;
      case Block => assert Accepted(rules, ts) == accepted && Blocking(rules, ts) == blocking + [ts[n]];
      case Accept => assert Accepted(rules, ts) == accepted + [ts[n]] && Blocking(rules, ts) == blocking;
    }
  }

  function BumpAll(ignored: map<string, nat>, ts: seq<Tweet>): map<string, nat> {
    if ts == [] then ignored else Bump(BumpAll(ignored, ts[..|ts| - 1]), ts[|ts| - 1].tags)
  }

  function CountOf(m: map<string, nat>, tag: string): nat {
    if tag in m then m[tag] else 0
  }

  function Occurrences(ts: seq<Tweet>, tag: string): nat {
    if ts == [] then 0 else Occurrences(ts[..|ts| - 1], tag) + multiset(ts[|ts| - 1].tags)[tag]
  }

  lemma {:induction false} BumpCounts(m: map<string, nat>, tags: seq<string>, tag: string)
    ensures CountOf(Bump(m, tags), tag) == CountOf(m, tag) + multiset(tags)[tag]
  {
    if tags != [] {
      BumpCounts(m, tags[..|tags| - 1], tag);
      assert tags == tags[..|tags| - 1] + [tags[|tags| - 1]];
    }
  }

  /** A tag's count grows by its occurrences in the blocking tweets. */
  lemma {:induction false} TagsAreCounted(m: map<string, nat>, ts: seq<Tweet>, tag: string)
    ensures CountOf(BumpAll(m, ts), tag) == CountOf(m, tag) + Occurrences(ts, tag)
  {
    if ts != [] {
      TagsAreCounted(m, ts[..|ts| - 1], tag);
      BumpCounts(BumpAll(m, ts[..|ts| - 1]), ts[|ts| - 1].tags, tag);
    }
  }

  lemma {:induction false} TakeAppend(rules: Rules, s: State, a: seq<Tweet>, b: seq<Tweet>)
    ensures TakeAll(rules, s, a + b) == TakeAll(rules, TakeAll(rules, s, a), b)
  {
    if b == [] {
      assert a + b == a;
    } else {
      TakeAppend(rules, s, a, b[..|b| - 1]);
      assert (a + b)[..|a + b| - 1] == a + b[..|b| - 1];
    }
  }

  // ----- What is sent after each page -----

  predicate IsSent(rules: Rules, s: State, t: Tweet) {
    Judge(rules, s.newBlocked, t) == Accept && t.metrics.like > POPULAR
  }

  /** The positions to send, in the order the popular tweets came. */
  function Sends(rules: Rules, s: State, ts: seq<Tweet>): seq<nat> {
    if ts == [] then [] else
      var n := |ts| - 1;
      var before := TakeAll(rules, s, ts[..n]);
      Sends(rules, s, ts[..n])
      + if IsSent(rules, before, ts[n]) then [Position(before.entries, KeyOfTweet(ts[n]))] else []
  }

  function Popular(rules: Rules, s: State, ts: seq<Tweet>): seq<Tweet> {
    if ts == [] then [] else
      var n := |ts| - 1;
      Popular(rules, s, ts[..n]) + if IsSent(rules, TakeAll(rules, s, ts[..n]), ts[n]) then [ts[n]] else []
  }

  /** Every accepted tweet of the page with more than five likes is sent, as it is kept when the page ends. */
  lemma {:induction false} PopularTweetsAreSent(rules: Rules, s: State, ts: seq<Tweet>)
    ensures |Sends(rules, s, ts)| == |Popular(rules, s, ts)|
    ensures forall i | 0 <= i < |Sends(rules, s, ts)| ::
      SentAt(TakeAll(rules, s, ts).entries, Sends(rules, s, ts)[i], Popular(rules, s, ts)[i])
  {
    if ts != [] {
      var n := |ts| - 1;
      var before := TakeAll(rules, s, ts[..n]);
      PopularTweetsAreSent(rules, s, ts[..n]);
      forall i | 0 <= i < |Sends(rules, s, ts[..n])|
        ensures SentAt(TakeAll(rules, s, ts).entries, Sends(rules, s, ts[..n])[i], Popular(rules, s, ts[..n])[i]) {
        PositionAfterUpsert(before.entries, ts[n], KeyOfTweet(Popular(rules, s, ts[..n])[i]));
      }
      PositionAfterUpsert(before.entries, ts[n], KeyOfTweet(ts[n]));
    }
  }

  predicate SentAt(es: seq<Entry>, p: nat, t: Tweet) {
    p < |es| && p == Position(es, KeyOfTweet(t))
  }

  function SentTweets(es: seq<Entry>, ps: seq<nat>): seq<Stored> {
    if ps == [] then [] else
      var p := ps[|ps| - 1];
      SentTweets(es, ps[..|ps| - 1]) + if p < |es| then [es[p].tweet] else []
  }

  /** A batch holds the tweets as the list has them, found by time and id. */
  predicate BatchOf(es: seq<Entry>, popular: seq<Tweet>, batch: seq<Stored>) {
    |batch| == |popular| && forall i | 0 <= i < |popular| :: IsEntryOf(es, popular[i], batch[i])
  }

  predicate IsEntryOf(es: seq<Entry>, t: Tweet, sent: Stored) {
    var p := Position(es, KeyOfTweet(t));
    p < |es| && sent == es[p].tweet
  }

  lemma {:induction false} SentTweetsAreEntries(es: seq<Entry>, ps: seq<nat>, popular: seq<Tweet>)
    requires |ps| == |popular| && forall i | 0 <= i < |ps| :: SentAt(es, ps[i], popular[i])
    ensures BatchOf(es, popular, SentTweets(es, ps))
  {
    if ps != [] {
      var n := |ps| - 1;
      assert SentAt(es, ps[n], popular[n]);
      SentTweetsAreEntries(es, ps[..n], popular[..n]);
      var sent := SentTweets(es, ps[..n]);
      forall i | 0 <= i < |ps| ensures IsEntryOf(es, popular[i], SentTweets(es, ps)[i]) {
        assert i < n ==> IsEntryOf(es, popular[..n][i], sent[i]);
      }
    }
  }

  /** After `earlier`, tweet `j` of the page is accepted and has more than five likes. */
  predicate PopularAt(rules: Rules, earlier: seq<Tweet>, ts: seq<Tweet>, j: nat) {
    j < |ts| && Accepts(rules, earlier + ts[..j], ts[j]) && ts[j].metrics.like > 5
  }

  lemma SentIffAccepted(rules: Rules, s: State, earlier: seq<Tweet>, ts: seq<Tweet>, j: nat)
    requires s.newBlocked == {} && j < |ts|
    ensures IsSent(rules, TakeAll(rules, TakeAll(rules, s, earlier), ts[..j]), ts[j])
            <==> PopularAt(rules, earlier, ts, j)
  {
    TakeAppend(rules, s, earlier, ts[..j]);
    NewlyBlocked(rules, s, earlier + ts[..j], ts[j].author);
  }

  /** The popular tweets of a page, read off the tweets alone. */
  lemma {:induction false} PopularArePicked(rules: Rules, s: State, earlier: seq<Tweet>, ts: seq<Tweet>)
    returns (at: seq<nat>)
    requires s.newBlocked == {}
    ensures Picks(at, Popular(rules, TakeAll(rules, s, earlier), ts), ts)
    ensures forall j: nat :: j in at <==> PopularAt(rules, earlier, ts, j)
  {
    at := [];
    if ts != [] {
      var n, before := |ts| - 1, TakeAll(rules, s, earlier);
      at := PopularArePicked(rules, s, earlier, ts[..n]);
      PicksSnoc(at, Popular(rules, before, ts[..n]), ts[..n], ts[n]);
      SentIffAccepted(rules, s, earlier, ts, n);
      assert ts[..n] + [ts[n]] == ts;
      forall j: nat | j < n ensures PopularAt(rules, earlier, ts[..n], j) <==> PopularAt(rules, earlier, ts, j) {
        assert ts[..n][..j] == ts[..j];
      }
      if PopularAt(rules, earlier, ts, n) {
        at := at + [n];
      } else {
        assert Popular(rules, before, ts[..n]) + [] == Popular(rules, before, ts[..n]);
      }
    }
  }

  // ----- The index -----

  predicate OnlyThose(r: seq<nat>, es: seq<Entry>, time: int) {
    forall i | 0 <= i < |r| :: r[i] < |es| && es[r[i]].time == time
  }

  predicate AllThose(r: seq<nat>, es: seq<Entry>, time: int) {
    forall p: nat | p < |es| && es[p].time == time :: p in r
  }

  /** The positions of a time, in the order its tweets came. */
  predicate IsRange(r: seq<nat>, es: seq<Entry>, time: int) {
    Ascends(r) && OnlyThose(r, es, time) && AllThose(r, es, time)
  }

  function Range(index: map<int, seq<nat>>, time: int): seq<nat> {
    if time in index then index[time] else []
  }

  ghost predicate Indexes(index: map<int, seq<nat>>, es: seq<Entry>) {
    forall time :: IsRange(Range(index, time), es, time)
  }

  function Tweets(es: seq<Entry>): (list: seq<Stored>)
    ensures |list| == |es| && forall i | 0 <= i < |es| :: list[i] == es[i].tweet
  {
    if es == [] then [] else Tweets(es[..|es| - 1]) + [es[|es| - 1].tweet]
  }

  predicate Lists(list: seq<Stored>, es: seq<Entry>) {
    |list| == |es| && forall i | 0 <= i < |es| :: list[i] == es[i].tweet
  }

  /** The list, each tweet under its own time: what an index built from it holds. */
  function AsKept(list: seq<Stored>): (es: seq<Entry>)
    ensures |es| == |list| && forall i | 0 <= i < |list| :: es[i] == Entry(list[i].createdAt, list[i])
  {
    if list == [] then [] else
      var last := list[|list| - 1];
      AsKept(list[..|list| - 1]) + [Entry(last.createdAt, last)]
  }

  lemma IndexesTheListIffTimesAgree(index: map<int, seq<nat>>, es: seq<Entry>)
    requires Indexes(index, es)
    ensures Indexes(index, AsKept(Tweets(es))) <==> UnderOwnTimes(es)
  {
    var kept := AsKept(Tweets(es));
    if UnderOwnTimes(es) {
      assert kept == es;
    } else {
      var i :| 0 <= i < |es| && es[i].time != es[i].tweet.createdAt;
      var r := Range(index, es[i].time);
      assert IsRange(r, es, es[i].time) && i in r;
      assert !IsRange(r, kept, es[i].time);
    }
  }

  predicate UnderOwnTimes(es: seq<Entry>) {
    forall i | 0 <= i < |es| :: es[i].time == es[i].tweet.createdAt
  }

  predicate TimesFit(ts: seq<Tweet>) {
    forall i | 0 <= i < |ts| :: 0 <= ts[i].createdAt < 0x1_0000_0000
  }

  /** Times are kept in 32 bits. */
  predicate Narrow(es: seq<Entry>) {
    forall i | 0 <= i < |es| :: es[i].tweet.createdAt < 0x1_0000_0000
  }

  lemma {:induction false} OwnTimesIffTheyFit(es: seq<Entry>, ts: seq<Tweet>)
    requires UnderOwnTimes(es) && Narrow(es)
    ensures Narrow(UpsertAll(es, ts)) && (UnderOwnTimes(UpsertAll(es, ts)) <==> TimesFit(ts))
  {
    if ts != [] {
      var n := |ts| - 1;
      var before, t := UpsertAll(es, ts[..n]), ts[n];
      OwnTimesIffTheyFit(es, ts[..n]);
      UpsertKeepsOwnTimes(before, t);
      assert TimesFit(ts) <==> TimesFit(ts[..n]) && 0 <= t.createdAt < 0x1_0000_0000 by {
        assert TimesFit(ts) ==> forall i | 0 <= i < n :: ts[..n][i] == ts[i];
        assert ts == ts[..n] + [t];
      }
    }
  }

  lemma UpsertKeepsOwnTimes(es: seq<Entry>, t: Tweet)
    requires Narrow(es)
    ensures Narrow(Upsert(es, t))
    ensures UnderOwnTimes(Upsert(es, t)) <==> UnderOwnTimes(es) && 0 <= t.createdAt < 0x1_0000_0000
  {
    var p, out := Position(es, KeyOfTweet(t)), Upsert(es, t);
    assert forall i | 0 <= i < |es| :: out[i].time == es[i].time && out[i].tweet.createdAt == es[i].tweet.createdAt;
    if p < |es| {
      assert es[p].time == t.createdAt;
    } else {
      assert out[p] == Kept(t);
    }
  }

  /**
   Index and list agree, every tweet under its own time, exactly when each accepted tweet's time
   fits in the 32 bits it is kept in.
   */
  lemma IndexAgreesIffTimesFit(rules: Rules, list: seq<Stored>, ignored: map<string, nat>, ts: seq<Tweet>,
                               index: map<int, seq<nat>>)
    requires Narrow(AsKept(list)) && Indexes(index, TakeAll(rules, State(AsKept(list), {}, ignored), ts).entries)
    ensures var out := TakeAll(rules, State(AsKept(list), {}, ignored), ts).entries;
      Indexes(index, AsKept(Tweets(out))) <==>
      TimesFit(Accepted(rules, ts))
  {
    var s := State(AsKept(list), {}, ignored);
    SearchIsKeyedMerge(rules, s, ts);
    OwnTimesIffTheyFit(AsKept(list), Accepted(rules, ts));
    IndexesTheListIffTimesAgree(index, TakeAll(rules, s, ts).entries);
  }

  function SinceWeek(list: seq<Stored>, now: int): seq<Stored> {
    if list == [] then [] else
      var last := list[|list| - 1];
      SinceWeek(list[..|list| - 1], now) + if IsRecent(last, now) then [last] else []
  }

  predicate IsRecent(t: Stored, now: int) {
    t.createdAt > now - 604800
  }

  /** `out[i]` is the recent tweet at position `from[i]`. */
  predicate PicksRecent(from: seq<nat>, out: seq<Stored>, list: seq<Stored>, now: int) {
    |out| == |from| && forall i | 0 <= i < |from| ::
      from[i] < |list| && out[i] == list[from[i]] && IsRecent(list[from[i]], now)
  }

  predicate PicksAll(from: seq<nat>, list: seq<Stored>, now: int) {
    forall k: nat | k < |list| && IsRecent(list[k], now) :: k in from
  }

  lemma PicksRecentSnoc(from: seq<nat>, out: seq<Stored>, list: seq<Stored>, now: int, t: Stored)
    requires PicksRecent(from, out, list, now)
    ensures PicksRecent(from, out, list + [t], now)
    ensures IsRecent(t, now) ==> PicksRecent(from + [|list|], out + [t], list + [t], now)
  {
  }

  lemma PicksAllSnoc(from: seq<nat>, list: seq<Stored>, now: int, t: Stored)
    requires PicksAll(from, list, now)
    ensures if IsRecent(t, now) then PicksAll(from + [|list|], list + [t], now) else PicksAll(from, list + [t], now)
  {
    var all := list + [t];
    forall k: nat | k < |all| && IsRecent(all[k], now) ensures k in from + [|list|] && (k < |list| ==> k in from) {
      if k < |list| {
        assert IsRecent(list[k], now);
      } else {
        assert (from + [|list|])[|from|] == k;
      }
    }
  }

  /** What is kept are the tweets of the last week, each once and in their order, and no others. */
  lemma {:induction false} SinceWeekKeepsTheRecent(list: seq<Stored>, now: int) returns (from: seq<nat>)
    ensures PicksRecent(from, SinceWeek(list, now), list, now) && PicksAll(from, list, now) && Ascends(from)
  {
    from := [];
    if list != [] {
      var before, last := list[..|list| - 1], list[|list| - 1];
      assert list == before + [last];
      from := SinceWeekKeepsTheRecent(before, now);
      PicksRecentSnoc(from, SinceWeek(before, now), before, now, last);
      PicksAllSnoc(from, before, now, last);
      AscendsSnoc(from, |before|);
      if IsRecent(last, now) {
        from := from + [|before|];
      } else {
        assert SinceWeek(before, now) + [] == SinceWeek(before, now);
      }
    }
  }

  method Prune(existing: seq<Stored>, now: int) returns (values: seq<Stored>)
    ensures values == SinceWeek(existing, now)
  {
    var earliest := now - WEEK;
    values := [];
    for i := 0 to |existing|
      invariant values == SinceWeek(existing[..i], now)
    {
      assert existing[..i + 1][..i] == existing[..i];
      if existing[i].createdAt > earliest {
        values := values + [existing[i]];
      }
    }
    assert existing[..|existing|] == existing;
  }

  method IndexByTime(list: seq<Stored>) returns (index: map<int, seq<nat>>)
    ensures Indexes(index, AsKept(list))
  {
    index := map[];
    ghost var es := AsKept(list);
    for i := 0 to |list|
      invariant Indexes(index, es[..i])
    {
      IndexOneMore(index, es[..i], es[i], i);
      assert es[..i + 1] == es[..i] + [es[i]];
      var time := list[i].createdAt as int;
      index := index[time := Range(index, time) + [i]];
    }
    assert es[..|list|] == es;
  }

  // ----- The pages -----

  /** What a call is answered: a page with the token of the next, empty on the last. */
  datatype Response = Page(tweets: seq<Tweet>, nextToken: string) | BadJson | Failed

  /** The loop ends with a failure, with the last page, or with a first page that does not parse. */
  predicate Ends(responses: seq<Response>, i: nat)
    requires i < |responses|
  {
    match responses[i]
    case Page(_, nextToken) => nextToken == []
    case BadJson => i == 0
    case Failed => true
  }

  /** As many calls are made as it takes to meet the first that ends the loop, or all ten. */
  predicate CallsMade(responses: seq<Response>, calls: nat) {
    && calls <= |responses|
    && (forall j | 0 <= j && j + 1 < calls :: !Ends(responses, j))
    && (calls < |responses| ==> 0 < calls && Ends(responses, calls - 1))
  }

  /** What the loop counter and the token say of the calls made. */
  predicate InLoop(responses: seq<Response>, calls: nat, i: nat, nextToken: string) {
    && |responses| == 10 && calls <= 10
    && (forall j | 0 <= j && j + 1 < calls :: !Ends(responses, j))
    && if i < 10 then i == calls && (nextToken == [] <==> calls == 0) && (calls > 0 ==> !Ends(responses, calls - 1))
       else calls < 10 ==> calls > 0 && Ends(responses, calls - 1)
  }

  lemma InLoopStep(responses: seq<Response>, calls: nat, i: nat, before: string, token: string)
    requires i < 10 && InLoop(responses, calls, i, before)
    ensures token != [] && !Ends(responses, calls) ==> InLoop(responses, calls + 1, i + 1, token)
    ensures Ends(responses, calls) ==> InLoop(responses, calls + 1, 10, token) && CallsMade(responses, calls + 1)
  {
  }

  /** The tweets of the first `n` responses. */
  function TweetsIn(responses: seq<Response>, n: nat): seq<Tweet>
    requires n <= |responses|
  {
    if n == 0 then [] else
      TweetsIn(responses, n - 1) + if responses[n - 1].Page? then responses[n - 1].tweets else []
  }

  /** Every page's tweets are there, after those of the pages before it, and nothing else is. */
  lemma {:induction false} TweetsInHoldsEachPage(responses: seq<Response>, n: nat, i: nat)
    requires i < n <= |responses|
    ensures var all, start, r := TweetsIn(responses, n), |TweetsIn(responses, i)|, responses[i];
      && |TweetsIn(responses, 0)| == 0
      && |TweetsIn(responses, i + 1)| == start + (if r.Page? then |r.tweets| else 0)
      && |TweetsIn(responses, i + 1)| <= |all|
      && (r.Page? ==> forall k | 0 <= k < |r.tweets| :: all[start + k] == r.tweets[k])
  {
    if i < n - 1 {
      TweetsInHoldsEachPage(responses, n - 1, i);
    }
  }

  function Handled(rules: Rules, s: State, r: Response): State {
    if r.Page? then TakeAll(rules, s, r.tweets) else s
  }

  /** The state after the first `n` responses. */
  function Fetched(rules: Rules, s: State, responses: seq<Response>, n: nat): State
    requires n <= |responses|
  {
    if n == 0 then s else Handled(rules, Fetched(rules, s, responses, n - 1), responses[n - 1])
  }

  /** Page by page is the same as all the tweets in one go. */
  lemma {:induction false} PagesAreOneRun(rules: Rules, s: State, responses: seq<Response>, n: nat)
    requires n <= |responses|
    ensures Fetched(rules, s, responses, n) == TakeAll(rules, s, TweetsIn(responses, n))
  {
    if n > 0 {
      var before, r := TweetsIn(responses, n - 1), responses[n - 1];
      PagesAreOneRun(rules, s, responses, n - 1);
      if r.Page? {
        TakeAppend(rules, s, before, r.tweets);
      } else {
        assert before + [] == before;
      }
    }
  }

  /** The batches sent to the client, one after each page that has something to send. */
  function Pushes(rules: Rules, s: State, responses: seq<Response>, n: nat): seq<seq<Stored>>
    requires n <= |responses|
  {
    if n == 0 then [] else
      Pushes(rules, s, responses, n - 1) + PagePush(rules, Fetched(rules, s, responses, n - 1), responses[n - 1])
  }

  function PagePush(rules: Rules, before: State, r: Response): seq<seq<Stored>> {
    if !r.Page? || Sends(rules, before, r.tweets) == [] then []
    else [SentTweets(TakeAll(rules, before, r.tweets).entries, Sends(rules, before, r.tweets))]
  }

  /** What a page pushes: nothing, if none of its tweets is popular, and else one batch of those that
      are, as the list has them when the page is merged. */
  ghost predicate PushesPopular(rules: Rules, s: State, earlier: seq<Tweet>, ts: seq<Tweet>, at: seq<nat>,
                                pushed: seq<seq<Stored>>)
  {
    && Ascends(at) && (forall j: nat :: j in at <==> PopularAt(rules, earlier, ts, j))
    && if at == [] then pushed == []
       else |pushed| == 1 && BatchAt(UpsertAll(s.entries, Accepted(rules, earlier + ts)), ts, at, pushed[0])
  }

  predicate BatchAt(es: seq<Entry>, ts: seq<Tweet>, at: seq<nat>, batch: seq<Stored>) {
    |batch| == |at| && forall i | 0 <= i < |at| :: at[i] < |ts| && IsEntryOf(es, ts[at[i]], batch[i])
  }

  lemma PagePushesThePopular(rules: Rules, s: State, earlier: seq<Tweet>, r: Response) returns (at: seq<nat>)
    requires s.newBlocked == {} && r.Page?
    ensures PushesPopular(rules, s, earlier, r.tweets, at, PagePush(rules, TakeAll(rules, s, earlier), r))
  {
    var before, ts := TakeAll(rules, s, earlier), r.tweets;
    at := PopularArePicked(rules, s, earlier, ts);
    PopularTweetsAreSent(rules, before, ts);
    var es, popular := TakeAll(rules, before, ts).entries, Popular(rules, before, ts);
    SentTweetsAreEntries(es, Sends(rules, before, ts), popular);
    TakeAppend(rules, s, earlier, ts);
    SearchIsKeyedMerge(rules, s, earlier + ts);
    if at != [] {
      var batch := SentTweets(es, Sends(rules, before, ts));
      forall i | 0 <= i < |at| ensures IsEntryOf(es, ts[at[i]], batch[i]) {
        assert IsEntryOf(es, popular[i], batch[i]);
      }
    }
  }

  /** Batches once pushed stay, and at first there are none. */
  lemma {:induction false} PushesGrow(rules: Rules, s: State, responses: seq<Response>, m: nat, n: nat)
    requires m <= n <= |responses|
    ensures Pushes(rules, s, responses, 0) == []
    ensures Pushes(rules, s, responses, m) <= Pushes(rules, s, responses, n)
  {
    if m < n {
      PushesGrow(rules, s, responses, m, n - 1);
    }
  }

  /** After the batches pushed by the first `i` responses come those of response `i`: the popular
      tweets of a page, and nothing for any other response. */
  lemma EachPagePushesItsPopular(rules: Rules, s: State, responses: seq<Response>, i: nat) returns (at: seq<nat>)
    requires i < |responses| && s.newBlocked == {}
    ensures var before, after, r := Pushes(rules, s, responses, i), Pushes(rules, s, responses, i + 1), responses[i];
      && before <= after
      && if r.Page? then PushesPopular(rules, s, TweetsIn(responses, i), r.tweets, at, after[|before|..])
         else before == after
  {
    at := [];
    PagesAreOneRun(rules, s, responses, i);
    var before := Pushes(rules, s, responses, i);
    AppendedAfter(before, PagePush(rules, Fetched(rules, s, responses, i), responses[i]));
    if responses[i].Page? {
      at := PagePushesThePopular(rules, s, TweetsIn(responses, i), responses[i]);
    }
  }

  lemma AppendedAfter(before: seq<seq<Stored>>, now: seq<seq<Stored>>)
    ensures before <= before + now && (before + now)[|before|..] == now
  {
  }

  // ----- The coroutine's own state -----

  class TweetSearch {
    const rules: Rules
    var list: seq<Stored>
    var index: map<int, seq<nat>>
    var newBlocked: set<nat>
    var ignored: map<string, nat>
    ghost var entries: seq<Entry>

    ghost predicate Valid()
      reads this
    {
      Lists(list, entries) && Indexes(index, entries)
    }

    ghost function Value(): State
      reads this
    {
      State(entries, newBlocked, ignored)
    }

    /** Keeps the tweets of the last week and indexes them. */
    constructor (rules: Rules, existing: seq<Stored>, ignored: map<string, nat>, now: int)
      ensures Valid() && this.rules == rules
      ensures Value() == State(AsKept(SinceWeek(existing, now)), {}, ignored)
    {
      var values := Prune(existing, now);
      var byTime := IndexByTime(values);
      this.rules, list, index, newBlocked := rules, values, byTime, {};
      this.ignored, entries := ignored, AsKept(values);
    }

    /** Looks a tweet up in the range of its time. */
    method Find(time: int, id: nat) returns (p: nat)
      requires Valid()
      ensures p == Position(entries, Key(time, id))
    {
      var range := if time in index then index[time] else [];
      assert IsRange(Range(index, time), entries, time);
      var i := 0;
      while i < |range|
        invariant i <= |range| && forall j | 0 <= j < i :: entries[range[j]].tweet.id != id
      {
        if list[range[i]].id == id {
          FirstInRange(range, entries, time, id, i);
          return range[i];
        }
        i := i + 1;
      }
      FirstInRange(range, entries, time, id, i);
      p := |list|;
    }

    method CountTags(tags: seq<string>)
      modifies this`ignored
      ensures ignored == Bump(old(ignored), tags)
    {
      for i := 0 to |tags|
        invariant ignored == Bump(old(ignored), tags[..i])
      {
        assert tags[..i + 1][..i] == tags[..i];
        if tags[i] !in ignored {
          ignored := ignored[tags[i] := 0];
        }
        ignored := ignored[tags[i] := ignored[tags[i]] + 1];
      }
      assert tags[..|tags|] == tags;
    }

    method Append(t: Tweet)
      requires Valid() && Position(entries, KeyOfTweet(t)) == |entries|
      modifies this`list, this`index, this`entries
      ensures Valid() && entries == Upsert(old(entries), t)
    {
      UpsertInList(list, entries, t);
      IndexOneMore(index, entries, Kept(t), |list|);
      index := index[t.createdAt := Range(index, t.createdAt) + [|list|]];
      list := list + [Stored(t.id, t.author, t.createdAt % 0x1_0000_0000, t.text, t.metrics)];
      entries := entries + [Kept(t)];
    }

    method SetMetrics(p: nat, t: Tweet)
      requires Valid() && p == Position(entries, KeyOfTweet(t)) && p < |entries|
      modifies this`list, this`entries
      ensures Valid() && entries == Upsert(old(entries), t)
    {
      ghost var next := Upsert(entries, t);
      UpsertInList(list, entries, t);
      SameTimesSameIndex(index, entries, next);
      list := list[p := list[p].(metrics := t.metrics)];
      entries := next;
    }

    method Merge(t: Tweet) returns (p: nat)
      requires Valid()
      modifies this`list, this`index, this`entries
      ensures Valid() && entries == Upsert(old(entries), t) && p == Position(old(entries), KeyOfTweet(t))
    {
      p := Find(t.createdAt, t.id);
      if p == |list| {
        Append(t);
      } else {
        SetMetrics(p, t);
      }
    }

    method TakeTweet(t: Tweet) returns (send: bool, p: nat)
      requires Valid()
      modifies this
      ensures Valid() && Value() == Take(rules, old(Value()), t)
      ensures send == IsSent(rules, old(Value()), t) && (send ==> p == Position(old(entries), KeyOfTweet(t)))
    {
      send, p := false, 0;
      if t.author in newBlocked || t.author in rules.blocked {
        return;
      }
      if !HashFound(rules, t) {
        return;
      }
      if |t.tags| > MAX_TAGS {
        newBlocked := newBlocked + {t.author};
        CountTags(t.tags);
        return;
      }
      if t.metrics.like < rules.minimumLikes {
        return;
      }
      p := Merge(t);
      send := t.metrics.like > POPULAR;
    }

    /** One page of results; returns what to send. */
    method TakePage(tweets: seq<Tweet>) returns (toSend: seq<nat>)
      requires Valid()
      modifies this
      ensures Valid() && Value() == TakeAll(rules, old(Value()), tweets)
      ensures toSend == Sends(rules, old(Value()), tweets)
    {
      toSend := [];
      for i := 0 to |tweets|
        invariant Valid() && Value() == TakeAll(rules, old(Value()), tweets[..i])
        invariant toSend == Sends(rules, old(Value()), tweets[..i])
      {
        assert tweets[..i + 1][..i] == tweets[..i];
        var send, p := TakeTweet(tweets[i]);
        if send {
          toSend := toSend + [p];
        }
      }
      assert tweets[..|tweets|] == tweets;
    }

    method CollectBatch(toSend: seq<nat>) returns (batch: seq<Stored>)
      requires Valid() && forall i | 0 <= i < |toSend| :: toSend[i] < |list|
      ensures batch == SentTweets(entries, toSend)
    {
      batch := [];
      for i := 0 to |toSend|
        invariant batch == SentTweets(entries, toSend[..i])
      {
        assert toSend[..i + 1][..i] == toSend[..i];
        batch := batch + [list[toSend[i]]];
      }
      assert toSend[..|toSend|] == toSend;
    }

    /** One call: a page is merged, and its popular tweets are sent. */
    method HandleResponse(r: Response) returns (pushed: seq<seq<Stored>>)
      requires Valid()
      modifies this
      ensures Valid() && Value() == Handled(rules, old(Value()), r)
      ensures pushed == PagePush(rules, old(Value()), r)
    {
      pushed := [];
      if r.Page? {
        PopularTweetsAreSent(rules, Value(), r.tweets);
        var toSend := TakePage(r.tweets);
        if |toSend| > 0 {
          var batch := CollectBatch(toSend);
          pushed := [batch];
        }
      }
    }

    /** One turn of the page loop. An unparsable answer leaves the token of the page before. */
    method FetchPage(responses: seq<Response>, i: nat, ghost start: State, sent: seq<seq<Stored>>, nextToken: string)
      returns (pushed: seq<seq<Stored>>, token: string, failed: bool)
      requires Valid() && i < |responses| && (nextToken == [] <==> i == 0)
      requires Value() == Fetched(rules, start, responses, i) && sent == Pushes(rules, start, responses, i)
      modifies this
      ensures Valid() && Value() == Fetched(rules, start, responses, i + 1)
      ensures pushed == Pushes(rules, start, responses, i + 1)
      ensures failed == responses[i].Failed?
      ensures token == if responses[i].Page? then responses[i].nextToken else nextToken
      ensures failed || token == [] <==> Ends(responses, i)
    {
      var r := responses[i];
      var batches := HandleResponse(r);
      pushed := sent + batches;
      token, failed := nextToken, r.Failed?;
      if r.Page? {
        token := r.nextToken;
      }
    }

    /** The page loop; `responses` are what its calls would be answered. */
    method FetchPages(responses: seq<Response>) returns (calls: nat, pushed: seq<seq<Stored>>)
      requires Valid() && |responses| == 10
      modifies this
      ensures Valid() && CallsMade(responses, calls)
      ensures Value() == Fetched(rules, old(Value()), responses, calls)
      ensures pushed == Pushes(rules, old(Value()), responses, calls)
    {
      ghost var start := Value();
      var i, nextToken := 0, "";
      calls, pushed := 0, [];
      while i < MAX_PAGES
        invariant calls <= MAX_PAGES && Valid() && Value() == Fetched(rules, start, responses, calls)
        invariant pushed == Pushes(rules, start, responses, calls)
        invariant InLoop(responses, calls, i, nextToken)
        decreases MAX_PAGES - i
      {
        ghost var before := nextToken;
        var failed;
        pushed, nextToken, failed := FetchPage(responses, calls, start, pushed, nextToken);
        InLoopStep(responses, calls, i, before, nextToken);
        calls := calls + 1;
        if failed {
          return;
        }
        i := if nextToken != [] then i + 1 else MAX_PAGES;
      }
    }
  }

  lemma FirstInRange(range: seq<nat>, es: seq<Entry>, time: int, id: nat, i: nat)
    requires IsRange(range, es, time) && i <= |range|
    requires forall j | 0 <= j < i :: es[range[j]].tweet.id != id
    requires i < |range| ==> es[range[i]].tweet.id == id
    ensures Position(es, Key(time, id)) == if i < |range| then range[i] else |es|
  {
    var p := Position(es, Key(time, id));
    if i < |range| {
      var q := range[i];
      assert KeyOf(es[q]) == Key(time, id) && p <= q;
      if p < q {
        NoEarlierMatch(range, es, time, id, i, p);
      }
    } else if p < |es| {
      NoEarlierMatch(range, es, time, id, i, p);
    }
  }

  lemma NoEarlierMatch(range: seq<nat>, es: seq<Entry>, time: int, id: nat, i: nat, p: nat)
    requires IsRange(range, es, time) && i <= |range| && p < |es| && (i < |range| ==> p < range[i])
    requires forall j | 0 <= j < i :: es[range[j]].tweet.id != id
    ensures KeyOf(es[p]) != Key(time, id)
  {
    if es[p].time == time {
      assert p in range;
      var j :| 0 <= j < |range| && range[j] == p;
      assert j < i;
    }
  }

  lemma AscendsSnoc(r: seq<nat>, n: nat)
    requires Ascends(r) && forall i | 0 <= i < |r| :: r[i] < n
    ensures Ascends(r + [n])
  {
  }

  lemma OnlyThoseSnoc(r: seq<nat>, es: seq<Entry>, e: Entry, time: int)
    requires OnlyThose(r, es, time)
    ensures OnlyThose(if e.time == time then r + [|es|] else r, es + [e], time)
  {
  }

  lemma AllThoseSnoc(r: seq<nat>, es: seq<Entry>, e: Entry, time: int)
    requires AllThose(r, es, time)
    ensures AllThose(if e.time == time then r + [|es|] else r, es + [e], time)
  {
    var all, next := es + [e], if e.time == time then r + [|es|] else r;
    forall p: nat | p < |all| && all[p].time == time ensures p in next {
      if p < |es| {
        assert es[p].time == time && p in r;
      } else {
        assert next[|r|] == p;
      }
    }
  }

  lemma IndexOneMore(index: map<int, seq<nat>>, es: seq<Entry>, e: Entry, n: nat)
    requires Indexes(index, es) && n == |es|
    ensures Indexes(index[e.time := Range(index, e.time) + [n]], es + [e])
  {
    var next, all := index[e.time := Range(index, e.time) + [n]], es + [e];
    forall time ensures IsRange(Range(next, time), all, time) {
      var r := Range(index, time);
      assert IsRange(r, es, time);
      AscendsSnoc(r, n);
      OnlyThoseSnoc(r, es, e, time);
      AllThoseSnoc(r, es, e, time);
    }
  }

  lemma UpsertInList(list: seq<Stored>, es: seq<Entry>, t: Tweet)
    requires Lists(list, es)
    ensures var p, out := Position(es, KeyOfTweet(t)), Upsert(es, t);
      if p < |es| then
        && Lists(list[p := list[p].(metrics := t.metrics)], out)
        && forall i | 0 <= i < |es| :: out[i].time == es[i].time
      else
        Lists(list + [Kept(t).tweet], out)
  {
  }

  lemma SameTimesSameIndex(index: map<int, seq<nat>>, a: seq<Entry>, b: seq<Entry>)
    requires Indexes(index, a) && |a| == |b| && forall i | 0 <= i < |a| :: a[i].time == b[i].time
    ensures Indexes(index, b)
  {
    forall time ensures IsRange(Range(index, time), b, time) {
      assert IsRange(Range(index, time), a, time);
    }
  }

  // ----- The list a search ends with -----

  function KeyOfStored(t: Stored): Key {
    Key(t.createdAt, t.id)
  }

  /** The metrics of the last tweet with the key. */
  predicate LastMetrics(ts: seq<Tweet>, k: Key, m: Metrics) {
    exists j: nat :: j < |ts| && LastWithKey(ts, k, j) && m == ts[j].metrics
  }

  predicate FirstStored(list: seq<Stored>, k: Key, i: nat) {
    i < |list| && KeyOfStored(list[i]) == k && forall q | 0 <= q < i :: KeyOfStored(list[q]) != k
  }

  /** `sent` is the stored tweet `old'`, with newer metrics if its key came again. */
  predicate StaysAt(kept: seq<Stored>, ts: seq<Tweet>, i: nat, sent: Stored)
    requires i < |kept|
  {
    var old', k := kept[i], KeyOfStored(kept[i]);
    && sent.id == old'.id && sent.author == old'.author && sent.createdAt == old'.createdAt && sent.text == old'.text
    && if HasKey(ts, k) && FirstStored(kept, k, i) then LastMetrics(ts, k, sent.metrics)
       else sent.metrics == old'.metrics
  }

  /** `sent` is tweet `j`, the first with its time and id, under the metrics of the last with them. */
  predicate IsNew(ts: seq<Tweet>, j: nat, sent: Stored) {
    && j < |ts| && FirstWithKey(ts, KeyOfTweet(ts[j]), j)
    && sent.id == ts[j].id && sent.author == ts[j].author && sent.text == ts[j].text
    && sent.createdAt == ts[j].createdAt % 0x1_0000_0000
    && LastMetrics(ts, KeyOfTweet(ts[j]), sent.metrics)
  }

  predicate KeptHasKey(kept: seq<Stored>, k: Key) {
    exists i | 0 <= i < |kept| :: KeyOfStored(kept[i]) == k
  }

  /** The merged list: the kept tweets where they were, and then the first tweets of all other keys in
      the order they came. */
  ghost predicate ListsMerged(kept: seq<Stored>, ts: seq<Tweet>, list: seq<Stored>, origin: seq<nat>) {
    && |list| == |kept| + |origin| && Ascends(origin)
    && (forall i | 0 <= i < |kept| :: StaysAt(kept, ts, i, list[i]))
    && (forall i | 0 <= i < |origin| :: IsNew(ts, origin[i], list[|kept| + i]))
    && forall j: nat :: j in origin <==>
         j < |ts| && FirstWithKey(ts, KeyOfTweet(ts[j]), j) && !KeptHasKey(kept, KeyOfTweet(ts[j]))
  }

  lemma KeptKeyIffThere(kept: seq<Stored>, k: Key)
    ensures Position(AsKept(kept), k) < |kept| <==> KeptHasKey(kept, k)
  {
    var es := AsKept(kept);
    if i :| 0 <= i < |kept| && KeyOfStored(kept[i]) == k {
      assert KeyOf(es[i]) == k;
    }
    var p := Position(es, k);
    assert p < |es| ==> KeyOfStored(kept[p]) == k;
  }

  lemma KeptStays(kept: seq<Stored>, ts: seq<Tweet>, i: nat)
    requires i < |kept|
    ensures i < |UpsertAll(AsKept(kept), ts)| && StaysAt(kept, ts, i, UpsertAll(AsKept(kept), ts)[i].tweet)
  {
    var es, k := AsKept(kept), KeyOfStored(kept[i]);
    var out := UpsertAll(es, ts);
    KeptTweetsStay(es, ts);
    EveryPositionsMetrics(es, ts, i);
    assert SameTweet(out[i], es[i]) && KeyOf(out[i]) == k;
    assert FirstStored(kept, k, i) <==> forall q | 0 <= q < i :: KeyOf(out[q]) != k by {
      forall q | 0 <= q < i ensures KeyOf(out[q]) == KeyOfStored(kept[q]) {
        assert SameTweet(out[q], es[q]);
      }
    }
  }

  lemma NewIsNew(kept: seq<Stored>, ts: seq<Tweet>, origin: seq<nat>, i: nat)
    requires Appended(AsKept(kept), ts, UpsertAll(AsKept(kept), ts), origin) && i < |origin|
    ensures IsNew(ts, origin[i], UpsertAll(AsKept(kept), ts)[|kept| + i].tweet)
  {
    var es, j := AsKept(kept), origin[i];
    assert OriginOf(es, ts, UpsertAll(es, ts)[|es| + i], j);
    NewHasTheLastMetrics(es, ts, |es| + i);
  }

  lemma NewKeyWasNotKept(kept: seq<Stored>, ts: seq<Tweet>, origin: seq<nat>, i: nat)
    requires Appended(AsKept(kept), ts, UpsertAll(AsKept(kept), ts), origin) && i < |origin|
    ensures origin[i] < |ts| && !KeptHasKey(kept, KeyOfTweet(ts[origin[i]]))
  {
    var es, j := AsKept(kept), origin[i];
    assert OriginOf(es, ts, UpsertAll(es, ts)[|es| + i], j);
    KeptKeyIffThere(kept, KeyOfTweet(ts[j]));
  }

  lemma NewHasTheLastMetrics(es: seq<Entry>, ts: seq<Tweet>, p: nat)
    requires |es| <= p < |UpsertAll(es, ts)|
    ensures LastMetrics(ts, KeyOf(UpsertAll(es, ts)[p]), UpsertAll(es, ts)[p].tweet.metrics)
  {
    NotBeyondTheKept(es, ts, p);
    EveryPositionsMetrics(es, ts, p);
  }

  lemma FirstOfANewKeyIsAppended(kept: seq<Stored>, ts: seq<Tweet>, origin: seq<nat>, j: nat)
    requires Appended(AsKept(kept), ts, UpsertAll(AsKept(kept), ts), origin)
    requires j < |ts| && FirstWithKey(ts, KeyOfTweet(ts[j]), j) && !KeptHasKey(kept, KeyOfTweet(ts[j]))
    ensures j in origin
  {
    var es, k := AsKept(kept), KeyOfTweet(ts[j]);
    var out := UpsertAll(es, ts);
    KeysAreTheUnion(es, ts, k);
    KeptTweetsStay(es, ts);
    KeptKeyIffThere(kept, k);
    var p := Position(out, k);
    forall q | 0 <= q < |es| ensures KeyOf(out[q]) == KeyOf(es[q]) {
      assert SameTweet(out[q], es[q]);
    }
    OriginAt(es, ts, out, origin, k, p, j);
  }

  lemma OriginAt(es: seq<Entry>, ts: seq<Tweet>, out: seq<Entry>, origin: seq<nat>, k: Key, p: nat, j: nat)
    requires Appended(es, ts, out, origin) && |es| <= p < |out| && KeyOf(out[p]) == k && FirstWithKey(ts, k, j)
    ensures j in origin
  {
    var i := p - |es|;
    assert OriginOf(es, ts, out[|es| + i], origin[i]);
    OneFirst(ts, k, origin[i], j);
  }

  /** The list of a search, field by field. */
  lemma MergedFieldByField(kept: seq<Stored>, ts: seq<Tweet>) returns (origin: seq<nat>)
    ensures ListsMerged(kept, ts, Tweets(UpsertAll(AsKept(kept), ts)), origin)
  {
    origin := NewTweetsAreTheFirst(AsKept(kept), ts);
    forall i | 0 <= i < |kept| ensures StaysAt(kept, ts, i, Tweets(UpsertAll(AsKept(kept), ts))[i]) {
      KeptStays(kept, ts, i);
    }
    forall i | 0 <= i < |origin|
      ensures IsNew(ts, origin[i], Tweets(UpsertAll(AsKept(kept), ts))[|kept| + i])
      ensures !KeptHasKey(kept, KeyOfTweet(ts[origin[i]])) {
      NewIsNew(kept, ts, origin, i);
      NewKeyWasNotKept(kept, ts, origin, i);
    }
    forall j: nat | j < |ts| && FirstWithKey(ts, KeyOfTweet(ts[j]), j) && !KeptHasKey(kept, KeyOfTweet(ts[j]))
      ensures j in origin {
      FirstOfANewKeyIsAppended(kept, ts, origin, j);
    }
  }

  // ----- The whole search -----

  method Search(rules: Rules, existing: seq<Stored>, updateTime: int, ignored: map<string, nat>, now: int,
                responses: seq<Response>)
    returns (list: seq<Stored>, newIgnored: map<string, nat>, calls: nat, pushed: seq<seq<Stored>>,
             ghost from: seq<nat>, ghost origin: seq<nat>)
    requires |responses| == 10
    ensures existing != [] && updateTime > now - 1200 ==>
      list == existing && newIgnored == ignored && calls == 0 && pushed == [existing]
    ensures existing == [] || updateTime <= now - 1200 ==>
      && CallsMade(responses, calls)
      && MergesFetched(rules, existing, ignored, now, TweetsIn(responses, calls), list, newIgnored)
      && pushed == Pushes(rules, State(AsKept(SinceWeek(existing, now)), {}, ignored), responses, calls)
      && PicksRecent(from, SinceWeek(existing, now), existing, now) && PicksAll(from, existing, now) && Ascends(from)
      && ListsMerged(SinceWeek(existing, now), Accepted(rules, TweetsIn(responses, calls)), list, origin)
  {
    from, origin := [], [];
    if existing != [] && updateTime > now - FRESH {
      return existing, ignored, 0, [existing], [], [];
    }
    var search := new TweetSearch(rules, existing, ignored, now);
    ghost var start := search.Value();
    calls, pushed := search.FetchPages(responses);
    PagesAreOneRun(rules, start, responses, calls);
    SearchIsKeyedMerge(rules, start, TweetsIn(responses, calls));
    list, newIgnored := search.list, search.ignored;
    assert list == Tweets(search.entries);
    from := SinceWeekKeepsTheRecent(existing, now);
    origin := MergedFieldByField(SinceWeek(existing, now), Accepted(rules, TweetsIn(responses, calls)));
  }

  predicate MergesFetched(rules: Rules, existing: seq<Stored>, ignored: map<string, nat>, now: int,
                          fetched: seq<Tweet>, list: seq<Stored>, newIgnored: map<string, nat>) {
    && list == Tweets(UpsertAll(AsKept(SinceWeek(existing, now)), Accepted(rules, fetched)))
    && newIgnored == BumpAll(ignored, Blocking(rules, fetched))
  }
}
