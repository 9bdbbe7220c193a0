/**
 The search query: the tags ignored most are excluded in it, as many as fit in what the server
 accepts.
 */
module TweetQuery {
  import opened TweetMerge

  const LIMIT := 512
  const SUFFIX := "%20-is:retweet%20lang:en"
  const EXCLUDE := "%20-"

  datatype Tag = Tag(name: string, ignored: nat)

  // ----- Tags by ignored count -----

  predicate Ascending(tags: seq<Tag>) {
    forall i, j | 0 <= i < j < |tags| :: tags[i].ignored <= tags[j].ignored
  }

  predicate Descending(tags: seq<Tag>) {
    forall i, j | 0 <= i < j < |tags| :: tags[i].ignored >= tags[j].ignored
  }

  lemma InsertCounts(tags: seq<Tag>, p: nat, x: Tag)
    requires p <= |tags|
    ensures multiset(tags[..p] + [x] + tags[p..]) == multiset(tags) + multiset{x}
  {
    assert tags == tags[..p] + tags[p..];
  }

  lemma InsertAscends(tags: seq<Tag>, p: nat, x: Tag)
    requires Ascending(tags) && p <= |tags|
    requires (p > 0 ==> tags[p - 1].ignored <= x.ignored) && (p < |tags| ==> x.ignored <= tags[p].ignored)
    ensures Ascending(tags[..p] + [x] + tags[p..])
  {
    var out := tags[..p] + [x] + tags[p..];
    forall i, j | 0 <= i < j < |out| ensures out[i].ignored <= out[j].ignored {
      if i < p {
        assert out[i] == tags[i];
        assert out[i].ignored <= tags[p - 1].ignored;
      }
      if j > p {
        assert out[j] == tags[j - 1];
        assert tags[p].ignored <= out[j].ignored;
      }
      if i > p {
        assert out[i] == tags[i - 1];
      }
    }
  }

  /** The tags of one count, in their order. */
  function OfCount(tags: seq<Tag>, count: nat): seq<Tag> {
    if tags == [] then [] else
      var last := tags[|tags| - 1];
      OfCount(tags[..|tags| - 1], count) + if last.ignored == count then [last] else []
  }

  lemma {:induction false} OfCountAppend(a: seq<Tag>, b: seq<Tag>, count: nat)
    ensures OfCount(a + b, count) == OfCount(a, count) + OfCount(b, count)
  {
    if b == [] {
      assert a + b == a;
    } else {
      OfCountAppend(a, b[..|b| - 1], count);
      assert (a + b)[..|a + b| - 1] == a + b[..|b| - 1];
    }
  }

  lemma {:induction false} NoneOfCount(tags: seq<Tag>, count: nat)
    requires forall i | 0 <= i < |tags| :: tags[i].ignored != count
    ensures OfCount(tags, count) == []
  {
    if tags != [] {
      NoneOfCount(tags[..|tags| - 1], count);
    }
  }

  lemma InsertIsStable(tags: seq<Tag>, p: nat, x: Tag, count: nat)
    requires p <= |tags| && forall i | p <= i < |tags| :: tags[i].ignored > x.ignored
    ensures OfCount(tags[..p] + [x] + tags[p..], count) == OfCount(tags + [x], count)
  {
    assert tags == tags[..p] + tags[p..];
    SwapIsStable(tags[..p], tags[p..], x, count);
  }

  lemma SwapIsStable(a: seq<Tag>, b: seq<Tag>, x: Tag, count: nat)
    requires forall i | 0 <= i < |b| :: b[i].ignored > x.ignored
    ensures OfCount(a + [x] + b, count) == OfCount(a + b + [x], count)
  {
    OfCountAppend(a + [x], b, count);
    OfCountAppend(a, [x], count);
    OfCountAppend(a, b, count);
    OfCountAppend(a + b, [x], count);
    NothingToSwap(b, x, count);
  }

  lemma NothingToSwap(b: seq<Tag>, x: Tag, count: nat)
    requires forall i | 0 <= i < |b| :: b[i].ignored > x.ignored
    ensures OfCount(b, count) == [] || OfCount([x], count) == []
  {
    if count == x.ignored {
      NoneOfCount(b, count);
    } else {
      NoneOfCount([x], count);
    }
  }

  /** An entry goes behind those of the same count. */
  method Emplace(tags: seq<Tag>, x: Tag) returns (out: seq<Tag>)
    requires Ascending(tags)
    ensures Ascending(out) && multiset(out) == multiset(tags) + multiset{x}
    ensures forall count :: OfCount(out, count) == OfCount(tags + [x], count)
  {
    var p := |tags|;
    while p > 0 && tags[p - 1].ignored > x.ignored
      invariant 0 <= p <= |tags| && (p < |tags| ==> tags[p].ignored > x.ignored)
    {
      p := p - 1;
    }
    InsertCounts(tags, p, x);
    InsertAscends(tags, p, x);
    forall count ensures OfCount(tags[..p] + [x] + tags[p..], count) == OfCount(tags + [x], count) {
      Rising(tags, p, x);
      InsertIsStable(tags, p, x, count);
    }
    out := tags[..p] + [x] + tags[p..];
  }

  lemma Rising(tags: seq<Tag>, p: nat, x: Tag)
    requires Ascending(tags) && p <= |tags| && (p < |tags| ==> tags[p].ignored > x.ignored)
    ensures forall i | p <= i < |tags| :: tags[i].ignored > x.ignored
  {
  }

  lemma SameCountsSnoc(a: seq<Tag>, b: seq<Tag>, x: Tag)
    requires forall count :: OfCount(a, count) == OfCount(b, count)
    ensures forall count :: OfCount(a + [x], count) == OfCount(b + [x], count)
  {
    forall count ensures OfCount(a + [x], count) == OfCount(b + [x], count) {
      OfCountAppend(a, [x], count);
      OfCountAppend(b, [x], count);
    }
  }

  /** The sorting is stable: the tags of a count keep their order. */
  method SortByCount(tags: seq<Tag>) returns (sorted: seq<Tag>)
    ensures Ascending(sorted) && multiset(sorted) == multiset(tags)
    ensures forall count :: OfCount(sorted, count) == OfCount(tags, count)
  {
    sorted := [];
    for i := 0 to |tags|
      invariant Ascending(sorted) && multiset(sorted) == multiset(tags[..i])
      invariant forall count :: OfCount(sorted, count) == OfCount(tags[..i], count)
    {
      SameCountsSnoc(sorted, tags[..i], tags[i]);
      sorted := Emplace(sorted, tags[i]);
      assert tags[..i + 1] == tags[..i] + [tags[i]];
    }
    assert tags[..|tags|] == tags;
  }

  predicate IsReverse(r: seq<Tag>, tags: seq<Tag>) {
    |r| == |tags| && forall i | 0 <= i < |tags| :: r[i] == tags[|tags| - 1 - i]
  }

  /** The order of a reverse iteration. */
  lemma {:induction false} Reverse(tags: seq<Tag>) returns (r: seq<Tag>)
    ensures IsReverse(r, tags) && multiset(r) == multiset(tags)
  {
    r := [];
    if tags != [] {
      var n := |tags| - 1;
      var rest := Reverse(tags[..n]);
      r := [tags[n]] + rest;
      assert tags == tags[..n] + [tags[n]];
    }
  }

  /** All tags by descending count; those of one count in the reverse of their order. */
  ghost predicate MostIgnoredFirst(tags: seq<Tag>, ignored: seq<Tag>) {
    && Descending(tags) && multiset(tags) == multiset(ignored)
    && exists sorted :: IsReverse(tags, sorted) && forall count :: OfCount(sorted, count) == OfCount(ignored, count)
  }

  method SortTags(ignored: seq<Tag>) returns (sorted: seq<Tag>, ghost tags: seq<Tag>)
    ensures IsReverse(tags, sorted) && MostIgnoredFirst(tags, ignored)
  {
    sorted := SortByCount(ignored);
    tags := Reverse(sorted);
  }

  // ----- What is excluded -----

  function Stripped(tag: string): string {
    if tag != [] && (tag[0] == '$' || tag[0] == '#') then tag[1..] else tag
  }

  predicate MatchesAt(part: string, whole: string, i: nat) {
    i + |part| <= |whole| && SameIgnoringCase(whole[i..i + |part|], part)
  }

  predicate ContainedIn(part: string, whole: string) {
    exists i: nat | i <= |whole| :: MatchesAt(part, whole, i)
  }

  /** A tag as it would be written, and whether it is to be excluded at all. */
  datatype Candidate = Candidate(name: string, excludable: bool)

  function CandidateOf(symbol: string, t: Tag): Candidate {
    var name := Stripped(t.name);
    Candidate(name, |name| > 1 && !ContainedIn(name, symbol))
  }

  /** Some part of the symbol is the name, but for the case of letters. */
  ghost predicate IsPartOf(name: string, symbol: string) {
    exists a, b, c :: symbol == a + b + c && SameIgnoringCase(b, name)
  }

  lemma ContainedIffPart(name: string, symbol: string)
    ensures ContainedIn(name, symbol) <==> IsPartOf(name, symbol)
  {
    if i: nat :| i <= |symbol| && MatchesAt(name, symbol, i) {
      var b := symbol[i..i + |name|];
      assert symbol == symbol[..i] + b + symbol[i + |name|..];
    }
    if a, b, c :| symbol == a + b + c && SameIgnoringCase(b, name) {
      assert symbol[|a|..|a| + |name|] == b;
      assert MatchesAt(name, symbol, |a|);
    }
  }

  /** A candidate is the tag without one leading sign; it is to be excluded if it has at least two
      characters and is no part of the symbol. */
  lemma CandidateIsTheUnsignedTag(symbol: string, t: Tag)
    ensures var c := CandidateOf(symbol, t);
      && (t.name == c.name || t.name == "$" + c.name || t.name == "#" + c.name)
      && (t.name == c.name ==> t.name == [] || t.name[0] !in "$#")
      && (c.excludable <==> |c.name| >= 2 && !IsPartOf(c.name, symbol))
  {
    var c := CandidateOf(symbol, t);
    ContainedIffPart(c.name, symbol);
    if c.name != t.name {
      assert t.name == [t.name[0]] + c.name;
    }
  }

  predicate AreCandidates(cs: seq<Candidate>, symbol: string, tags: seq<Tag>) {
    && |cs| == |tags|
    && forall i {:trigger CandidateOf(symbol, tags[i])} | 0 <= i < |tags| :: cs[i] == CandidateOf(symbol, tags[i])
  }

  /** The names to exclude for the first `n` candidates: the excludable ones, in their order. */
  function Names(cs: seq<Candidate>, n: nat): seq<string>
    requires n <= |cs|
  {
    if n == 0 then [] else
      if cs[n - 1].excludable then Names(cs, n - 1) + [cs[n - 1].name] else Names(cs, n - 1)
  }

  /** Excluded are exactly the considered tags that are longer than one character and not part of the
      symbol, in their order. */
  lemma {:induction false} NamesAreTheExcludables(cs: seq<Candidate>, n: nat) returns (at: seq<nat>)
    requires n <= |cs|
    ensures |Names(cs, n)| == |at| && Ascends(at)
    ensures forall i | 0 <= i < |at| :: at[i] < n && Names(cs, n)[i] == cs[at[i]].name
    ensures forall j: nat :: j in at <==> j < n && cs[j].excludable
  {
    at := [];
    if n > 0 {
      at := NamesAreTheExcludables(cs, n - 1);
      if cs[n - 1].excludable {
        assert (at + [n - 1])[|at|] == n - 1;
        at := at + [n - 1];
      }
    }
  }

  function Joined(names: seq<string>): string {
    if names == [] then "" else Joined(names[..|names| - 1]) + (EXCLUDE + names[|names| - 1])
  }

  /** Name `i` stands behind a separator, right after the names before it. */
  lemma {:induction false} JoinedHoldsEachName(names: seq<string>, i: nat)
    requires i < |names|
    ensures Joined([]) == "" && |Joined(names[..i])| + 4 + |names[i]| == |Joined(names[..i + 1])| <= |Joined(names)|
    ensures Joined(names)[|Joined(names[..i])|..|Joined(names[..i + 1])|] == "%20-" + names[i]
  {
    var n := |names| - 1;
    assert names[..i + 1][..i] == names[..i];
    if i < n {
      JoinedHoldsEachName(names[..n], i);
      assert names[..n][..i] == names[..i] && names[..n][..i + 1] == names[..i + 1];
    } else {
      assert names[..i + 1] == names;
    }
  }

  lemma JoinedSnoc(names: seq<string>, name: string)
    ensures Joined(names + [name]) == Joined(names) + (EXCLUDE + name)
  {
    assert (names + [name])[..|names|] == names;
  }

  /** Candidate `n` still fits behind the exclusions of those before it. */
  predicate Fits(room: int, cs: seq<Candidate>, n: nat)
    requires n < |cs|
  {
    |Joined(Names(cs, n))| + 4 + |cs[n].name| <= room
  }

  /** The candidates before the first that no longer fits. */
  predicate ConsidersUpTo(room: int, cs: seq<Candidate>, n: nat) {
    && n <= |cs|
    && (forall i: nat | i < n :: Fits(room, cs, i))
    && (n < |cs| ==> !Fits(room, cs, n))
  }

  lemma {:induction false} ExclusionsFit(room: int, cs: seq<Candidate>, n: nat)
    requires n <= |cs| && forall i: nat | i < n :: Fits(room, cs, i)
    ensures |Joined(Names(cs, n))| <= if room < 0 then 0 else room
  {
    if n > 0 {
      ExclusionsFit(room, cs, n - 1);
      assert Fits(room, cs, n - 1);
      JoinedSnoc(Names(cs, n - 1), cs[n - 1].name);
    }
  }

  /** Tries one tag; `os` is what is written for the names before it. */
  method TryTag(fixed: nat, symbol: string, tag: string, ghost names: seq<string>, os: string)
    returns (fits: bool, ghost outNames: seq<string>, out: string)
    requires os == Joined(names)
    ensures var c := CandidateOf(symbol, Tag(tag, 0));
      && (fits <==> |os| + 4 + |c.name| <= 512 - fixed)
      && outNames == if fits && c.excludable then names + [c.name] else names
    ensures out == Joined(outNames)
  {
    var name := tag;
    if |tag| > 0 && (tag[0] == '$' || tag[0] == '#') {
      name := tag[1..];
    }
    fits, outNames, out := true, names, os;
    if fixed + |name| + |os| + 4 > LIMIT {
      fits := false;
    } else if |name| > 1 && !ContainedIn(name, symbol) {
      JoinedSnoc(names, name);
      outNames, out := names + [name], os + (EXCLUDE + name);
    }
  }

  /** Goes through the tags from the most ignored on, until one no longer fits. */
  method ExcludeTags(fixed: nat, symbol: string, sorted: seq<Tag>, ghost tags: seq<Tag>)
    returns (os: string, ghost cs: seq<Candidate>, ghost n: nat)
    requires IsReverse(tags, sorted)
    ensures AreCandidates(cs, symbol, tags) && ConsidersUpTo(512 - fixed, cs, n)
    ensures os == Joined(Names(cs, n))
  {
    ghost var room := 512 - fixed;
    cs := Candidates(symbol, tags);
    ghost var names: seq<string> := [];
    os, n := "", 0;
    var p := |sorted|;
    while p > 0
      invariant 0 <= p <= |sorted| == |cs| && n == |sorted| - p
      invariant names == Names(cs, n) && os == Joined(names)
      invariant forall i: nat | i < n :: Fits(room, cs, i)
    {
      assert sorted[p - 1] == tags[n];
      assert CandidateOf(symbol, tags[n]) == cs[n];
      var fits;
      fits, names, os := TryTag(fixed, symbol, sorted[p - 1].name, names, os);
      if !fits {
        break;
      }
      assert Fits(room, cs, n);
      p, n := p - 1, n + 1;
    }
  }

  lemma {:induction false} Candidates(symbol: string, tags: seq<Tag>) returns (cs: seq<Candidate>)
    ensures AreCandidates(cs, symbol, tags)
  {
    cs := [];
    if tags != [] {
      cs := Candidates(symbol, tags[..|tags| - 1]);
      cs := cs + [CandidateOf(symbol, tags[|tags| - 1])];
    }
  }

  /**
   The query is within the limit exactly when its fixed parts are, whatever tags there are. The
   first `n` of the tags, from the most ignored on, are considered for it.
   */
  /** The query is within the limit exactly when its fixed parts are, whatever tags there are. The first
      `n` of the tags, from the most ignored on, are considered for it. */
  method BuildQuery(prefix: string, symbol: string, ignored: seq<Tag>)
    returns (query: string, ghost tags: seq<Tag>, ghost cs: seq<Candidate>, ghost n: nat)
    ensures MostIgnoredFirst(tags, ignored) && AreCandidates(cs, symbol, tags)
    ensures ConsidersUpTo(512 - |prefix| - |"%20-is:retweet%20lang:en"|, cs, n)
    ensures query == prefix + Joined(Names(cs, n)) + "%20-is:retweet%20lang:en"
    ensures |query| <= 512 <==> |prefix| + |"%20-is:retweet%20lang:en"| <= 512
  {
    var sorted, os;
    sorted, tags := SortTags(ignored);
    var fixed := |prefix| + |SUFFIX|;
    os, cs, n := ExcludeTags(fixed, symbol, sorted, tags);
    ExclusionsFit(512 - fixed, cs, n);
    query := prefix + os + SUFFIX;
  }
}
