/**
 * Scoring log entries: what one entry is worth, what a worker accumulates, and
 * how the workers' figures are merged into the result of a level.  Scores are
 * integers.
 */
module Tallies {
  import opened Book

  const MAX_TRACKED_SOURCES := 256
  const MAX_WORKERS := 64

  datatype LogEntry = LogEntry(source: string, message: string)

  /** A source and its weighted hits. */
  type Source = Entry

  function LevelWeight(level: int): nat {
    match level
    case 0 => 4
    case 1 => 3
    case 2 => 2
    case 3 => 1
    case _ => 0
  }

  /** How many positions at or after i the word begins at. */
  function Occurrences(text: string, word: string, i: nat): nat
    requires i <= |text|
    decreases |text| - i
  {
    if word == "" || i == |text| then 0
    else (if word <= text[i..] then 1 else 0) + Occurrences(text, word, i + 1)
  }

  /** Where a word begins in a text, at i or later. */
  ghost function Positions(text: string, word: string, i: nat): set<nat> {
    set p: nat | i <= p < |text| && word <= text[p..]
  }

  /** The count is the number of positions at which a non-empty word begins, overlaps included. */
  lemma {:induction false} OccurrencesArePositions(text: string, word: string, i: nat)
    requires i <= |text| && word != ""
    ensures Occurrences(text, word, i) == |Positions(text, word, i)|
    decreases |text| - i
  {
    if i == |text| {
      assert Positions(text, word, i) == {};
    } else {
      OccurrencesArePositions(text, word, i + 1);
      assert Positions(text, word, i) == Positions(text, word, i + 1) + if word <= text[i..] then {i} else {};
      assert i !in Positions(text, word, i + 1);
    }
  }

  function Hits(e: LogEntry, word: string): nat {
    Occurrences(e.message, word, 0)
  }

  /** The hits of an entry over the first n keywords. */
  function HitsUpTo(e: LogEntry, keywords: seq<string>, n: nat): nat
    requires n <= |keywords|
  {
    if n == 0 then 0 else HitsUpTo(e, keywords, n - 1) + Hits(e, keywords[n - 1])
  }

  function TotalHits(e: LogEntry, keywords: seq<string>): nat {
    HitsUpTo(e, keywords, |keywords|)
  }

  // ---------- One worker ----------

  datatype Tally = Tally(keyword: seq<int>, entries: nat, total: int, sources: seq<Source>)

  function NoTally(keywords: seq<string>): Tally {
    Tally(seq(|keywords|, _ => 0), 0, 0, [])
  }

  /** A known source is raised, a new one tracked while there is room. */
  function AddHit(sources: seq<Source>, name: string, hits: int): seq<Source> {
    Put(sources, MAX_TRACKED_SOURCES, name, hits)
  }

  function ScoreEntry(t: Tally, e: LogEntry, keywords: seq<string>, weight: nat): Tally
    requires |t.keyword| == |keywords|
  {
    var hits := TotalHits(e, keywords);
    Tally(seq(|keywords|, k requires 0 <= k < |keywords| => t.keyword[k] + Hits(e, keywords[k]) * weight),
          t.entries + 1,
          t.total + hits * weight,
          if hits > 0 then AddHit(t.sources, e.source, hits * weight) else t.sources)
  }

  /** What a worker has accumulated after the given entries. */
  function Work(entries: seq<LogEntry>, keywords: seq<string>, weight: nat): (t: Tally)
    ensures |t.keyword| == |keywords|
  {
    if entries == [] then NoTally(keywords)
    else ScoreEntry(Work(entries[..|entries| - 1], keywords, weight), entries[|entries| - 1], keywords, weight)
  }

  // ---------- The level ----------

  datatype LevelResult = LevelResult(entries: nat, total: int, perKeyword: seq<int>, perThread: seq<int>,
      top: seq<Source>)

  function NoResult(keywords: seq<string>): LevelResult {
    LevelResult(0, 0, seq(|keywords|, _ => 0), seq(MAX_WORKERS, _ => 0), seq(3, _ => Entry("", 0)))
  }

  /** The slot with the fewest hits, the lowest one on a tie. */
  function Least(top: seq<Source>): (r: nat)
    requires |top| == 3
    ensures r < 3 && forall j | 0 <= j < 3 :: top[r].qty <= top[j].qty
  {
    var m := if top[1].qty < top[0].qty then 1 else 0;
    if top[2].qty < top[m].qty then 2 else m
  }

  function MergeSource(top: seq<Source>, s: Source): (r: seq<Source>)
    requires |top| == 3
    ensures |r| == 3
  {
    var j := FindFrom(top, s.name, 0);
    if j < 3 then top[j := Entry(s.name, top[j].qty + s.qty)]
    else if s.qty > top[Least(top)].qty then top[Least(top) := s]
    else top
  }

  function MergeSources(top: seq<Source>, sources: seq<Source>): (r: seq<Source>)
    requires |top| == 3
    ensures |r| == 3
  {
    if sources == [] then top
    else MergeSource(MergeSources(top, sources[..|sources| - 1]), sources[|sources| - 1])
  }

  /** What the thread-exit destructor of one worker does to the level's result. */
  function Merge(r: LevelResult, t: Tally, slot: nat): (q: LevelResult)
    requires |r.perKeyword| == |t.keyword| && |r.perThread| == MAX_WORKERS && |r.top| == 3
    ensures |q.perKeyword| == |r.perKeyword| && |q.perThread| == MAX_WORKERS && |q.top| == 3
  {
    LevelResult(
      r.entries + t.entries,
      r.total + t.total,
      seq(|r.perKeyword|, k requires 0 <= k < |r.perKeyword| => r.perKeyword[k] + t.keyword[k]),
      if slot < MAX_WORKERS then r.perThread[slot := t.total] else r.perThread,
      MergeSources(r.top, t.sources))
  }

  /** The result after the workers listed in order have been merged. */
  function MergeAll(split: seq<seq<LogEntry>>, order: seq<nat>, keywords: seq<string>, weight: nat): (r: LevelResult)
    requires forall i | 0 <= i < |order| :: order[i] < |split|
    ensures |r.perKeyword| == |keywords| && |r.perThread| == MAX_WORKERS && |r.top| == 3
  {
    if order == [] then NoResult(keywords)
    else
      var w := order[|order| - 1];
      Merge(MergeAll(split, order[..|order| - 1], keywords, weight), Work(split[w], keywords, weight), w)
  }

  // ---------- Sums ----------

  function Sum(s: seq<int>): int {
    if s == [] then 0 else Sum(s[..|s| - 1]) + s[|s| - 1]
  }

  lemma {:induction false} SumUpdate(s: seq<int>, i: nat, x: int)
    requires i < |s|
    ensures Sum(s[i := x]) == Sum(s) - s[i] + x
  {
    var n := |s| - 1;
    if i == n {
      assert s[i := x][..n] == s[..n];
    } else {
      SumUpdate(s[..n], i, x);
      assert s[i := x][..n] == s[..n][i := x];
    }
  }

  lemma {:induction false} SumPointwise(s: seq<int>, t: seq<int>, u: seq<int>)
    requires |s| == |t| == |u| && forall i | 0 <= i < |s| :: u[i] == s[i] + t[i]
    ensures Sum(u) == Sum(s) + Sum(t)
  {
    if s != [] {
      SumPointwise(s[..|s| - 1], t[..|t| - 1], u[..|u| - 1]);
    }
  }

  lemma {:induction false} SumOfZeros(s: seq<int>)
    requires forall i | 0 <= i < |s| :: s[i] == 0
    ensures Sum(s) == 0
  {
    if s != [] {
      SumOfZeros(s[..|s| - 1]);
    }
  }

  /** The hits of an entry, keyword by keyword, add up to its total hits. */
  lemma {:induction false} KeywordHitsAddUp(e: LogEntry, keywords: seq<string>, weight: nat, n: nat)
    requires n <= |keywords|
    ensures Sum(seq(n, k requires 0 <= k < n => Hits(e, keywords[k]) * weight)) == HitsUpTo(e, keywords, n) * weight
  {
    if n > 0 {
      KeywordHitsAddUp(e, keywords, weight, n - 1);
      var s := seq(n, k requires 0 <= k < n => Hits(e, keywords[k]) * weight);
      assert s[..n - 1] == seq(n - 1, k requires 0 <= k < n - 1 => Hits(e, keywords[k]) * weight);
      Distribute(HitsUpTo(e, keywords, n - 1), Hits(e, keywords[n - 1]), weight);
    }
  }

  lemma Distribute(a: nat, b: nat, w: nat)
    ensures (a + b) * w == a * w + b * w
  {
  }

  // ---------- What the figures mean ----------

  datatype Scope = All | Of(name: string)

  function Worth(e: LogEntry, scope: Scope, keywords: seq<string>, weight: nat): nat {
    if scope == All || e.source == scope.name then TotalHits(e, keywords) * weight else 0
  }

  /** The score of a list of entries, or of those of one source, independent of who processes them. */
  function Score(entries: seq<LogEntry>, scope: Scope, keywords: seq<string>, weight: nat): nat {
    if entries == [] then 0
    else
      var n := |entries| - 1;
      Score(entries[..n], scope, keywords, weight) + Worth(entries[n], scope, keywords, weight)
  }

  lemma {:induction false} WorkIsExact(entries: seq<LogEntry>, keywords: seq<string>, weight: nat)
    ensures var t := Work(entries, keywords, weight);
      && t.total == Score(entries, All, keywords, weight) == Sum(t.keyword)
      && t.entries == |entries|
  {
    if entries == [] {
      SumOfZeros(Work(entries, keywords, weight).keyword);
    } else {
      var n, e := |entries| - 1, entries[|entries| - 1];
      WorkIsExact(entries[..n], keywords, weight);
      KeywordHitsAddUp(e, keywords, weight, |keywords|);
      var before, after := Work(entries[..n], keywords, weight), Work(entries, keywords, weight);
      SumPointwise(before.keyword,
          seq(|keywords|, k requires 0 <= k < |keywords| => Hits(e, keywords[k]) * weight), after.keyword);
    }
  }

  // ---------- A score counts positions ----------

  /** The keywords, among the first n, and positions at which they begin in an entry's message. */
  ghost function HitsIn(e: LogEntry, keywords: seq<string>, n: nat): set<(nat, nat)>
    requires n <= |keywords|
  {
    set k: nat, p: nat | k < n && p < |e.message| && keywords[k] != "" && keywords[k] <= e.message[p..] :: (k, p)
  }

  /** The entries of the scope, keywords and positions at which a keyword begins in a message. */
  ghost function AllHits(entries: seq<LogEntry>, scope: Scope, keywords: seq<string>): set<(nat, (nat, nat))> {
    set i: nat, h | i < |entries| && h in ScopedHits(entries[i], scope, keywords) :: (i, h)
  }

  ghost function Paired<B>(a: nat, s: set<B>): set<(nat, B)> {
    set x | x in s :: (a, x)
  }

  lemma {:induction false} PairedSize<B>(a: nat, s: set<B>)
    ensures |Paired(a, s)| == |s|
  {
    if s != {} {
      var y :| y in s;
      PairedSize(a, s - {y});
      assert Paired(a, s) == Paired(a, s - {y}) + {(a, y)};
    }
  }

  /** Where word k begins in the message. */
  ghost function HitsOf(e: LogEntry, keywords: seq<string>, k: nat): set<nat>
    requires k < |keywords|
  {
    set p: nat | p < |e.message| && keywords[k] != "" && keywords[k] <= e.message[p..]
  }

  lemma HitsOfSize(e: LogEntry, keywords: seq<string>, k: nat)
    requires k < |keywords|
    ensures |HitsOf(e, keywords, k)| == Hits(e, keywords[k])
  {
    if keywords[k] == "" {
      assert HitsOf(e, keywords, k) == {};
    } else {
      OccurrencesArePositions(e.message, keywords[k], 0);
      assert HitsOf(e, keywords, k) == Positions(e.message, keywords[k], 0);
    }
  }

  lemma HitsInGrow(e: LogEntry, keywords: seq<string>, k: nat, next: nat)
    requires next == k + 1 <= |keywords|
    ensures HitsIn(e, keywords, next) == HitsIn(e, keywords, k) + Paired(k, HitsOf(e, keywords, k))
    ensures HitsIn(e, keywords, k) !! Paired(k, HitsOf(e, keywords, k))
  {
  }

  lemma HitsInOneMore(e: LogEntry, keywords: seq<string>, k: nat, next: nat)
    requires next == k + 1 <= |keywords|
    ensures |HitsIn(e, keywords, next)| == |HitsIn(e, keywords, k)| + Hits(e, keywords[k])
  {
    HitsInGrow(e, keywords, k, next);
    HitsOfSize(e, keywords, k);
    PairedSize(k, HitsOf(e, keywords, k));
    DisjointSize(HitsIn(e, keywords, k), Paired(k, HitsOf(e, keywords, k)));
  }

  lemma DisjointSize<T>(a: set<T>, b: set<T>)
    requires a !! b
    ensures |a + b| == |a| + |b|
  {
  }

  lemma {:induction false} HitsInSize(e: LogEntry, keywords: seq<string>, n: nat)
    requires n <= |keywords|
    ensures |HitsIn(e, keywords, n)| == HitsUpTo(e, keywords, n)
  {
    if n == 0 {
      assert HitsIn(e, keywords, 0) == {};
    } else {
      HitsInSize(e, keywords, n - 1);
      HitsInOneMore(e, keywords, n - 1, n);
    }
  }

  /** The hits of one entry, if it is in the scope. */
  ghost function ScopedHits(e: LogEntry, scope: Scope, keywords: seq<string>): set<(nat, nat)> {
    if scope == All || e.source == scope.name then HitsIn(e, keywords, |keywords|) else {}
  }

  lemma AllHitsGrow(entries: seq<LogEntry>, scope: Scope, keywords: seq<string>)
    requires entries != []
    ensures var n := |entries| - 1;
      && AllHits(entries, scope, keywords)
         == AllHits(entries[..n], scope, keywords) + Paired(n, ScopedHits(entries[n], scope, keywords))
      && AllHits(entries[..n], scope, keywords) !! Paired(n, ScopedHits(entries[n], scope, keywords))
  {
  }

  lemma AllHitsSize(entries: seq<LogEntry>, scope: Scope, keywords: seq<string>)
    requires entries != []
    ensures var n := |entries| - 1;
      |AllHits(entries, scope, keywords)|
        == |AllHits(entries[..n], scope, keywords)| + |ScopedHits(entries[n], scope, keywords)|
  {
    var n := |entries| - 1;
    AllHitsGrow(entries, scope, keywords);
    PairedSize(n, ScopedHits(entries[n], scope, keywords));
    DisjointSize(AllHits(entries[..n], scope, keywords), Paired(n, ScopedHits(entries[n], scope, keywords)));
  }

  /** A score is the weight times the number of places at which a keyword begins in an entry of the scope. */
  lemma {:induction false} ScoreCountsPositions(entries: seq<LogEntry>, scope: Scope, keywords: seq<string>,
      weight: nat)
    ensures Score(entries, scope, keywords, weight) == |AllHits(entries, scope, keywords)| * weight
  {
    if entries == [] {
      assert AllHits(entries, scope, keywords) == {};
    } else {
      var n, e := |entries| - 1, entries[|entries| - 1];
      ScoreCountsPositions(entries[..n], scope, keywords, weight);
      AllHitsSize(entries, scope, keywords);
      Distribute(|AllHits(entries[..n], scope, keywords)|, |ScopedHits(e, scope, keywords)|, weight);
      HitsInSize(e, keywords, |keywords|);
    }
  }

  /** Each source is tracked once, with its exact score; none is missing while there is room. */
  ghost predicate Tracks(sources: seq<Source>, entries: seq<LogEntry>, keywords: seq<string>, weight: nat) {
    && |sources| <= MAX_TRACKED_SOURCES && Distinct(sources)
    && (forall i | 0 <= i < |sources| :: sources[i].qty == Score(entries, Of(sources[i].name), keywords, weight))
    && (|sources| < MAX_TRACKED_SOURCES ==>
          forall name: string | FindFrom(sources, name, 0) == |sources| ::
            Score(entries, Of(name), keywords, weight) == 0)
  }

  lemma AddHitDistinct(sources: seq<Source>, name: string, hits: int)
    requires Distinct(sources)
    ensures Distinct(AddHit(sources, name, hits))
    ensures forall x | x != name ::
      FindFrom(sources, x, 0) == |sources|
      <==> FindFrom(AddHit(sources, name, hits), x, 0) == |AddHit(sources, name, hits)|
    ensures |AddHit(sources, name, hits)| < MAX_TRACKED_SOURCES ==>
      FindFrom(AddHit(sources, name, hits), name, 0) < |AddHit(sources, name, hits)|
  {
    var r := AddHit(sources, name, hits);
    assert forall j | 0 <= j < |sources| :: r[j].name == sources[j].name;
    if |r| < MAX_TRACKED_SOURCES {
      assert r[FindFrom(sources, name, 0)].name == name;
    }
  }

  lemma AddHitTracks(sources: seq<Source>, front: seq<LogEntry>, e: LogEntry, keywords: seq<string>, weight: nat)
    requires Tracks(sources, front, keywords, weight)
    ensures Tracks(AddHit(sources, e.source, TotalHits(e, keywords) * weight), front + [e], keywords, weight)
  {
    assert (front + [e])[..|front|] == front;
    AddHitDistinct(sources, e.source, TotalHits(e, keywords) * weight);
  }

  /** A worker tracks each source once, with its exact score over the worker's entries. */
  lemma {:induction false} TrackedSourcesExact(entries: seq<LogEntry>, keywords: seq<string>, weight: nat)
    ensures Tracks(Work(entries, keywords, weight).sources, entries, keywords, weight)
  {
    if entries != [] {
      var front, e := entries[..|entries| - 1], entries[|entries| - 1];
      TrackedSourcesExact(front, keywords, weight);
      assert entries == front + [e];
      if TotalHits(e, keywords) > 0 {
        AddHitTracks(Work(front, keywords, weight).sources, front, e, keywords, weight);
      } else {
        assert TotalHits(e, keywords) * weight == 0;
      }
    }
  }

  // ---------- Room for every source ----------

  /** The sources of entries with at least one hit. */
  ghost function SourcesHit(entries: seq<LogEntry>, keywords: seq<string>): set<string> {
    set e | e in entries && TotalHits(e, keywords) > 0 :: e.source
  }

  lemma SourcesHitGrow(front: seq<LogEntry>, e: LogEntry, keywords: seq<string>)
    ensures SourcesHit(front + [e], keywords)
         == SourcesHit(front, keywords) + if TotalHits(e, keywords) > 0 then {e.source} else {}
  {
    assert forall x :: x in front + [e] <==> x in front || x == e;
  }

  /** While no more than 256 sources are hit, the tracked names are exactly the sources hit. */
  lemma {:induction false} TracksSourcesHit(entries: seq<LogEntry>, keywords: seq<string>, weight: nat)
    requires |SourcesHit(entries, keywords)| <= MAX_TRACKED_SOURCES
    ensures Names(Work(entries, keywords, weight).sources) == SourcesHit(entries, keywords)
  {
    if entries != [] {
      var front, e := entries[..|entries| - 1], entries[|entries| - 1];
      assert entries == front + [e];
      SourcesHitGrow(front, e, keywords);
      SubsetSize(SourcesHit(front, keywords), SourcesHit(entries, keywords));
      TracksSourcesHit(front, keywords, weight);
      var sources := Work(front, keywords, weight).sources;
      if TotalHits(e, keywords) > 0 {
        PutNames(sources, MAX_TRACKED_SOURCES, e.source, TotalHits(e, keywords) * weight);
        TrackedSourcesExact(front, keywords, weight);
        NamesOf(sources);
      }
    }
  }

  /** A source without hits scores nothing. */
  lemma {:induction false} UnhitScoresNothing(entries: seq<LogEntry>, keywords: seq<string>, weight: nat, name: string)
    requires name !in SourcesHit(entries, keywords)
    ensures Score(entries, Of(name), keywords, weight) == 0
  {
    if entries != [] {
      var front, e := entries[..|entries| - 1], entries[|entries| - 1];
      assert entries == front + [e];
      SourcesHitGrow(front, e, keywords);
      UnhitScoresNothing(front, keywords, weight, name);
    }
  }
}
