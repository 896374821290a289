/**
 * The analyzer of one level: its loops over keywords and sources, and the
 * result of merging the workers in any order.
 */
module Analyzer {
  import opened Book
  import opened Tallies

  // ---------- Loops ----------

  method CountKeyword(text: string, word: string) returns (count: nat)
    ensures count == Occurrences(text, word, 0)
  {
    count := 0;
    if |word| == 0 {
      return;
    }
    var i := 0;
    while i < |text|
      invariant i <= |text|
      invariant count + Occurrences(text, word, i) == Occurrences(text, word, 0)
    {
      if word <= text[i..] {
        count := count + 1;
      }
      i := i + 1;
    }
  }

  method GetLevelWeight(level: int) returns (w: nat)
    ensures w == LevelWeight(level)
    ensures 0 <= level < 4 ==> w == 4 - level
  {
    if level == 0 { return 4; }
    if level == 1 { return 3; }
    if level == 2 { return 2; }
    if level == 3 { return 1; }
    return 0;
  }

  /** The figures of one worker thread. */
  class TlsData {
    const level: int
    const keywordScores: array<int>
    const sources: array<Source>
    var entryCount: nat
    var totalScore: int
    var sourceCount: nat

    ghost predicate Valid()
      reads this, sources
    {
      sourceCount <= sources.Length == MAX_TRACKED_SOURCES
    }

    function State(): Tally
      requires Valid()
      reads this, keywordScores, sources
    {
      Tally(keywordScores[..], entryCount, totalScore, sources[..sourceCount])
    }

    constructor (level: int, keywords: seq<string>)
      ensures this.level == level && Valid() && State() == NoTally(keywords) && fresh(keywordScores) && fresh(sources)
    {
      this.level := level;
      keywordScores := new int[|keywords|](_ => 0);
      sources := new Source[MAX_TRACKED_SOURCES](_ => Entry("", 0));
      entryCount, totalScore, sourceCount := 0, 0, 0;
    }

    method AddSourceHit(name: string, hits: int)
      requires Valid()
      modifies this`sourceCount, sources
      ensures Valid() && State() == old(State()).(sources := AddHit(old(State()).sources, name, hits))
    {
      ghost var before := sources[..sourceCount];
      for i := 0 to sourceCount
        invariant FindFrom(before, name, 0) == FindFrom(before, name, i)
        invariant sources[..sourceCount] == before && sourceCount == old(sourceCount)
      {
        if sources[i].name == name {
          sources[i] := Entry(name, sources[i].qty + hits);
          assert sources[..sourceCount] == AddHit(before, name, hits);
          return;
        }
      }
      if sourceCount >= MAX_TRACKED_SOURCES {
        return;
      }
      sources[sourceCount] := Entry(name, hits);
      sourceCount := sourceCount + 1;
      assert sources[..sourceCount] == before + [Entry(name, hits)];
    }

    /** What a worker does with an entry it has popped. */
    method Process(e: LogEntry, keywords: seq<string>, weight: nat)
      requires Valid() && keywordScores.Length == |keywords| && weight == LevelWeight(level)
      modifies this, keywordScores, sources
      ensures Valid() && State() == ScoreEntry(old(State()), e, keywords, LevelWeight(level))
    {
      ghost var before := State();
      var totalHits := 0;
      for i := 0 to |keywords|
        invariant sourceCount == old(sourceCount) && entryCount == old(entryCount) && sources[..] == old(sources[..])
        invariant totalHits == HitsUpTo(e, keywords, i) && totalScore == before.total + totalHits * weight
        invariant forall k | 0 <= k < i :: keywordScores[k] == before.keyword[k] + Hits(e, keywords[k]) * weight
        invariant forall k | i <= k < |keywords| :: keywordScores[k] == before.keyword[k]
      {
        var hits := CountKeyword(e.message, keywords[i]);
        keywordScores[i] := keywordScores[i] + hits * weight;
        totalScore := totalScore + hits * weight;
        Distribute(totalHits, hits, weight);
        totalHits := totalHits + hits;
      }
      entryCount := entryCount + 1;
      if totalHits > 0 {
        AddSourceHit(e.source, totalHits * weight);
      }
      assert State().keyword == ScoreEntry(before, e, keywords, weight).keyword;
    }

    /** A worker's loop over the entries it gets before its EOF. */
    method WorkerLoop(popped: seq<LogEntry>, keywords: seq<string>)
      requires Valid() && State() == NoTally(keywords)
      modifies this, keywordScores, sources
      ensures Valid() && State() == Work(popped, keywords, LevelWeight(level))
    {
      var weight := GetLevelWeight(level);
      assert popped[..0] == [];
      for i := 0 to |popped|
        invariant Valid() && State() == Work(popped[..i], keywords, weight)
      {
        assert popped[..i + 1][..i] == popped[..i];
        Process(popped[i], keywords, weight);
      }
      assert popped[..|popped|] == popped;
    }
  }

  /** Slot j is the first one that stores the name. */
  predicate FirstNamed(top: seq<Source>, name: string, j: nat)
    requires j < |top|
  {
    top[j].name == name && forall i | 0 <= i < j :: top[i].name != name
  }

  /** Slot m is the first one with the fewest hits. */
  predicate FirstLeast(top: seq<Source>, m: nat)
    requires m < |top|
  {
    && (forall i | 0 <= i < |top| :: top[m].qty <= top[i].qty)
    && (forall i | 0 <= i < m :: top[m].qty < top[i].qty)
  }

  lemma MergedNext(top: seq<Source>, sources: seq<Source>, i: nat)
    requires |top| == 3 && i < |sources|
    ensures MergeSources(top, sources[..i + 1]) == MergeSource(MergeSources(top, sources[..i]), sources[i])
  {
    assert sources[..i + 1][..i] == sources[..i];
  }

  /** A stored source rises by the new hits; else a source with more hits replaces the first of the least slots. */
  ghost predicate MergedRight(top: seq<Source>, s: Source, after: seq<Source>) {
    && (forall j | 0 <= j < |top| && FirstNamed(top, s.name, j) ::
          after == top[j := Entry(s.name, top[j].qty + s.qty)])
    && ((forall j | 0 <= j < |top| :: top[j].name != s.name) ==>
          forall m | 0 <= m < |top| && FirstLeast(top, m) ::
            after == if s.qty > top[m].qty then top[m := s] else top)
  }

  /** The shared result of a level, as the destructors find it under the mutex. */
  class Shared {
    const perKeyword: array<int>
    const perThread: array<int>
    const top: array<Source>
    var totalEntries: nat
    var totalWeighted: int

    ghost predicate Valid() {
      perThread.Length == MAX_WORKERS && top.Length == 3 && perKeyword != perThread
    }

    function State(): LevelResult
      reads this, perKeyword, perThread, top
    {
      LevelResult(totalEntries, totalWeighted, perKeyword[..], perThread[..], top[..])
    }

    method MergeOne(s: Source)
      requires Valid()
      modifies top
      ensures top[..] == MergeSource(old(top[..]), s)
      ensures MergedRight(old(top[..]), s, top[..])
    {
      ghost var before := top[..];
      var j := 0;
      while j < 3
        invariant j <= 3 && top[..] == before && FindFrom(before, s.name, 0) == FindFrom(before, s.name, j)
      {
        if top[j].name == s.name {
          top[j] := Entry(s.name, top[j].qty + s.qty);
          return;
        }
        j := j + 1;
      }
      var least := 0;
      if top[1].qty < top[least].qty {
        least := 1;
      }
      if top[2].qty < top[least].qty {
        least := 2;
      }
      if s.qty > top[least].qty {
        top[least] := s;
      }
    }

    method Destructor(tls: TlsData, slot: nat)
      requires Valid() && tls.Valid() && perKeyword.Length == tls.keywordScores.Length
      requires tls.keywordScores != perKeyword && tls.keywordScores != perThread && tls.sources != top
      modifies this, perKeyword, perThread, top
      ensures State() == Merge(old(State()), tls.State(), slot)
    {
      ghost var before, t := State(), tls.State();
      if slot < MAX_WORKERS {
        perThread[slot] := tls.totalScore;
      }
      assert perThread[..] == Merge(before, t, slot).perThread;
      for i := 0 to perKeyword.Length
        invariant perThread[..] == Merge(before, t, slot).perThread && top[..] == before.top
        invariant totalEntries == before.entries && totalWeighted == before.total
        invariant forall k | 0 <= k < i :: perKeyword[k] == before.perKeyword[k] + t.keyword[k]
        invariant forall k | i <= k < perKeyword.Length :: perKeyword[k] == before.perKeyword[k]
      {
        perKeyword[i] := perKeyword[i] + tls.keywordScores[i];
      }
      assert perKeyword[..] == Merge(before, t, slot).perKeyword;
      totalEntries := totalEntries + tls.entryCount;
      totalWeighted := totalWeighted + tls.totalScore;
      MergeTop(tls);
    }

    /** Every source of a worker's table is merged, in order. */
    method MergeTop(tls: TlsData)
      requires Valid() && tls.Valid() && tls.sources != top
      modifies top
      ensures top[..] == MergeSources(old(top[..]), tls.sources[..tls.sourceCount])
    {
      ghost var before, t := top[..], tls.sources[..tls.sourceCount];
      for i := 0 to tls.sourceCount
        invariant tls.sources[..tls.sourceCount] == t
        invariant top[..] == MergeSources(before, t[..i])
      {
        MergedNext(before, t, i);
        MergeOne(tls.sources[i]);
      }
      assert t[..tls.sourceCount] == t;
    }
  }
}
