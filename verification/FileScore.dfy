/**
 * From the bytes of a log file to the result of a level: whatever the interleaving, the split among workers and the
 * order of merging, the level scores what one reader's entries score.
 */
module FileScore {
  import opened Joins
  import opened Options
  import ReaderRanges
  import opened LogFile
  import Pipeline
  import opened PipelineSafety
  import PipelineProgress
  import opened Tallies
  import opened MergeOrder

  /** The source and message that an entry of the pipeline carries. */
  type Content = Pipeline.Entry -> LogEntry

  // ---------- The entries of one level ----------

  function OfLevel(q: seq<Pipeline.Entry>, lv: nat): seq<Pipeline.Entry> {
    if q == [] then []
    else
      var e := q[|q| - 1];
      OfLevel(q[..|q| - 1], lv) + if !e.eof && e.level == lv then [e] else []
  }

  function Contents(q: seq<Pipeline.Entry>, content: Content): seq<LogEntry> {
    seq(|q|, i requires 0 <= i < |q| => content(q[i]))
  }

  /** What each worker of the level has processed, worker by worker. */
  function Shares(workers: seq<Pipeline.Worker>, lv: nat): seq<seq<Pipeline.Entry>> {
    if workers == [] then []
    else
      var k := workers[|workers| - 1];
      Shares(workers[..|workers| - 1], lv) + if k.level == lv then [k.processed] else []
  }

  function Joined(shares: seq<seq<Pipeline.Entry>>): seq<Pipeline.Entry> {
    if shares == [] then [] else Joined(shares[..|shares| - 1]) + shares[|shares| - 1]
  }

  function ContentsOfAll(shares: seq<seq<Pipeline.Entry>>, content: Content): seq<seq<LogEntry>> {
    seq(|shares|, i requires 0 <= i < |shares| => Contents(shares[i], content))
  }

  // ---------- Counting copies ----------

  lemma {:induction false} CopiesAreMultiplicity(q: seq<Pipeline.Entry>, x: Pipeline.Entry)
    ensures Copies(q, x) == multiset(q)[x]
  {
    if q != [] {
      CopiesAreMultiplicity(q[..|q| - 1], x);
      assert q == q[..|q| - 1] + [q[|q| - 1]];
    }
  }

  lemma {:induction false} CopiesOfLevel(q: seq<Pipeline.Entry>, lv: nat, x: Pipeline.Entry)
    ensures Copies(OfLevel(q, lv), x) == if !x.eof && x.level == lv then Copies(q, x) else 0
  {
    if q != [] {
      var front, e := q[..|q| - 1], q[|q| - 1];
      CopiesOfLevel(front, lv, x);
      if !e.eof && e.level == lv {
        CopiesOfBack(OfLevel(front, lv), e, x);
      } else {
        assert OfLevel(front, lv) + [] == OfLevel(front, lv);
      }
    }
  }

  lemma {:induction false} ForeignCopies(q: seq<Pipeline.Entry>, x: Pipeline.Entry)
    requires forall i | 0 <= i < |q| :: q[i] != x
    ensures Copies(q, x) == 0
  {
    if q != [] {
      ForeignCopies(q[..|q| - 1], x);
    }
  }

  /** The workers of a level share its processed entries; other workers have none of them. */
  lemma {:induction false} SharesHold(workers: seq<Pipeline.Worker>, lv: nat, x: Pipeline.Entry)
    requires forall w | 0 <= w < |workers| :: OwnLevelOnly(workers[w])
    ensures Copies(Joined(Shares(workers, lv)), x)
         == if !x.eof && x.level == lv then Processed(workers, x) else 0
  {
    if workers != [] {
      var front, k := workers[..|workers| - 1], workers[|workers| - 1];
      SharesHold(front, lv, x);
      assert OwnLevelOnly(k);
      if x.eof || x.level != k.level {
        ForeignCopies(k.processed, x);
      }
      if k.level == lv {
        var shares := Shares(front, lv);
        assert (shares + [k.processed])[..|shares|] == shares;
        CopiesJoin(Joined(shares), k.processed, x);
      } else {
        assert Shares(front, lv) + [] == Shares(front, lv);
      }
    }
  }

  lemma SameCopies(a: seq<Pipeline.Entry>, b: seq<Pipeline.Entry>)
    requires forall x :: Copies(a, x) == Copies(b, x)
    ensures multiset(a) == multiset(b)
  {
    forall x ensures multiset(a)[x] == multiset(b)[x] {
      CopiesAreMultiplicity(a, x);
      CopiesAreMultiplicity(b, x);
    }
  }

  // ---------- Contents ----------

  lemma ContentsJoin(a: seq<Pipeline.Entry>, b: seq<Pipeline.Entry>, content: Content)
    ensures Contents(a + b, content) == Contents(a, content) + Contents(b, content)
  {
  }

  lemma {:induction false} ContentsFlatten(shares: seq<seq<Pipeline.Entry>>, content: Content)
    ensures Flatten(ContentsOfAll(shares, content)) == Contents(Joined(shares), content)
  {
    if shares != [] {
      var front, last := shares[..|shares| - 1], shares[|shares| - 1];
      ContentsFlatten(front, content);
      assert ContentsOfAll(shares, content)[..|shares| - 1] == ContentsOfAll(front, content);
      ContentsJoin(Joined(front), last, content);
    }
  }

  lemma ContentsWithout(b: seq<Pipeline.Entry>, j: nat, content: Content)
    requires j < |b|
    ensures multiset(Contents(b, content))
         == multiset(Contents(b[..j] + b[j + 1..], content)) + multiset{content(b[j])}
  {
    var l, r := b[..j], b[j + 1..];
    ContentsJoin(l, r, content);
    var c := Contents(b, content);
    assert c == Contents(l, content) + [content(b[j])] + Contents(r, content);
  }

  lemma {:induction false} ContentsRearranged(a: seq<Pipeline.Entry>, b: seq<Pipeline.Entry>, content: Content)
    requires multiset(a) == multiset(b)
    ensures multiset(Contents(a, content)) == multiset(Contents(b, content))
    decreases |a|
  {
    if a == [] {
      assert |multiset(b)| == 0;
    } else {
      var n := |a| - 1;
      var j := TakeOut(a, b);
      ContentsRearranged(a[..n], b[..j] + b[j + 1..], content);
      ContentsWithout(b, j, content);
      ContentsWithout(a, n, content);
      assert a[..n] + a[n + 1..] == a[..n];
    }
  }

  // ---------- The level's result ----------

  /** The entries of a level that a single reader finds in the file. */
  function LevelEntries(file: seq<char>, parse: Parser, lv: nat): seq<Pipeline.Entry> {
    OfLevel(Parsed(ReaderRanges.SequentialRead(file), parse), lv)
  }

  /** The entries found are, each as often, the reads of the file that parse to an entry of the level. */
  ghost predicate FoundInFile(found: seq<Pipeline.Entry>, file: seq<char>, parse: Parser, lv: nat) {
    forall x :: multiset(found)[x]
      == if !x.eof && x.level == lv then |ReadsOf(ReaderRanges.SequentialRead(file), parse, x)| else 0
  }

  lemma LevelEntriesAreFound(file: seq<char>, parse: Parser, lv: nat)
    ensures FoundInFile(LevelEntries(file, parse, lv), file, parse, lv)
  {
    var parsed := Parsed(ReaderRanges.SequentialRead(file), parse);
    forall x ensures multiset(LevelEntries(file, parse, lv))[x]
      == if !x.eof && x.level == lv then |ReadsOf(ReaderRanges.SequentialRead(file), parse, x)| else 0
    {
      CopiesAreMultiplicity(LevelEntries(file, parse, lv), x);
      CopiesOfLevel(parsed, lv, x);
      CopiesAreReads(ReaderRanges.SequentialRead(file), parse, x);
    }
  }

  lemma FoundAlike(a: seq<Pipeline.Entry>, b: seq<Pipeline.Entry>, file: seq<char>, parse: Parser, lv: nat)
    requires FoundInFile(a, file, parse, lv) && FoundInFile(b, file, parse, lv)
    ensures multiset(a) == multiset(b)
  {
    forall x ensures multiset(a)[x] == multiset(b)[x] { }
  }

  /** A run that can go no further has handed a level's entries of the file to the level's workers. */
  lemma SharesAreFile(c: Pipeline.Caps, run: seq<Pipeline.Sys>, file: seq<char>, parse: Parser, lv: nat,
                      found: seq<Pipeline.Entry>)
    requires Pipeline.IsRun(c, run) && ReadsFile(run[0], file, parse) && lv < Pipeline.LEVELS
    requires Pipeline.Shape(c, run[|run| - 1]) && !PipelineProgress.CanMove(c, run[|run| - 1])
    requires forall k | 1 <= k < |run[0].readers| ::
      ReaderRanges.CutsAtBuffer(file, ReaderRanges.Cut(file, |run[0].readers|, k))
    requires FoundInFile(found, file, parse, lv)
    ensures multiset(Joined(Shares(run[|run| - 1].workers, lv))) == multiset(found)
  {
    var workers := run[|run| - 1].workers;
    var parsed := Parsed(ReaderRanges.SequentialRead(file), parse);
    ProcessedByOwnLevel(c, run, |run| - 1);
    forall x ensures Copies(Joined(Shares(workers, lv)), x) == Copies(OfLevel(parsed, lv), x) {
      SharesHold(workers, lv, x);
      CopiesOfLevel(parsed, lv, x);
      if !x.eof && x.level == lv {
        assert Datum(x);
        FileIsProcessed(c, run, file, parse, x);
      }
    }
    SameCopies(Joined(Shares(workers, lv)), OfLevel(parsed, lv));
    LevelEntriesAreFound(file, parse, lv);
    FoundAlike(LevelEntries(file, parse, lv), found, file, parse, lv);
  }

  /**
   * End to end: with clean cuts, in a run that can go no further, the merged result of a level has as its total the
   * score of the entries of the level found in the file, and counts exactly those entries.
   */
  lemma LevelScoresFile(c: Pipeline.Caps, run: seq<Pipeline.Sys>, file: seq<char>, parse: Parser, content: Content,
                        lv: nat, order: seq<nat>, keywords: seq<string>, found: seq<Pipeline.Entry>)
    requires Pipeline.IsRun(c, run) && ReadsFile(run[0], file, parse) && lv < Pipeline.LEVELS
    requires Pipeline.Shape(c, run[|run| - 1]) && !PipelineProgress.CanMove(c, run[|run| - 1])
    requires forall k | 1 <= k < |run[0].readers| ::
      ReaderRanges.CutsAtBuffer(file, ReaderRanges.Cut(file, |run[0].readers|, k))
    requires Ordering(order, |Shares(run[|run| - 1].workers, lv)|) && FoundInFile(found, file, parse, lv)
    ensures var split := ContentsOfAll(Shares(run[|run| - 1].workers, lv), content);
      var entries := Contents(found, content);
      var r := MergeAll(split, order, keywords, LevelWeight(lv));
      && r.total == Score(entries, All, keywords, LevelWeight(lv))
      && r.entries == |entries|
  {
    var shares := Shares(run[|run| - 1].workers, lv);
    var split, entries := ContentsOfAll(shares, content), Contents(found, content);
    SharesAreFile(c, run, file, parse, lv, found);
    ContentsFlatten(shares, content);
    ContentsRearranged(Joined(shares), found, content);
    TotalsIndependentOfSplit(entries, split, order, keywords, LevelWeight(lv));
    EntriesCounted(entries, split, order, keywords, LevelWeight(lv));
  }
}
