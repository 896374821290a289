/**
 * The result of a level does not depend on how its entries were split among
 * the workers, nor on the order in which the workers' figures were merged.
 */
module MergeOrder {
  import opened Book
  import opened Joins
  import opened Tallies

  /** Every worker is merged exactly once. */
  ghost predicate Ordering(order: seq<nat>, workers: nat) {
    && |order| == workers
    && (forall i | 0 <= i < |order| :: order[i] < workers)
    && (forall i, j | 0 <= i < j < |order| :: order[i] != order[j])
  }

  function Flatten(split: seq<seq<LogEntry>>): seq<LogEntry> {
    if split == [] then [] else Flatten(split[..|split| - 1]) + split[|split| - 1]
  }

  /** The workers' lists together hold exactly the entries of the level. */
  ghost predicate Splits(split: seq<seq<LogEntry>>, entries: seq<LogEntry>) {
    multiset(Flatten(split)) == multiset(entries)
  }

  // ---------- Scores of rearranged entries ----------

  lemma {:induction false} ScoreJoin(a: seq<LogEntry>, b: seq<LogEntry>, scope: Scope, keywords: seq<string>,
      weight: nat)
    ensures Score(a + b, scope, keywords, weight)
      == Score(a, scope, keywords, weight) + Score(b, scope, keywords, weight)
  {
    if b == [] {
      assert a + b == a;
    } else {
      ScoreJoin(a, b[..|b| - 1], scope, keywords, weight);
      assert (a + b)[..|a + b| - 1] == a + b[..|b| - 1];
    }
  }

  lemma ScoreWithout(b: seq<LogEntry>, j: nat, scope: Scope, keywords: seq<string>, weight: nat)
    requires j < |b|
    ensures Score(b, scope, keywords, weight)
         == Score(b[..j] + b[j + 1..], scope, keywords, weight) + Score([b[j]], scope, keywords, weight)
  {
    var l, r := b[..j], b[j + 1..];
    assert b == l + [b[j]] + r;
    ScoreJoin(l, r, scope, keywords, weight);
    ScoreJoin(l + [b[j]], r, scope, keywords, weight);
    ScoreJoin(l, [b[j]], scope, keywords, weight);
  }

  lemma {:induction false} ScoreRearranged(a: seq<LogEntry>, b: seq<LogEntry>, scope: Scope, keywords: seq<string>,
      weight: nat)
    requires multiset(a) == multiset(b)
    ensures Score(a, scope, keywords, weight) == Score(b, scope, keywords, weight)
    decreases |a|
  {
    if a == [] {
      assert |multiset(b)| == 0;
    } else {
      var j := TakeOut(a, b);
      var n := |a| - 1;
      ScoreRearranged(a[..n], b[..j] + b[j + 1..], scope, keywords, weight);
      ScoreWithout(b, j, scope, keywords, weight);
      ScoreWithout(a, n, scope, keywords, weight);
      assert a[..n] + a[n + 1..] == a[..n];
    }
  }

  // ---------- Sums over workers ----------

  function Scores(split: seq<seq<LogEntry>>, scope: Scope, keywords: seq<string>, weight: nat): (r: seq<int>)
    ensures |r| == |split|
  {
    seq(|split|, w requires 0 <= w < |split| => Score(split[w], scope, keywords, weight))
  }

  lemma {:induction false} ScoresAddUp(split: seq<seq<LogEntry>>, scope: Scope, keywords: seq<string>, weight: nat)
    ensures Sum(Scores(split, scope, keywords, weight)) == Score(Flatten(split), scope, keywords, weight)
  {
    if split != [] {
      var front := split[..|split| - 1];
      ScoresAddUp(front, scope, keywords, weight);
      ScoreJoin(Flatten(front), split[|split| - 1], scope, keywords, weight);
      var s := Scores(split, scope, keywords, weight);
      assert s[..|s| - 1] == Scores(front, scope, keywords, weight);
    }
  }

  /** What the workers in order have contributed, worker by worker. */
  function Contributions(split: seq<seq<LogEntry>>, order: seq<nat>, scope: Scope, keywords: seq<string>,
      weight: nat): (r: seq<int>)
    ensures |r| == |split|
  {
    seq(|split|, w requires 0 <= w < |split| => if w in order then Score(split[w], scope, keywords, weight) else 0)
  }

  /** Merging one more worker adds its own contribution. */
  lemma ContributionsGrow(split: seq<seq<LogEntry>>, order: seq<nat>, w: nat, scope: Scope, keywords: seq<string>,
      weight: nat)
    requires w < |split| && w !in order
    ensures Sum(Contributions(split, order + [w], scope, keywords, weight))
         == Sum(Contributions(split, order, scope, keywords, weight)) + Score(split[w], scope, keywords, weight)
  {
    var a := Contributions(split, order, scope, keywords, weight);
    var b := Contributions(split, order + [w], scope, keywords, weight);
    assert b == a[w := Score(split[w], scope, keywords, weight)];
    SumUpdate(a, w, Score(split[w], scope, keywords, weight));
  }

  function Range(n: nat): (r: set<nat>)
    ensures |r| == n && forall i: nat :: i in r <==> i < n
  {
    if n == 0 then {} else Range(n - 1) + {n - 1}
  }

  function Elements(order: seq<nat>): set<nat> {
    set w | w in order
  }

  lemma {:induction false} ElementCount(order: seq<nat>)
    requires forall i, j | 0 <= i < j < |order| :: order[i] != order[j]
    ensures |Elements(order)| == |order|
  {
    if order == [] {
      assert Elements(order) == {};
    } else {
      var front, w := order[..|order| - 1], order[|order| - 1];
      ElementCount(front);
      assert w !in Elements(front);
      assert Elements(order) == Elements(front) + {w};
    }
  }

  /** An ordering leaves nobody out. */
  lemma OrderingIsComplete(order: seq<nat>, workers: nat)
    requires Ordering(order, workers)
    ensures forall w: nat | w < workers :: w in order
  {
    ElementCount(order);
    if w: nat :| w < workers && w !in order {
      var others := Range(workers) - {w};
      assert Range(workers) == others + {w};
      assert forall v | v in Elements(order) :: v in order && v < workers;
      Fits(Elements(order), others);
    }
  }

  lemma Fits(a: set<nat>, b: set<nat>)
    requires a <= b
    ensures |a| <= |b|
  {
    assert b == a + (b - a);
  }

  // ---------- Totals ----------

  ghost predicate TotalsOk(r: LevelResult, split: seq<seq<LogEntry>>, order: seq<nat>, keywords: seq<string>,
      weight: nat)
    requires |r.perThread| == MAX_WORKERS
  {
    var c := Contributions(split, order, All, keywords, weight);
    r.total == Sum(c) == Sum(r.perKeyword) && r.perThread == ThreadSlots(c)
  }

  /** The first 64 workers have a slot each for their score. */
  function ThreadSlots(scores: seq<int>): (r: seq<int>)
    ensures |r| == MAX_WORKERS
  {
    seq(MAX_WORKERS, w requires 0 <= w => if w < |scores| then scores[w] else 0)
  }

  lemma SlotsAddUp(scores: seq<int>)
    requires |scores| <= MAX_WORKERS
    ensures Sum(ThreadSlots(scores)) == Sum(scores)
  {
    var zeros := seq(MAX_WORKERS - |scores|, _ => 0);
    assert ThreadSlots(scores) == scores + zeros;
    SumJoin(scores, zeros);
    SumOfZeros(zeros);
  }

  lemma {:induction false} MergedTotals(split: seq<seq<LogEntry>>, order: seq<nat>, keywords: seq<string>, weight: nat)
    requires forall i | 0 <= i < |order| :: order[i] < |split|
    requires forall i, j | 0 <= i < j < |order| :: order[i] != order[j]
    ensures TotalsOk(MergeAll(split, order, keywords, weight), split, order, keywords, weight)
  {
    if order == [] {
      SumOfZeros(MergeAll(split, order, keywords, weight).perKeyword);
      SumOfZeros(Contributions(split, order, All, keywords, weight));
      assert NoResult(keywords).perThread == ThreadSlots(Contributions(split, order, All, keywords, weight));
    } else {
      var front, w := order[..|order| - 1], order[|order| - 1];
      MergedTotals(split, front, keywords, weight);
      assert order == front + [w];
      OneMoreMerged(split, front, w, keywords, weight);
    }
  }

  lemma OneMoreMerged(split: seq<seq<LogEntry>>, front: seq<nat>, w: nat, keywords: seq<string>, weight: nat)
    requires w < |split| && w !in front && forall i | 0 <= i < |front| :: front[i] < |split|
    requires TotalsOk(MergeAll(split, front, keywords, weight), split, front, keywords, weight)
    ensures TotalsOk(MergeAll(split, front + [w], keywords, weight), split, front + [w], keywords, weight)
  {
    assert (front + [w])[..|front|] == front;
    OneMoreScore(split, front, w, keywords, weight);
    OneMoreSlot(split, front, w, keywords, weight);
    ContributionsGrow(split, front, w, All, keywords, weight);
  }

  lemma OneMoreScore(split: seq<seq<LogEntry>>, front: seq<nat>, w: nat, keywords: seq<string>, weight: nat)
    requires w < |split| && forall i | 0 <= i < |front| :: front[i] < |split|
    ensures var before := MergeAll(split, front, keywords, weight);
      var after := MergeAll(split, front + [w], keywords, weight);
      && after.total == before.total + Score(split[w], All, keywords, weight)
      && Sum(after.perKeyword) == Sum(before.perKeyword) + Score(split[w], All, keywords, weight)
  {
    var before, after := MergeAll(split, front, keywords, weight), MergeAll(split, front + [w], keywords, weight);
    assert (front + [w])[..|front|] == front;
    WorkIsExact(split[w], keywords, weight);
    SumPointwise(before.perKeyword, Work(split[w], keywords, weight).keyword, after.perKeyword);
  }

  lemma OneMoreSlot(split: seq<seq<LogEntry>>, front: seq<nat>, w: nat, keywords: seq<string>, weight: nat)
    requires w < |split| && forall i | 0 <= i < |front| :: front[i] < |split|
    requires MergeAll(split, front, keywords, weight).perThread
          == ThreadSlots(Contributions(split, front, All, keywords, weight))
    ensures MergeAll(split, front + [w], keywords, weight).perThread
         == ThreadSlots(Contributions(split, front + [w], All, keywords, weight))
  {
    assert (front + [w])[..|front|] == front;
    WorkIsExact(split[w], keywords, weight);
  }

  lemma {:induction false} SumJoin(s: seq<int>, t: seq<int>)
    ensures Sum(s + t) == Sum(s) + Sum(t)
  {
    if t == [] {
      assert s + t == s;
    } else {
      SumJoin(s, t[..|t| - 1]);
      assert (s + t)[..|s + t| - 1] == s + t[..|t| - 1];
    }
  }

  /**
   * However the entries are split and whatever the order of merging, the
   * level's score is the sum of the keyword scores and the score one worker
   * would have computed alone; up to 64 workers it is also the sum of the
   * thread scores.
   */
  lemma TotalsIndependentOfSplit(entries: seq<LogEntry>, split: seq<seq<LogEntry>>, order: seq<nat>,
      keywords: seq<string>, weight: nat)
    requires Splits(split, entries) && Ordering(order, |split|)
    ensures var r := MergeAll(split, order, keywords, weight);
      && r.total == Sum(r.perKeyword) == Work(entries, keywords, weight).total
      && r.total == Score(entries, All, keywords, weight)
      && (|split| <= MAX_WORKERS ==> r.total == Sum(r.perThread))
      && (forall w | 0 <= w < |split| && w < MAX_WORKERS ::
            r.perThread[w] == Score(split[w], All, keywords, weight))
  {
    var r := MergeAll(split, order, keywords, weight);
    MergedTotals(split, order, keywords, weight);
    OrderingIsComplete(order, |split|);
    var c := Contributions(split, order, All, keywords, weight);
    assert c == Scores(split, All, keywords, weight);
    ScoresAddUp(split, All, keywords, weight);
    ScoreRearranged(Flatten(split), entries, All, keywords, weight);
    if |split| <= MAX_WORKERS {
      SlotsAddUp(c);
    }
    WorkIsExact(entries, keywords, weight);
  }

  // ---------- Single keywords, and the number of entries ----------

  /** A worker's score for a keyword is what that keyword alone would have scored. */
  lemma {:induction false} KeywordIsExact(entries: seq<LogEntry>, keywords: seq<string>, weight: nat, k: nat)
    requires k < |keywords|
    ensures Work(entries, keywords, weight).keyword[k] == Score(entries, All, [keywords[k]], weight)
  {
    if entries != [] {
      var front, e := entries[..|entries| - 1], entries[|entries| - 1];
      KeywordIsExact(front, keywords, weight, k);
      assert HitsUpTo(e, [keywords[k]], 1) == HitsUpTo(e, [keywords[k]], 0) + Hits(e, keywords[k]);
    }
  }

  lemma {:induction false} MergedKeyword(split: seq<seq<LogEntry>>, order: seq<nat>, keywords: seq<string>,
      weight: nat, k: nat)
    requires k < |keywords| && forall i | 0 <= i < |order| :: order[i] < |split|
    requires forall i, j | 0 <= i < j < |order| :: order[i] != order[j]
    ensures MergeAll(split, order, keywords, weight).perKeyword[k]
         == Sum(Contributions(split, order, All, [keywords[k]], weight))
  {
    if order == [] {
      SumOfZeros(Contributions(split, order, All, [keywords[k]], weight));
    } else {
      var front, w := order[..|order| - 1], order[|order| - 1];
      assert order == front + [w];
      MergedKeyword(split, front, keywords, weight, k);
      KeywordIsExact(split[w], keywords, weight, k);
      ContributionsGrow(split, front, w, All, [keywords[k]], weight);
    }
  }

  /** However the entries are split and merged, each keyword is credited with its own score over all of them. */
  lemma KeywordsIndependentOfSplit(entries: seq<LogEntry>, split: seq<seq<LogEntry>>, order: seq<nat>,
      keywords: seq<string>, weight: nat, k: nat)
    requires Splits(split, entries) && Ordering(order, |split|) && k < |keywords|
    ensures MergeAll(split, order, keywords, weight).perKeyword[k] == Score(entries, All, [keywords[k]], weight)
  {
    MergedKeyword(split, order, keywords, weight, k);
    OrderingIsComplete(order, |split|);
    assert Contributions(split, order, All, [keywords[k]], weight) == Scores(split, All, [keywords[k]], weight);
    ScoresAddUp(split, All, [keywords[k]], weight);
    ScoreRearranged(Flatten(split), entries, All, [keywords[k]], weight);
  }

  function Sizes(split: seq<seq<LogEntry>>, order: seq<nat>): (r: seq<int>)
    ensures |r| == |split|
  {
    seq(|split|, w requires 0 <= w < |split| => if w in order then |split[w]| else 0)
  }

  lemma {:induction false} MergedSize(split: seq<seq<LogEntry>>, order: seq<nat>, keywords: seq<string>, weight: nat)
    requires forall i | 0 <= i < |order| :: order[i] < |split|
    requires forall i, j | 0 <= i < j < |order| :: order[i] != order[j]
    ensures MergeAll(split, order, keywords, weight).entries == Sum(Sizes(split, order))
  {
    if order == [] {
      SumOfZeros(Sizes(split, order));
    } else {
      var front, w := order[..|order| - 1], order[|order| - 1];
      assert order == front + [w];
      MergedSize(split, front, keywords, weight);
      WorkIsExact(split[w], keywords, weight);
      assert Sizes(split, order) == Sizes(split, front)[w := |split[w]|];
      SumUpdate(Sizes(split, front), w, |split[w]|);
    }
  }

  lemma {:induction false} SizesAddUp(split: seq<seq<LogEntry>>, order: seq<nat>)
    requires forall w: nat | w < |split| :: w in order
    ensures Sum(Sizes(split, order)) == |Flatten(split)|
  {
    if split != [] {
      var n := |split| - 1;
      SizesAddUp(split[..n], order);
      assert Sizes(split, order)[..n] == Sizes(split[..n], order);
    }
  }

  /** However the entries are split and merged, all of them are counted. */
  lemma EntriesCounted(entries: seq<LogEntry>, split: seq<seq<LogEntry>>, order: seq<nat>, keywords: seq<string>,
      weight: nat)
    requires Splits(split, entries) && Ordering(order, |split|)
    ensures MergeAll(split, order, keywords, weight).entries == |entries|
  {
    MergedSize(split, order, keywords, weight);
    OrderingIsComplete(order, |split|);
    SizesAddUp(split, order);
    assert |multiset(Flatten(split))| == |Flatten(split)| && |multiset(entries)| == |entries|;
  }

  // ---------- Top sources ----------

  /** The score of a source over the workers merged so far. */
  function Seen(split: seq<seq<LogEntry>>, order: seq<nat>, name: string, keywords: seq<string>, weight: nat): int {
    Sum(Contributions(split, order, Of(name), keywords, weight))
  }

  /** The score the first n sources of a worker's table give to a name. */
  function Listed(sources: seq<Source>, n: nat, name: string): int
    requires n <= |sources|
  {
    var i := FindFrom(sources, name, 0);
    if i < n then sources[i].qty else 0
  }

  /** Names are distinct; only slots never filled may share the empty name. */
  ghost predicate TopDistinct(top: seq<Source>) {
    && |top| == 3
    && (forall j | 0 <= j < 3 :: top[j].qty >= 0)
    && (forall i, j | 0 <= i < j < 3 && top[i].name == top[j].name :: top[i].name == "" && top[j].qty == 0)
  }

  lemma MergeSourceKeepsDistinct(top: seq<Source>, s: Source)
    requires TopDistinct(top) && s.qty >= 0
    ensures TopDistinct(MergeSource(top, s))
  {
  }

  /** No stored count exceeds the bound given for its name. */
  ghost predicate Within(top: seq<Source>, bound: string -> int) {
    forall j | 0 <= j < |top| :: top[j].qty <= bound(top[j].name)
  }

  lemma MergeSourceWithin(top: seq<Source>, s: Source, bound: string -> int, raised: string -> int)
    requires TopDistinct(top) && Within(top, bound) && s.qty >= 0 && bound(s.name) >= 0
    requires forall name :: raised(name) == bound(name) + if name == s.name then s.qty else 0
    ensures Within(MergeSource(top, s), raised)
  {
  }

  lemma {:induction false} MergeSourcesWithin(top: seq<Source>, sources: seq<Source>, n: nat, bound: string -> int)
    requires n <= |sources| && Distinct(sources) && forall i | 0 <= i < |sources| :: sources[i].qty >= 0
    requires TopDistinct(top) && Within(top, bound) && forall name :: bound(name) >= 0
    ensures var r := MergeSources(top, sources[..n]);
      TopDistinct(r) && Within(r, name => bound(name) + Listed(sources, n, name))
  {
    if n > 0 {
      MergeSourcesWithin(top, sources, n - 1, bound);
      assert sources[..n][..n - 1] == sources[..n - 1];
      var r, s := MergeSources(top, sources[..n - 1]), sources[n - 1];
      var b := name => bound(name) + Listed(sources, n - 1, name);
      var b' := name => bound(name) + Listed(sources, n, name);
      MergeSourceKeepsDistinct(r, s);
      forall name ensures b'(name) == b(name) + if name == s.name then s.qty else 0 {
        ListedStep(sources, n, name);
      }
      assert b(s.name) >= 0;
      MergeSourceWithin(r, s, b, b');
    } else {
      assert sources[..n] == [];
      assert forall name :: Listed(sources, 0, name) == 0;
    }
  }

  lemma ListedStep(sources: seq<Source>, n: nat, name: string)
    requires 0 < n <= |sources| && Distinct(sources) && forall i | 0 <= i < |sources| :: sources[i].qty >= 0
    ensures Listed(sources, n, name)
         == Listed(sources, n - 1, name) + if name == sources[n - 1].name then sources[n - 1].qty else 0
    ensures Listed(sources, n - 1, name) >= 0
  {
  }

  lemma {:induction false} SumNotNegative(s: seq<int>)
    requires forall i | 0 <= i < |s| :: s[i] >= 0
    ensures Sum(s) >= 0
  {
    if s != [] {
      SumNotNegative(s[..|s| - 1]);
    }
  }

  lemma ListedIsOwnScore(entries: seq<LogEntry>, name: string, keywords: seq<string>, weight: nat)
    ensures var sources := Work(entries, keywords, weight).sources;
      0 <= Listed(sources, |sources|, name) <= Score(entries, Of(name), keywords, weight)
  {
    TrackedSourcesExact(entries, keywords, weight);
  }

  lemma {:induction false} TopIsHonest(split: seq<seq<LogEntry>>, order: seq<nat>, keywords: seq<string>, weight: nat)
    requires forall i | 0 <= i < |order| :: order[i] < |split|
    requires forall i, j | 0 <= i < j < |order| :: order[i] != order[j]
    ensures var top := MergeAll(split, order, keywords, weight).top;
      TopDistinct(top) && Within(top, name => Seen(split, order, name, keywords, weight))
  {
    if order == [] {
      forall name ensures Seen(split, order, name, keywords, weight) == 0 {
        SumOfZeros(Contributions(split, order, Of(name), keywords, weight));
      }
    } else {
      var front, w := order[..|order| - 1], order[|order| - 1];
      assert order == front + [w];
      TopIsHonest(split, front, keywords, weight);
      var before, t := MergeAll(split, front, keywords, weight).top, Work(split[w], keywords, weight);
      var bound := name => Seen(split, front, name, keywords, weight);
      forall name ensures bound(name) >= 0 {
        SumNotNegative(Contributions(split, front, Of(name), keywords, weight));
      }
      TrackedSourcesExact(split[w], keywords, weight);
      MergeSourcesWithin(before, t.sources, |t.sources|, bound);
      assert t.sources[..|t.sources|] == t.sources;
      forall name
        ensures bound(name) + Listed(t.sources, |t.sources|, name) <= Seen(split, order, name, keywords, weight)
      {
        ContributionsGrow(split, front, w, Of(name), keywords, weight);
        ListedIsOwnScore(split[w], name, keywords, weight);
      }
    }
  }

  /** The stored top sources are distinct, and none is credited with more than it truly scored. */
  lemma TopSourcesNeverOverstated(entries: seq<LogEntry>, split: seq<seq<LogEntry>>, order: seq<nat>,
      keywords: seq<string>, weight: nat)
    requires Splits(split, entries) && Ordering(order, |split|)
    ensures var top := MergeAll(split, order, keywords, weight).top;
      && TopDistinct(top)
      && forall j | 0 <= j < 3 :: top[j].qty <= Score(entries, Of(top[j].name), keywords, weight)
  {
    TopIsHonest(split, order, keywords, weight);
    forall name ensures Seen(split, order, name, keywords, weight) == Score(entries, Of(name), keywords, weight) {
      SeenIsScore(entries, split, order, name, keywords, weight);
    }
  }

  // ---------- Few sources ----------

  /** Every name with hits stands in a slot with its count, and a slot that counts anything counts its name right. */
  ghost predicate TopExact(top: seq<Source>, seen: string -> int) {
    && TopDistinct(top)
    && (forall name | seen(name) > 0 :: Entry(name, seen(name)) in top)
    && (forall j | 0 <= j < 3 && top[j].qty > 0 :: top[j].qty == seen(top[j].name))
  }

  lemma FourNames(top: seq<Source>, name: string, names: set<string>)
    requires TopDistinct(top) && name in names
    requires forall j | 0 <= j < 3 :: top[j].qty > 0 && top[j].name in names && top[j].name != name
    ensures |names| >= 4
  {
    var four := {top[0].name, top[1].name, top[2].name, name};
    assert top[0].name != top[1].name && top[0].name != top[2].name && top[1].name != top[2].name;
    assert |four| == 4;
    SubsetSize(four, names);
  }

  /** A source that stands in no slot finds one that counts nothing. */
  lemma NewSourceFindsSlot(top: seq<Source>, s: Source, seen: string -> int, names: set<string>)
    requires TopExact(top, seen) && |names| <= 3 && s.name in names && FindFrom(top, s.name, 0) == 3
    requires forall name | seen(name) > 0 :: name in names
    ensures top[Least(top)].qty == 0
  {
    if top[Least(top)].qty > 0 {
      forall j | 0 <= j < 3 ensures top[j].qty > 0 && top[j].name in names && top[j].name != s.name { }
      FourNames(top, s.name, names);
    }
  }

  lemma MergeSourceExact(top: seq<Source>, s: Source, seen: string -> int, raised: string -> int, names: set<string>)
    requires TopExact(top, seen) && s.qty >= 0 && |names| <= 3 && s.name in names && seen(s.name) >= 0
    requires forall name | seen(name) > 0 :: name in names
    requires forall name :: raised(name) == seen(name) + if name == s.name then s.qty else 0
    ensures TopExact(MergeSource(top, s), raised)
  {
    var after, j := MergeSource(top, s), FindFrom(top, s.name, 0);
    MergeSourceKeepsDistinct(top, s);
    if j < 3 {
      StoredSourceRises(top, s, j, seen);
    } else {
      NewSourceFindsSlot(top, s, seen, names);
      assert seen(s.name) <= 0;
    }
    forall name | raised(name) > 0 ensures Entry(name, raised(name)) in after {
      if name != s.name {
        var i :| 0 <= i < 3 && top[i] == Entry(name, seen(name));
        assert after[i] == top[i];
      } else if j < 3 {
        assert after[j] == Entry(name, raised(name));
      } else {
        assert after[Least(top)] == Entry(name, raised(name));
      }
    }
  }

  /** The slot that holds a name holds its whole count. */
  lemma StoredSourceRises(top: seq<Source>, s: Source, j: nat, seen: string -> int)
    requires TopExact(top, seen) && j == FindFrom(top, s.name, 0) < 3 && seen(s.name) >= 0
    ensures top[j].qty == seen(s.name)
  {
    if seen(s.name) > 0 {
      var i :| 0 <= i < 3 && top[i] == Entry(s.name, seen(s.name));
      assert j <= i;
    }
  }

  lemma {:induction false} MergeSourcesExact(top: seq<Source>, sources: seq<Source>, n: nat, seen: string -> int,
      names: set<string>)
    requires n <= |sources| && Distinct(sources) && |names| <= 3
    requires forall i | 0 <= i < |sources| :: sources[i].qty >= 0 && sources[i].name in names
    requires TopExact(top, seen) && (forall name :: seen(name) >= 0) && forall name | seen(name) > 0 :: name in names
    ensures TopExact(MergeSources(top, sources[..n]), name => seen(name) + Listed(sources, n, name))
  {
    if n > 0 {
      MergeSourcesExact(top, sources, n - 1, seen, names);
      assert sources[..n][..n - 1] == sources[..n - 1];
      var r, s := MergeSources(top, sources[..n - 1]), sources[n - 1];
      var b := name => seen(name) + Listed(sources, n - 1, name);
      var b' := name => seen(name) + Listed(sources, n, name);
      forall name
        ensures b'(name) == b(name) + (if name == s.name then s.qty else 0) && b(name) >= 0
        ensures b(name) > 0 ==> name in names
      {
        ListedStep(sources, n, name);
      }
      MergeSourceExact(r, s, b, b', names);
    } else {
      assert sources[..n] == [];
      assert forall name :: Listed(sources, 0, name) == 0;
    }
  }

  /** A worker that meets at most three sources lists each with its full score. */
  lemma ListedIsScore(entries: seq<LogEntry>, keywords: seq<string>, weight: nat, names: set<string>, name: string)
    requires SourcesHit(entries, keywords) <= names && |names| <= 3
    ensures var sources := Work(entries, keywords, weight).sources;
      && Listed(sources, |sources|, name) == Score(entries, Of(name), keywords, weight)
      && Distinct(sources) && forall i | 0 <= i < |sources| :: sources[i].qty >= 0 && sources[i].name in names
  {
    var sources := Work(entries, keywords, weight).sources;
    SubsetSize(SourcesHit(entries, keywords), names);
    TrackedSourcesExact(entries, keywords, weight);
    TracksSourcesHit(entries, keywords, weight);
    NamesOf(sources);
    forall i | 0 <= i < |sources| ensures sources[i].name in names {
      assert Find(sources, sources[i].name) <= i;
    }
    if name !in SourcesHit(entries, keywords) {
      UnhitScoresNothing(entries, keywords, weight, name);
    }
  }

  /** A name that no worker hits has been seen by none. */
  lemma UnseenName(split: seq<seq<LogEntry>>, order: seq<nat>, name: string, keywords: seq<string>, weight: nat)
    requires forall w | 0 <= w < |split| :: name !in SourcesHit(split[w], keywords)
    ensures Seen(split, order, name, keywords, weight) == 0
  {
    forall w | 0 <= w < |split| ensures Score(split[w], Of(name), keywords, weight) == 0 {
      UnhitScoresNothing(split[w], keywords, weight, name);
    }
    SumOfZeros(Contributions(split, order, Of(name), keywords, weight));
  }

  lemma {:induction false} TopIsExact(split: seq<seq<LogEntry>>, order: seq<nat>, keywords: seq<string>, weight: nat,
      names: set<string>)
    requires forall i | 0 <= i < |order| :: order[i] < |split|
    requires forall i, j | 0 <= i < j < |order| :: order[i] != order[j]
    requires |names| <= 3 && forall w | 0 <= w < |split| :: SourcesHit(split[w], keywords) <= names
    ensures TopExact(MergeAll(split, order, keywords, weight).top, name => Seen(split, order, name, keywords, weight))
  {
    if order == [] {
      forall name ensures Seen(split, order, name, keywords, weight) == 0 {
        SumOfZeros(Contributions(split, order, Of(name), keywords, weight));
      }
    } else {
      var front, w := order[..|order| - 1], order[|order| - 1];
      assert order == front + [w];
      TopIsExact(split, front, keywords, weight, names);
      OneMoreExact(split, front, w, keywords, weight, names);
    }
  }

  lemma SeenIsKnown(split: seq<seq<LogEntry>>, order: seq<nat>, keywords: seq<string>, weight: nat,
      names: set<string>, name: string)
    requires forall v | 0 <= v < |split| :: SourcesHit(split[v], keywords) <= names
    ensures Seen(split, order, name, keywords, weight) >= 0
    ensures Seen(split, order, name, keywords, weight) > 0 ==> name in names
  {
    SumNotNegative(Contributions(split, order, Of(name), keywords, weight));
    if name !in names {
      UnseenName(split, order, name, keywords, weight);
    }
  }

  lemma SeenGrows(split: seq<seq<LogEntry>>, front: seq<nat>, w: nat, keywords: seq<string>, weight: nat,
      names: set<string>, name: string)
    requires w < |split| && w !in front && |names| <= 3 && SourcesHit(split[w], keywords) <= names
    ensures var sources := Work(split[w], keywords, weight).sources;
      Seen(split, front + [w], name, keywords, weight)
        == Seen(split, front, name, keywords, weight) + Listed(sources, |sources|, name)
  {
    ContributionsGrow(split, front, w, Of(name), keywords, weight);
    ListedIsScore(split[w], keywords, weight, names, name);
  }

  lemma SameExact(top: seq<Source>, f: string -> int, g: string -> int)
    requires TopExact(top, f) && forall name :: f(name) == g(name)
    ensures TopExact(top, g)
  {
  }

  lemma OneMoreExact(split: seq<seq<LogEntry>>, front: seq<nat>, w: nat, keywords: seq<string>, weight: nat,
      names: set<string>)
    requires w < |split| && w !in front && forall i | 0 <= i < |front| :: front[i] < |split|
    requires |names| <= 3 && forall v | 0 <= v < |split| :: SourcesHit(split[v], keywords) <= names
    requires TopExact(MergeAll(split, front, keywords, weight).top,
                      name => Seen(split, front, name, keywords, weight))
    ensures TopExact(MergeAll(split, front + [w], keywords, weight).top,
                     name => Seen(split, front + [w], name, keywords, weight))
  {
    var before, sources := MergeAll(split, front, keywords, weight).top, Work(split[w], keywords, weight).sources;
    var seen := name => Seen(split, front, name, keywords, weight);
    forall name ensures seen(name) >= 0 && (seen(name) > 0 ==> name in names) {
      SeenIsKnown(split, front, keywords, weight, names, name);
    }
    ListedIsScore(split[w], keywords, weight, names, "");
    MergeSourcesExact(before, sources, |sources|, seen, names);
    MergedOneMore(split, front, w, keywords, weight);
    var f := name => seen(name) + Listed(sources, |sources|, name);
    var g := name => Seen(split, front + [w], name, keywords, weight);
    forall name ensures f(name) == g(name) {
      SeenGrows(split, front, w, keywords, weight, names, name);
    }
    SameExact(MergeAll(split, front + [w], keywords, weight).top, f, g);
  }

  lemma MergedOneMore(split: seq<seq<LogEntry>>, front: seq<nat>, w: nat, keywords: seq<string>, weight: nat)
    requires w < |split| && forall i | 0 <= i < |front| :: front[i] < |split|
    ensures var sources := Work(split[w], keywords, weight).sources;
      MergeAll(split, front + [w], keywords, weight).top
        == MergeSources(MergeAll(split, front, keywords, weight).top, sources[..|sources|])
  {
    var sources := Work(split[w], keywords, weight).sources;
    assert sources[..|sources|] == sources && (front + [w])[..|front|] == front;
  }

  lemma {:induction false} InFlatten(split: seq<seq<LogEntry>>, w: nat, e: LogEntry)
    requires w < |split| && e in split[w]
    ensures e in Flatten(split)
  {
    if w < |split| - 1 {
      InFlatten(split[..|split| - 1], w, e);
    }
  }

  lemma {:induction false} HitScores(entries: seq<LogEntry>, keywords: seq<string>, weight: nat, name: string)
    requires weight > 0 && name in SourcesHit(entries, keywords)
    ensures Score(entries, Of(name), keywords, weight) > 0
  {
    var front, e := entries[..|entries| - 1], entries[|entries| - 1];
    assert entries == front + [e];
    SourcesHitGrow(front, e, keywords);
    if name in SourcesHit(front, keywords) {
      HitScores(front, keywords, weight, name);
    } else {
      assert TotalHits(e, keywords) * weight > 0;
    }
  }

  lemma SplitSourcesWithin(entries: seq<LogEntry>, split: seq<seq<LogEntry>>, keywords: seq<string>)
    requires Splits(split, entries)
    ensures forall w | 0 <= w < |split| :: SourcesHit(split[w], keywords) <= SourcesHit(entries, keywords)
  {
    forall w | 0 <= w < |split| ensures SourcesHit(split[w], keywords) <= SourcesHit(entries, keywords) {
      forall e | e in split[w] ensures e in entries {
        InFlatten(split, w, e);
        assert e in multiset(Flatten(split)) && e in multiset(entries);
      }
    }
  }

  /** Once every worker is merged, what has been seen of a name is its score. */
  lemma SeenIsScore(entries: seq<LogEntry>, split: seq<seq<LogEntry>>, order: seq<nat>, name: string,
      keywords: seq<string>, weight: nat)
    requires Splits(split, entries) && Ordering(order, |split|)
    ensures Seen(split, order, name, keywords, weight) == Score(entries, Of(name), keywords, weight)
  {
    OrderingIsComplete(order, |split|);
    assert Contributions(split, order, Of(name), keywords, weight) == Scores(split, Of(name), keywords, weight);
    ScoresAddUp(split, Of(name), keywords, weight);
    ScoreRearranged(Flatten(split), entries, Of(name), keywords, weight);
  }

  lemma StoredExactly(top: seq<Source>, seen: string -> int, name: string)
    requires TopExact(top, seen)
    ensures |top| == 3 && (seen(name) > 0 ==> Entry(name, seen(name)) in top)
  {
  }

  lemma FewSourcesStored(entries: seq<LogEntry>, split: seq<seq<LogEntry>>, order: seq<nat>,
      keywords: seq<string>, weight: nat, name: string)
    requires Splits(split, entries) && Ordering(order, |split|) && |SourcesHit(entries, keywords)| <= 3
    ensures var top, seen := MergeAll(split, order, keywords, weight).top, Seen(split, order, name, keywords, weight);
      |top| == 3 && (seen > 0 ==> Entry(name, seen) in top)
  {
    SplitSourcesWithin(entries, split, keywords);
    TopIsExact(split, order, keywords, weight, SourcesHit(entries, keywords));
    var top := MergeAll(split, order, keywords, weight).top;
    StoredExactly(top, x => Seen(split, order, x, keywords, weight), name);
  }

  /**
   * However the entries are split and merged: when at most three sources have hits, each of them stands in a slot
   * with exactly its score over all entries.
   */
  lemma FewSourcesAreExact(entries: seq<LogEntry>, split: seq<seq<LogEntry>>, order: seq<nat>,
      keywords: seq<string>, weight: nat, name: string)
    requires Splits(split, entries) && Ordering(order, |split|) && weight > 0
    requires |SourcesHit(entries, keywords)| <= 3 && name in SourcesHit(entries, keywords)
    ensures var top := MergeAll(split, order, keywords, weight).top;
      |top| == 3 && Entry(name, Score(entries, Of(name), keywords, weight)) in top
  {
    SeenIsScore(entries, split, order, name, keywords, weight);
    HitScores(entries, keywords, weight, name);
    FewSourcesStored(entries, split, order, keywords, weight, name);
  }

  // ---------- A source that is lost ----------

  lemma SomeHits(e: LogEntry, words: seq<string>)
    requires words == ["x"] && (e.message == "x" || e.message == "xx")
    ensures TotalHits(e, words) == |e.message|
  {
    var m := e.message;
    assert Occurrences(m, words[0], |m|) == 0;
    assert words[0] <= m[|m| - 1..];
    assert Occurrences(m, words[0], |m| - 1) == 1;
    assert words[0] <= m[0..];
    assert HitsUpTo(e, words, 1) == HitsUpTo(e, words, 0) + Hits(e, words[0]);
  }

  lemma NextWork(front: seq<LogEntry>, e: LogEntry, words: seq<string>, sources: seq<Source>)
    requires words == ["x"] && (e.message == "x" || e.message == "xx") && Work(front, words, 1).sources == sources
    requires forall i | 0 <= i < |sources| :: sources[i].name != e.source
    requires |sources| < MAX_TRACKED_SOURCES
    ensures Work(front + [e], words, 1).sources == sources + [Entry(e.source, |e.message|)]
  {
    SomeHits(e, words);
    assert (front + [e])[..|front|] == front;
  }

  /** What the first worker lists, and the second one. */
  lemma TwoLists(words: seq<string>)
    requires words == ["x"]
    ensures Work([LogEntry("a", "x"), LogEntry("b", "x"), LogEntry("c", "x")], words, 1).sources
         == [Entry("a", 1), Entry("b", 1), Entry("c", 1)]
    ensures Work([LogEntry("d", "xx"), LogEntry("a", "x")], words, 1).sources == [Entry("d", 2), Entry("a", 1)]
  {
    ListOfThree(LogEntry("a", "x"), LogEntry("b", "x"), LogEntry("c", "x"), words);
    ListOfTwo(LogEntry("d", "xx"), LogEntry("a", "x"), words);
  }

  lemma ListOfTwo(a: LogEntry, b: LogEntry, words: seq<string>)
    requires words == ["x"] && a.source != b.source
    requires (a.message == "x" || a.message == "xx") && (b.message == "x" || b.message == "xx")
    ensures Work([a, b], words, 1).sources == [Entry(a.source, |a.message|), Entry(b.source, |b.message|)]
  {
    assert [] + [a] == [a] && [a] + [b] == [a, b];
    NextWork([], a, words, []);
    NextWork([a], b, words, [Entry(a.source, |a.message|)]);
  }

  lemma ListOfThree(a: LogEntry, b: LogEntry, c: LogEntry, words: seq<string>)
    requires words == ["x"] && a.source != b.source && a.source != c.source && b.source != c.source
    requires a.message == b.message == c.message == "x"
    ensures Work([a, b, c], words, 1).sources == [Entry(a.source, 1), Entry(b.source, 1), Entry(c.source, 1)]
  {
    assert [a, b] + [c] == [a, b, c];
    ListOfTwo(a, b, words);
    NextWork([a, b], c, words, [Entry(a.source, 1), Entry(b.source, 1)]);
  }

  /** The slots after the first worker's destructor, and after the second one's. */
  lemma TwoMerges()
    ensures MergeSources(seq(3, _ => Entry("", 0)), [Entry("a", 1), Entry("b", 1), Entry("c", 1)])
         == [Entry("a", 1), Entry("b", 1), Entry("c", 1)]
    ensures MergeSources([Entry("a", 1), Entry("b", 1), Entry("c", 1)], [Entry("d", 2), Entry("a", 1)])
         == [Entry("d", 2), Entry("b", 1), Entry("c", 1)]
  {
    var a, b, c, d, o := Entry("a", 1), Entry("b", 1), Entry("c", 1), Entry("d", 2), Entry("", 0);
    assert seq(3, _ => o) == [o, o, o];
    assert [a, b, c][..2] == [a, b] && [a, b][..1] == [a] && [a][..0] == [];
    assert MergeSources([o, o, o], [a]) == [a, o, o];
    assert MergeSources([o, o, o], [a, b]) == [a, b, o];
    assert [d, a][..1] == [d] && [d][..0] == [];
    assert MergeSources([a, b, c], [d]) == [d, b, c];
  }

  /**
   * With four sources and two workers the slots need not hold the top three: here source a has two hits in all,
   * one at each worker; the first is evicted, the second finds no slot, and sources with one hit stand there instead.
   */
  lemma EvictedSourceIsLost()
    ensures var split := [[LogEntry("a", "x"), LogEntry("b", "x"), LogEntry("c", "x")],
                          [LogEntry("d", "xx"), LogEntry("a", "x")]];
      && Ordering([0, 1], |split|)
      && MergeAll(split, [0, 1], ["x"], 1).top == [Entry("d", 2), Entry("b", 1), Entry("c", 1)]
      && Score(Flatten(split), Of("a"), ["x"], 1) == 2
  {
    var split := [[LogEntry("a", "x"), LogEntry("b", "x"), LogEntry("c", "x")],
                  [LogEntry("d", "xx"), LogEntry("a", "x")]];
    EvictedMerge(split, ["x"], [0, 1]);
    LostScore(split, ["x"]);
  }

  lemma MergedList(split: seq<seq<LogEntry>>, front: seq<nat>, w: nat, words: seq<string>, sources: seq<Source>)
    requires w < |split| && forall i | 0 <= i < |front| :: front[i] < |split|
    requires Work(split[w], words, 1).sources == sources
    ensures MergeAll(split, front + [w], words, 1).top == MergeSources(MergeAll(split, front, words, 1).top, sources)
  {
    MergedOneMore(split, front, w, words, 1);
    assert sources[..|sources|] == sources;
  }

  lemma EvictedMerge(split: seq<seq<LogEntry>>, words: seq<string>, order: seq<nat>)
    requires words == ["x"] && order == [0, 1]
    requires split == [[LogEntry("a", "x"), LogEntry("b", "x"), LogEntry("c", "x")],
                       [LogEntry("d", "xx"), LogEntry("a", "x")]]
    ensures MergeAll(split, order, words, 1).top == [Entry("d", 2), Entry("b", 1), Entry("c", 1)]
  {
    TwoLists(words);
    TwoMerges();
    var nobody: seq<nat>, one: seq<nat> := [], [0];
    MergedList(split, nobody, 0, words, [Entry("a", 1), Entry("b", 1), Entry("c", 1)]);
    MergedList(split, one, 1, words, [Entry("d", 2), Entry("a", 1)]);
    assert nobody + [0] == one && one + [1] == order;
    assert MergeAll(split, nobody, words, 1).top == seq(3, _ => Entry("", 0));
  }

  lemma ScoreOfOne(e: LogEntry, words: seq<string>)
    requires words == ["x"] && (e.message == "x" || e.message == "xx")
    ensures Score([e], Of("a"), words, 1) == if e.source == "a" then |e.message| else 0
  {
    SomeHits(e, words);
    assert [e][..0] == [];
  }

  lemma LostScore(split: seq<seq<LogEntry>>, words: seq<string>)
    requires words == ["x"]
    requires split == [[LogEntry("a", "x"), LogEntry("b", "x"), LogEntry("c", "x")],
                       [LogEntry("d", "xx"), LogEntry("a", "x")]]
    ensures Score(Flatten(split), Of("a"), words, 1) == 2
  {
    var a, b, c, d := LogEntry("a", "x"), LogEntry("b", "x"), LogEntry("c", "x"), LogEntry("d", "xx");
    FlattenTwo(split);
    ScoreJoin([a, b, c], [d, a], Of("a"), words, 1);
    ScoreJoin([a, b], [c], Of("a"), words, 1);
    ScoreJoin([a], [b], Of("a"), words, 1);
    ScoreJoin([d], [a], Of("a"), words, 1);
    assert [a] + [b] == [a, b] && [a, b] + [c] == [a, b, c] && [d] + [a] == [d, a];
    ScoreOfOne(a, words);
    ScoreOfOne(b, words);
    ScoreOfOne(c, words);
    ScoreOfOne(d, words);
  }

  lemma FlattenTwo(split: seq<seq<LogEntry>>)
    requires |split| == 2
    ensures Flatten(split) == split[0] + split[1]
  {
    assert split[..1] == [split[0]] && [split[0]][..0] == [];
    assert Flatten([split[0]]) == [] + split[0];
  }

  // ---------- One worker ----------

  /** Three slots hold the leaders among the first n sources, or were never filled. */
  ghost predicate Leaders(top: seq<Source>, sources: seq<Source>, n: nat)
    requires n <= |sources|
  {
    && |top| == 3
    && (forall j | 0 <= j < 3 :: top[j] == Entry("", 0) || top[j] in sources[..n])
    && (forall i | 0 <= i < n :: sources[i] in top || forall j | 0 <= j < 3 :: sources[i].qty <= top[j].qty)
  }

  lemma StillStored(top: seq<Source>, sources: seq<Source>, n: nat)
    requires n < |sources| && Distinct(sources) && Leaders(top, sources, n)
    requires sources[n].name != ""
    ensures forall j | 0 <= j < 3 :: top[j].name != sources[n].name
    ensures forall j | 0 <= j < 3 :: top[j] == Entry("", 0) || top[j] in sources[..n + 1]
    ensures sources[n] in sources[..n + 1]
  {
    forall j | 0 <= j < 3
      ensures top[j].name != sources[n].name && (top[j] == Entry("", 0) || top[j] in sources[..n + 1])
    {
      if top[j] in sources[..n] {
        var i :| 0 <= i < n && sources[..n][i] == top[j];
        assert sources[..n + 1][i] == top[j];
      }
    }
    assert sources[n] == sources[..n + 1][n];
  }

  /** A larger source in the place of the least leader. */
  lemma ReplacingLeads(top: seq<Source>, sources: seq<Source>, n: nat, m: nat, i: nat)
    requires i <= n < |sources| && |top| == 3 && m < 3 && sources[n].qty > top[m].qty
    requires forall j | 0 <= j < 3 :: top[m].qty <= top[j].qty
    requires i < n ==> sources[i] in top || forall j | 0 <= j < 3 :: sources[i].qty <= top[j].qty
    ensures var after := top[m := sources[n]];
      sources[i] in after || forall j | 0 <= j < 3 :: sources[i].qty <= after[j].qty
  {
    var after := top[m := sources[n]];
    assert after[m] == sources[n];
    if i < n && sources[i] in top {
      var j :| 0 <= j < 3 && top[j] == sources[i];
      assert j != m ==> after[j] == sources[i];
    }
  }

  lemma MergeSourceLeads(top: seq<Source>, sources: seq<Source>, n: nat)
    requires n < |sources| && Distinct(sources) && Leaders(top, sources, n)
    requires sources[n].name != ""
    ensures Leaders(MergeSource(top, sources[n]), sources, n + 1)
  {
    var s, m := sources[n], Least(top);
    StillStored(top, sources, n);
    if s.qty > top[m].qty {
      var after := MergeSource(top, s);
      assert after == top[m := s];
      forall i: nat | i <= n
        ensures sources[i] in after || forall j | 0 <= j < 3 :: sources[i].qty <= after[j].qty
      {
        ReplacingLeads(top, sources, n, m, i);
      }
    } else {
      assert MergeSource(top, s) == top;
    }
  }

  lemma {:induction false} MergeSourcesLead(sources: seq<Source>, n: nat)
    requires n <= |sources| && Distinct(sources)
    requires forall i | 0 <= i < |sources| :: sources[i].name != "" && sources[i].qty >= 0
    ensures Leaders(MergeSources(seq(3, _ => Entry("", 0)), sources[..n]), sources, n)
  {
    if n > 0 {
      MergeSourcesLead(sources, n - 1);
      assert sources[..n][..n - 1] == sources[..n - 1];
      MergeSourceLeads(MergeSources(seq(3, _ => Entry("", 0)), sources[..n - 1]), sources, n - 1);
    }
  }

  lemma {:induction false} TrackedNames(entries: seq<LogEntry>, keywords: seq<string>, weight: nat)
    requires forall e | e in entries :: e.source != ""
    ensures forall i | 0 <= i < |Work(entries, keywords, weight).sources| ::
      Work(entries, keywords, weight).sources[i].name != ""
  {
    if entries != [] {
      assert entries[|entries| - 1] in entries;
      TrackedNames(entries[..|entries| - 1], keywords, weight);
    }
  }

  lemma OneWorkerMerge(entries: seq<LogEntry>, keywords: seq<string>, weight: nat)
    ensures MergeAll([entries], [0], keywords, weight).top
         == MergeSources(seq(3, _ => Entry("", 0)), Work(entries, keywords, weight).sources)
  {
    assert [0][..0] == [];
  }

  lemma LeaderHits(top: seq<Source>, sources: seq<Source>)
    requires Leaders(top, sources, |sources|) && forall i | 0 <= i < |sources| :: sources[i].qty >= 0
    ensures forall j | 0 <= j < 3 :: top[j].qty >= 0
  {
    assert sources[..|sources|] == sources;
  }

  lemma WorkerTracks(entries: seq<LogEntry>, keywords: seq<string>, weight: nat, name: string)
    requires |SourcesHit(entries, keywords)| <= MAX_TRACKED_SOURCES
    ensures var sources, score := Work(entries, keywords, weight).sources, Score(entries, Of(name), keywords, weight);
      Distinct(sources) && (forall i | 0 <= i < |sources| :: sources[i].qty >= 0)
      && (score == 0 || Entry(name, score) in sources)
  {
    var sources := Work(entries, keywords, weight).sources;
    TrackedSourcesExact(entries, keywords, weight);
    TracksSourcesHit(entries, keywords, weight);
    NamesOf(sources);
    if name in SourcesHit(entries, keywords) {
      assert sources[Find(sources, name)] == Entry(name, Score(entries, Of(name), keywords, weight));
    } else {
      UnhitScoresNothing(entries, keywords, weight, name);
    }
  }

  /**
   * With one worker, and no more than 256 sources hit, the stored top sources are
   * exact: each source is stored with its true score, or scores no more than any stored one.
   */
  lemma OneWorkerTopIsExact(entries: seq<LogEntry>, keywords: seq<string>, weight: nat, name: string)
    requires forall e | e in entries :: e.source != ""
    requires |SourcesHit(entries, keywords)| <= MAX_TRACKED_SOURCES
    ensures var top := MergeAll([entries], [0], keywords, weight).top;
      var score := Score(entries, Of(name), keywords, weight);
      |top| == 3 && (Entry(name, score) in top || forall j | 0 <= j < 3 :: score <= top[j].qty)
  {
    var sources := Work(entries, keywords, weight).sources;
    WorkerTracks(entries, keywords, weight, name);
    TrackedNames(entries, keywords, weight);
    OneWorkerMerge(entries, keywords, weight);
    MergeSourcesLead(sources, |sources|);
    assert sources[..|sources|] == sources;
    LeaderHits(MergeSources(seq(3, _ => Entry("", 0)), sources), sources);
  }
}
