/**
 * Several reader processes share region A.  Each parser pushes its entries, then a marker for each level, and the
 * dispatcher forwards a level's EOF once as many markers of it were pushed as there are readers.
 */
module ManyReaders {
  import opened Pipeline
  import opened PipelineSafety

  /** A parser: the entries it still pushes, and how many levels it has marked. */
  datatype Feed = Feed(todo: seq<Entry>, marked: nat)

  /** sent[lv] is the history of region B of level lv: everything ever pushed into it, in order. */
  datatype Net = Net(s: Sys, feeds: seq<Feed>, sent: seq<seq<Entry>>)

  ghost predicate Sound(c: Caps, n: Net) {
    Shape(c, n.s) && |n.sent| == LEVELS && n.s.totalReaders == |n.feeds|
  }

  // ---------- Steps ----------

  ghost predicate FeedStep(c: Caps, n: Net, i: nat, m: Net)
    requires Sound(c, n)
  {
    && i < |n.feeds| && |n.s.a| < c.a
    && var f := n.feeds[i];
       if f.todo != [] then
         m == Net(n.s.(a := n.s.a + [f.todo[0]]), n.feeds[i := f.(todo := f.todo[1..])], n.sent)
       else
         && f.marked < LEVELS
         && m == Net(n.s.(a := n.s.a + [Marker(f.marked)],
                          eofCount := n.s.eofCount[f.marked := n.s.eofCount[f.marked] + 1]),
                     n.feeds[i := f.(marked := f.marked + 1)], n.sent)
  }

  /** What a dispatcher step pushes into region B of a level. */
  function Pushed(s: Sys, lv: nat): seq<Entry> {
    match s.dispatcher
    case Routing(e) => if e.level == lv then [e] else []
    case Forwarding(l) => if l == lv then [Marker(0)] else []
    case Forcing(l) => if l == lv && l < |s.forwarded| && !s.forwarded[l] then [Marker(0)] else []
    case _ => []
  }

  function Logged(n: Net): seq<seq<Entry>> {
    seq(|n.sent|, lv requires 0 <= lv < |n.sent| => n.sent[lv] + Pushed(n.s, lv))
  }

  ghost predicate RouteStep(c: Caps, n: Net, m: Net)
    requires Sound(c, n)
  {
    DispatcherStep(c, n.s, m.s) && m.feeds == n.feeds && m.sent == Logged(n)
  }

  ghost predicate TakeStep(c: Caps, n: Net, w: nat, m: Net)
    requires Sound(c, n)
  {
    WorkerStep(c, n.s, w, m.s) && m.feeds == n.feeds && m.sent == n.sent
  }

  ghost predicate NetNext(c: Caps, n: Net, m: Net)
    requires Sound(c, n)
  {
    || (exists i: nat :: FeedStep(c, n, i, m))
    || RouteStep(c, n, m)
    || (exists w: nat :: TakeStep(c, n, w, m))
  }

  ghost predicate NetInit(c: Caps, n: Net) {
    && Sound(c, n) && n.feeds != []
    && (forall i | 0 <= i < |n.feeds| :: n.feeds[i].marked == 0 && forall e | e in n.feeds[i].todo :: Datum(e))
    && n.s.a == [] && n.s.eofCount == [0, 0, 0, 0]
    && n.s.dispatcher == Fetching && n.s.forwarded == [false, false, false, false] && n.s.finishedLevels == 0
    && n.s.b == [[], [], [], []] && n.sent == [[], [], [], []]
    && n.s.eofPosted == [false, false, false, false] && n.s.eofsPushed == [0, 0, 0, 0]
    && (forall w | 0 <= w < |n.s.workers| :: n.s.workers[w].stage == Looping && n.s.workers[w].processed == [])
  }

  ghost predicate NetStepAt(c: Caps, run: seq<Net>, i: nat) {
    i + 1 < |run| && Sound(c, run[i]) && NetNext(c, run[i], run[i + 1])
  }

  ghost predicate IsNetRun(c: Caps, run: seq<Net>) {
    0 < |run| && NetInit(c, run[0]) && forall i | 0 <= i < |run| - 1 :: NetStepAt(c, run, i)
  }

  // ---------- What every run keeps ----------

  /** How many parsers have marked level lv. */
  function MarkedBeyond(feeds: seq<Feed>, lv: nat): nat {
    if feeds == [] then 0
    else MarkedBeyond(feeds[..|feeds| - 1], lv) + if feeds[|feeds| - 1].marked > lv then 1 else 0
  }

  lemma {:induction false} MarkedUpdate(feeds: seq<Feed>, i: nat, f: Feed, lv: nat)
    requires i < |feeds|
    ensures MarkedBeyond(feeds[i := f], lv)
         == MarkedBeyond(feeds, lv) - (if feeds[i].marked > lv then 1 else 0) + if f.marked > lv then 1 else 0
  {
    var n := |feeds| - 1;
    if i == n {
      assert feeds[i := f][..n] == feeds[..n];
    } else {
      MarkedUpdate(feeds[..n], i, f, lv);
      assert feeds[i := f][..n] == feeds[..n][i := f];
    }
  }

  /** Only when every parser has marked a level are there as many marks as parsers. */
  lemma {:induction false} AllMarked(feeds: seq<Feed>, lv: nat)
    ensures MarkedBeyond(feeds, lv) <= |feeds|
    ensures MarkedBeyond(feeds, lv) == |feeds| ==> forall i | 0 <= i < |feeds| :: feeds[i].marked > lv
  {
    if feeds != [] {
      AllMarked(feeds[..|feeds| - 1], lv);
    }
  }

  lemma {:induction false} NoneMarked(feeds: seq<Feed>, lv: nat)
    requires forall i | 0 <= i < |feeds| :: feeds[i].marked == 0
    ensures MarkedBeyond(feeds, lv) == 0
  {
    if feeds != [] {
      NoneMarked(feeds[..|feeds| - 1], lv);
    }
  }

  /** A parser marks only after its last entry. */
  ghost predicate FeedOk(f: Feed) {
    && f.marked <= LEVELS && (f.marked > 0 ==> f.todo == [])
    && (forall i | 0 <= i < |f.todo| :: Datum(f.todo[i]))
  }

  ghost predicate FeedsOk(n: Net)
    requires Sized(n.s)
  {
    && (forall i | 0 <= i < |n.feeds| :: FeedOk(n.feeds[i]))
    && (forall lv | 0 <= lv < LEVELS :: n.s.eofCount[lv] == MarkedBeyond(n.feeds, lv))
  }

  /** What the dispatcher holds is valid; an EOF about to go out has its count. */
  ghost predicate HandOk(n: Net)
    requires Sized(n.s)
  {
    && (forall i | 0 <= i < |n.s.a| :: Valid(n.s.a[i].level))
    && (n.s.dispatcher.Routing? ==> Datum(n.s.dispatcher.e))
    && (n.s.dispatcher.Checking? ==> n.s.dispatcher.level < LEVELS)
    && (n.s.dispatcher.Forwarding? ==>
          var lv := n.s.dispatcher.level;
          lv < LEVELS && !n.s.forwarded[lv] && n.s.eofCount[lv] >= n.s.totalReaders)
  }

  /** While the dispatcher loops, a level not yet forwarded has had no EOF. */
  ghost predicate LogOk(n: Net)
    requires Sized(n.s) && |n.sent| == LEVELS
  {
    !n.s.dispatcher.Forcing? && !n.s.dispatcher.DispatcherGone? ==>
      forall lv | 0 <= lv < LEVELS && !n.s.forwarded[lv] :: NoMarkers(n.sent[lv])
  }

  ghost predicate NetInv(c: Caps, n: Net) {
    Sound(c, n) && FeedsOk(n) && HandOk(n) && LogOk(n)
  }

  lemma FeedKeeps(c: Caps, n: Net, i: nat, m: Net)
    requires NetInv(c, n) && FeedStep(c, n, i, m)
    ensures NetInv(c, m)
  {
    assert FeedOk(n.feeds[i]);
    forall lv | 0 <= lv < LEVELS ensures m.s.eofCount[lv] == MarkedBeyond(m.feeds, lv) {
      MarkedUpdate(n.feeds, i, m.feeds[i], lv);
    }
  }

  lemma RouteKeeps(c: Caps, n: Net, m: Net)
    requires NetInv(c, n) && RouteStep(c, n, m)
    ensures NetInv(c, m)
  {
    RouteKeepsFeeds(c, n, m);
    RouteKeepsHand(c, n, m);
    RouteKeepsLog(c, n, m);
  }

  lemma RouteKeepsFeeds(c: Caps, n: Net, m: Net)
    requires NetInv(c, n) && RouteStep(c, n, m)
    ensures Sound(c, m) && FeedsOk(m)
  {
  }

  lemma RouteKeepsHand(c: Caps, n: Net, m: Net)
    requires Sound(c, n) && HandOk(n) && RouteStep(c, n, m) && Sound(c, m)
    ensures HandOk(m)
  {
    if n.s.dispatcher.Fetching? && n.s.a != [] {
      assert n.s.a[0] in n.s.a;
      assert forall i | 0 <= i < |n.s.a| - 1 :: n.s.a[1..][i] == n.s.a[i + 1];
    }
  }

  lemma RouteKeepsLog(c: Caps, n: Net, m: Net)
    requires Sound(c, n) && HandOk(n) && LogOk(n) && RouteStep(c, n, m) && Sound(c, m)
    ensures LogOk(m)
  {
    if !m.s.dispatcher.Forcing? && !m.s.dispatcher.DispatcherGone? {
      forall lv | 0 <= lv < LEVELS && !m.s.forwarded[lv] ensures NoMarkers(m.sent[lv]) {
        RouteLogs(c, n, m, lv);
        assert m.sent[lv] == n.sent[lv] + Pushed(n.s, lv);
      }
    }
  }

  /** A step that leaves the dispatcher in its loop pushes an EOF only to the level it forwards. */
  lemma RouteLogs(c: Caps, n: Net, m: Net, lv: nat)
    requires Sound(c, n) && HandOk(n) && RouteStep(c, n, m) && Sound(c, m) && lv < LEVELS && !m.s.forwarded[lv]
    requires !m.s.dispatcher.Forcing? && !m.s.dispatcher.DispatcherGone?
    ensures !n.s.dispatcher.Forcing? && !n.s.dispatcher.DispatcherGone?
    ensures !n.s.forwarded[lv] && NoMarkers(Pushed(n.s, lv))
  {
  }

  lemma TakeKeeps(c: Caps, n: Net, w: nat, m: Net)
    requires NetInv(c, n) && TakeStep(c, n, w, m)
    ensures NetInv(c, m)
  {
  }

  // ---------- Every entry is somewhere ----------

  function InFeeds(feeds: seq<Feed>, x: Entry): nat {
    if feeds == [] then 0 else InFeeds(feeds[..|feeds| - 1], x) + Copies(feeds[|feeds| - 1].todo, x)
  }

  lemma {:induction false} InFeedsUpdate(feeds: seq<Feed>, i: nat, f: Feed, x: Entry)
    requires i < |feeds|
    ensures InFeeds(feeds[i := f], x) == InFeeds(feeds, x) - Copies(feeds[i].todo, x) + Copies(f.todo, x)
  {
    var n := |feeds| - 1;
    if i == n {
      assert feeds[i := f][..n] == feeds[..n];
    } else {
      InFeedsUpdate(feeds[..n], i, f, x);
      assert feeds[i := f][..n] == feeds[..n][i := f];
    }
  }

  lemma {:induction false} NothingToFeed(feeds: seq<Feed>, x: Entry)
    requires forall i | 0 <= i < |feeds| :: feeds[i].todo == []
    ensures InFeeds(feeds, x) == 0
  {
    if feeds != [] {
      NothingToFeed(feeds[..|feeds| - 1], x);
    }
  }

  /** Copies of x not yet pushed by its parser, in region A, in the dispatcher's hand, or sent to its level. */
  function Traced(n: Net, x: Entry): nat
    requires Datum(x) && |n.sent| == LEVELS
  {
    InFeeds(n.feeds, x) + Copies(n.s.a, x) + InDispatcher(n.s.dispatcher, x) + Copies(n.sent[x.level], x)
  }

  lemma FeedTraces(c: Caps, n: Net, i: nat, m: Net, x: Entry)
    requires NetInv(c, n) && FeedStep(c, n, i, m) && Datum(x)
    ensures Traced(m, x) == Traced(n, x)
  {
    var f := n.feeds[i];
    InFeedsUpdate(n.feeds, i, m.feeds[i], x);
    if f.todo != [] {
      CopiesOfFront(f.todo, x);
      CopiesOfBack(n.s.a, f.todo[0], x);
    } else {
      CopiesOfBack(n.s.a, Marker(f.marked), x);
    }
  }

  lemma PushTraced(n: Net, x: Entry)
    requires |n.sent| == LEVELS && Datum(x)
    ensures Copies(Logged(n)[x.level], x)
         == Copies(n.sent[x.level], x) + if n.s.dispatcher.Routing? then Same(n.s.dispatcher.e, x) else 0
  {
    var lv: nat := x.level;
    assert Logged(n)[lv] == n.sent[lv] + Pushed(n.s, lv);
    CopiesJoin(n.sent[lv], Pushed(n.s, lv), x);
    PushedCopies(n.s, x);
  }

  lemma PushedCopies(s: Sys, x: Entry)
    requires Datum(x)
    ensures Copies(Pushed(s, x.level), x) == if s.dispatcher.Routing? then Same(s.dispatcher.e, x) else 0
  {
  }

  lemma RouteTraces(c: Caps, n: Net, m: Net, x: Entry)
    requires NetInv(c, n) && RouteStep(c, n, m) && Datum(x)
    ensures |m.sent| == LEVELS && Traced(m, x) == Traced(n, x)
  {
    PushTraced(n, x);
    if n.s.dispatcher.Fetching? && n.s.a != [] {
      CopiesOfFront(n.s.a, x);
    }
  }

  // ---------- Runs ----------

  lemma NetStepKeeps(c: Caps, n: Net, m: Net, x: Entry)
    requires NetInv(c, n) && NetNext(c, n, m) && Datum(x)
    ensures NetInv(c, m) && Traced(m, x) == Traced(n, x)
  {
    if i: nat :| FeedStep(c, n, i, m) {
      FeedKeeps(c, n, i, m);
      FeedTraces(c, n, i, m, x);
    } else if RouteStep(c, n, m) {
      RouteKeeps(c, n, m);
      RouteTraces(c, n, m, x);
    } else {
      var w: nat :| TakeStep(c, n, w, m);
      TakeKeeps(c, n, w, m);
    }
  }

  lemma NetInitIsSafe(c: Caps, n: Net, x: Entry)
    requires NetInit(c, n) && Datum(x)
    ensures NetInv(c, n) && Traced(n, x) == InFeeds(n.feeds, x)
  {
    forall lv | 0 <= lv < LEVELS ensures MarkedBeyond(n.feeds, lv) == 0 {
      NoneMarked(n.feeds, lv);
    }
  }

  lemma {:induction false} NetRunIsSafe(c: Caps, run: seq<Net>, i: nat, x: Entry)
    requires IsNetRun(c, run) && i < |run| && Datum(x)
    ensures NetInv(c, run[i]) && Traced(run[i], x) == InFeeds(run[0].feeds, x)
  {
    if i == 0 {
      NetInitIsSafe(c, run[0], x);
    } else {
      NetRunIsSafe(c, run, i - 1, x);
      assert NetStepAt(c, run, i - 1);
      NetStepKeeps(c, run[i - 1], run[i], x);
    }
  }

  // ---------- The EOF test ----------

  /** The dispatcher's test for level lv has passed; its EOF is the next thing it pushes. */
  predicate Passing(n: Net, lv: nat) {
    n.s.dispatcher == Forwarding(lv)
  }

  /** When the test passes, for any number of readers, every parser has pushed all its entries. */
  lemma TestMeansAllPushed(c: Caps, run: seq<Net>, i: nat, lv: nat)
    requires IsNetRun(c, run) && i < |run| && Passing(run[i], lv)
    ensures lv < LEVELS && |run[i].sent| == LEVELS && NoMarkers(run[i].sent[lv])
    ensures forall k | 0 <= k < |run[i].feeds| :: run[i].feeds[k].todo == []
  {
    NetRunIsSafe(c, run, i, Entry(0, false, 0));
    AllMarked(run[i].feeds, lv);
    forall k | 0 <= k < |run[i].feeds| ensures run[i].feeds[k].todo == [] {
      assert FeedOk(run[i].feeds[k]);
    }
  }

  /** Every entry of the level, as often as it was read, is queued for the workers. */
  ghost predicate AllSent(run: seq<Net>, i: nat, lv: nat) {
    && 0 < |run| && i < |run| && lv < |run[i].sent|
    && forall x | Datum(x) && x.level == lv :: Copies(run[i].sent[lv], x) == InFeeds(run[0].feeds, x)
  }

  lemma {:induction false} CopiesIffIn(q: seq<Entry>, x: Entry)
    ensures Copies(q, x) > 0 <==> x in q
  {
    if q != [] {
      CopiesIffIn(q[..|q| - 1], x);
    }
  }

  /**
   * For any number of readers: all entries of a level go out ahead of its EOF exactly when, as the dispatcher's
   * test passes, region A holds no entry of the level.
   */
  lemma EofLastIffRegionAClear(c: Caps, run: seq<Net>, i: nat, lv: nat)
    requires IsNetRun(c, run) && i < |run| && Passing(run[i], lv)
    ensures AllSent(run, i, lv) <==> forall k | 0 <= k < |run[i].s.a| :: run[i].s.a[k].eof || run[i].s.a[k].level != lv
  {
    TestMeansAllPushed(c, run, i, lv);
    var n := run[i];
    forall x | Datum(x) && x.level == lv
      ensures Copies(n.sent[lv], x) + Copies(n.s.a, x) == InFeeds(run[0].feeds, x)
    {
      NetRunIsSafe(c, run, i, x);
      NothingToFeed(n.feeds, x);
    }
    if AllSent(run, i, lv) {
      forall k | 0 <= k < |n.s.a| ensures n.s.a[k].eof || n.s.a[k].level != lv {
        var x := n.s.a[k];
        if !x.eof && x.level == lv {
          CopiesIffIn(n.s.a, x);
        }
      }
    } else {
      var x :| Datum(x) && x.level == lv && Copies(n.sent[lv], x) != InFeeds(run[0].feeds, x);
      CopiesIffIn(n.s.a, x);
      var k :| 0 <= k < |n.s.a| && n.s.a[k] == x;
      assert !(n.s.a[k].eof || n.s.a[k].level != lv);
    }
  }

  // ---------- A second reader overtaken ----------

  /** Two readers and one worker a level; only level 0 sees any traffic. */
  function Scene(feeds: seq<Feed>, a: seq<Entry>, count: int, d: Dispatcher, passed: bool,
                 b: seq<Entry>, w: Stage, sent: seq<Entry>): Net {
    Net(Sys([], [], 0, true, ParserGone, a, [count, 0, 0, 0], 2,
            d, [passed, false, false, false], if passed then 1 else 0,
            [b, [], [], []], [passed, false, false, false], [if passed then 1 else 0, 0, 0, 0],
            [Worker(0, w, []), Worker(1, Looping, []), Worker(2, Looping, []), Worker(3, Looping, [])]),
        feeds, [sent, [], [], []])
  }

  /**
   * The first reader has nothing and marks level 0; the second pushes e and then its marker; the dispatcher pops
   * the first marker, finds two pushed, and sends the EOF, which the worker takes; only then does e go out.
   */
  function Overtaking(e: Entry): seq<Net> {
    var m := Marker(0);
    var idle, one, two := Feed([], 0), Feed([], 1), Feed([e], 0);
    [Scene([idle, two], [], 0, Fetching, false, [], Looping, []),
     Scene([one, two], [m], 1, Fetching, false, [], Looping, []),
     Scene([one, idle], [m, e], 1, Fetching, false, [], Looping, []),
     Scene([one, one], [m, e, m], 2, Fetching, false, [], Looping, []),
     Scene([one, one], [e, m], 2, Checking(0), false, [], Looping, []),
     Scene([one, one], [e, m], 2, Forwarding(0), false, [], Looping, []),
     Scene([one, one], [e, m], 2, Fetching, true, [m], Looping, [m]),
     Scene([one, one], [e, m], 2, Fetching, true, [], Left, [m]),
     Scene([one, one], [m], 2, Routing(e), true, [], Left, [m]),
     Scene([one, one], [m], 2, Fetching, true, [e], Left, [m, e])]
  }

  ghost predicate Goes(c: Caps, n: Net, m: Net) {
    Sound(c, n) && NetNext(c, n, m)
  }

  lemma Pushing(c: Caps, n: Net, i: nat, m: Net)
    requires Sound(c, n) && FeedStep(c, n, i, m)
    ensures Goes(c, n, m)
  {
  }

  lemma QuietLog(n: Net)
    requires forall lv: nat :: Pushed(n.s, lv) == []
    ensures Logged(n) == n.sent
  {
    forall lv: nat | lv < |n.sent| ensures Logged(n)[lv] == n.sent[lv] {
      assert Pushed(n.s, lv) == [];
    }
  }

  lemma FirstMarks(c: Caps, e: Entry)
    requires 0 < c.ibuf && 3 <= c.a && 0 < c.b && Datum(e) && e.level == 0
    ensures Goes(c, Overtaking(e)[0], Overtaking(e)[1])
  {
    var run, m := Overtaking(e), Marker(0);
    assert [Feed([], 0), Feed([e], 0)][0 := Feed([], 1)] == [Feed([], 1), Feed([e], 0)];
    assert [0, 0, 0, 0][0 := 1] == [1, 0, 0, 0] && [] + [m] == [m];
    Pushing(c, run[0], 0, run[1]);
  }

  lemma SecondPushes(c: Caps, e: Entry)
    requires 0 < c.ibuf && 3 <= c.a && 0 < c.b && Datum(e) && e.level == 0
    ensures Goes(c, Overtaking(e)[1], Overtaking(e)[2])
  {
    var run, m := Overtaking(e), Marker(0);
    assert [Feed([], 1), Feed([e], 0)][1 := Feed([], 0)] == [Feed([], 1), Feed([], 0)];
    assert [e][1..] == [] && [m] + [e] == [m, e];
    Pushing(c, run[1], 1, run[2]);
  }

  lemma SecondMarks(c: Caps, e: Entry)
    requires 0 < c.ibuf && 3 <= c.a && 0 < c.b && Datum(e) && e.level == 0
    ensures Goes(c, Overtaking(e)[2], Overtaking(e)[3])
  {
    var run, m := Overtaking(e), Marker(0);
    assert [Feed([], 1), Feed([], 0)][1 := Feed([], 1)] == [Feed([], 1), Feed([], 1)];
    assert [1, 0, 0, 0][0 := 2] == [2, 0, 0, 0] && [m, e] + [m] == [m, e, m];
    Pushing(c, run[2], 1, run[3]);
  }

  lemma MarkerPopped(c: Caps, e: Entry)
    requires 0 < c.ibuf && 3 <= c.a && 0 < c.b && Datum(e) && e.level == 0
    ensures Goes(c, Overtaking(e)[3], Overtaking(e)[4])
  {
    var run, m := Overtaking(e), Marker(0);
    assert [m, e, m][1..] == [e, m];
    QuietLog(run[3]);
    assert RouteStep(c, run[3], run[4]);
  }

  lemma TestPasses(c: Caps, e: Entry)
    requires 0 < c.ibuf && 3 <= c.a && 0 < c.b && Datum(e) && e.level == 0
    ensures Goes(c, Overtaking(e)[4], Overtaking(e)[5])
  {
    var run := Overtaking(e);
    QuietLog(run[4]);
    assert RouteStep(c, run[4], run[5]);
  }

  lemma EofGoesOut(c: Caps, e: Entry)
    requires 0 < c.ibuf && 3 <= c.a && 0 < c.b && Datum(e) && e.level == 0
    ensures Goes(c, Overtaking(e)[5], Overtaking(e)[6])
  {
    var run, m := Overtaking(e), Marker(0);
    assert [] + [m] == [m];
    assert [[], [], [], []][0 := [m]] == [[m], [], [], []];
    assert [false, false, false, false][0 := true] == [true, false, false, false];
    assert [0, 0, 0, 0][0 := 1] == [1, 0, 0, 0];
    forall lv: nat | lv < 4 ensures Logged(run[5])[lv] == [[m], [], [], []][lv] {
    }
    assert RouteStep(c, run[5], run[6]);
  }

  lemma WorkerLeaves(c: Caps, e: Entry)
    requires 0 < c.ibuf && 3 <= c.a && 0 < c.b && Datum(e) && e.level == 0
    ensures Goes(c, Overtaking(e)[6], Overtaking(e)[7])
  {
    var run, m := Overtaking(e), Marker(0);
    assert [m][1..] == [];
    assert [[m], [], [], []][0 := []] == [[], [], [], []];
    assert run[6].s.workers[0 := run[6].s.workers[0].(stage := Left)] == run[7].s.workers;
    assert TakeStep(c, run[6], 0, run[7]);
  }

  lemma EntryPopped(c: Caps, e: Entry)
    requires 0 < c.ibuf && 3 <= c.a && 0 < c.b && Datum(e) && e.level == 0
    ensures Goes(c, Overtaking(e)[7], Overtaking(e)[8])
  {
    var run, m := Overtaking(e), Marker(0);
    assert [e, m][1..] == [m];
    QuietLog(run[7]);
    assert RouteStep(c, run[7], run[8]);
  }

  lemma EntryGoesOut(c: Caps, e: Entry)
    requires 0 < c.ibuf && 3 <= c.a && 0 < c.b && Datum(e) && e.level == 0
    ensures Goes(c, Overtaking(e)[8], Overtaking(e)[9])
  {
    var run, m := Overtaking(e), Marker(0);
    assert [] + [e] == [e] && [m] + [e] == [m, e];
    assert [[], [], [], []][0 := [e]] == [[e], [], [], []];
    forall lv: nat | lv < 4 ensures Logged(run[8])[lv] == [[m, e], [], [], []][lv] {
    }
    assert RouteStep(c, run[8], run[9]);
  }

  lemma OvertakingGoes(c: Caps, e: Entry)
    requires 0 < c.ibuf && 3 <= c.a && 0 < c.b && Datum(e) && e.level == 0
    ensures |Overtaking(e)| == 10
    ensures forall i | 0 <= i < |Overtaking(e)| - 1 :: Goes(c, Overtaking(e)[i], Overtaking(e)[i + 1])
  {
    FirstMarks(c, e);
    SecondPushes(c, e);
    SecondMarks(c, e);
    MarkerPopped(c, e);
    TestPasses(c, e);
    EofGoesOut(c, e);
    WorkerLeaves(c, e);
    EntryPopped(c, e);
    EntryGoesOut(c, e);
  }

  /** Two readers, any entry of level 0: a run in which it is queued behind the EOF, after its only worker has left. */
  lemma SecondReaderOvertaken(c: Caps, e: Entry)
    requires 0 < c.ibuf && 3 <= c.a && 0 < c.b && Datum(e) && e.level == 0
    ensures IsNetRun(c, Overtaking(e))
    ensures Overtaking(e)[9].sent[0] == [Marker(0), e]
    ensures Overtaking(e)[9].s.b[0] == [e]
    ensures forall w | 0 <= w < 4 && Overtaking(e)[9].s.workers[w].level == 0 ::
      Overtaking(e)[9].s.workers[w].stage == Left && Overtaking(e)[9].s.workers[w].processed == []
  {
    OvertakingGoes(c, e);
    OvertakingStarts(c, e);
    GoingIsRun(c, Overtaking(e));
  }

  lemma GoingIsRun(c: Caps, run: seq<Net>)
    requires 0 < |run| && NetInit(c, run[0]) && forall i | 0 <= i < |run| - 1 :: Goes(c, run[i], run[i + 1])
    ensures IsNetRun(c, run)
  {
    forall i | 0 <= i < |run| - 1 ensures NetStepAt(c, run, i) {
      assert Goes(c, run[i], run[i + 1]);
    }
  }

  lemma OvertakingStarts(c: Caps, e: Entry)
    requires 0 < c.ibuf && 3 <= c.a && 0 < c.b && Datum(e) && e.level == 0
    ensures NetInit(c, Overtaking(e)[0])
  {
  }
}
