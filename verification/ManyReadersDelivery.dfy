/**
 * With several readers: which entries of a level its workers process before they have all left.
 */
module ManyReadersDelivery {
  import opened Pipeline
  import opened PipelineSafety
  import opened ManyReaders

  // ---------- One EOF a level ----------

  function Unit(b: bool): int {
    if b then 1 else 0
  }

  /** The dispatcher counts the levels it has forwarded, so none is left when it goes over them again. */
  ghost predicate CountOk(s: Sys)
    requires Sized(s)
  {
    && s.finishedLevels == Unit(s.forwarded[0]) + Unit(s.forwarded[1]) + Unit(s.forwarded[2]) + Unit(s.forwarded[3])
    && (s.dispatcher.Forcing? || s.dispatcher.DispatcherGone? ==> AllForwarded(s))
  }

  /** Exactly one marker, at position k. */
  ghost predicate MarkerAt(q: seq<Entry>, k: nat) {
    k < |q| && q[k].eof && forall i | 0 <= i < |q| && i != k :: !q[i].eof
  }

  ghost predicate OneMarker(q: seq<Entry>) {
    exists k: nat :: MarkerAt(q, k)
  }

  /** Region B of a level holds the end of what was sent to it; the rest has been taken. */
  ghost predicate LevelOk(n: Net, lv: nat)
    requires Sized(n.s) && |n.sent| == LEVELS && lv < LEVELS
  {
    && |n.s.b[lv]| <= |n.sent[lv]| && n.sent[lv][|n.sent[lv]| - |n.s.b[lv]|..] == n.s.b[lv]
    && (forall i | 0 <= i < |n.sent[lv]| && !n.sent[lv][i].eof :: n.sent[lv][i].level == lv)
    && n.s.eofPosted[lv] == n.s.forwarded[lv]
    && (if n.s.forwarded[lv] then OneMarker(n.sent[lv]) else NoMarkers(n.sent[lv]))
  }

  /** A worker holds and has processed entries of its level; it leaves only when the EOF has been taken. */
  ghost predicate HandOfWorker(n: Net, k: Worker)
    requires Sized(n.s)
  {
    && k.level < LEVELS && OwnLevelOnly(k)
    && (k.stage.Busy? ==> !k.stage.e.eof && k.stage.e.level == k.level)
    && (k.stage.Left? ==> n.s.forwarded[k.level] && NoMarkers(n.s.b[k.level]))
  }

  ghost predicate FlowInv(n: Net) {
    && Sized(n.s) && |n.sent| == LEVELS && CountOk(n.s)
    && (forall lv | 0 <= lv < LEVELS :: LevelOk(n, lv))
    && (forall w | 0 <= w < |n.s.workers| :: HandOfWorker(n, n.s.workers[w]))
  }

  // ---------- The invariant is kept ----------

  lemma FeedKeepsFlow(c: Caps, n: Net, i: nat, m: Net)
    requires NetInv(c, n) && FlowInv(n) && FeedStep(c, n, i, m)
    ensures FlowInv(m)
  {
    forall lv | 0 <= lv < LEVELS ensures LevelOk(m, lv) { assert LevelOk(n, lv); }
    forall w | 0 <= w < |m.s.workers| ensures HandOfWorker(m, m.s.workers[w]) {
      assert HandOfWorker(n, n.s.workers[w]);
    }
  }

  lemma AllCounted(s: Sys)
    requires Sized(s) && CountOk(s) && s.finishedLevels >= LEVELS
    ensures AllForwarded(s)
  {
  }

  lemma RouteKeepsCount(c: Caps, n: Net, m: Net)
    requires Sound(c, n) && HandOk(n) && CountOk(n.s) && RouteStep(c, n, m)
    ensures Sized(m.s) && CountOk(m.s)
  {
    match n.s.dispatcher
    case Fetching => if n.s.finishedLevels >= LEVELS { AllCounted(n.s); }
    case Forwarding(lv) => ForwardCounts(c, n, m, lv);
    case _ =>
  }

  lemma ForwardCounts(c: Caps, n: Net, m: Net, lv: nat)
    requires Sound(c, n) && CountOk(n.s) && RouteStep(c, n, m) && n.s.dispatcher == Forwarding(lv)
    requires lv < LEVELS && !n.s.forwarded[lv]
    ensures Sized(m.s) && CountOk(m.s)
  {
  }

  /** What a dispatcher step does to one level: it forwards it, sends it an entry, or leaves it alone. */
  ghost predicate LevelRouted(n: Net, m: Net, lv: nat)
    requires Sized(n.s) && Sized(m.s) && |n.sent| == |m.sent| == LEVELS && lv < LEVELS
  {
    var p := Pushed(n.s, lv);
    && m.s.b[lv] == n.s.b[lv] + p && m.sent[lv] == n.sent[lv] + p
    && if n.s.dispatcher == Forwarding(lv) then
         p == [Marker(0)] && !n.s.forwarded[lv] && m.s.forwarded[lv] && m.s.eofPosted[lv]
       else
         && m.s.forwarded[lv] == n.s.forwarded[lv] && m.s.eofPosted[lv] == n.s.eofPosted[lv]
         && (p == [] || (n.s.dispatcher.Routing? && p == [n.s.dispatcher.e] && p[0].level == lv && !p[0].eof))
  }

  lemma RouteOnLevel(c: Caps, n: Net, m: Net, lv: nat)
    requires Sound(c, n) && HandOk(n) && CountOk(n.s) && RouteStep(c, n, m) && lv < LEVELS
    ensures Sized(m.s) && |m.sent| == LEVELS && LevelRouted(n, m, lv)
  {
    assert n.s.b[lv] + [] == n.s.b[lv] && n.sent[lv] + [] == n.sent[lv];
    match n.s.dispatcher
    case Forwarding(l) => ForwardOnLevel(c, n, m, lv);
    case Routing(_) => SendOnLevel(c, n, m, lv);
    case Forcing(_) => ForceOnLevel(c, n, m, lv);
    case _ => QuietOnLevel(c, n, m, lv);
  }

  lemma ForwardOnLevel(c: Caps, n: Net, m: Net, lv: nat)
    requires Sound(c, n) && HandOk(n) && RouteStep(c, n, m) && lv < LEVELS && n.s.dispatcher.Forwarding?
    requires n.s.b[lv] + [] == n.s.b[lv] && n.sent[lv] + [] == n.sent[lv]
    ensures Sized(m.s) && |m.sent| == LEVELS && LevelRouted(n, m, lv)
  {
  }

  lemma SendOnLevel(c: Caps, n: Net, m: Net, lv: nat)
    requires Sound(c, n) && HandOk(n) && RouteStep(c, n, m) && lv < LEVELS && n.s.dispatcher.Routing?
    requires n.s.b[lv] + [] == n.s.b[lv] && n.sent[lv] + [] == n.sent[lv]
    ensures Sized(m.s) && |m.sent| == LEVELS && LevelRouted(n, m, lv)
  {
  }

  lemma ForceOnLevel(c: Caps, n: Net, m: Net, lv: nat)
    requires Sound(c, n) && CountOk(n.s) && RouteStep(c, n, m) && lv < LEVELS && n.s.dispatcher.Forcing?
    requires n.s.b[lv] + [] == n.s.b[lv] && n.sent[lv] + [] == n.sent[lv]
    ensures Sized(m.s) && |m.sent| == LEVELS && LevelRouted(n, m, lv)
  {
    assert Pushed(n.s, lv) == [];
  }

  lemma QuietOnLevel(c: Caps, n: Net, m: Net, lv: nat)
    requires Sound(c, n) && RouteStep(c, n, m) && lv < LEVELS
    requires n.s.dispatcher.Fetching? || n.s.dispatcher.Checking? || n.s.dispatcher.DispatcherGone?
    requires n.s.b[lv] + [] == n.s.b[lv] && n.sent[lv] + [] == n.sent[lv]
    ensures Sized(m.s) && |m.sent| == LEVELS && LevelRouted(n, m, lv)
  {
  }

  lemma AppendedEnd(sent: seq<Entry>, b: seq<Entry>, p: seq<Entry>)
    requires |b| <= |sent| && sent[|sent| - |b|..] == b
    ensures (sent + p)[|sent + p| - |b + p|..] == b + p
  {
  }

  lemma MarkerMoves(q: seq<Entry>, p: seq<Entry>)
    requires forall i | 0 <= i < |p| :: !p[i].eof
    ensures OneMarker(q) ==> OneMarker(q + p)
    ensures NoMarkers(q) ==> NoMarkers(q + p)
  {
    if OneMarker(q) {
      var k: nat :| MarkerAt(q, k);
      assert MarkerAt(q + p, k);
    }
  }

  lemma MarkerComes(q: seq<Entry>)
    requires NoMarkers(q)
    ensures OneMarker(q + [Marker(0)])
  {
    assert MarkerAt(q + [Marker(0)], |q|);
  }

  lemma RouteKeepsLevel(c: Caps, n: Net, m: Net, lv: nat)
    requires NetInv(c, n) && FlowInv(n) && RouteStep(c, n, m) && lv < LEVELS && Sized(m.s)
    ensures |m.sent| == LEVELS && LevelOk(m, lv)
  {
    assert LevelOk(n, lv);
    RouteOnLevel(c, n, m, lv);
    AppendedEnd(n.sent[lv], n.s.b[lv], Pushed(n.s, lv));
    if n.s.dispatcher == Forwarding(lv) {
      MarkerComes(n.sent[lv]);
    } else {
      MarkerMoves(n.sent[lv], Pushed(n.s, lv));
    }
  }

  lemma RouteKeepsWorkers(c: Caps, n: Net, m: Net, w: nat)
    requires NetInv(c, n) && FlowInv(n) && RouteStep(c, n, m) && Sized(m.s) && w < |n.s.workers|
    ensures m.s.workers == n.s.workers && HandOfWorker(m, m.s.workers[w])
  {
    var k := n.s.workers[w];
    assert HandOfWorker(n, k);
    RouteOnLevel(c, n, m, k.level);
    if k.stage.Left? {
      MarkerMoves(n.s.b[k.level], Pushed(n.s, k.level));
    }
  }

  lemma RouteKeepsFlow(c: Caps, n: Net, m: Net)
    requires NetInv(c, n) && FlowInv(n) && RouteStep(c, n, m)
    ensures FlowInv(m)
  {
    RouteKeepsCount(c, n, m);
    forall lv: nat | lv < LEVELS ensures |m.sent| == LEVELS && LevelOk(m, lv) {
      RouteKeepsLevel(c, n, m, lv);
    }
    forall w: nat | w < |m.s.workers| ensures HandOfWorker(m, m.s.workers[w]) {
      assert m.s.workers == n.s.workers;
      RouteKeepsWorkers(c, n, m, w);
    }
  }

  lemma TakenFront(sent: seq<Entry>, b: seq<Entry>)
    requires 0 < |b| <= |sent| && sent[|sent| - |b|..] == b
    ensures sent[|sent| - |b[1..]|..] == b[1..] && sent[|sent| - |b|] == b[0]
  {
  }

  /** The one marker, once taken, is not in what is left. */
  lemma MarkerTaken(sent: seq<Entry>, b: seq<Entry>)
    requires OneMarker(sent) && |b| <= |sent| && sent[|sent| - |b|..] == b
    ensures b != [] && b[0].eof ==> NoMarkers(b[1..])
  {
    if b != [] && b[0].eof {
      assert sent[|sent| - |b|] == b[0];
      forall i | 0 <= i < |b[1..]| ensures !b[1..][i].eof {
        assert b[1..][i] == sent[|sent| - |b| + 1 + i];
      }
    }
  }

  /** What a worker's step does to one level: it takes the first entry, or leaves the level alone. */
  ghost predicate LevelTaken(n: Net, w: nat, m: Net, lv: nat)
    requires Sized(n.s) && Sized(m.s) && lv < LEVELS && w < |n.s.workers|
  {
    && m.sent == n.sent && m.s.forwarded == n.s.forwarded && m.s.eofPosted == n.s.eofPosted
    && m.s.dispatcher == n.s.dispatcher
    && (m.s.b[lv] == if n.s.workers[w].level == lv && n.s.workers[w].stage.Looping? && n.s.b[lv] != []
                     then n.s.b[lv][1..] else n.s.b[lv])
  }

  lemma TakeOnLevel(c: Caps, n: Net, w: nat, m: Net, lv: nat)
    requires Sound(c, n) && TakeStep(c, n, w, m) && lv < LEVELS
    ensures Sized(m.s) && w < |n.s.workers| && LevelTaken(n, w, m, lv)
    ensures |m.s.workers| == |n.s.workers| && m.s.workers == n.s.workers[w := m.s.workers[w]]
    ensures m.s.workers[w].level == n.s.workers[w].level
    ensures CountOk(n.s) ==> CountOk(m.s)
  {
  }

  lemma TakeKeepsLevel(c: Caps, n: Net, w: nat, m: Net, lv: nat)
    requires Sound(c, n) && TakeStep(c, n, w, m) && lv < LEVELS && LevelOk(n, lv)
    ensures Sized(m.s) && |m.sent| == LEVELS && LevelOk(m, lv)
  {
    TakeOnLevel(c, n, w, m, lv);
    if n.s.b[lv] != [] {
      TakenFront(n.sent[lv], n.s.b[lv]);
    }
  }

  lemma TakeKeepsWorkers(c: Caps, n: Net, w: nat, m: Net, v: nat)
    requires Sound(c, n) && FlowInv(n) && TakeStep(c, n, w, m) && v < |n.s.workers|
    ensures Sized(m.s) && |m.s.workers| == |n.s.workers| && HandOfWorker(m, m.s.workers[v])
  {
    var k := n.s.workers[w];
    var lv: nat := k.level;
    assert HandOfWorker(n, k) && HandOfWorker(n, n.s.workers[v]) && LevelOk(n, lv);
    if k.stage.Looping? && n.s.b[lv] != [] {
      TakenFront(n.sent[lv], n.s.b[lv]);
      if n.s.forwarded[lv] {
        MarkerTaken(n.sent[lv], n.s.b[lv]);
      }
    }
  }

  lemma TakeKeepsFlow(c: Caps, n: Net, w: nat, m: Net)
    requires Sound(c, n) && FlowInv(n) && TakeStep(c, n, w, m)
    ensures FlowInv(m)
  {
    TakeOnLevel(c, n, w, m, 0);
    forall lv: nat | lv < LEVELS ensures LevelOk(m, lv) {
      assert LevelOk(n, lv);
      TakeKeepsLevel(c, n, w, m, lv);
    }
    forall v: nat | v < |n.s.workers| ensures HandOfWorker(m, m.s.workers[v]) {
      TakeKeepsWorkers(c, n, w, m, v);
    }
  }

  lemma StepKeepsFlow(c: Caps, n: Net, m: Net)
    requires NetInv(c, n) && FlowInv(n) && NetNext(c, n, m)
    ensures FlowInv(m)
  {
    if i: nat :| FeedStep(c, n, i, m) {
      FeedKeepsFlow(c, n, i, m);
    } else if RouteStep(c, n, m) {
      RouteKeepsFlow(c, n, m);
    } else {
      var w: nat :| TakeStep(c, n, w, m);
      TakeKeepsFlow(c, n, w, m);
    }
  }

  lemma InitFlows(c: Caps, n: Net)
    requires NetInit(c, n)
    ensures FlowInv(n)
  {
  }

  lemma {:induction false} RunKeepsFlow(c: Caps, run: seq<Net>, i: nat)
    requires IsNetRun(c, run) && i < |run|
    ensures FlowInv(run[i])
  {
    if i == 0 {
      InitFlows(c, run[0]);
    } else {
      RunKeepsFlow(c, run, i - 1);
      NetRunIsSafe(c, run, i - 1, Entry(0, false, 0));
      assert NetStepAt(c, run, i - 1);
      StepKeepsFlow(c, run[i - 1], run[i]);
    }
  }

  // ---------- Taken entries are in the workers' hands ----------

  /** What was sent to a level is in region B or with its workers. */
  ghost predicate Accounted(n: Net, x: Entry)
    requires Datum(x) && Sized(n.s) && |n.sent| == LEVELS
  {
    Copies(n.sent[x.level], x) == Copies(n.s.b[x.level], x) + InWorkers(n.s.workers, x)
  }

  lemma TakeAccounts(c: Caps, n: Net, w: nat, m: Net, x: Entry)
    requires Sound(c, n) && FlowInv(n) && TakeStep(c, n, w, m) && Datum(x) && Accounted(n, x)
    ensures Sized(m.s) && |m.sent| == LEVELS && Accounted(m, x)
  {
    var k := n.s.workers[w];
    assert HandOfWorker(n, k);
    TakeMoves(c, n, w, m, x);
    InWorkersUpdate(n.s.workers, w, m.s.workers[w], x);
  }

  lemma TakeMoves(c: Caps, n: Net, w: nat, m: Net, x: Entry)
    requires Sound(c, n) && FlowInv(n) && TakeStep(c, n, w, m) && Datum(x)
    ensures Sized(m.s) && m.s.workers == n.s.workers[w := m.s.workers[w]]
    ensures Copies(m.s.b[x.level], x) + InHand(m.s.workers[w], x)
         == Copies(n.s.b[x.level], x) + InHand(n.s.workers[w], x)
  {
    var k := n.s.workers[w];
    assert LevelOk(n, k.level);
    match k.stage
    case Looping =>
      if n.s.b[k.level] != [] {
        CopiesOfFront(n.s.b[k.level], x);
        TakenFront(n.sent[k.level], n.s.b[k.level]);
      }
    case Busy(e) => CopiesOfBack(k.processed, e, x);
    case Left =>
  }

  lemma {:induction false} RunAccounts(c: Caps, run: seq<Net>, i: nat, x: Entry)
    requires IsNetRun(c, run) && i < |run| && Datum(x)
    ensures FlowInv(run[i]) && Accounted(run[i], x)
  {
    RunKeepsFlow(c, run, i);
    if i == 0 {
      IdleWorkersHaveNothing(run[0].s.workers, x);
    } else {
      RunAccounts(c, run, i - 1, x);
      NetRunIsSafe(c, run, i - 1, x);
      assert NetStepAt(c, run, i - 1);
      StepAccounts(c, run[i - 1], run[i], x);
    }
  }

  lemma RouteAccounts(c: Caps, n: Net, m: Net, x: Entry)
    requires Sound(c, n) && HandOk(n) && CountOk(n.s) && RouteStep(c, n, m) && Datum(x) && Accounted(n, x)
    ensures Sized(m.s) && |m.sent| == LEVELS && Accounted(m, x)
  {
    RouteOnLevel(c, n, m, x.level);
    assert m.s.workers == n.s.workers;
    CopiesJoin(n.sent[x.level], Pushed(n.s, x.level), x);
    CopiesJoin(n.s.b[x.level], Pushed(n.s, x.level), x);
  }

  /** A parser's step leaves all beyond region A alone. */
  lemma FeedStaysAway(c: Caps, n: Net, i: nat, m: Net)
    requires Sound(c, n) && FeedStep(c, n, i, m)
    ensures m.sent == n.sent && m.s.dispatcher == n.s.dispatcher && m.s.b == n.s.b && m.s.workers == n.s.workers
  {
  }

  lemma FeedAccounts(c: Caps, n: Net, i: nat, m: Net, x: Entry)
    requires Sound(c, n) && FeedStep(c, n, i, m) && Datum(x) && Accounted(n, x)
    ensures Sized(m.s) && |m.sent| == LEVELS && Accounted(m, x)
  {
    FeedStaysAway(c, n, i, m);
  }

  lemma StepAccounts(c: Caps, n: Net, m: Net, x: Entry)
    requires Sound(c, n) && HandOk(n) && FlowInv(n) && NetNext(c, n, m) && Datum(x) && Accounted(n, x)
    ensures Sized(m.s) && |m.sent| == LEVELS && Accounted(m, x)
  {
    if i: nat :| FeedStep(c, n, i, m) {
      FeedAccounts(c, n, i, m, x);
    } else if RouteStep(c, n, m) {
      RouteAccounts(c, n, m, x);
    } else {
      var w: nat :| TakeStep(c, n, w, m);
      TakeAccounts(c, n, w, m, x);
    }
  }

  // ---------- After the EOF ----------

  /** From the passed test on: the EOF is about to go out, or went out right behind what had been sent by then. */
  ghost predicate SentThen(n: Net, lv: nat, before: seq<Entry>) {
    && lv < |n.sent|
    && ((Passing(n, lv) && n.sent[lv] == before) || before + [Marker(0)] <= n.sent[lv])
  }

  lemma RouteSendsOn(c: Caps, n: Net, m: Net, lv: nat, before: seq<Entry>)
    requires Sound(c, n) && HandOk(n) && CountOk(n.s) && RouteStep(c, n, m) && lv < LEVELS && SentThen(n, lv, before)
    ensures SentThen(m, lv, before)
  {
    RouteOnLevel(c, n, m, lv);
  }

  lemma SameSendsOn(n: Net, m: Net, lv: nat, before: seq<Entry>)
    requires SentThen(n, lv, before) && m.sent == n.sent && m.s.dispatcher == n.s.dispatcher
    ensures SentThen(m, lv, before)
  {
  }

  lemma StepSendsOn(c: Caps, n: Net, m: Net, lv: nat, before: seq<Entry>)
    requires NetInv(c, n) && FlowInv(n) && NetNext(c, n, m) && lv < LEVELS && SentThen(n, lv, before)
    ensures SentThen(m, lv, before)
  {
    if i: nat :| FeedStep(c, n, i, m) {
      FeedStaysAway(c, n, i, m);
      SameSendsOn(n, m, lv, before);
    } else if RouteStep(c, n, m) {
      RouteSendsOn(c, n, m, lv, before);
    } else {
      var w: nat :| TakeStep(c, n, w, m);
      TakeOnLevel(c, n, w, m, lv);
      SameSendsOn(n, m, lv, before);
    }
  }

  lemma {:induction false} RunSendsOn(c: Caps, run: seq<Net>, i: nat, j: nat, lv: nat)
    requires IsNetRun(c, run) && i <= j < |run| && Passing(run[i], lv)
    ensures lv < LEVELS && |run[i].sent| == LEVELS && SentThen(run[j], lv, run[i].sent[lv])
  {
    TestMeansAllPushed(c, run, i, lv);
    if i < j {
      RunSendsOn(c, run, i, j - 1, lv);
      NetRunIsSafe(c, run, j - 1, Entry(0, false, 0));
      RunKeepsFlow(c, run, j - 1);
      assert NetStepAt(c, run, j - 1);
      StepSendsOn(c, run[j - 1], run[j], lv, run[i].sent[lv]);
    }
  }

  // ---------- Delivery ----------

  lemma MarkerIsTaken(sent: seq<Entry>, b: seq<Entry>, before: seq<Entry>)
    requires before + [Marker(0)] <= sent && |b| <= |sent| && sent[|sent| - |b|..] == b && NoMarkers(b)
    ensures |before| + 1 <= |sent| - |b|
  {
    assert sent[|before|] == (before + [Marker(0)])[|before|];
    forall i | |sent| - |b| <= i < |sent| ensures !sent[i].eof {
      assert b[i - (|sent| - |b|)] == sent[i];
    }
  }

  /** When a worker of the level has left, everything sent before the EOF has been taken. */
  lemma LeftTookAll(n: Net, w: nat, lv: nat, before: seq<Entry>)
    requires FlowInv(n) && lv < LEVELS && SentThen(n, lv, before) && NoMarkers(before)
    requires w < |n.s.workers| && n.s.workers[w].level == lv && n.s.workers[w].stage == Left
    requires Passing(n, lv) ==> !n.s.forwarded[lv]
    ensures before + [Marker(0)] <= n.sent[lv]
    ensures |before| + 1 <= |n.sent[lv]| - |n.s.b[lv]|
  {
    assert HandOfWorker(n, n.s.workers[w]) && LevelOk(n, lv);
    MarkerIsTaken(n.sent[lv], n.s.b[lv], before);
  }

  lemma {:induction false} OthersHoldNothing(workers: seq<Worker>, x: Entry)
    requires forall w | 0 <= w < |workers| :: workers[w].stage.Busy? ==> workers[w].stage.e.level != x.level
    ensures Processed(workers, x) == InWorkers(workers, x)
  {
    if workers != [] {
      OthersHoldNothing(workers[..|workers| - 1], x);
    }
  }

  /** When all workers of a level have left, what they hold of it is processed. */
  lemma AllLeftProcessed(n: Net, x: Entry)
    requires FlowInv(n) && Datum(x) && AllLeft(n.s, x.level)
    ensures Processed(n.s.workers, x) == InWorkers(n.s.workers, x)
  {
    forall w | 0 <= w < |n.s.workers|
      ensures n.s.workers[w].stage.Busy? ==> n.s.workers[w].stage.e.level != x.level
    {
      assert HandOfWorker(n, n.s.workers[w]);
    }
    OthersHoldNothing(n.s.workers, x);
  }

  /** When all workers of a level have left, they have processed what was taken. */
  lemma TakenIsProcessed(n: Net, x: Entry)
    requires FlowInv(n) && Datum(x) && AllLeft(n.s, x.level) && Accounted(n, x)
    ensures var sent, b := n.sent[x.level], n.s.b[x.level];
      |b| <= |sent| && Processed(n.s.workers, x) == Copies(sent[..|sent| - |b|], x)
  {
    AllLeftProcessed(n, x);
    assert LevelOk(n, x.level);
    var sent, b := n.sent[x.level], n.s.b[x.level];
    assert sent == sent[..|sent| - |b|] + b;
    CopiesJoin(sent[..|sent| - |b|], b, x);
  }

  /** Everything read of the level has been processed, each entry as often as it was read. */
  ghost predicate AllProcessed(run: seq<Net>, j: nat, lv: nat) {
    && j < |run|
    && forall x | Datum(x) && x.level == lv :: Processed(run[j].s.workers, x) == InFeeds(run[0].feeds, x)
  }

  lemma ProcessedExactly(c: Caps, run: seq<Net>, i: nat, j: nat, x: Entry)
    requires IsNetRun(c, run) && i <= j < |run| && Datum(x) && Passing(run[i], x.level)
    requires HasWorker(run[j].s, x.level) && AllLeft(run[j].s, x.level)
    ensures |run[i].sent| == |run[j].sent| == LEVELS
    ensures var sent, b := run[j].sent[x.level], run[j].s.b;
      |b| == LEVELS && |run[i].sent[x.level]| + 1 <= |sent| - |b[x.level]|
      && run[i].sent[x.level] + [Marker(0)] <= sent
      && Processed(run[j].s.workers, x) == Copies(sent[..|sent| - |b[x.level]|], x)
  {
    var lv: nat := x.level;
    TestMeansAllPushed(c, run, i, lv);
    RunSendsOn(c, run, i, j, lv);
    RunAccounts(c, run, j, x);
    NetRunIsSafe(c, run, j, x);
    var n := run[j];
    var w :| 0 <= w < |n.s.workers| && n.s.workers[w].level == lv;
    LeftTookAll(n, w, lv, run[i].sent[lv]);
    TakenIsProcessed(n, x);
  }

  lemma {:induction false} CopiesOfPrefix(p: seq<Entry>, q: seq<Entry>, x: Entry)
    requires p <= q
    ensures Copies(p, x) <= Copies(q, x)
  {
    assert q == p + q[|p|..];
    CopiesJoin(p, q[|p|..], x);
  }

  /**
   * With region A clear of the level as its test passes, workers that have all left have processed
   * every entry of it.
   */
  lemma ClearMeansProcessed(c: Caps, run: seq<Net>, i: nat, j: nat, lv: nat)
    requires IsNetRun(c, run) && i <= j < |run| && Passing(run[i], lv)
    requires HasWorker(run[j].s, lv) && AllLeft(run[j].s, lv)
    requires forall k | 0 <= k < |run[i].s.a| :: run[i].s.a[k].eof || run[i].s.a[k].level != lv
    ensures AllProcessed(run, j, lv)
  {
    EofLastIffRegionAClear(c, run, i, lv);
    forall x | Datum(x) && x.level == lv ensures Processed(run[j].s.workers, x) == InFeeds(run[0].feeds, x) {
      ProcessedExactly(c, run, i, j, x);
      var sent, b := run[j].sent[lv], run[j].s.b[lv];
      var taken := sent[..|sent| - |b|];
      assert run[i].sent[lv] <= taken && taken <= sent;
      CopiesOfPrefix(run[i].sent[lv], taken, x);
      CopiesOfPrefix(taken, sent, x);
      NetRunIsSafe(c, run, j, x);
    }
  }

  // ---------- One worker a level ----------

  /** The only worker of a level has taken no EOF, or has just taken it and left. */
  ghost predicate Alone(n: Net, lv: nat, w: nat) {
    && w < |n.s.workers| && n.s.workers[w].level == lv
    && (forall v | 0 <= v < |n.s.workers| && v != w :: n.s.workers[v].level != lv)
  }

  ghost predicate StopsAtEof(n: Net, lv: nat, w: nat)
    requires Sized(n.s) && |n.sent| == LEVELS && lv < LEVELS && |n.s.b[lv]| <= |n.sent[lv]| && w < |n.s.workers|
  {
    UpToEof(n.sent[lv][..|n.sent[lv]| - |n.s.b[lv]|], n.s.workers[w].stage.Left?)
  }

  ghost predicate UpToEof(taken: seq<Entry>, left: bool) {
    if left then taken != [] && taken[|taken| - 1].eof && NoMarkers(taken[..|taken| - 1]) else NoMarkers(taken)
  }

  lemma OneMoreTaken(sent: seq<Entry>, b: seq<Entry>)
    requires 0 < |b| <= |sent| && sent[|sent| - |b|..] == b && UpToEof(sent[..|sent| - |b|], false)
    ensures UpToEof(sent[..|sent| - |b[1..]|], b[0].eof)
  {
    TakenFront(sent, b);
    assert sent[..|sent| - |b[1..]|] == sent[..|sent| - |b|] + [b[0]];
  }

  lemma LeavesAtEof(c: Caps, n: Net, m: Net, w: nat)
    requires Sound(c, n) && TakeStep(c, n, w, m) && n.s.workers[w].stage.Looping?
    ensures w < |m.s.workers| && n.s.workers[w].level < LEVELS
    ensures var b := n.s.b[n.s.workers[w].level];
      if b == [] then n.s.eofPosted[n.s.workers[w].level] else m.s.workers[w].stage.Left? == b[0].eof
  {
  }

  lemma FeedStops(c: Caps, n: Net, i: nat, m: Net, lv: nat, w: nat)
    requires Sound(c, n) && FeedStep(c, n, i, m) && lv < LEVELS && Alone(n, lv, w)
    requires LevelOk(n, lv) && StopsAtEof(n, lv, w) && Sized(m.s) && |m.sent| == LEVELS && LevelOk(m, lv)
    ensures Alone(m, lv, w) && StopsAtEof(m, lv, w)
  {
    FeedStaysAway(c, n, i, m);
  }

  lemma RouteStops(c: Caps, n: Net, m: Net, lv: nat, w: nat)
    requires Sound(c, n) && HandOk(n) && CountOk(n.s) && RouteStep(c, n, m) && lv < LEVELS && Alone(n, lv, w)
    requires LevelOk(n, lv) && StopsAtEof(n, lv, w) && Sized(m.s) && |m.sent| == LEVELS && LevelOk(m, lv)
    ensures Alone(m, lv, w) && StopsAtEof(m, lv, w)
  {
    RouteOnLevel(c, n, m, lv);
    assert m.s.workers == n.s.workers;
    var sent, b := n.sent[lv], n.s.b[lv];
    assert m.sent[lv][..|m.sent[lv]| - |m.s.b[lv]|] == sent[..|sent| - |b|];
  }

  lemma TakeStops(c: Caps, n: Net, v: nat, m: Net, lv: nat, w: nat)
    requires Sound(c, n) && TakeStep(c, n, v, m) && lv < LEVELS && Alone(n, lv, w)
    requires LevelOk(n, lv) && StopsAtEof(n, lv, w) && Sized(m.s) && |m.sent| == LEVELS && LevelOk(m, lv)
    ensures Alone(m, lv, w) && StopsAtEof(m, lv, w)
  {
    TakeOnLevel(c, n, v, m, lv);
    if v == w && n.s.workers[w].stage.Looping? {
      AloneTakes(c, n, m, lv, w);
    } else {
      assert m.s.b[lv] == n.s.b[lv];
      LeftStaysLeft(c, n, v, m, w);
    }
  }

  lemma LeftStaysLeft(c: Caps, n: Net, v: nat, m: Net, w: nat)
    requires Sound(c, n) && TakeStep(c, n, v, m) && w < |n.s.workers|
    requires v != w || !n.s.workers[w].stage.Looping?
    ensures w < |m.s.workers| && m.s.workers[w].stage.Left? == n.s.workers[w].stage.Left?
  {
  }

  /** A worker that has taken no marker finds one once it was sent. */
  lemma MarkerAwaits(sent: seq<Entry>, b: seq<Entry>)
    requires |b| <= |sent| && NoMarkers(sent[..|sent| - |b|]) && OneMarker(sent)
    ensures b != []
  {
    var k: nat :| MarkerAt(sent, k);
    forall i | 0 <= i < |sent| - |b| ensures !sent[i].eof {
      assert sent[..|sent| - |b|][i] == sent[i];
    }
  }

  lemma AloneTakes(c: Caps, n: Net, m: Net, lv: nat, w: nat)
    requires Sound(c, n) && TakeStep(c, n, w, m) && lv < LEVELS && Alone(n, lv, w)
    requires LevelOk(n, lv) && StopsAtEof(n, lv, w) && Sized(m.s) && |m.sent| == LEVELS && LevelOk(m, lv)
    requires w < |m.s.workers| && n.s.workers[w].stage.Looping?
    ensures StopsAtEof(m, lv, w)
  {
    var sent, b := n.sent[lv], n.s.b[lv];
    LeavesAtEof(c, n, m, w);
    if b == [] {
      MarkerAwaits(sent, b);
    }
    TakeOnLevel(c, n, w, m, lv);
    OneMoreTaken(sent, b);
  }

  lemma {:induction false} RunStops(c: Caps, run: seq<Net>, i: nat, lv: nat, w: nat)
    requires IsNetRun(c, run) && i < |run| && lv < LEVELS && Alone(run[0], lv, w)
    ensures FlowInv(run[i]) && LevelOk(run[i], lv) && Alone(run[i], lv, w) && StopsAtEof(run[i], lv, w)
  {
    RunKeepsFlow(c, run, i);
    if i > 0 {
      RunStops(c, run, i - 1, lv, w);
      NetRunIsSafe(c, run, i - 1, Entry(0, false, 0));
      assert NetStepAt(c, run, i - 1);
      StepStops(c, run[i - 1], run[i], lv, w);
    }
  }

  lemma StepStops(c: Caps, n: Net, m: Net, lv: nat, w: nat)
    requires Sound(c, n) && HandOk(n) && CountOk(n.s) && NetNext(c, n, m) && lv < LEVELS && Alone(n, lv, w)
    requires LevelOk(n, lv) && StopsAtEof(n, lv, w) && Sized(m.s) && |m.sent| == LEVELS && LevelOk(m, lv)
    ensures Alone(m, lv, w) && StopsAtEof(m, lv, w)
  {
    if i: nat :| FeedStep(c, n, i, m) {
      FeedStops(c, n, i, m, lv, w);
    } else if RouteStep(c, n, m) {
      RouteStops(c, n, m, lv, w);
    } else {
      var v: nat :| TakeStep(c, n, v, m);
      TakeStops(c, n, v, m, lv, w);
    }
  }

  /** The only worker of a level, once it has left, has taken exactly what was sent before the EOF, and the EOF. */
  lemma AloneTookUpToEof(n: Net, lv: nat, w: nat, before: seq<Entry>)
    requires FlowInv(n) && lv < LEVELS && LevelOk(n, lv) && Alone(n, lv, w) && StopsAtEof(n, lv, w)
    requires n.s.workers[w].stage == Left && before + [Marker(0)] <= n.sent[lv]
    requires |before| + 1 <= |n.sent[lv]| - |n.s.b[lv]|
    ensures n.sent[lv][..|n.sent[lv]| - |n.s.b[lv]|] == before + [Marker(0)]
  {
    var taken := n.sent[lv][..|n.sent[lv]| - |n.s.b[lv]|];
    assert taken[|before|] == (before + [Marker(0)])[|before|];
    forall i | 0 <= i < |taken| - 1 ensures !taken[i].eof {
      assert taken[..|taken| - 1][i] == taken[i];
    }
  }

  /**
   * With one worker for the level: once it has left, it has processed every entry of the level as often as it was
   * read exactly when region A held none of the level as the dispatcher's test passed.
   */
  lemma ProcessedIffRegionAClear(c: Caps, run: seq<Net>, i: nat, j: nat, lv: nat, w: nat)
    requires IsNetRun(c, run) && i <= j < |run| && Passing(run[i], lv)
    requires Alone(run[0], lv, w) && w < |run[j].s.workers| && run[j].s.workers[w].stage == Left
    ensures AllProcessed(run, j, lv)
       <==> forall k | 0 <= k < |run[i].s.a| :: run[i].s.a[k].eof || run[i].s.a[k].level != lv
  {
    TestMeansAllPushed(c, run, i, lv);
    RunStops(c, run, j, lv, w);
    assert HasWorker(run[j].s, lv) && AllLeft(run[j].s, lv);
    EofLastIffRegionAClear(c, run, i, lv);
    forall x | Datum(x) && x.level == lv
      ensures Processed(run[j].s.workers, x) == Copies(run[i].sent[lv], x)
    {
      ProcessedExactly(c, run, i, j, x);
      AloneTookUpToEof(run[j], lv, w, run[i].sent[lv]);
      CopiesOfBack(run[i].sent[lv], Marker(0), x);
    }
  }
}
