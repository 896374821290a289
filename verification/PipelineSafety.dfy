/**
 * What the pipeline keeps: the EOF protocol, and the number of copies of every
 * entry between the reader threads and the workers.
 */
module PipelineSafety {
  import opened Pipeline

  // ---------- The protocol invariant is kept ----------

  lemma {:induction false} UnfinishedUpdate(readers: seq<Reader>, i: nat, r: Reader)
    requires i < |readers|
    ensures Unfinished(readers[i := r])
      == Unfinished(readers) - (if readers[i].finished then 0 else 1) + if r.finished then 0 else 1
    ensures !readers[i].finished ==> Unfinished(readers) > 0
  {
    var n := |readers| - 1;
    if i == n {
      assert readers[i := r][..n] == readers[..n];
    } else {
      UnfinishedUpdate(readers[..n], i, r);
      assert readers[i := r][..n] == readers[..n][i := r];
    }
  }

  lemma {:induction false} AllFinished(readers: seq<Reader>)
    requires Unfinished(readers) == 0
    ensures forall i | 0 <= i < |readers| :: readers[i].finished
  {
    if readers != [] {
      AllFinished(readers[..|readers| - 1]);
    }
  }

  lemma {:induction false} NoneFinished(readers: seq<Reader>)
    requires forall i | 0 <= i < |readers| :: !readers[i].finished
    ensures Unfinished(readers) == |readers|
  {
    if readers != [] {
      NoneFinished(readers[..|readers| - 1]);
    }
  }

  lemma ReaderStepKeepsReading(c: Caps, s: Sys, i: nat, t: Sys)
    requires ReadingOk(c, s) && ReaderStep(c, s, i, t)
    ensures ReadingOk(c, t)
  {
    UnfinishedUpdate(s.readers, i, t.readers[i]);
    if s.readers[i].todo == [] && t.active == 0 {
      assert t.readers == s.readers[i := t.readers[i]];
      AllFinished(t.readers);
    }
  }

  lemma ReaderStepKeepsInv(c: Caps, s: Sys, i: nat, t: Sys)
    requires Inv(c, s) && ReaderStep(c, s, i, t)
    ensures Inv(c, t)
  {
    ReaderStepKeepsReading(c, s, i, t);
    forall lv | 0 <= lv < LEVELS ensures HasWorker(t, lv) { assert HasWorker(s, lv); }
    forall w | 0 <= w < |t.workers| ensures WorkerOk(t, t.workers[w]) { assert WorkerOk(s, s.workers[w]); }
  }

  lemma ParserKeepsReading(c: Caps, s: Sys, t: Sys)
    requires ReadingOk(c, s) && ParserStep(c, s, t)
    ensures ReadingOk(c, t)
  {
  }

  lemma ParserKeepsA(c: Caps, s: Sys, t: Sys)
    requires Sized(s) && RegionAOk(s) && DispatcherOk(s) && ReadingOk(c, s) && ParserStep(c, s, t)
    ensures Sized(t) && RegionAOk(t) && DispatcherOk(t)
  {
    match s.parser
    case Sending(e) => ParserSendsA(c, s, t);
    case Marking(lv) => if lv < LEVELS { ParserMarksA(c, s, t); }
    case _ =>
  }

  lemma ParserSendsA(c: Caps, s: Sys, t: Sys)
    requires Sized(s) && RegionAOk(s) && DispatcherOk(s) && ReadingOk(c, s) && ParserStep(c, s, t)
    requires s.parser.Sending?
    ensures Sized(t) && RegionAOk(t) && DispatcherOk(t)
  {
    assert forall i | 0 <= i < |s.a| :: t.a[i] == s.a[i];
  }

  lemma ParserMarksA(c: Caps, s: Sys, t: Sys)
    requires Sized(s) && RegionAOk(s) && DispatcherOk(s) && ParserStep(c, s, t)
    requires s.parser.Marking? && s.parser.level < LEVELS
    ensures Sized(t) && RegionAOk(t) && DispatcherOk(t)
  {
    assert forall i | 0 <= i < |s.a| :: t.a[i] == s.a[i];
  }

  lemma ParserStepKeepsInv(c: Caps, s: Sys, t: Sys)
    requires Inv(c, s) && ParserStep(c, s, t)
    ensures Inv(c, t)
  {
    ParserKeepsReading(c, s, t);
    ParserKeepsA(c, s, t);
    assert t.workers == s.workers && t.b == s.b && t.eofPosted == s.eofPosted;
    SameWorkers(s, t);
  }

  lemma SameWorkers(s: Sys, t: Sys)
    requires Sized(s) && Sized(t) && WorkersOk(s)
    requires t.workers == s.workers && t.b == s.b && t.eofPosted == s.eofPosted
    ensures WorkersOk(t)
  {
    forall lv | 0 <= lv < LEVELS ensures HasWorker(t, lv) { assert HasWorker(s, lv); }
    forall w | 0 <= w < |t.workers| ensures WorkerOk(t, t.workers[w]) { assert WorkerOk(s, s.workers[w]); }
  }

  lemma LevelsOutstanding(s: Sys)
    requires Sized(s) && DispatcherOk(s) && s.finishedLevels < LEVELS
    ensures !AllForwarded(s)
  {
    assert !s.forwarded[s.finishedLevels];
  }

  lemma FetchKeepsA(c: Caps, s: Sys, t: Sys)
    requires Inv(c, s) && s.dispatcher.Fetching? && DispatcherStep(c, s, t)
    ensures Shape(c, t) && DispatcherOk(t) && RegionAOk(t)
  {
    if s.finishedLevels < LEVELS {
      LevelsOutstanding(s);
      assert forall i | 0 <= i < |t.a| :: t.a[i] == s.a[i + 1];
    }
  }

  lemma HandleKeepsA(c: Caps, s: Sys, t: Sys)
    requires Inv(c, s) && !s.dispatcher.Fetching? && DispatcherStep(c, s, t)
    ensures Shape(c, t) && DispatcherOk(t) && RegionAOk(t)
  {
  }

  lemma DispatcherStepKeepsA(c: Caps, s: Sys, t: Sys)
    requires Inv(c, s) && DispatcherStep(c, s, t)
    ensures Shape(c, t) && DispatcherOk(t) && RegionAOk(t) && ReadingOk(c, t)
  {
    if s.dispatcher.Fetching? {
      FetchKeepsA(c, s, t);
    } else {
      HandleKeepsA(c, s, t);
    }
  }

  lemma DispatcherStepKeepsB(c: Caps, s: Sys, t: Sys)
    requires Inv(c, s) && DispatcherStep(c, s, t)
    ensures RegionBOk(t) && WorkersOk(t)
  {
    DispatcherKeepsB(c, s, t);
    DispatcherKeepsWorkers(c, s, t);
  }

  lemma DispatcherKeepsB(c: Caps, s: Sys, t: Sys)
    requires Shape(c, s) && DispatcherOk(s) && RegionBOk(s) && DispatcherStep(c, s, t)
    ensures Sized(t) && RegionBOk(t)
  {
    match s.dispatcher
    case Routing(e) => RoutingKeepsB(c, s, t);
    case Forwarding(lv) => ForwardingKeepsB(c, s, t);
    case _ =>
  }

  lemma RoutingKeepsB(c: Caps, s: Sys, t: Sys)
    requires Shape(c, s) && DispatcherOk(s) && RegionBOk(s) && DispatcherStep(c, s, t) && s.dispatcher.Routing?
    ensures Sized(t) && RegionBOk(t)
  {
  }

  lemma ForwardingKeepsB(c: Caps, s: Sys, t: Sys)
    requires Shape(c, s) && DispatcherOk(s) && RegionBOk(s) && DispatcherStep(c, s, t) && s.dispatcher.Forwarding?
    ensures Sized(t) && RegionBOk(t)
  {
  }

  lemma DispatcherKeepsWorkers(c: Caps, s: Sys, t: Sys)
    requires Shape(c, s) && DispatcherOk(s) && RegionBOk(s) && WorkersOk(s) && DispatcherStep(c, s, t)
    ensures Sized(t) && WorkersOk(t)
  {
    forall lv | 0 <= lv < LEVELS ensures HasWorker(t, lv) { assert HasWorker(s, lv); }
    forall w | 0 <= w < |t.workers| ensures WorkerOk(t, t.workers[w]) {
      assert WorkerOk(s, s.workers[w]);
      assert 0 <= s.workers[w].level < LEVELS;
    }
  }

  lemma WorkerKeepsB(c: Caps, s: Sys, w: nat, t: Sys)
    requires Shape(c, s) && RegionBOk(s) && WorkersOk(s) && WorkerStep(c, s, w, t)
    ensures Sized(t) && RegionBOk(t)
  {
    assert WorkerOk(s, s.workers[w]);
    var k := s.workers[w];
    if k.stage.Looping? && s.b[k.level] != [] {
      var q, q' := s.b[k.level], t.b[k.level];
      assert forall i | 0 <= i < |q'| :: q'[i] == q[i + 1];
    }
  }

  lemma WorkerKeepsWorkers(c: Caps, s: Sys, w: nat, t: Sys)
    requires Shape(c, s) && RegionBOk(s) && WorkersOk(s) && WorkerStep(c, s, w, t)
    ensures Sized(t) && WorkersOk(t)
  {
    assert WorkerOk(s, s.workers[w]);
    forall lv | 0 <= lv < LEVELS ensures HasWorker(t, lv) {
      assert HasWorker(s, lv);
      var v :| 0 <= v < |s.workers| && s.workers[v].level == lv;
      assert t.workers[v].level == lv;
    }
    forall v | 0 <= v < |t.workers| ensures WorkerOk(t, t.workers[v]) { assert WorkerOk(s, s.workers[v]); }
  }

  lemma WorkerStepKeepsInv(c: Caps, s: Sys, w: nat, t: Sys)
    requires Inv(c, s) && WorkerStep(c, s, w, t)
    ensures Inv(c, t)
  {
    WorkerKeepsB(c, s, w, t);
    WorkerKeepsWorkers(c, s, w, t);
    assert t.a == s.a && t.readers == s.readers;
  }

  lemma StepKeepsInv(c: Caps, s: Sys, t: Sys)
    requires Inv(c, s) && Next(c, s, t)
    ensures Inv(c, t)
  {
    if i: nat :| ReaderStep(c, s, i, t) {
      ReaderStepKeepsInv(c, s, i, t);
    } else if ParserStep(c, s, t) {
      ParserStepKeepsInv(c, s, t);
    } else if DispatcherStep(c, s, t) {
      DispatcherStepKeepsA(c, s, t);
      DispatcherStepKeepsB(c, s, t);
    } else {
      var w: nat :| WorkerStep(c, s, w, t);
      WorkerStepKeepsInv(c, s, w, t);
    }
  }

  lemma InitIsSafe(c: Caps, s: Sys)
    requires Init(c, s)
    ensures Inv(c, s)
  {
    NoneFinished(s.readers);
  }

  // ---------- Copies of an entry ----------

  function Same(e: Entry, x: Entry): nat {
    if e == x then 1 else 0
  }

  function Copies(q: seq<Entry>, x: Entry): nat {
    if q == [] then 0 else Copies(q[..|q| - 1], x) + Same(q[|q| - 1], x)
  }

  lemma {:induction false} CopiesOfFront(q: seq<Entry>, x: Entry)
    requires q != []
    ensures Copies(q, x) == Same(q[0], x) + Copies(q[1..], x)
  {
    if |q| > 1 {
      CopiesOfFront(q[..|q| - 1], x);
      assert q[..|q| - 1][1..] == q[1..][..|q| - 2];
    }
  }

  lemma CopiesOfBack(q: seq<Entry>, e: Entry, x: Entry)
    ensures Copies(q + [e], x) == Copies(q, x) + Same(e, x)
  {
    assert (q + [e])[..|q|] == q;
  }

  lemma {:induction false} CopiesJoin(a: seq<Entry>, b: seq<Entry>, x: Entry)
    ensures Copies(a + b, x) == Copies(a, x) + Copies(b, x)
  {
    if b == [] {
      assert a + b == a;
    } else {
      assert (a + b)[..|a + b| - 1] == a + b[..|b| - 1];
      CopiesJoin(a, b[..|b| - 1], x);
    }
  }

  lemma {:induction false} NoCopies(q: seq<Entry>, x: Entry)
    requires x !in q
    ensures Copies(q, x) == 0
  {
    if q != [] {
      NoCopies(q[..|q| - 1], x);
    }
  }

  function InReaders(readers: seq<Reader>, x: Entry): nat {
    if readers == [] then 0
    else InReaders(readers[..|readers| - 1], x) + Copies(readers[|readers| - 1].todo, x)
  }

  function InHand(k: Worker, x: Entry): nat {
    Copies(k.processed, x) + if k.stage.Busy? then Same(k.stage.e, x) else 0
  }

  /** Copies of x that workers hold or have processed. */
  function InWorkers(workers: seq<Worker>, x: Entry): nat {
    if workers == [] then 0
    else InWorkers(workers[..|workers| - 1], x) + InHand(workers[|workers| - 1], x)
  }

  /** Copies of x that workers have processed. */
  function Processed(workers: seq<Worker>, x: Entry): nat {
    if workers == [] then 0
    else Processed(workers[..|workers| - 1], x) + Copies(workers[|workers| - 1].processed, x)
  }

  lemma {:induction false} InReadersUpdate(readers: seq<Reader>, i: nat, r: Reader, x: Entry)
    requires i < |readers|
    ensures InReaders(readers[i := r], x) == InReaders(readers, x) - Copies(readers[i].todo, x) + Copies(r.todo, x)
  {
    var n := |readers| - 1;
    if i == n {
      assert readers[i := r][..n] == readers[..n];
    } else {
      InReadersUpdate(readers[..n], i, r, x);
      assert readers[i := r][..n] == readers[..n][i := r];
    }
  }

  lemma {:induction false} InWorkersUpdate(workers: seq<Worker>, w: nat, k: Worker, x: Entry)
    requires w < |workers|
    ensures InWorkers(workers[w := k], x) == InWorkers(workers, x) - InHand(workers[w], x) + InHand(k, x)
  {
    var n := |workers| - 1;
    if w == n {
      assert workers[w := k][..n] == workers[..n];
    } else {
      InWorkersUpdate(workers[..n], w, k, x);
      assert workers[w := k][..n] == workers[..n][w := k];
    }
  }

  function InParser(p: Parser, x: Entry): nat {
    if p.Sending? then Same(p.e, x) else 0
  }

  function InDispatcher(d: Dispatcher, x: Entry): nat {
    if d.Routing? then Same(d.e, x) else 0
  }

  /** Copies of x anywhere between the reader threads and the workers. */
  function Everywhere(s: Sys, x: Entry): nat
    requires Valid(x.level) && x.level < |s.b|
  {
    InReaders(s.readers, x) + Copies(s.ibuf, x) + InParser(s.parser, x) + Copies(s.a, x)
    + InDispatcher(s.dispatcher, x) + Copies(s.b[x.level], x) + InWorkers(s.workers, x)
  }

  ghost predicate Datum(x: Entry) {
    0 <= x.level < 4 && !x.eof
  }

  lemma ReaderConserves(c: Caps, s: Sys, i: nat, t: Sys, x: Entry)
    requires Inv(c, s) && ReaderStep(c, s, i, t) && Datum(x)
    ensures Everywhere(t, x) == Everywhere(s, x)
  {
    InReadersUpdate(s.readers, i, t.readers[i], x);
    var q := s.readers[i].todo;
    if q != [] {
      CopiesOfFront(q, x);
      CopiesOfBack(s.ibuf, q[0], x);
    }
  }

  lemma ParserConserves(c: Caps, s: Sys, t: Sys, x: Entry)
    requires Inv(c, s) && ParserStep(c, s, t) && Datum(x)
    ensures Everywhere(t, x) == Everywhere(s, x)
  {
    match s.parser
    case Popping => if s.ibuf != [] { CopiesOfFront(s.ibuf, x); }
    case Sending(e) => CopiesOfBack(s.a, e, x);
    case Marking(lv) => CopiesOfBack(s.a, Marker(lv), x);
    case ParserGone =>
  }

  lemma DispatcherConserves(c: Caps, s: Sys, t: Sys, x: Entry)
    requires Inv(c, s) && DispatcherStep(c, s, t) && Datum(x)
    ensures |t.b| == LEVELS && Everywhere(t, x) == Everywhere(s, x)
  {
    match s.dispatcher
    case Fetching =>
      if s.a != [] {
        CopiesOfFront(s.a, x);
      }
    case Routing(e) => CopiesOfBack(s.b[e.level], e, x);
    case Forwarding(lv) => CopiesOfBack(s.b[lv], Marker(0), x);
    case Forcing(lv) => if lv < LEVELS { CopiesOfBack(s.b[lv], Marker(0), x); }
    case _ =>
  }

  lemma WorkerConserves(c: Caps, s: Sys, w: nat, t: Sys, x: Entry)
    requires Inv(c, s) && WorkerStep(c, s, w, t) && Datum(x)
    ensures |t.b| == LEVELS && Everywhere(t, x) == Everywhere(s, x)
  {
    assert WorkerOk(s, s.workers[w]);
    WorkerMoves(c, s, w, t, x);
    InWorkersUpdate(s.workers, w, t.workers[w], x);
  }

  /** What leaves region B goes into the worker's hand, and from there to its processed entries. */
  lemma WorkerMoves(c: Caps, s: Sys, w: nat, t: Sys, x: Entry)
    requires Shape(c, s) && RegionBOk(s) && WorkerStep(c, s, w, t) && Datum(x) && WorkerOk(s, s.workers[w])
    ensures Sized(t) && t.workers == s.workers[w := t.workers[w]]
    ensures Copies(t.b[x.level], x) + InHand(t.workers[w], x) == Copies(s.b[x.level], x) + InHand(s.workers[w], x)
  {
    var k := s.workers[w];
    match k.stage
    case Looping =>
      if s.b[k.level] != [] { CopiesOfFront(s.b[k.level], x); }
    case Busy(e) => CopiesOfBack(k.processed, e, x);
    case Left =>
  }

  /** No step creates, drops or duplicates a data entry of a valid level. */
  lemma StepConserves(c: Caps, s: Sys, t: Sys, x: Entry)
    requires Inv(c, s) && Next(c, s, t) && Datum(x)
    ensures |t.b| == LEVELS && Everywhere(t, x) == Everywhere(s, x)
  {
    if i: nat :| ReaderStep(c, s, i, t) {
      ReaderConserves(c, s, i, t, x);
    } else if ParserStep(c, s, t) {
      ParserConserves(c, s, t, x);
    } else if DispatcherStep(c, s, t) {
      DispatcherConserves(c, s, t, x);
    } else {
      var w: nat :| WorkerStep(c, s, w, t);
      WorkerConserves(c, s, w, t, x);
    }
  }

  // ---------- Runs ----------

  lemma {:induction false} RunIsSafe(c: Caps, run: seq<Sys>, i: nat, x: Entry)
    requires IsRun(c, run) && i < |run| && Datum(x)
    ensures Inv(c, run[i]) && Everywhere(run[i], x) == InReaders(run[0].readers, x)
  {
    if i == 0 {
      InitIsSafe(c, run[0]);
      IdleWorkersHaveNothing(run[0].workers, x);
    } else {
      RunIsSafe(c, run, i - 1, x);
      assert StepAt(c, run, i - 1);
      StepKeepsInv(c, run[i - 1], run[i]);
      StepConserves(c, run[i - 1], run[i], x);
    }
  }

  lemma {:induction false} IdleWorkersHaveNothing(workers: seq<Worker>, x: Entry)
    requires forall w | 0 <= w < |workers| :: workers[w].stage == Looping && workers[w].processed == []
    ensures InWorkers(workers, x) == 0
  {
    if workers != [] {
      IdleWorkersHaveNothing(workers[..|workers| - 1], x);
    }
  }

  lemma {:induction false} ProcessedIsInHand(workers: seq<Worker>, x: Entry)
    ensures Processed(workers, x) <= InWorkers(workers, x)
    ensures (forall w | 0 <= w < |workers| :: workers[w].stage.Busy? ==> workers[w].stage.e != x)
      ==> Processed(workers, x) == InWorkers(workers, x)
  {
    if workers != [] {
      ProcessedIsInHand(workers[..|workers| - 1], x);
    }
  }

  ghost predicate AllLeft(s: Sys, lv: nat) {
    forall w | 0 <= w < |s.workers| && s.workers[w].level == lv :: s.workers[w].stage == Left
  }

  lemma {:induction false} NothingToRead(readers: seq<Reader>, x: Entry)
    requires forall i | 0 <= i < |readers| :: readers[i].todo == []
    ensures InReaders(readers, x) == 0
  {
    if readers != [] {
      NothingToRead(readers[..|readers| - 1], x);
    }
  }

  /** An entry is never processed more often than it was read. */
  lemma NeverProcessedTwice(c: Caps, run: seq<Sys>, i: nat, x: Entry)
    requires IsRun(c, run) && i < |run| && Datum(x)
    ensures Processed(run[i].workers, x) <= InReaders(run[0].readers, x)
  {
    RunIsSafe(c, run, i, x);
    ProcessedIsInHand(run[i].workers, x);
  }

  /** When the workers of a level have all left, each of its entries was processed as often as it was read. */
  lemma EveryEntryProcessed(c: Caps, run: seq<Sys>, i: nat, x: Entry)
    requires IsRun(c, run) && i < |run| && Datum(x) && AllLeft(run[i], x.level)
    ensures Processed(run[i].workers, x) == InReaders(run[0].readers, x)
  {
    RunIsSafe(c, run, i, x);
    var s := run[i];
    assert HasWorker(s, x.level);
    var w :| 0 <= w < |s.workers| && s.workers[w].level == x.level;
    assert WorkerOk(s, s.workers[w]) && s.workers[w].stage == Left;
    assert s.forwarded[x.level] && s.finishedLevels > 0;
    NothingToRead(s.readers, x);
    forall v | 0 <= v < |s.workers| && s.workers[v].stage.Busy? ensures s.workers[v].stage.e != x {
      assert WorkerOk(s, s.workers[v]);
    }
    ProcessedIsInHand(s.workers, x);
    NoCopies(s.a, x);
  }

  ghost predicate OwnLevelOnly(k: Worker) {
    forall e | e in k.processed :: e.level == k.level && !e.eof
  }

  ghost predicate LevelsKept(s: Sys) {
    forall w | 0 <= w < |s.workers| :: OwnLevelOnly(s.workers[w])
  }

  lemma StepKeepsLevels(c: Caps, s: Sys, t: Sys)
    requires Shape(c, s) && WorkersOk(s) && LevelsKept(s) && Next(c, s, t)
    ensures LevelsKept(t)
  {
    if i: nat :| ReaderStep(c, s, i, t) {
    } else if ParserStep(c, s, t) {
    } else if DispatcherStep(c, s, t) {
    } else {
      var v: nat :| WorkerStep(c, s, v, t);
      assert WorkerOk(s, s.workers[v]);
      forall w | 0 <= w < |t.workers| ensures OwnLevelOnly(t.workers[w]) {
        assert OwnLevelOnly(s.workers[w]);
      }
    }
  }

  /** Only workers of an entry's own level ever process it. */
  lemma {:induction false} ProcessedByOwnLevel(c: Caps, run: seq<Sys>, i: nat)
    requires IsRun(c, run) && i < |run|
    ensures LevelsKept(run[i])
  {
    if i > 0 {
      ProcessedByOwnLevel(c, run, i - 1);
      RunStepKeepsLevels(c, run, i - 1);
    }
  }

  lemma RunStepKeepsLevels(c: Caps, run: seq<Sys>, i: nat)
    requires IsRun(c, run) && i + 1 < |run| && LevelsKept(run[i])
    ensures LevelsKept(run[i + 1])
  {
    RunIsSafe(c, run, i, Entry(0, false, 0));
    assert StepAt(c, run, i);
    StepKeepsLevels(c, run[i], run[i + 1]);
  }

  /** Each level gets exactly one EOF by the time the dispatcher is done, and the forced ones are never needed. */
  lemma OneEofPerLevel(c: Caps, run: seq<Sys>, i: nat, lv: nat)
    requires IsRun(c, run) && i < |run| && lv < LEVELS
    ensures Shape(c, run[i])
    ensures run[i].eofsPushed[lv] <= 1
    ensures run[i].dispatcher == DispatcherGone ==> run[i].eofsPushed[lv] == 1
    ensures run[i].dispatcher.Forcing? ==> run[i].forwarded[lv] && run[i].eofsPushed[lv] == 1
  {
    RunIsSafe(c, run, i, Entry(0, false, 0));
  }
}
