/**
 * The pipeline always comes to an end, and never before everything has been
 * delivered: every step uses up work, and only the finished pipeline has no
 * step left.
 */
module PipelineProgress {
  import opened Pipeline
  import opened PipelineSafety

  // ---------- Every step uses up work ----------

  function ReaderWork(readers: seq<Reader>): nat {
    if readers == [] then 0
    else ReaderWork(readers[..|readers| - 1]) +
         9 * |readers[|readers| - 1].todo| + if readers[|readers| - 1].finished then 0 else 1
  }

  function StageWork(k: Stage): nat {
    match k
    case Looping => 1
    case Busy(_) => 3
    case Left => 0
  }

  function WorkerWork(workers: seq<Worker>): nat {
    if workers == [] then 0
    else WorkerWork(workers[..|workers| - 1]) + StageWork(workers[|workers| - 1].stage)
  }

  function ParserWork(p: Parser): int {
    match p
    case Popping => 50
    case Sending(_) => 57
    case Marking(lv) => 10 * (LEVELS - lv) + 5
    case ParserGone => 0
  }

  function DispatcherWork(d: Dispatcher): int {
    match d
    case Fetching => 20
    case Routing(_) => 25
    case Checking(_) => 25
    case Forwarding(_) => 24
    case Forcing(lv) => 4 * (LEVELS - lv) + 1
    case DispatcherGone => 0
  }

  function QueueWork(b: seq<seq<Entry>>): nat
    requires |b| == LEVELS
  {
    3 * (|b[0]| + |b[1]| + |b[2]| + |b[3]|)
  }

  function Work(s: Sys): int
    requires |s.b| == LEVELS
  {
    ReaderWork(s.readers) + 8 * |s.ibuf| + ParserWork(s.parser) + 6 * |s.a| + DispatcherWork(s.dispatcher)
    + QueueWork(s.b) + WorkerWork(s.workers)
  }

  lemma {:induction false} ReaderWorkUpdate(readers: seq<Reader>, i: nat, r: Reader)
    requires i < |readers|
    ensures ReaderWork(readers[i := r]) == ReaderWork(readers)
      - 9 * |readers[i].todo| - (if readers[i].finished then 0 else 1) + 9 * |r.todo| + if r.finished then 0 else 1
  {
    var n := |readers| - 1;
    if i == n {
      assert readers[i := r][..n] == readers[..n];
    } else {
      ReaderWorkUpdate(readers[..n], i, r);
      assert readers[i := r][..n] == readers[..n][i := r];
    }
  }

  lemma {:induction false} WorkerWorkUpdate(workers: seq<Worker>, w: nat, k: Worker)
    requires w < |workers|
    ensures WorkerWork(workers[w := k]) == WorkerWork(workers) - StageWork(workers[w].stage) + StageWork(k.stage)
  {
    var n := |workers| - 1;
    if w == n {
      assert workers[w := k][..n] == workers[..n];
    } else {
      WorkerWorkUpdate(workers[..n], w, k);
      assert workers[w := k][..n] == workers[..n][w := k];
    }
  }

  lemma StepUsesWork(c: Caps, s: Sys, t: Sys)
    requires Inv(c, s) && Next(c, s, t)
    ensures |t.b| == LEVELS && 0 <= Work(t) < Work(s)
  {
    StepKeepsInv(c, s, t);
    assert ParserWork(t.parser) >= 0 && DispatcherWork(t.dispatcher) >= 0;
    if i: nat :| ReaderStep(c, s, i, t) {
      ReaderWorkUpdate(s.readers, i, t.readers[i]);
    } else if ParserStep(c, s, t) {
      ParserUsesWork(c, s, t);
    } else if DispatcherStep(c, s, t) {
      DispatcherUsesWork(c, s, t);
    } else {
      var w: nat :| WorkerStep(c, s, w, t);
      WorkerUsesWork(c, s, w, t);
    }
  }

  lemma ParserUsesWork(c: Caps, s: Sys, t: Sys)
    requires Inv(c, s) && ParserStep(c, s, t) && |t.b| == LEVELS
    ensures Work(t) < Work(s)
  {
  }

  lemma DispatcherUsesWork(c: Caps, s: Sys, t: Sys)
    requires Inv(c, s) && DispatcherStep(c, s, t) && |t.b| == LEVELS
    ensures Work(t) < Work(s)
  {
  }

  lemma WorkerUsesWork(c: Caps, s: Sys, w: nat, t: Sys)
    requires Inv(c, s) && WorkerStep(c, s, w, t) && |t.b| == LEVELS
    ensures Work(t) < Work(s)
  {
    assert WorkerOk(s, s.workers[w]);
    WorkerWorkUpdate(s.workers, w, t.workers[w]);
  }

  /** No run is longer than the work it starts with. */
  lemma {:induction false} RunsEnd(c: Caps, run: seq<Sys>, i: nat)
    requires IsRun(c, run) && i < |run|
    ensures |run[0].b| == |run[i].b| == LEVELS
    ensures 0 <= Work(run[i]) && i + Work(run[i]) <= Work(run[0])
  {
    WorkInRun(c, run, 0);
    WorkInRun(c, run, i);
    if i > 0 {
      RunsEnd(c, run, i - 1);
      RunStepUsesWork(c, run, i - 1);
    }
  }

  lemma WorkInRun(c: Caps, run: seq<Sys>, i: nat)
    requires IsRun(c, run) && i < |run|
    ensures |run[i].b| == LEVELS && Work(run[i]) >= 0
  {
    RunIsSafe(c, run, i, Entry(0, false, 0));
  }

  lemma RunStepUsesWork(c: Caps, run: seq<Sys>, i: nat)
    requires IsRun(c, run) && i + 1 < |run|
    ensures |run[i].b| == |run[i + 1].b| == LEVELS && Work(run[i + 1]) < Work(run[i])
  {
    RunIsSafe(c, run, i, Entry(0, false, 0));
    assert StepAt(c, run, i);
    StepUsesWork(c, run[i], run[i + 1]);
  }

  // ---------- Only the finished pipeline is stuck ----------

  ghost predicate CanMove(c: Caps, s: Sys)
    requires Shape(c, s)
  {
    exists t :: Next(c, s, t)
  }

  ghost predicate Finished(s: Sys) {
    forall w | 0 <= w < |s.workers| :: s.workers[w].stage == Left
  }

  lemma WorkerWitness(c: Caps, s: Sys, w: nat, t: Sys)
    requires Shape(c, s) && WorkerStep(c, s, w, t)
    ensures CanMove(c, s)
  {
    assert Next(c, s, t);
  }

  lemma DispatcherWitness(c: Caps, s: Sys, t: Sys)
    requires Shape(c, s) && DispatcherStep(c, s, t)
    ensures CanMove(c, s)
  {
    assert Next(c, s, t);
  }

  lemma ParserWitness(c: Caps, s: Sys, t: Sys)
    requires Shape(c, s) && ParserStep(c, s, t)
    ensures CanMove(c, s)
  {
    assert Next(c, s, t);
  }

  lemma ReaderWitness(c: Caps, s: Sys, i: nat, t: Sys)
    requires Shape(c, s) && ReaderStep(c, s, i, t)
    ensures CanMove(c, s)
  {
    assert Next(c, s, t);
  }

  /** A worker that has not left moves unless its queue is empty and open. */
  lemma WorkerMoves(c: Caps, s: Sys, w: nat)
    requires Inv(c, s) && w < |s.workers| && s.workers[w].stage != Left
    requires s.workers[w].stage.Busy? || s.b[s.workers[w].level] != [] || s.eofPosted[s.workers[w].level]
    ensures CanMove(c, s)
  {
    var k := s.workers[w];
    match k.stage
    case Looping =>
      if s.b[k.level] == [] {
        WorkerWitness(c, s, w, s.(workers := s.workers[w := k.(stage := Left)]));
      } else {
        var e := s.b[k.level][0];
        WorkerWitness(c, s, w,
          s.(b := s.b[k.level := s.b[k.level][1..]],
             workers := s.workers[w := k.(stage := if e.eof then Left else Busy(e))]));
      }
    case Busy(e) =>
      var t := s.(workers := s.workers[w := k.(stage := Looping, processed := k.processed + [e])]);
      WorkerWitness(c, s, w, t);
    case Left =>
  }

  /** A push into region B waits only while some worker of the level can make room. */
  lemma RegionBMakesRoom(c: Caps, s: Sys, lv: nat)
    requires Inv(c, s) && lv < LEVELS && !s.eofPosted[lv]
    ensures CanMove(c, s) || |s.b[lv]| < c.b
  {
    assert HasWorker(s, lv);
    var w :| 0 <= w < |s.workers| && s.workers[w].level == lv;
    assert WorkerOk(s, s.workers[w]);
    if s.b[lv] != [] {
      WorkerMoves(c, s, w);
    }
  }

  lemma DispatcherMoves(c: Caps, s: Sys)
    requires Inv(c, s) && s.dispatcher != DispatcherGone
    requires !s.dispatcher.Fetching? || s.a != [] || s.finishedLevels >= LEVELS
    ensures CanMove(c, s)
  {
    match s.dispatcher
    case Fetching =>
      if s.finishedLevels >= LEVELS {
        DispatcherWitness(c, s, s.(dispatcher := Forcing(0)));
      } else {
        var e := s.a[0];
        DispatcherWitness(c, s, s.(a := s.a[1..],
                dispatcher := if !Valid(e.level) then Fetching
                              else if e.eof then Checking(e.level) else Routing(e)));
      }
    case Routing(e) =>
      RegionBMakesRoom(c, s, e.level);
      if |s.b[e.level]| < c.b {
        var t := s.(b := s.b[e.level := s.b[e.level] + [e]], dispatcher := Fetching);
        DispatcherWitness(c, s, t);
      }
    case Checking(lv) =>
      DispatcherWitness(c, s,
        s.(dispatcher := if !s.forwarded[lv] && s.eofCount[lv] >= s.totalReaders then Forwarding(lv) else Fetching));
    case Forwarding(lv) =>
      RegionBMakesRoom(c, s, lv);
      if |s.b[lv]| < c.b {
        DispatcherWitness(c, s,
          PostEof(s, lv).(forwarded := s.forwarded[lv := true], finishedLevels := s.finishedLevels + 1,
                          dispatcher := Fetching));
      }
    case Forcing(lv) =>
      if lv >= LEVELS {
        DispatcherWitness(c, s, s.(dispatcher := DispatcherGone));
      } else {
        DispatcherWitness(c, s, s.(dispatcher := Forcing(lv + 1)));
      }
    case DispatcherGone =>
  }

  lemma ReaderMoves(c: Caps, s: Sys, i: nat)
    requires Inv(c, s) && i < |s.readers| && !s.readers[i].finished && s.ibuf == []
    ensures CanMove(c, s)
  {
    var r := s.readers[i];
    if r.todo != [] {
      ReaderWitness(c, s, i, s.(readers := s.readers[i := r.(todo := r.todo[1..])], ibuf := s.ibuf + [r.todo[0]]));
    } else {
      var t := s.(readers := s.readers[i := r.(finished := true)], active := s.active - 1,
                  done := s.done || s.active - 1 == 0);
      ReaderWitness(c, s, i, t);
    }
  }

  lemma {:induction false} SomeoneReads(readers: seq<Reader>)
    requires Unfinished(readers) > 0
    ensures exists i | 0 <= i < |readers| :: !readers[i].finished
  {
    if readers[|readers| - 1].finished {
      SomeoneReads(readers[..|readers| - 1]);
      var i :| 0 <= i < |readers| - 1 && !readers[..|readers| - 1][i].finished;
      assert !readers[i].finished;
    }
  }

  /** With region A empty, the parser or a reader thread moves until everything is marked. */
  lemma ParserSideMoves(c: Caps, s: Sys)
    requires Inv(c, s) && s.a == [] && s.parser != ParserGone
    ensures CanMove(c, s)
  {
    match s.parser
    case Popping =>
      if s.ibuf != [] {
        ParserWitness(c, s,
          s.(ibuf := s.ibuf[1..], parser := if Valid(s.ibuf[0].level) then Sending(s.ibuf[0]) else Popping));
      } else if s.done {
        ParserWitness(c, s, s.(parser := Marking(0)));
      } else {
        SomeoneReads(s.readers);
        var i :| 0 <= i < |s.readers| && !s.readers[i].finished;
        ReaderMoves(c, s, i);
      }
    case Sending(e) =>
      var t := s.(a := s.a + [e], parser := Popping);
      ParserWitness(c, s, t);
    case Marking(lv) =>
      if lv < LEVELS {
        ParserWitness(c, s,
          s.(a := s.a + [Marker(lv)], eofCount := s.eofCount[lv := s.eofCount[lv] + 1], parser := Marking(lv + 1)));
      } else {
        ParserWitness(c, s, s.(parser := ParserGone));
      }
    case ParserGone =>
  }

  /** No deadlock: unless every worker has left, some process has a step. */
  lemma NeverStuck(c: Caps, s: Sys)
    requires Inv(c, s) && !Finished(s)
    ensures CanMove(c, s)
  {
    var w :| 0 <= w < |s.workers| && s.workers[w].stage != Left;
    var k := s.workers[w];
    assert WorkerOk(s, k);
    if k.stage.Busy? || s.b[k.level] != [] || s.eofPosted[k.level] {
      WorkerMoves(c, s, w);
    } else {
      assert !s.forwarded[k.level];
      assert s.finishedLevels < LEVELS;
      if !s.dispatcher.Fetching? || s.a != [] {
        DispatcherMoves(c, s);
      } else if s.parser != ParserGone {
        ParserSideMoves(c, s);
      }
    }
  }

  /** A run that cannot be continued has delivered every entry to its level. */
  lemma MaximalRunDelivers(c: Caps, run: seq<Sys>, x: Entry)
    requires IsRun(c, run) && Datum(x)
    requires Shape(c, run[|run| - 1]) && !CanMove(c, run[|run| - 1])
    ensures Finished(run[|run| - 1])
    ensures Processed(run[|run| - 1].workers, x) == InReaders(run[0].readers, x)
  {
    RunIsSafe(c, run, |run| - 1, x);
    if !Finished(run[|run| - 1]) {
      NeverStuck(c, run[|run| - 1]);
    }
    EveryEntryProcessed(c, run, |run| - 1, x);
  }
}
