/**
 * The log pipeline of one reader process: reader threads, parser, dispatcher
 * and the workers of the four levels, connected by bounded queues.  Each
 * critical section is one step; a process whose wait condition holds has no
 * step.  Pushes do not time out.
 */
module Pipeline {

  const LEVELS := 4

  datatype Entry = Entry(level: int, eof: bool, body: nat)

  function Marker(level: int): Entry {
    Entry(level, true, 0)
  }

  predicate Valid(level: int) {
    0 <= level < LEVELS
  }

  datatype Reader = Reader(todo: seq<Entry>, finished: bool)

  datatype Parser = Popping | Sending(e: Entry) | Marking(level: nat) | ParserGone

  datatype Dispatcher =
    | Fetching
    | Routing(e: Entry)
    | Checking(level: nat)     // an EOF marker was popped, its count not yet read
    | Forwarding(level: nat)   // about to push the EOF into region B
    | Forcing(level: nat)      // after the loop: levels without an EOF get one
    | DispatcherGone

  datatype Stage = Looping | Busy(e: Entry) | Left

  datatype Worker = Worker(level: nat, stage: Stage, processed: seq<Entry>)

  datatype Sys = Sys(
    readers: seq<Reader>,
    ibuf: seq<Entry>, active: int, done: bool,
    parser: Parser,
    a: seq<Entry>, eofCount: seq<int>, totalReaders: int,
    dispatcher: Dispatcher, forwarded: seq<bool>, finishedLevels: int,
    b: seq<seq<Entry>>, eofPosted: seq<bool>, eofsPushed: seq<nat>,
    workers: seq<Worker>)

  datatype Caps = Caps(ibuf: nat, a: nat, b: nat)

  predicate Sized(s: Sys) {
    |s.eofCount| == |s.forwarded| == |s.b| == |s.eofPosted| == |s.eofsPushed| == LEVELS
  }

  ghost predicate Shape(c: Caps, s: Sys) {
    && 0 < c.ibuf && 0 < c.a && 0 < c.b
    && Sized(s)
    && (forall w | 0 <= w < |s.workers| :: s.workers[w].level < LEVELS)
  }

  // ---------- Steps ----------

  ghost predicate ReaderStep(c: Caps, s: Sys, i: nat, t: Sys) {
    && i < |s.readers| && !s.readers[i].finished
    && var r := s.readers[i];
       if r.todo != [] then
         && |s.ibuf| < c.ibuf
         && t == s.(readers := s.readers[i := r.(todo := r.todo[1..])], ibuf := s.ibuf + [r.todo[0]])
       else
         t == s.(readers := s.readers[i := r.(finished := true)], active := s.active - 1,
                 done := s.done || s.active - 1 == 0)
  }

  ghost predicate ParserStep(c: Caps, s: Sys, t: Sys) {
    match s.parser
    case Popping =>
      if s.ibuf != [] then
        t == s.(ibuf := s.ibuf[1..], parser := if Valid(s.ibuf[0].level) then Sending(s.ibuf[0]) else Popping)
      else s.done && t == s.(parser := Marking(0))
    case Sending(e) =>
      |s.a| < c.a && t == s.(a := s.a + [e], parser := Popping)
    case Marking(lv) =>
      if lv < LEVELS then
        && |s.a| < c.a && lv < |s.eofCount|
        && t == s.(a := s.a + [Marker(lv)], eofCount := s.eofCount[lv := s.eofCount[lv] + 1], parser := Marking(lv + 1))
      else t == s.(parser := ParserGone)
    case ParserGone => false
  }

  /** Region B of a level receives an EOF marker, and its flag is raised with it. */
  function PostEof(s: Sys, lv: nat): Sys
    requires lv < |s.b| && lv < |s.eofPosted| && lv < |s.eofsPushed|
  {
    s.(b := s.b[lv := s.b[lv] + [Marker(0)]], eofPosted := s.eofPosted[lv := true],
       eofsPushed := s.eofsPushed[lv := s.eofsPushed[lv] + 1])
  }

  predicate AllForwarded(s: Sys) {
    forall lv | 0 <= lv < |s.forwarded| :: s.forwarded[lv]
  }

  ghost predicate DispatcherStep(c: Caps, s: Sys, t: Sys)
    requires Shape(c, s)
  {
    match s.dispatcher
    case Fetching =>
      if s.finishedLevels >= LEVELS then t == s.(dispatcher := Forcing(0))
      else if s.a == [] then AllForwarded(s) && t == s.(dispatcher := Forcing(0))
      else
        var e := s.a[0];
        t == s.(a := s.a[1..],
                dispatcher := if !Valid(e.level) then Fetching
                              else if e.eof then Checking(e.level) else Routing(e))
    case Routing(e) =>
      && Valid(e.level) && |s.b[e.level]| < c.b
      && t == s.(b := s.b[e.level := s.b[e.level] + [e]], dispatcher := Fetching)
    case Checking(lv) =>
      && lv < LEVELS
      && t == s.(dispatcher :=
                 if !s.forwarded[lv] && s.eofCount[lv] >= s.totalReaders then Forwarding(lv) else Fetching)
    case Forwarding(lv) =>
      && lv < LEVELS && |s.b[lv]| < c.b
      && t == PostEof(s, lv).(forwarded := s.forwarded[lv := true], finishedLevels := s.finishedLevels + 1,
                              dispatcher := Fetching)
    case Forcing(lv) =>
      if lv >= LEVELS then t == s.(dispatcher := DispatcherGone)
      else if s.forwarded[lv] then t == s.(dispatcher := Forcing(lv + 1))
      else |s.b[lv]| < c.b && t == PostEof(s, lv).(dispatcher := Forcing(lv + 1))
    case DispatcherGone => false
  }

  ghost predicate WorkerStep(c: Caps, s: Sys, w: nat, t: Sys)
    requires Shape(c, s)
  {
    w < |s.workers| &&
    var k := s.workers[w];
    match k.stage
    case Looping =>
      if s.b[k.level] == [] then
        s.eofPosted[k.level] && t == s.(workers := s.workers[w := k.(stage := Left)])
      else
        var e := s.b[k.level][0];
        t == s.(b := s.b[k.level := s.b[k.level][1..]],
                workers := s.workers[w := k.(stage := if e.eof then Left else Busy(e))])
    case Busy(e) =>
      t == s.(workers := s.workers[w := k.(stage := Looping, processed := k.processed + [e])])
    case Left => false
  }

  ghost predicate Next(c: Caps, s: Sys, t: Sys)
    requires Shape(c, s)
  {
    || (exists i: nat :: ReaderStep(c, s, i, t))
    || ParserStep(c, s, t)
    || DispatcherStep(c, s, t)
    || (exists w: nat :: WorkerStep(c, s, w, t))
  }

  /** One reader process; an empty file counts as read from the start. */
  ghost predicate Init(c: Caps, s: Sys) {
    && Shape(c, s) && s.totalReaders == 1
    && (forall i | 0 <= i < |s.readers| :: !s.readers[i].finished && forall e | e in s.readers[i].todo :: !e.eof)
    && s.ibuf == [] && s.active == |s.readers| > 0
    && (s.done ==> forall i | 0 <= i < |s.readers| :: s.readers[i].todo == [])
    && s.parser == Popping && s.a == [] && s.eofCount == [0, 0, 0, 0]
    && s.dispatcher == Fetching && s.forwarded == [false, false, false, false] && s.finishedLevels == 0
    && s.b == [[], [], [], []] && s.eofPosted == [false, false, false, false] && s.eofsPushed == [0, 0, 0, 0]
    && (forall w | 0 <= w < |s.workers| :: s.workers[w].stage == Looping && s.workers[w].processed == [])
    && (forall lv | 0 <= lv < LEVELS :: HasWorker(s, lv))
  }

  predicate HasWorker(s: Sys, lv: nat) {
    exists w | 0 <= w < |s.workers| :: s.workers[w].level == lv
  }

  ghost predicate StepAt(c: Caps, run: seq<Sys>, i: nat) {
    i + 1 < |run| && Shape(c, run[i]) && Next(c, run[i], run[i + 1])
  }

  ghost predicate IsRun(c: Caps, run: seq<Sys>) {
    0 < |run| && Init(c, run[0]) && forall i | 0 <= i < |run| - 1 :: StepAt(c, run, i)
  }

  // ---------- The protocol invariant ----------

  ghost predicate NoMarkers(q: seq<Entry>) {
    forall i | 0 <= i < |q| :: !q[i].eof
  }

  /** Data of the given level only, then at most one marker, at the very end. */
  ghost predicate MarkerLast(q: seq<Entry>) {
    forall i | 0 <= i < |q| - 1 :: !q[i].eof
  }

  function Unfinished(readers: seq<Reader>): nat {
    if readers == [] then 0
    else Unfinished(readers[..|readers| - 1]) + if readers[|readers| - 1].finished then 0 else 1
  }

  /** How many levels the parser has marked. */
  function Marked(p: Parser): nat {
    match p
    case Marking(lv) => if lv < LEVELS then lv else LEVELS
    case ParserGone => LEVELS
    case _ => 0
  }

  /** The reader threads and the parser: once the parser marks, nothing is left to read. */
  ghost predicate ReadingOk(c: Caps, s: Sys) {
    && s.active == Unfinished(s.readers)
    && (forall i | 0 <= i < |s.readers| && s.readers[i].finished :: s.readers[i].todo == [])
    && (forall i | 0 <= i < |s.readers| :: NoMarkers(s.readers[i].todo))
    && (s.active == 0 ==> s.done)
    && (s.done ==> forall i | 0 <= i < |s.readers| :: s.readers[i].todo == [])
    && NoMarkers(s.ibuf)
    && (s.parser.Sending? ==> Valid(s.parser.e.level) && !s.parser.e.eof)
    && (s.parser.Marking? || s.parser.ParserGone? ==> s.ibuf == [] && s.done)
    && (s.parser.Marking? ==> s.parser.level <= LEVELS)
  }

  /** The level of the next marker the dispatcher will fetch. */
  function NextMarker(s: Sys): int {
    s.finishedLevels + if s.dispatcher.Checking? || s.dispatcher.Forwarding? then 1 else 0
  }

  /** Region A holds data, then the markers not yet fetched, in ascending order. */
  ghost predicate RegionAOk(s: Sys) {
    var f := NextMarker(s);
    var n := |s.a| - (Marked(s.parser) - f);
    && 0 <= n <= |s.a|
    && (forall i | 0 <= i < n :: !s.a[i].eof && Valid(s.a[i].level))
    && (forall i | n <= i < |s.a| :: s.a[i] == Marker(f + i - n))
    && (f > 0 ==> n == 0)
  }

  ghost predicate DispatcherOk(s: Sys)
    requires Sized(s)
  {
    && 0 <= s.finishedLevels <= LEVELS
    && (forall lv | 0 <= lv < LEVELS :: s.forwarded[lv] == (lv < s.finishedLevels))
    && (forall lv | 0 <= lv < LEVELS :: s.eofCount[lv] == if lv < Marked(s.parser) then 1 else 0)
    && (match s.dispatcher
        case Fetching => true
        case Routing(e) => Valid(e.level) && !e.eof && s.finishedLevels == 0
        case Checking(lv) => lv == s.finishedLevels < LEVELS
        case Forwarding(lv) => lv == s.finishedLevels < LEVELS
        case Forcing(lv) => s.finishedLevels == LEVELS && lv <= LEVELS
        case DispatcherGone => s.finishedLevels == LEVELS)
  }

  ghost predicate RegionBOk(s: Sys)
    requires Sized(s)
  {
    forall lv | 0 <= lv < LEVELS ::
      && s.eofPosted[lv] == s.forwarded[lv]
      && s.eofsPushed[lv] == (if s.forwarded[lv] then 1 else 0)
      && (if s.eofPosted[lv] then MarkerLast(s.b[lv]) && (s.b[lv] != [] ==> s.b[lv][|s.b[lv]| - 1].eof)
          else NoMarkers(s.b[lv]))
      && (forall i | 0 <= i < |s.b[lv]| && !s.b[lv][i].eof :: s.b[lv][i].level == lv)
  }

  ghost predicate WorkersOk(s: Sys)
    requires Sized(s)
  {
    && (forall w | 0 <= w < |s.workers| :: WorkerOk(s, s.workers[w]))
    && (forall lv | 0 <= lv < LEVELS :: HasWorker(s, lv))
  }

  ghost predicate WorkerOk(s: Sys, k: Worker) {
    k.level < LEVELS && k.level < |s.b| && k.level < |s.eofPosted| &&
    match k.stage
    case Looping => true
    case Busy(e) => !e.eof && e.level == k.level
    case Left => s.eofPosted[k.level] && s.b[k.level] == []
  }

  ghost predicate Inv(c: Caps, s: Sys) {
    && Shape(c, s) && s.totalReaders == 1
    && ReadingOk(c, s) && DispatcherOk(s) && RegionAOk(s) && RegionBOk(s) && WorkersOk(s)
  }
}
