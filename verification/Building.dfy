/**
 * The sorting building as a set of processes over shared memory.  A process
 * takes one step at a time: it reads or writes shared data, or it takes or
 * leaves a critical section.  Steps of different processes interleave freely.
 *
 * A scan that reads flags without holding a mutex may act on stale values, so
 * such a step is allowed whenever some earlier reading could have allowed it.
 */
module Building {
  import opened Options
  import opened WordSlots

  datatype Config = Config(floors: nat, maxWords: nat, texts: seq<seq<char>>, sortFloor: seq<nat>)

  ghost predicate GoodConfig(c: Config) {
    && 0 < c.floors && 0 < c.maxWords
    && |c.texts| == |c.sortFloor|
    && (forall k | 0 <= k < |c.texts| :: c.texts[k] != [] && c.sortFloor[k] < c.floors)
  }

  /** A word in shared memory: its slots, and the flags of its admission. */
  datatype Entry = Entry(w: Word, taken: bool, admitted: bool, arrival: int, source: seq<int>)

  datatype Header = Header(rrIndex: nat, admittedCount: int, doneCount: int, retryCount: int, shutdown: bool)

  datatype Task = Task(word: nat, index: nat)

  /** The critical sections of one elevator ride, each waited for and then held. */
  datatype Stage = Board | Request | Poll | Leave | Record

  datatype Pc =
    // word carrier
    | WTop | WTopHeld
    | WPick | WPickHeld | WScan(start: nat, i: nat)
    | WClaim(k: nat) | WClaimHeld(k: nat)
    | WLow(k: nat) | WHigh(k: nat) | WBoth(k: nat)
    | WArrive(k: nat) | WMark(k: nat) | WSource(k: nat, j: nat)
    | WCount(k: nat) | WCountHeld(k: nat)
    | WReject(k: nat) | WRetry | WRetryHeld
    // letter carrier
    | LFind
    | LClaim(k: nat, t: nat) | LClaimHeld(k: nat, t: nat)
    | LRide(job: Option<Task>, dest: nat, stage: Stage, inside: bool)
    | LPlace(k: nat, t: nat) | LPlaceHeld(k: nat, t: nat)
    // sorting process
    | SFind | STry(k: nat) | SPass(k: nat)
    | SFloor(k: nat) | SFloorHeld(k: nat) | SDone(k: nat) | SDoneHeld(k: nat) | SRelease(k: nat)
    // elevator
    | ERest(e: nat) | EMutex(e: nat) | EHeld(e: nat)
    | Gone

  datatype Proc = Proc(floor: nat, pc: Pc)

  datatype State = State(words: seq<Entry>, floors: seq<int>, header: Header, procs: seq<Proc>)

  // ---------- Locks ----------

  datatype Lock = WordMutex(k: nat) | FloorMutex(f: nat) | DoneMutex | RrMutex | StatsMutex | ElevMutex(e: nat)

  function Low(c: Config, f: nat, k: nat): nat
    requires k < |c.sortFloor|
  {
    if f < c.sortFloor[k] then f else c.sortFloor[k]
  }

  function High(c: Config, f: nat, k: nat): nat
    requires k < |c.sortFloor|
  {
    if f < c.sortFloor[k] then c.sortFloor[k] else f
  }

  function ElevatorOf(job: Option<Task>): nat {
    if job.Some? then 0 else 1
  }

  /** The mutexes a process holds at its program point. */
  function Holds(c: Config, r: Proc): set<Lock> {
    match r.pc
    case WTopHeld => {DoneMutex}
    case WPickHeld => {RrMutex}
    case WClaimHeld(_) => {RrMutex}
    case WHigh(k) => if k < |c.sortFloor| then {FloorMutex(Low(c, r.floor, k))} else {}
    case WBoth(k) => if k < |c.sortFloor| then {FloorMutex(Low(c, r.floor, k)), FloorMutex(High(c, r.floor, k))} else {}
    case WCountHeld(_) => {DoneMutex}
    case WRetryHeld => {StatsMutex}
    case LClaimHeld(k, _) => {WordMutex(k)}
    case LRide(job, _, stage, true) => if stage.Record? then {StatsMutex} else {ElevMutex(ElevatorOf(job))}
    case LPlaceHeld(k, _) => {WordMutex(k)}
    case SPass(k) => {WordMutex(k)}
    case SFloor(k) => {WordMutex(k)}
    case SFloorHeld(k) => {WordMutex(k), FloorMutex(r.floor)}
    case SDone(k) => {WordMutex(k)}
    case SDoneHeld(k) => {WordMutex(k), DoneMutex}
    case SRelease(k) => {WordMutex(k)}
    case EHeld(e) => {ElevMutex(e)}
    case _ => {}
  }

  /** The mutex a process is waiting for, if its next step is a sem_wait. */
  function Wants(c: Config, r: Proc): Option<Lock> {
    match r.pc
    case WTop => Some(DoneMutex)
    case WPick => Some(RrMutex)
    case WClaim(_) => Some(RrMutex)
    case WLow(k) => if k < |c.sortFloor| then Some(FloorMutex(Low(c, r.floor, k))) else None
    case WHigh(k) => if k < |c.sortFloor| then Some(FloorMutex(High(c, r.floor, k))) else None
    case WCount(_) => Some(DoneMutex)
    case WRetry => Some(StatsMutex)
    case LClaim(k, _) => Some(WordMutex(k))
    case LRide(job, _, stage, false) => if stage.Record? then Some(StatsMutex) else Some(ElevMutex(ElevatorOf(job)))
    case LPlace(k, _) => Some(WordMutex(k))
    case SFloor(_) => Some(FloorMutex(r.floor))
    case SDone(_) => Some(DoneMutex)
    case EMutex(e) => Some(ElevMutex(e))
    case _ => None
  }

  ghost predicate Free(c: Config, s: State, l: Lock) {
    forall q | 0 <= q < |s.procs| :: l !in Holds(c, s.procs[q])
  }

  // ---------- Steps ----------

  /** What a step writes besides the program point of its process. */
  datatype Effect = Skip | PutEntry(k: nat, e: Entry) | PutFloors(floors: seq<int>) | PutHeader(h: Header)

  function Apply(s: State, p: nat, r: Proc, eff: Effect): State
    requires p < |s.procs|
  {
    var t := s.(procs := s.procs[p := r]);
    match eff
    case Skip => t
    case PutEntry(k, e) => if k < |s.words| then t.(words := s.words[k := e]) else t
    case PutFloors(fl) => t.(floors := fl)
    case PutHeader(h) => t.(header := h)
  }

  function Resident(e: Entry, f: nat, t: nat): bool {
    e.admitted && e.arrival == f && t < |e.source| && e.source[t] == f
  }

  /** The floor counts after a word arrives on f to be sorted on g, if both floors are below the limit. */
  function AdmitFloors(floors: seq<int>, f: nat, g: nat, maxWords: nat): Option<seq<int>>
    requires f < |floors| && g < |floors|
  {
    if f == g then
      if floors[f] < maxWords then Some(floors[f := floors[f] + 2]) else None
    else if floors[f] < maxWords && floors[g] < maxWords then
      Some(floors[f := floors[f] + 1][g := floors[g] + 1])
    else None
  }

  /** The word carrier on floor f holds the floor mutexes of word k: it may admit the word. */
  function Admit(c: Config, s: State, f: nat, k: nat): Option<seq<int>>
    requires k < |c.sortFloor| && f < |s.floors| && c.sortFloor[k] < |s.floors|
  {
    AdmitFloors(s.floors, f, c.sortFloor[k], c.maxWords)
  }

  ghost predicate CarrierStep(c: Config, s: State, r: Proc, r': Proc, eff: Effect)
  {
    var h, f := s.header, r.floor;
    match r.pc
    case WTop =>
      eff == Skip && ((h.shutdown && r' == r.(pc := Gone)) || (Free(c, s, DoneMutex) && r' == r.(pc := WTopHeld)))
    case WTopHeld =>
      eff == Skip && r' == r.(pc := if h.admittedCount >= |s.words| then Gone else WPick)
    case WPick =>
      eff == Skip && Free(c, s, RrMutex) && r' == r.(pc := WPickHeld)
    case WPickHeld =>
      && |s.words| > 0 && eff == PutHeader(h.(rrIndex := (h.rrIndex + 1) % |s.words|))
      && r' == r.(pc := WScan(h.rrIndex, 0))
    case WScan(start, i) =>
      eff == Skip &&
      if i >= |s.words| then r' == r.(pc := WTop)
      else r' == r.(pc := WClaim((start + i) % |s.words|)) || r' == r.(pc := WScan(start, i + 1))
    case WClaim(k) =>
      eff == Skip && Free(c, s, RrMutex) && r' == r.(pc := WClaimHeld(k))
    case WClaimHeld(k) =>
      k < |s.words| &&
      if s.words[k].taken || s.words[k].admitted then eff == Skip && r' == r.(pc := WTop)
      else eff == PutEntry(k, s.words[k].(taken := true)) && r' == r.(pc := WLow(k))
    case WLow(k) =>
      k < |c.sortFloor| && eff == Skip && Free(c, s, FloorMutex(Low(c, f, k)))
      && r' == r.(pc := if f == c.sortFloor[k] then WBoth(k) else WHigh(k))
    case WHigh(k) =>
      k < |c.sortFloor| && eff == Skip && Free(c, s, FloorMutex(High(c, f, k))) && r' == r.(pc := WBoth(k))
    case WBoth(k) =>
      k < |c.sortFloor| && f < |s.floors| && c.sortFloor[k] < |s.floors| &&
      (match Admit(c, s, f, k)
       case Some(floors) => eff == PutFloors(floors) && r' == r.(pc := WArrive(k))
       case None => eff == Skip && r' == r.(pc := WReject(k)))
    case WArrive(k) =>
      k < |s.words| && eff == PutEntry(k, s.words[k].(arrival := f)) && r' == r.(pc := WMark(k))
    case WMark(k) =>
      k < |s.words| && eff == PutEntry(k, s.words[k].(admitted := true)) && r' == r.(pc := WSource(k, 0))
    case WSource(k, j) =>
      k < |s.words| &&
      if j < |s.words[k].source| then
        eff == PutEntry(k, s.words[k].(source := s.words[k].source[j := f])) && r' == r.(pc := WSource(k, j + 1))
      else eff == Skip && r' == r.(pc := WCount(k))
    case WCount(k) =>
      eff == Skip && Free(c, s, DoneMutex) && r' == r.(pc := WCountHeld(k))
    case WCountHeld(k) =>
      eff == PutHeader(h.(admittedCount := h.admittedCount + 1)) && r' == r.(pc := WTop)
    case WReject(k) =>
      k < |s.words| && eff == PutEntry(k, s.words[k].(taken := false)) && r' == r.(pc := WRetry)
    case WRetry =>
      eff == Skip && Free(c, s, StatsMutex) && r' == r.(pc := WRetryHeld)
    case WRetryHeld =>
      eff == PutHeader(h.(retryCount := h.retryCount + 1)) && r' == r.(pc := WTop)
    case _ => false
  }

  /** Where a letter carrier goes when its ride on the elevator is over. */
  function Alight(r: Proc, job: Option<Task>, dest: nat, moved: bool): Proc {
    match job
    case Some(task) => Proc(dest, LPlace(task.word, task.index))
    case None => Proc(if moved then dest else r.floor, LFind)
  }

  ghost predicate LetterStep(c: Config, s: State, r: Proc, r': Proc, eff: Effect)
  {
    match r.pc
    case LFind =>
      eff == Skip &&
      (|| r' == r
       || (s.header.shutdown && r' == r.(pc := Gone))
       || (exists dest: nat | dest < c.floors :: r' == r.(pc := LRide(None, dest, Board, false)))
       || (exists k: nat, t: nat | k < |s.words| && Resident(s.words[k], r.floor, t) :: r' == r.(pc := LClaim(k, t))))
    case LClaim(k, t) =>
      eff == Skip && Free(c, s, WordMutex(k)) && r' == r.(pc := LClaimHeld(k, t))
    case LClaimHeld(k, t) =>
      k < |s.words| && k < |c.sortFloor| && Shaped(s.words[k].w) && t < |s.words[k].w.original| &&
      var w := s.words[k].w;
      if w.claimed[t] || w.delivered[t] then eff == Skip && r' == r.(pc := LFind)
      else
        && eff == PutEntry(k, s.words[k].(w := Claim(w, t)))
        && r' == r.(pc := if c.sortFloor[k] == r.floor then LPlace(k, t)
                          else LRide(Some(Task(k, t)), c.sortFloor[k], Board, false))
    case LRide(job, dest, stage, inside) =>
      eff == Skip &&
      (match (stage, inside)
       case (Board, false) =>
         || (s.header.shutdown && r' == Alight(r, job, dest, false))
         || (Free(c, s, ElevMutex(ElevatorOf(job))) && r' == r.(pc := LRide(job, dest, Board, true)))
       case (Board, true) =>
         r' == r.(pc := LRide(job, dest, Board, false)) || r' == r.(pc := LRide(job, dest, Request, false))
       case (Request, false) =>
         || (s.header.shutdown && r' == Alight(r, job, dest, false))
         || (Free(c, s, ElevMutex(ElevatorOf(job))) && r' == r.(pc := LRide(job, dest, Request, true)))
       case (Request, true) => r' == r.(pc := LRide(job, dest, Poll, false))
       case (Poll, false) =>
         || (s.header.shutdown && r' == r.(pc := LRide(job, dest, Leave, false)))
         || (Free(c, s, ElevMutex(ElevatorOf(job))) && r' == r.(pc := LRide(job, dest, Poll, true)))
       case (Poll, true) =>
         r' == r.(pc := LRide(job, dest, Poll, false)) || r' == r.(pc := LRide(job, dest, Leave, false))
       case (Leave, false) =>
         Free(c, s, ElevMutex(ElevatorOf(job))) && r' == r.(pc := LRide(job, dest, Leave, true))
       case (Leave, true) => r' == r.(pc := LRide(job, dest, Record, false))
       case (Record, false) => Free(c, s, StatsMutex) && r' == r.(pc := LRide(job, dest, Record, true))
       case (Record, true) => r' == Alight(r, job, dest, true))
    case LPlace(k, t) =>
      eff == Skip && Free(c, s, WordMutex(k)) && r' == r.(pc := LPlaceHeld(k, t))
    case LPlaceHeld(k, t) =>
      k < |s.words| && Shaped(s.words[k].w) && t < |s.words[k].w.original|
      && eff == PutEntry(k, s.words[k].(w := Place(s.words[k].w, t))) && r' == r.(pc := LFind)
    case _ => false
  }

  ghost predicate SorterStep(c: Config, s: State, r: Proc, r': Proc, eff: Effect)
  {
    var h, f := s.header, r.floor;
    match r.pc
    case SFind =>
      eff == Skip &&
      (|| r' == r
       || (h.shutdown && r' == r.(pc := Gone))
       || (exists k: nat | k < |s.words| && k < |c.sortFloor| && c.sortFloor[k] == f && s.words[k].admitted ::
             r' == r.(pc := STry(k))))
    case STry(k) =>
      eff == Skip && r' == r.(pc := if Free(c, s, WordMutex(k)) then SPass(k) else SFind)
    case SPass(k) =>
      k < |s.words| && Shaped(s.words[k].w) &&
      var w := s.words[k].w;
      var v := SortPass(w);
      && eff == PutEntry(k, s.words[k].(w := v))
      && r' == r.(pc := if v.completed && !w.completed then SFloor(k) else SRelease(k))
    case SFloor(k) =>
      eff == Skip && Free(c, s, FloorMutex(f)) && r' == r.(pc := SFloorHeld(k))
    case SFloorHeld(k) =>
      f < |s.floors| && eff == PutFloors(s.floors[f := s.floors[f] - 1]) && r' == r.(pc := SDone(k))
    case SDone(k) =>
      eff == Skip && Free(c, s, DoneMutex) && r' == r.(pc := SDoneHeld(k))
    case SDoneHeld(k) =>
      eff == PutHeader(h.(doneCount := h.doneCount + 1)) && r' == r.(pc := SRelease(k))
    case SRelease(k) =>
      eff == Skip && r' == r.(pc := SFind)
    case ERest(e) => eff == Skip && (r' == r.(pc := EMutex(e)) || (h.shutdown && r' == r.(pc := Gone)))
    case EMutex(e) => eff == Skip && Free(c, s, ElevMutex(e)) && r' == r.(pc := EHeld(e))
    case EHeld(e) => eff == Skip && r' == r.(pc := ERest(e))
    case _ => false
  }

  ghost predicate Allowed(c: Config, s: State, p: nat, r': Proc, eff: Effect)
    requires p < |s.procs|
  {
    var r := s.procs[p];
    CarrierStep(c, s, r, r', eff) || LetterStep(c, s, r, r', eff) || SorterStep(c, s, r, r', eff)
  }

  /** Process p takes a step from s to t. */
  ghost predicate Steps(c: Config, s: State, p: nat, t: State) {
    p < |s.procs| && exists r', eff :: Allowed(c, s, p, r', eff) && t == Apply(s, p, r', eff)
  }

  /** Some process takes a step, or the monitor raises the shutdown flag. */
  ghost predicate Next(c: Config, s: State, p: nat, t: State) {
    Steps(c, s, p, t) || (p == |s.procs| && t == s.(header := s.header.(shutdown := true)))
  }

  ghost predicate Init(c: Config, s: State) {
    && GoodConfig(c)
    && |s.words| == |c.texts|
    && (forall k | 0 <= k < |c.texts| ::
          s.words[k] == Entry(Fresh(c.texts[k]), false, false, -1, seq(|c.texts[k]|, _ => -1)))
    && s.floors == seq(c.floors, _ => 0)
    && s.header == Header(0, 0, 0, 0, false)
    && (forall p | 0 <= p < |s.procs| :: s.procs[p].floor < c.floors && Start(s.procs[p].pc))
  }

  predicate Start(pc: Pc) {
    pc == WTop || pc == LFind || pc == SFind || pc.ERest?
  }
}
