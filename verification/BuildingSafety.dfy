/**
 * What every reachable state of the building satisfies, whatever the
 * interleaving: sound words, mutual exclusion, exact ownership of words and of
 * letter tasks, and counters that agree with the words they count.
 */
module BuildingSafety {
  import opened Options
  import opened WordSlots
  import opened Building

  // ---------- Words ----------

  ghost predicate EntryOk(c: Config, k: nat, e: Entry) {
    && k < |c.texts|
    && Sound(e.w) && e.w.original == c.texts[k] && |e.source| == |e.w.original|
    && (e.admitted ==> e.taken && 0 <= e.arrival < c.floors)
    && (e.w.completed ==> e.admitted)
  }

  /** How a word may change: marks are never taken back once they are final. */
  ghost predicate Evolves(e: Entry, f: Entry) {
    && Shaped(e.w) && Shaped(f.w) && Grows(e.w, f.w)
    && |f.source| == |e.source|
    && (e.admitted ==> f.admitted && f.arrival == e.arrival)
    && (e.w.completed ==> f.w.completed)
    && (forall t | 0 <= t < |e.w.claimed| :: e.w.claimed[t] ==> f.w.claimed[t])
    && (forall t | 0 <= t < |e.w.delivered| :: e.w.delivered[t] ==> f.w.delivered[t])
  }

  // ---------- Processes ----------

  /** The word a carrier has claimed and not yet admitted. */
  function Owned(pc: Pc): Option<nat> {
    match pc
    case WLow(k) => Some(k)
    case WHigh(k) => Some(k)
    case WBoth(k) => Some(k)
    case WArrive(k) => Some(k)
    case WMark(k) => Some(k)
    case WReject(k) => Some(k)
    case _ => None
  }

  /** The letter task a carrier has claimed and not yet delivered. */
  function Job(pc: Pc): Option<Task> {
    match pc
    case LRide(job, _, _, _) => job
    case LPlace(k, t) => Some(Task(k, t))
    case LPlaceHeld(k, t) => Some(Task(k, t))
    case _ => None
  }

  ghost predicate Letter(s: State, k: nat, t: nat) {
    k < |s.words| && s.words[k].admitted && t < |s.words[k].w.original|
  }

  predicate Sorts(c: Config, k: nat, f: nat) {
    k < |c.sortFloor| && c.sortFloor[k] == f
  }

  ghost predicate ProcOk(c: Config, s: State, r: Proc) {
    && r.floor < c.floors
    && match r.pc
       case WPick => |s.words| > 0
       case WPickHeld => |s.words| > 0
       case WScan(_, _) => |s.words| > 0
       case WClaim(k) => k < |s.words|
       case WClaimHeld(k) => k < |s.words|
       case WLow(k) => k < |s.words|
       case WHigh(k) => k < |s.words| && k < |c.sortFloor| && c.sortFloor[k] != r.floor
       case WBoth(k) => k < |s.words|
       case WArrive(k) => k < |s.words|
       case WMark(k) => k < |s.words|
       case WReject(k) => k < |s.words|
       case WSource(k, _) => k < |s.words| && s.words[k].admitted
       case WCount(k) => k < |s.words| && s.words[k].admitted
       case WCountHeld(k) => k < |s.words| && s.words[k].admitted
       case LClaim(k, t) => Letter(s, k, t)
       case LClaimHeld(k, t) => Letter(s, k, t)
       case LRide(job, dest, _, _) => dest < c.floors && (job.Some? ==> Letter(s, job.value.word, job.value.index))
       case LPlace(k, t) => Letter(s, k, t)
       case LPlaceHeld(k, t) => Letter(s, k, t)
       case STry(k) => k < |s.words| && s.words[k].admitted && Sorts(c, k, r.floor)
       case SPass(k) => k < |s.words| && s.words[k].admitted && Sorts(c, k, r.floor)
       case SFloor(k) => k < |s.words| && s.words[k].w.completed && Sorts(c, k, r.floor)
       case SFloorHeld(k) => k < |s.words| && s.words[k].w.completed && Sorts(c, k, r.floor)
       case SDone(k) => k < |s.words| && s.words[k].w.completed
       case SDoneHeld(k) => k < |s.words| && s.words[k].w.completed
       case SRelease(k) => k < |s.words|
       case _ => true
  }

  /** Sizes, words and program points are in order. */
  ghost predicate Wellformed(c: Config, s: State) {
    && GoodConfig(c) && |s.words| == |c.texts| && |s.floors| == c.floors
    && s.header.admittedCount >= 0
    && (forall k | 0 <= k < |s.words| :: EntryOk(c, k, s.words[k]))
    && (forall p | 0 <= p < |s.procs| :: ProcOk(c, s, s.procs[p]))
  }

  /** No mutex is held twice. */
  ghost predicate Exclusive(c: Config, s: State) {
    forall p, q | 0 <= p < q < |s.procs| :: Holds(c, s.procs[p]) !! Holds(c, s.procs[q])
  }

  /** A word is taken and not admitted exactly while one carrier owns it. */
  ghost predicate OwnersExact(c: Config, s: State) {
    && (forall p | 0 <= p < |s.procs| :: OwnerOk(s, s.procs[p]))
    && (forall p, q | 0 <= p < q < |s.procs| && Owned(s.procs[p].pc).Some? ::
          Owned(s.procs[p].pc) != Owned(s.procs[q].pc))
    && (forall k | 0 <= k < |s.words| && s.words[k].taken && !s.words[k].admitted :: HasOwner(s, k))
  }

  ghost predicate OwnerOk(s: State, r: Proc) {
    match Owned(r.pc)
    case Some(k) =>
      k < |s.words| && s.words[k].taken && !s.words[k].admitted && (r.pc.WMark? ==> s.words[k].arrival == r.floor)
    case None => true
  }

  ghost predicate HasOwner(s: State, k: nat) {
    exists p | 0 <= p < |s.procs| :: Owned(s.procs[p].pc) == Some(k)
  }

  /** A task is claimed and undelivered exactly while one letter carrier has it. */
  ghost predicate JobsExact(c: Config, s: State) {
    && (forall p | 0 <= p < |s.procs| && Job(s.procs[p].pc).Some? :: Underway(s, Job(s.procs[p].pc).value))
    && (forall p, q | 0 <= p < q < |s.procs| && Job(s.procs[p].pc).Some? :: Job(s.procs[p].pc) != Job(s.procs[q].pc))
    && (forall k: nat, t: nat | Underway(s, Task(k, t)) :: HasCarrier(s, Task(k, t)))
  }

  ghost predicate Underway(s: State, j: Task) {
    && j.word < |s.words| && j.index < |s.words[j.word].w.claimed| && j.index < |s.words[j.word].w.delivered|
    && s.words[j.word].w.claimed[j.index] && !s.words[j.word].w.delivered[j.index]
  }

  ghost predicate HasCarrier(s: State, j: Task) {
    exists p | 0 <= p < |s.procs| :: Job(s.procs[p].pc) == Some(j)
  }

  // ---------- Well-formedness is kept ----------

  /** The entry a step writes is in order and continues the one it replaces. */
  lemma StepWritesGoodEntry(c: Config, s: State, p: nat, r': Proc, eff: Effect)
    requires Wellformed(c, s) && OwnersExact(c, s) && JobsExact(c, s)
    requires p < |s.procs| && Allowed(c, s, p, r', eff) && eff.PutEntry?
    ensures eff.k < |s.words| && EntryOk(c, eff.k, eff.e) && Evolves(s.words[eff.k], eff.e)
  {
    var r := s.procs[p];
    assert ProcOk(c, s, r) && OwnerOk(s, r);
    var k := eff.k;
    assert EntryOk(c, k, s.words[k]);
    var w := s.words[k].w;
    match r.pc
    case LClaimHeld(_, t) =>
      ClaimKeepsSound(w, t);
      ClaimGrows(w, t);
    case LPlaceHeld(_, t) =>
      assert Underway(s, Task(k, t));
      PlaceKeepsSound(w, t);
      PlaceGrows(w, t);
    case SPass(_) =>
      PassKeepsSound(w);
    case _ =>
  }

  lemma ProcStaysOk(c: Config, s: State, t: State, r: Proc)
    requires ProcOk(c, s, r) && |t.words| == |s.words| == |c.sortFloor|
    requires forall k | 0 <= k < |s.words| :: Evolves(s.words[k], t.words[k])
    ensures ProcOk(c, t, r)
  {
    assert forall k: nat, i: nat | Letter(s, k, i) :: Evolves(s.words[k], t.words[k]) && Letter(t, k, i);
    match r.pc
    case LRide(job, _, _, _) => assert job.Some? ==> Letter(t, job.value.word, job.value.index);
    case _ =>
  }

  lemma WordEvolvesToItself(e: Entry)
    requires Shaped(e.w)
    ensures Evolves(e, e)
  {
  }

  lemma StepEvolvesWords(c: Config, s: State, p: nat, r': Proc, eff: Effect)
    requires Wellformed(c, s) && OwnersExact(c, s) && JobsExact(c, s)
    requires p < |s.procs| && Allowed(c, s, p, r', eff)
    ensures var t := Apply(s, p, r', eff);
      && |t.words| == |s.words|
      && (forall k | 0 <= k < |s.words| :: EntryOk(c, k, t.words[k]) && Evolves(s.words[k], t.words[k]))
  {
    var t := Apply(s, p, r', eff);
    if eff.PutEntry? {
      StepWritesGoodEntry(c, s, p, r', eff);
    }
    forall k | 0 <= k < |s.words| ensures EntryOk(c, k, t.words[k]) && Evolves(s.words[k], t.words[k]) {
      assert EntryOk(c, k, s.words[k]);
      WordEvolvesToItself(s.words[k]);
    }
  }

  /** The moving process ends at a program point that is in order. */
  lemma MoverIsOk(c: Config, s: State, p: nat, r': Proc, eff: Effect)
    requires Wellformed(c, s) && OwnersExact(c, s) && JobsExact(c, s)
    requires p < |s.procs| && Allowed(c, s, p, r', eff)
    ensures ProcOk(c, Apply(s, p, r', eff), r')
  {
    var r, t := s.procs[p], Apply(s, p, r', eff);
    assert ProcOk(c, s, r);
    StepEvolvesWords(c, s, p, r', eff);
    ProcStaysOk(c, s, t, r);
    if CarrierStep(c, s, r, r', eff) {
      CarrierMoverIsOk(c, s, p, r', eff);
    } else if LetterStep(c, s, r, r', eff) {
      LetterMoverIsOk(c, s, p, r', eff);
    } else {
      SorterMoverIsOk(c, s, p, r', eff);
    }
  }

  lemma SorterMoverIsOk(c: Config, s: State, p: nat, r': Proc, eff: Effect)
    requires Wellformed(c, s) && p < |s.procs| && SorterStep(c, s, s.procs[p], r', eff)
    requires ProcOk(c, Apply(s, p, r', eff), s.procs[p]) && |Apply(s, p, r', eff).words| == |s.words|
    requires forall k | 0 <= k < |s.words| :: Evolves(s.words[k], Apply(s, p, r', eff).words[k])
    ensures ProcOk(c, Apply(s, p, r', eff), r')
  {
    if s.procs[p].pc.SFind? && r'.pc.STry? {
      assert Evolves(s.words[r'.pc.k], Apply(s, p, r', eff).words[r'.pc.k]);
    }
  }

  lemma CarrierMoverIsOk(c: Config, s: State, p: nat, r': Proc, eff: Effect)
    requires Wellformed(c, s) && p < |s.procs| && CarrierStep(c, s, s.procs[p], r', eff)
    requires ProcOk(c, Apply(s, p, r', eff), s.procs[p]) && |Apply(s, p, r', eff).words| == |s.words|
    ensures ProcOk(c, Apply(s, p, r', eff), r')
  {
  }

  lemma LetterMoverIsOk(c: Config, s: State, p: nat, r': Proc, eff: Effect)
    requires Wellformed(c, s) && p < |s.procs| && LetterStep(c, s, s.procs[p], r', eff)
    requires ProcOk(c, Apply(s, p, r', eff), s.procs[p]) && |Apply(s, p, r', eff).words| == |s.words|
    ensures ProcOk(c, Apply(s, p, r', eff), r')
  {
    var r, t := s.procs[p], Apply(s, p, r', eff);
    match r.pc
    case LFind =>
      if r'.pc.LClaim? {
        ResidentIsLetter(c, s, t, r, r'.pc.k, r'.pc.t);
      }
    case LClaimHeld(k, i) =>
      assert Letter(t, k, i);
    case LRide(job, _, _, _) =>
      assert job.Some? ==> Letter(t, job.value.word, job.value.index);
    case _ =>
  }

  lemma ResidentIsLetter(c: Config, s: State, t: State, r: Proc, k: nat, i: nat)
    requires Wellformed(c, s) && t.words == s.words && k < |s.words| && Resident(s.words[k], r.floor, i)
    ensures Letter(t, k, i)
  {
    assert EntryOk(c, k, s.words[k]);
  }

  lemma StepKeepsWellformed(c: Config, s: State, p: nat, r': Proc, eff: Effect)
    requires Wellformed(c, s) && OwnersExact(c, s) && JobsExact(c, s)
    requires p < |s.procs| && Allowed(c, s, p, r', eff)
    ensures Wellformed(c, Apply(s, p, r', eff))
  {
    var t := Apply(s, p, r', eff);
    StepEvolvesWords(c, s, p, r', eff);
    MoverIsOk(c, s, p, r', eff);
    forall q | 0 <= q < |t.procs| ensures ProcOk(c, t, t.procs[q]) {
      if q != p {
        assert ProcOk(c, s, s.procs[q]);
        ProcStaysOk(c, s, t, s.procs[q]);
      }
    }
    StepKeepsSizes(c, s, p, r', eff);
  }

  lemma StepKeepsSizes(c: Config, s: State, p: nat, r': Proc, eff: Effect)
    requires p < |s.procs| && Allowed(c, s, p, r', eff)
    ensures |Apply(s, p, r', eff).floors| == |s.floors|
    ensures Apply(s, p, r', eff).header.admittedCount >= s.header.admittedCount
  {
  }

  // ---------- Mutual exclusion is kept ----------

  /** A step adds at most the mutex it waited for, and only if that was free. */
  lemma StepTakesFreeLock(c: Config, s: State, p: nat, r': Proc, eff: Effect)
    requires Wellformed(c, s) && p < |s.procs| && Allowed(c, s, p, r', eff)
    ensures forall l | l in Holds(c, r') && l !in Holds(c, s.procs[p]) :: Free(c, s, l)
  {
    var r := s.procs[p];
    assert ProcOk(c, s, r);
    if CarrierStep(c, s, r, r', eff) {
      CarrierTakesFreeLock(c, s, r, r', eff);
    } else if LetterStep(c, s, r, r', eff) {
      LetterTakesFreeLock(c, s, r, r', eff);
    } else {
      SorterTakesFreeLock(c, s, r, r', eff);
    }
  }

  lemma CarrierTakesFreeLock(c: Config, s: State, r: Proc, r': Proc, eff: Effect)
    requires CarrierStep(c, s, r, r', eff) && ProcOk(c, s, r) && |c.sortFloor| == |s.words|
    ensures Holds(c, r') <= Holds(c, r)
      || (&& Wants(c, r).Some? && Free(c, s, Wants(c, r).value)
          && Holds(c, r') <= Holds(c, r) + {Wants(c, r).value})
  {
  }

  lemma LetterTakesFreeLock(c: Config, s: State, r: Proc, r': Proc, eff: Effect)
    requires LetterStep(c, s, r, r', eff)
    ensures Holds(c, r') <= Holds(c, r)
      || (&& Wants(c, r).Some? && Free(c, s, Wants(c, r).value)
          && Holds(c, r') <= Holds(c, r) + {Wants(c, r).value})
  {
  }

  lemma SorterTakesFreeLock(c: Config, s: State, r: Proc, r': Proc, eff: Effect)
    requires SorterStep(c, s, r, r', eff)
    ensures Holds(c, r') <= Holds(c, r)
      || (Wants(c, r).Some? && Free(c, s, Wants(c, r).value) && Holds(c, r') <= Holds(c, r) + {Wants(c, r).value})
      || (r.pc.STry? && Free(c, s, WordMutex(r.pc.k)) && Holds(c, r') == {WordMutex(r.pc.k)})
  {
  }

  lemma StepKeepsExclusive(c: Config, s: State, p: nat, r': Proc, eff: Effect)
    requires Wellformed(c, s) && Exclusive(c, s) && p < |s.procs| && Allowed(c, s, p, r', eff)
    ensures Exclusive(c, Apply(s, p, r', eff))
  {
    StepTakesFreeLock(c, s, p, r', eff);
    var t := Apply(s, p, r', eff);
    forall q | 0 <= q < |s.procs| && q != p ensures Holds(c, t.procs[q]) !! Holds(c, r') {
      assert Holds(c, s.procs[q]) !! Holds(c, s.procs[p]);
    }
  }

  // ---------- Ownership of words is kept ----------

  predicate SameFlags(e: Entry, f: Entry) {
    e.taken == f.taken && e.admitted == f.admitted && e.arrival == f.arrival
  }

  /** Flags of a word change only under its owner, or when a carrier claims an untaken word. */
  ghost predicate FlagLaw(s: State, r: Proc, r': Proc, eff: Effect) {
    && (Owned(r'.pc).Some? && Owned(r'.pc) != Owned(r.pc) ==>
          var k := Owned(r'.pc).value;
          && k < |s.words| && !s.words[k].taken && !s.words[k].admitted && !r'.pc.WMark?
          && eff == PutEntry(k, s.words[k].(taken := true)))
    && (eff.PutEntry? && eff.k < |s.words| && !SameFlags(s.words[eff.k], eff.e) ==>
          Owned(r.pc) == Some(eff.k) || Owned(r'.pc) == Some(eff.k))
    && (Owned(r.pc).Some? && Owned(r'.pc) != Owned(r.pc) ==>
          eff.PutEntry? && eff.k == Owned(r.pc).value && (eff.e.admitted || !eff.e.taken))
    && (Owned(r.pc).Some? && Owned(r'.pc) == Owned(r.pc) ==>
          if eff.PutEntry? then
            && eff.k == Owned(r.pc).value && eff.k < |s.words| && eff.e == s.words[eff.k].(arrival := r.floor)
            && r'.floor == r.floor
          else !r'.pc.WMark?)
  }

  lemma CarrierFlags(c: Config, s: State, r: Proc, r': Proc, eff: Effect)
    requires ProcOk(c, s, r) && |c.sortFloor| == |s.words| && CarrierStep(c, s, r, r', eff)
    ensures FlagLaw(s, r, r', eff)
  {
  }

  lemma LetterFlags(c: Config, s: State, r: Proc, r': Proc, eff: Effect)
    requires LetterStep(c, s, r, r', eff)
    ensures Owned(r.pc) == Owned(r'.pc) == None && FlagLaw(s, r, r', eff)
  {
  }

  lemma SorterFlags(c: Config, s: State, r: Proc, r': Proc, eff: Effect)
    requires SorterStep(c, s, r, r', eff)
    ensures Owned(r.pc) == Owned(r'.pc) == None && FlagLaw(s, r, r', eff)
  {
  }

  lemma FlagsChangeByOwner(c: Config, s: State, p: nat, r': Proc, eff: Effect)
    requires Wellformed(c, s) && p < |s.procs| && Allowed(c, s, p, r', eff)
    ensures FlagLaw(s, s.procs[p], r', eff)
  {
    var r := s.procs[p];
    assert ProcOk(c, s, r);
    if CarrierStep(c, s, r, r', eff) {
      CarrierFlags(c, s, r, r', eff);
    } else if LetterStep(c, s, r, r', eff) {
      LetterFlags(c, s, r, r', eff);
    } else {
      SorterFlags(c, s, r, r', eff);
    }
  }

  lemma OwnersStayOk(c: Config, s: State, p: nat, r': Proc, eff: Effect)
    requires OwnersExact(c, s) && p < |s.procs| && FlagLaw(s, s.procs[p], r', eff)
    ensures forall q | 0 <= q < |s.procs| && q != p ::
      OwnerOk(Apply(s, p, r', eff), s.procs[q])
      && (Owned(s.procs[q].pc).Some? ==> Owned(s.procs[q].pc) != Owned(r'.pc))
  {
    var r, t := s.procs[p], Apply(s, p, r', eff);
    assert OwnerOk(s, r);
    forall q | 0 <= q < |s.procs| && q != p
      ensures OwnerOk(t, s.procs[q])
      ensures Owned(s.procs[q].pc).Some? ==> Owned(s.procs[q].pc) != Owned(r'.pc)
    {
      assert OwnerOk(s, s.procs[q]);
      assert Owned(s.procs[q].pc).Some? ==> Owned(s.procs[q].pc) != Owned(r.pc);
    }
  }

  lemma TakenKeepsOwner(c: Config, s: State, p: nat, r': Proc, eff: Effect, k: nat)
    requires Wellformed(c, s) && OwnersExact(c, s) && p < |s.procs| && FlagLaw(s, s.procs[p], r', eff)
    requires k < |s.words| && k < |Apply(s, p, r', eff).words|
    requires Apply(s, p, r', eff).words[k].taken && !Apply(s, p, r', eff).words[k].admitted
    ensures HasOwner(Apply(s, p, r', eff), k)
  {
    var t := Apply(s, p, r', eff);
    assert OwnerOk(s, s.procs[p]);
    if s.words[k].taken && !s.words[k].admitted {
      assert HasOwner(s, k);
      var q :| 0 <= q < |s.procs| && Owned(s.procs[q].pc) == Some(k);
      assert Owned(t.procs[q].pc) == Some(k);
    } else {
      assert EntryOk(c, k, s.words[k]);
      assert Owned(t.procs[p].pc) == Some(k);
    }
  }

  lemma StepKeepsOwners(c: Config, s: State, p: nat, r': Proc, eff: Effect)
    requires Wellformed(c, s) && OwnersExact(c, s) && p < |s.procs| && Allowed(c, s, p, r', eff)
    ensures OwnersExact(c, Apply(s, p, r', eff))
  {
    var t := Apply(s, p, r', eff);
    FlagsChangeByOwner(c, s, p, r', eff);
    assert OwnerOk(s, s.procs[p]);
    OwnersStayOk(c, s, p, r', eff);
    forall k | 0 <= k < |t.words| && t.words[k].taken && !t.words[k].admitted ensures HasOwner(t, k) {
      TakenKeepsOwner(c, s, p, r', eff, k);
    }
  }

  // ---------- Ownership of letter tasks is kept ----------

  predicate SameMarks(e: Entry, f: Entry) {
    e.w.claimed == f.w.claimed && e.w.delivered == f.w.delivered
  }

  /** Task marks change only when a carrier wins a task or delivers the one it has. */
  ghost predicate MarkLaw(s: State, r: Proc, r': Proc, eff: Effect) {
    && (Job(r'.pc).Some? && Job(r'.pc) != Job(r.pc) ==>
          var j := Job(r'.pc).value;
          && Job(r.pc) == None
          && j.word < |s.words| && Shaped(s.words[j.word].w) && j.index < |s.words[j.word].w.original|
          && !s.words[j.word].w.claimed[j.index] && !s.words[j.word].w.delivered[j.index]
          && eff == PutEntry(j.word, s.words[j.word].(w := Claim(s.words[j.word].w, j.index))))
    && (Job(r.pc).Some? && Job(r'.pc) != Job(r.pc) ==>
          var j := Job(r.pc).value;
          && j.word < |s.words| && Shaped(s.words[j.word].w) && j.index < |s.words[j.word].w.original|
          && eff == PutEntry(j.word, s.words[j.word].(w := Place(s.words[j.word].w, j.index))))
    && (eff.PutEntry? && Job(r.pc) == Job(r'.pc) ==> eff.k < |s.words| && SameMarks(s.words[eff.k], eff.e))
  }

  lemma MarksChangeByCarrier(c: Config, s: State, p: nat, r': Proc, eff: Effect)
    requires Wellformed(c, s) && JobsExact(c, s) && p < |s.procs| && Allowed(c, s, p, r', eff)
    ensures MarkLaw(s, s.procs[p], r', eff)
  {
    var r := s.procs[p];
    assert ProcOk(c, s, r);
    if CarrierStep(c, s, r, r', eff) {
      CarrierMarks(c, s, r, r', eff);
    } else if LetterStep(c, s, r, r', eff) {
      LetterMarks(c, s, p, r', eff);
    } else {
      SorterMarks(c, s, r, r', eff);
    }
  }

  lemma CarrierMarks(c: Config, s: State, r: Proc, r': Proc, eff: Effect)
    requires CarrierStep(c, s, r, r', eff)
    ensures MarkLaw(s, r, r', eff)
  {
  }

  lemma SorterMarks(c: Config, s: State, r: Proc, r': Proc, eff: Effect)
    requires Wellformed(c, s) && SorterStep(c, s, r, r', eff)
    ensures MarkLaw(s, r, r', eff)
  {
    if r.pc.SPass? {
      assert EntryOk(c, r.pc.k, s.words[r.pc.k]);
      PassKeepsSound(s.words[r.pc.k].w);
    }
  }

  lemma LetterMarks(c: Config, s: State, p: nat, r': Proc, eff: Effect)
    requires Wellformed(c, s) && JobsExact(c, s) && p < |s.procs| && LetterStep(c, s, s.procs[p], r', eff)
    ensures var r := s.procs[p];
      if Job(r'.pc) == Job(r.pc) then eff == Skip
      else if r.pc.LClaimHeld? then
        && Job(r.pc) == None && Job(r'.pc) == Some(Task(r.pc.k, r.pc.t))
        && r.pc.k < |s.words| && r.pc.t < |s.words[r.pc.k].w.original| && Shaped(s.words[r.pc.k].w)
        && !s.words[r.pc.k].w.claimed[r.pc.t] && !s.words[r.pc.k].w.delivered[r.pc.t]
        && eff == PutEntry(r.pc.k, s.words[r.pc.k].(w := Claim(s.words[r.pc.k].w, r.pc.t)))
      else
        && r.pc.LPlaceHeld? && Job(r'.pc) == None
        && r.pc.k < |s.words| && r.pc.t < |s.words[r.pc.k].w.original| && Shaped(s.words[r.pc.k].w)
        && eff == PutEntry(r.pc.k, s.words[r.pc.k].(w := Place(s.words[r.pc.k].w, r.pc.t)))
  {
  }

  /** How the set of tasks under way changes with a step. */
  ghost predicate TaskLaw(s: State, t: State, r: Proc, r': Proc) {
    var j, j' := Job(r.pc), Job(r'.pc);
    if j == j' then forall i :: Underway(t, i) == Underway(s, i)
    else if j'.Some? then
      j == None && !Underway(s, j'.value) && forall i :: Underway(t, i) == (Underway(s, i) || i == j'.value)
    else
      forall i :: Underway(t, i) == (Underway(s, i) && i != j.value)
  }

  lemma StepObeysTaskLaw(c: Config, s: State, p: nat, r': Proc, eff: Effect)
    requires Wellformed(c, s) && JobsExact(c, s) && p < |s.procs| && Allowed(c, s, p, r', eff)
    ensures TaskLaw(s, Apply(s, p, r', eff), s.procs[p], r')
  {
    var r := s.procs[p];
    var t := Apply(s, p, r', eff);
    MarksChangeByCarrier(c, s, p, r', eff);
    if Job(r.pc) == Job(r'.pc) {
    } else if Job(r'.pc).Some? {
      var j := Job(r'.pc).value;
      assert EntryOk(c, j.word, s.words[j.word]);
      ClaimAddsTask(s, t, j);
    } else {
      var j := Job(r.pc).value;
      assert Underway(s, j) && EntryOk(c, j.word, s.words[j.word]);
      PlaceKeepsSound(s.words[j.word].w, j.index);
      PlaceEndsTask(s, t, j);
    }
  }

  lemma ClaimAddsTask(s: State, t: State, j: Task)
    requires j.word < |s.words| && Shaped(s.words[j.word].w) && j.index < |s.words[j.word].w.original|
    requires var w := s.words[j.word].w; !w.claimed[j.index] && !w.delivered[j.index]
    requires t.words == s.words[j.word := s.words[j.word].(w := Claim(s.words[j.word].w, j.index))]
    ensures !Underway(s, j) && forall i :: Underway(t, i) == (Underway(s, i) || i == j)
  {
  }

  lemma PlaceEndsTask(s: State, t: State, j: Task)
    requires j.word < |s.words| && Shaped(s.words[j.word].w) && j.index < |s.words[j.word].w.original|
    requires Place(s.words[j.word].w, j.index).delivered[j.index]
    requires t.words == s.words[j.word := s.words[j.word].(w := Place(s.words[j.word].w, j.index))]
    ensures forall i :: Underway(t, i) == (Underway(s, i) && i != j)
  {
  }

  lemma StepKeepsJobs(c: Config, s: State, p: nat, r': Proc, eff: Effect)
    requires Wellformed(c, s) && JobsExact(c, s) && p < |s.procs| && Allowed(c, s, p, r', eff)
    ensures JobsExact(c, Apply(s, p, r', eff))
  {
    var r, t := s.procs[p], Apply(s, p, r', eff);
    StepObeysTaskLaw(c, s, p, r', eff);
    forall q | 0 <= q < |t.procs| && Job(t.procs[q].pc).Some?
      ensures Underway(t, Job(t.procs[q].pc).value)
      ensures q != p ==> Job(t.procs[q].pc) != Job(r'.pc)
    {
      if q != p {
        assert Underway(s, Job(s.procs[q].pc).value);
        assert Job(s.procs[q].pc) != Job(r.pc);
      } else if Job(r'.pc) == Job(r.pc) {
        assert Underway(s, Job(r.pc).value);
      }
    }
    forall k: nat, i: nat | Underway(t, Task(k, i)) ensures HasCarrier(t, Task(k, i)) {
      TaskKeepsCarrier(s, t, p, r', Task(k, i));
    }
  }

  lemma TaskKeepsCarrier(s: State, t: State, p: nat, r': Proc, j: Task)
    requires p < |s.procs| && t.procs == s.procs[p := r'] && TaskLaw(s, t, s.procs[p], r')
    requires Underway(t, j) && (Underway(s, j) ==> HasCarrier(s, j))
    ensures HasCarrier(t, j)
  {
    if Underway(s, j) {
      var q :| 0 <= q < |s.procs| && Job(s.procs[q].pc) == Some(j);
      assert Job(t.procs[q].pc) == Some(j);
    } else {
      assert Job(t.procs[p].pc) == Some(j);
    }
  }
}
