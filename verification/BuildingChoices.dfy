/**
 * The steps of a run at which a process of the building decides: when a word or a letter is won, when a word
 * is admitted, and when a word counts as done.
 */
module BuildingChoices {
  import opened Letters
  import opened Options
  import opened WordSlots
  import opened Building
  import BuildingSafety
  import opened BuildingRuns

  /** Step m of the run is taken by a process that stands at pc. */
  predicate MovesFrom(u: Run, m: nat, pc: Pc) {
    && m < |u.movers| && m + 1 < |u.states| && u.movers[m] < |u.states[m].procs|
    && u.states[m].procs[u.movers[m]].pc == pc
  }

  /** The process that takes step m, before and after. */
  function Before(u: Run, m: nat): Proc
    requires m < |u.movers| && m < |u.states| && u.movers[m] < |u.states[m].procs|
  {
    u.states[m].procs[u.movers[m]]
  }

  lemma StepIsAllowed(c: Config, u: Run, m: nat, pc: Pc) returns (r': Proc, eff: Effect)
    requires IsRun(c, u) && MovesFrom(u, m, pc)
    ensures Allowed(c, u.states[m], u.movers[m], r', eff)
    ensures u.states[m + 1] == Apply(u.states[m], u.movers[m], r', eff)
    ensures |u.states[m + 1].procs| == |u.states[m].procs| && u.states[m + 1].procs[u.movers[m]] == r'
  {
    assert StepAt(c, u, m);
    r', eff := StepTaken(c, u.states[m], u.movers[m], u.states[m + 1]);
  }

  lemma StepTaken(c: Config, s: State, p: nat, t: State) returns (r': Proc, eff: Effect)
    requires p < |s.procs| && Next(c, s, p, t)
    ensures Allowed(c, s, p, r', eff) && t == Apply(s, p, r', eff)
    ensures |t.procs| == |s.procs| && t.procs[p] == r'
  {
    r', eff :| Allowed(c, s, p, r', eff) && t == Apply(s, p, r', eff);
  }

  // ---------- Word carriers ----------

  /** A carrier leaves exactly when every word counts as admitted. */
  lemma LeavesIffAllAdmitted(c: Config, u: Run, m: nat)
    requires IsRun(c, u) && MovesFrom(u, m, WTopHeld)
    ensures |u.states[m + 1].procs| == |u.states[m].procs|
    ensures u.states[m + 1].procs[u.movers[m]]
         == Before(u, m).(pc := if u.states[m].header.admittedCount >= |u.states[m].words| then Gone else WPick)
  {
    var r', eff := StepIsAllowed(c, u, m, WTopHeld);
  }

  /** A carrier wins a word exactly when nobody has it and it is not admitted. */
  lemma WordIsWonIffFree(c: Config, u: Run, m: nat, k: nat)
    requires IsRun(c, u) && MovesFrom(u, m, WClaimHeld(k))
    ensures var s, t, p := u.states[m], u.states[m + 1], u.movers[m];
      && k < |s.words| == |t.words| && p < |t.procs|
      && if !s.words[k].taken && !s.words[k].admitted then
           t.words == s.words[k := s.words[k].(taken := true)] && t.procs[p] == Before(u, m).(pc := WLow(k))
         else
           t.words == s.words && t.procs[p] == Before(u, m).(pc := WTop)
  {
    var r', eff := StepIsAllowed(c, u, m, WClaimHeld(k));
  }

  /**
   * A carrier that holds the floor mutexes of a word admits it exactly when the floor it arrives on and the floor
   * it is sorted on are both below the limit; either takes one place, or one floor takes two.
   */
  lemma AdmitsIffRoom(c: Config, u: Run, m: nat, k: nat)
    requires IsRun(c, u) && MovesFrom(u, m, WBoth(k))
    ensures var s, t, p := u.states[m], u.states[m + 1], u.movers[m];
      var f := Before(u, m).floor;
      && k < |c.sortFloor| && f < |s.floors| == |t.floors| && c.sortFloor[k] < |s.floors| && p < |t.procs|
      && var g := c.sortFloor[k];
         if s.floors[f] < c.maxWords && s.floors[g] < c.maxWords then
           && t.procs[p].pc == WArrive(k)
           && forall h | 0 <= h < |s.floors| ::
                t.floors[h] == s.floors[h] + (if h == f then 1 else 0) + if h == g then 1 else 0
         else
           t.procs[p].pc == WReject(k) && t.floors == s.floors
  {
    var r', eff := StepIsAllowed(c, u, m, WBoth(k));
  }

  /** An admitted word has arrived on the carrier's floor, then counts as admitted, then each letter starts there. */
  lemma AdmissionIsRecorded(c: Config, u: Run, m: nat, k: nat, pc: Pc)
    requires IsRun(c, u) && MovesFrom(u, m, pc) && k < |u.states[m].words|
    ensures var s, t, p := u.states[m], u.states[m + 1], u.movers[m];
      var e, f := s.words[k], Before(u, m).floor;
      && p < |t.procs|
      && (pc == WArrive(k) ==> t.words == s.words[k := e.(arrival := f)] && t.procs[p].pc == WMark(k))
      && (pc == WMark(k) ==> t.words == s.words[k := e.(admitted := true)] && t.procs[p].pc == WSource(k, 0))
  {
    var r', eff := StepIsAllowed(c, u, m, pc);
  }

  lemma SourcesAreSet(c: Config, u: Run, m: nat, k: nat, j: nat)
    requires IsRun(c, u) && MovesFrom(u, m, WSource(k, j))
    ensures var s, t, p := u.states[m], u.states[m + 1], u.movers[m];
      && k < |s.words| == |t.words| && p < |t.procs|
      && var e, f := s.words[k], Before(u, m).floor;
         if j < |e.source| then
           t.words == s.words[k := e.(source := e.source[j := f])] && t.procs[p].pc == WSource(k, j + 1)
         else
           t.words == s.words && t.procs[p].pc == WCount(k)
  {
    var r', eff := StepIsAllowed(c, u, m, WSource(k, j));
  }

  /** A rejected word is up for another try. */
  lemma RejectedWordIsFreed(c: Config, u: Run, m: nat, k: nat)
    requires IsRun(c, u) && MovesFrom(u, m, WReject(k))
    ensures var s, t, p := u.states[m], u.states[m + 1], u.movers[m];
      && k < |s.words| == |t.words| && p < |t.procs|
      && t.words == s.words[k := s.words[k].(taken := false)] && t.procs[p].pc == WRetry
  {
    var r', eff := StepIsAllowed(c, u, m, WReject(k));
  }

  // ---------- Letter carriers ----------

  /** A carrier wins a letter exactly when it is neither claimed nor delivered, and takes it where it is sorted. */
  lemma LetterIsWonIffFree(c: Config, u: Run, m: nat, k: nat, i: nat)
    requires IsRun(c, u) && MovesFrom(u, m, LClaimHeld(k, i))
    ensures var s, t, p := u.states[m], u.states[m + 1], u.movers[m];
      var r := Before(u, m);
      && k < |s.words| == |t.words| && k < |c.sortFloor| && p < |t.procs|
      && i < |s.words[k].w.claimed| == |s.words[k].w.delivered|
      && var w := s.words[k].w;
         if !w.claimed[i] && !w.delivered[i] then
           && t.words == s.words[k := s.words[k].(w := w.(claimed := w.claimed[i := true]))]
           && t.procs[p] == r.(pc := if c.sortFloor[k] == r.floor then LPlace(k, i)
                                     else LRide(Some(Task(k, i)), c.sortFloor[k], Board, false))
         else
           t.words == s.words && t.procs[p] == r.(pc := LFind)
  {
    var r', eff := StepIsAllowed(c, u, m, LClaimHeld(k, i));
  }

  /** A ride with a letter ends on the floor of its destination, at the letter's word. */
  lemma RideEndsAtWord(c: Config, u: Run, m: nat, task: Task, dest: nat)
    requires IsRun(c, u) && MovesFrom(u, m, LRide(Some(task), dest, Record, true))
    ensures u.movers[m] < |u.states[m + 1].procs|
    ensures u.states[m + 1].procs[u.movers[m]] == Proc(dest, LPlace(task.word, task.index))
  {
    var r', eff := StepIsAllowed(c, u, m, LRide(Some(task), dest, Record, true));
  }

  /** A placement marks the letter delivered and shows it in the first slot that was neither occupied nor fixed. */
  lemma PlacementShowsLetter(c: Config, u: Run, m: nat, k: nat, i: nat)
    requires IsRun(c, u) && MovesFrom(u, m, LPlaceHeld(k, i))
    ensures var s, t := u.states[m], u.states[m + 1];
      && k < |s.words| == |t.words| && Shaped(s.words[k].w) && i < |s.words[k].w.original|
      && t.words == s.words[k := s.words[k].(w := t.words[k].w)]
      && var w, v := s.words[k].w, t.words[k].w;
         exists x :: && 0 <= x < |w.original| && !w.occupied[x] && !w.fixed[x]
                     && (forall y | 0 <= y < x :: w.occupied[y] || w.fixed[y])
                     && v == w.(area := w.area[x := w.original[i]], occupied := w.occupied[x := true],
                                delivered := w.delivered[i := true])
  {
    var r', eff := StepIsAllowed(c, u, m, LPlaceHeld(k, i));
    DeliveryNeverFails(c, u, m, u.movers[m], k, i);
    var w := u.states[m].words[k].w;
    var x := FreeSlot(w, 0);
    assert 0 <= x < |w.original|;
  }

  // ---------- Sorters ----------

  /** A pass leads on to the counters exactly when it leaves all slots of an uncompleted word fixed. */
  lemma CompletesIffAllFixed(c: Config, u: Run, m: nat, k: nat)
    requires IsRun(c, u) && MovesFrom(u, m, SPass(k))
    ensures var s, t, p := u.states[m], u.states[m + 1], u.movers[m];
      && k < |s.words| == |t.words| && p < |t.procs|
      && (t.words[k].w.completed <==> All(t.words[k].w.fixed))
      && t.procs[p].pc == if All(t.words[k].w.fixed) && !s.words[k].w.completed then SFloor(k) else SRelease(k)
  {
    var r', eff := StepIsAllowed(c, u, m, SPass(k));
    RunIsSafe(c, u, m + 1);
    assert BuildingSafety.EntryOk(c, k, u.states[m + 1].words[k]);
  }

  /** A completed word takes one place off its floor. */
  lemma DoneWordLeavesFloor(c: Config, u: Run, m: nat, k: nat)
    requires IsRun(c, u) && MovesFrom(u, m, SFloorHeld(k))
    ensures var s, t, f := u.states[m], u.states[m + 1], Before(u, m).floor;
      && f < |s.floors| && t.floors == s.floors[f := s.floors[f] - 1] && u.movers[m] < |t.procs|
      && t.procs[u.movers[m]].pc == SDone(k)
  {
    var r', eff := StepIsAllowed(c, u, m, SFloorHeld(k));
  }

  /** Then it adds one to the words done. */
  lemma DoneWordIsCounted(c: Config, u: Run, m: nat, k: nat)
    requires IsRun(c, u) && MovesFrom(u, m, SDoneHeld(k))
    ensures var s, t := u.states[m], u.states[m + 1];
      && t.header == s.header.(doneCount := s.header.doneCount + 1) && u.movers[m] < |t.procs|
      && t.procs[u.movers[m]].pc == SRelease(k)
  {
    var r', eff := StepIsAllowed(c, u, m, SDoneHeld(k));
  }

  // ---------- What a process may do ----------

  /** A letter that starts from the floor of an idle carrier may be taken by it. */
  lemma LetterMayBeTaken(c: Config, s: State, p: nat, k: nat, i: nat)
    requires p < |s.procs| && s.procs[p].pc == LFind && k < |s.words| && i < |s.words[k].source|
    requires s.words[k].admitted && s.words[k].arrival == s.procs[p].floor == s.words[k].source[i]
    ensures Steps(c, s, p, s.(procs := s.procs[p := s.procs[p].(pc := LClaim(k, i))]))
  {
    var r, r' := s.procs[p], s.procs[p].(pc := LClaim(k, i));
    assert Resident(s.words[k], r.floor, i);
    assert LetterStep(c, s, r, r', Skip);
    assert Allowed(c, s, p, r', Skip) && s.(procs := s.procs[p := r']) == Apply(s, p, r', Skip);
  }

  /** And no other letter is taken up. */
  lemma OnlyLettersOfTheFloorAreTaken(c: Config, u: Run, m: nat, k: nat, i: nat)
    requires IsRun(c, u) && MovesFrom(u, m, LFind) && u.movers[m] < |u.states[m + 1].procs|
    requires u.states[m + 1].procs[u.movers[m]].pc == LClaim(k, i)
    ensures k < |u.states[m].words|
    ensures var e, f := u.states[m].words[k], Before(u, m).floor;
      e.admitted && e.arrival == f && i < |e.source| && e.source[i] == f
  {
    var r', eff := StepIsAllowed(c, u, m, LFind);
  }

  /** A sorter tries only admitted words that are sorted on its floor. */
  lemma OnlyWordsOfTheFloorAreTried(c: Config, u: Run, m: nat, k: nat)
    requires IsRun(c, u) && MovesFrom(u, m, SFind) && u.movers[m] < |u.states[m + 1].procs|
    requires u.states[m + 1].procs[u.movers[m]].pc == STry(k)
    ensures k < |u.states[m].words| && k < |c.sortFloor|
    ensures u.states[m].words[k].admitted && c.sortFloor[k] == Before(u, m).floor
  {
    var r', eff := StepIsAllowed(c, u, m, SFind);
  }

  /** A word that is admitted and sorted on the floor of an idle sorter may be tried by it, and passed over if free. */
  lemma WordMayBeSorted(c: Config, s: State, p: nat, k: nat)
    requires p < |s.procs| && k < |s.words| && k < |c.sortFloor|
    ensures s.procs[p].pc == SFind && s.words[k].admitted && c.sortFloor[k] == s.procs[p].floor ==>
      Steps(c, s, p, s.(procs := s.procs[p := s.procs[p].(pc := STry(k))]))
    ensures s.procs[p].pc == STry(k) && Free(c, s, WordMutex(k)) ==>
      Steps(c, s, p, s.(procs := s.procs[p := s.procs[p].(pc := SPass(k))]))
  {
    var r := s.procs[p];
    if r.pc == SFind && s.words[k].admitted && c.sortFloor[k] == r.floor {
      SorterMaySkip(c, s, p, r.(pc := STry(k)));
    }
    if r.pc == STry(k) && Free(c, s, WordMutex(k)) {
      SorterMaySkip(c, s, p, r.(pc := SPass(k)));
    }
  }

  lemma SorterMaySkip(c: Config, s: State, p: nat, r': Proc)
    requires p < |s.procs| && SorterStep(c, s, s.procs[p], r', Skip)
    ensures Steps(c, s, p, s.(procs := s.procs[p := r']))
  {
    assert Allowed(c, s, p, r', Skip) && s.(procs := s.procs[p := r']) == Apply(s, p, r', Skip);
  }

  // ---------- Slots without a letter ----------

  ghost predicate AllBlank(s: State) {
    forall k | 0 <= k < |s.words| :: Shaped(s.words[k].w) && Blank(s.words[k].w)
  }

  lemma StepWritesBlank(c: Config, s: State, p: nat, r': Proc, eff: Effect)
    requires AllBlank(s) && p < |s.procs| && Allowed(c, s, p, r', eff) && eff.PutEntry? && eff.k < |s.words|
    ensures Shaped(eff.e.w) && Blank(eff.e.w)
  {
    var r, w := s.procs[p], s.words[eff.k].w;
    match r.pc
    case LClaimHeld(_, i) => ClaimAndPlaceKeepBlank(w, i);
    case LPlaceHeld(_, i) => ClaimAndPlaceKeepBlank(w, i);
    case SPass(_) => PassKeepsBlank(w);
    case _ =>
  }

  lemma StepKeepsBlank(c: Config, s: State, p: nat, t: State)
    requires AllBlank(s) && Next(c, s, p, t)
    ensures AllBlank(t)
  {
    if p < |s.procs| {
      var r', eff := StepTaken(c, s, p, t);
      if eff.PutEntry? && eff.k < |s.words| {
        StepWritesBlank(c, s, p, r', eff);
      }
    }
  }

  lemma {:induction false} RunKeepsBlank(c: Config, u: Run, i: nat)
    requires IsRun(c, u) && i < |u.states|
    ensures AllBlank(u.states[i])
  {
    if i == 0 {
      forall k | 0 <= k < |u.states[0].words|
        ensures Shaped(u.states[0].words[k].w) && Blank(u.states[0].words[k].w)
      {
        assert u.states[0].words[k].w == Fresh(c.texts[k]);
        FreshIsBlank(c.texts[k]);
      }
    } else {
      RunKeepsBlank(c, u, i - 1);
      assert StepAt(c, u, i - 1);
      StepKeepsBlank(c, u.states[i - 1], u.movers[i - 1], u.states[i]);
    }
  }

  /** In every state of every run a slot that holds no letter shows none. */
  lemma VacantSlotsShowNothing(c: Config, u: Run, i: nat, k: nat, x: nat)
    requires IsRun(c, u) && i < |u.states| && k < |u.states[i].words|
    ensures var w := u.states[i].words[k].w;
      |w.occupied| == |w.area| && (x < |w.area| && !w.occupied[x] ==> w.area[x] == '\0')
  {
    RunKeepsBlank(c, u, i);
  }
}
