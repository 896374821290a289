/**
 * Whole runs of the building.  The invariant holds in every state of every
 * run; the theorems read off what it means for words, counters and locks, and
 * bound the number of sorting passes a delivered word still needs.
 */
module BuildingRuns {
  import opened Letters
  import opened Options
  import opened WordSlots
  import opened Building
  import opened BuildingSafety
  import opened BuildingLedger

  ghost predicate Inv(c: Config, s: State) {
    && Wellformed(c, s) && Exclusive(c, s) && OwnersExact(c, s) && JobsExact(c, s)
    && Balanced(c, s) && Bounded(c, s)
  }

  /** movers[i] is the process that takes step i; the number of processes stands for the monitor. */
  datatype Run = Run(states: seq<State>, movers: seq<nat>)

  ghost predicate StepAt(c: Config, u: Run, i: nat) {
    i < |u.movers| < |u.states| && Next(c, u.states[i], u.movers[i], u.states[i + 1])
  }

  ghost predicate IsRun(c: Config, u: Run) {
    && |u.states| == |u.movers| + 1
    && Init(c, u.states[0])
    && forall i | 0 <= i < |u.movers| :: StepAt(c, u, i)
  }

  // ---------- The invariant ----------

  lemma InitIsSafe(c: Config, s: State)
    requires Init(c, s)
    ensures Inv(c, s)
  {
    InitIsWellformed(c, s);
    InitHasNoTasks(c, s);
    InitIsBalanced(c, s);
  }

  lemma InitIsWellformed(c: Config, s: State)
    requires Init(c, s)
    ensures Wellformed(c, s) && Exclusive(c, s) && OwnersExact(c, s)
  {
    forall k | 0 <= k < |s.words| ensures EntryOk(c, k, s.words[k]) {
      FreshIsSound(c.texts[k]);
    }
  }

  lemma InitHasNoTasks(c: Config, s: State)
    requires Init(c, s)
    ensures JobsExact(c, s)
  {
    forall k: nat, t: nat ensures !Underway(s, Task(k, t)) {
      assert k < |s.words| ==> s.words[k].w == Fresh(c.texts[k]);
    }
  }

  lemma InitIsBalanced(c: Config, s: State)
    requires Init(c, s)
    ensures Balanced(c, s) && Bounded(c, s)
  {
    forall g | Proper(c, g) ensures Counts(c, s, g) {
      NothingToCount(c, g, s.words, s.procs);
    }
  }

  lemma NothingToCount(c: Config, g: Gauge, words: seq<Entry>, procs: seq<Proc>)
    requires forall k | 0 <= k < |words| :: !words[k].admitted && !words[k].w.completed
    requires forall p | 0 <= p < |procs| :: Start(procs[p].pc)
    ensures WordTotal(c, g, words) == 0 && ProcTotal(c, g, procs) == 0
    decreases |words| + |procs|
  {
    if words != [] {
      NothingToCount(c, g, words[..|words| - 1], procs);
    } else if procs != [] {
      NothingToCount(c, g, words, procs[..|procs| - 1]);
    }
  }

  lemma StepKeepsInv(c: Config, s: State, p: nat, t: State)
    requires Inv(c, s) && Next(c, s, p, t)
    ensures Inv(c, t)
  {
    if Steps(c, s, p, t) {
      var r', eff :| Allowed(c, s, p, r', eff) && t == Apply(s, p, r', eff);
      StepKeepsWellformed(c, s, p, r', eff);
      StepKeepsExclusive(c, s, p, r', eff);
      StepKeepsOwners(c, s, p, r', eff);
      StepKeepsJobs(c, s, p, r', eff);
      StepKeepsBalanced(c, s, p, r', eff);
      StepKeepsBounded(c, s, p, r', eff);
    } else {
      ShutdownKeepsInv(c, s, t);
    }
  }

  lemma ShutdownKeepsInv(c: Config, s: State, t: State)
    requires Inv(c, s) && t == s.(header := s.header.(shutdown := true))
    ensures Inv(c, t)
  {
    ShutdownKeepsWellformed(c, s, t);
    ShutdownKeepsTasks(c, s, t);
    ShutdownKeepsBalance(c, s, t);
  }

  lemma ShutdownKeepsWellformed(c: Config, s: State, t: State)
    requires Wellformed(c, s) && Exclusive(c, s) && OwnersExact(c, s)
    requires t == s.(header := s.header.(shutdown := true))
    ensures Wellformed(c, t) && Exclusive(c, t) && OwnersExact(c, t)
  {
    forall q | 0 <= q < |t.procs| ensures ProcOk(c, t, t.procs[q]) && OwnerOk(t, t.procs[q]) {
      assert ProcOk(c, s, s.procs[q]) && OwnerOk(s, s.procs[q]);
      assert forall k: nat, i: nat :: Letter(s, k, i) == Letter(t, k, i);
    }
    assert forall k | HasOwner(s, k) :: HasOwner(t, k);
  }

  lemma ShutdownKeepsTasks(c: Config, s: State, t: State)
    requires JobsExact(c, s) && t == s.(header := s.header.(shutdown := true))
    ensures JobsExact(c, t)
  {
    assert forall j :: Underway(t, j) == Underway(s, j);
    assert forall j | HasCarrier(s, j) :: HasCarrier(t, j);
  }

  lemma ShutdownKeepsBalance(c: Config, s: State, t: State)
    requires Balanced(c, s) && Bounded(c, s) && t == s.(header := s.header.(shutdown := true))
    ensures Balanced(c, t) && Bounded(c, t)
  {
    forall g | Proper(c, g) ensures Counts(c, t, g) { assert Counts(c, s, g); }
    forall f | 0 <= f < |t.floors| && s.floors[f] > c.maxWords ensures SameFloorAdmission(c, t, f) {
      var k: nat :| SameFloorWord(c, s, f, k);
      assert SameFloorWord(c, t, f, k);
    }
  }

  /** Every state of every run satisfies the invariant. */
  lemma {:induction false} RunIsSafe(c: Config, u: Run, i: nat)
    requires IsRun(c, u) && i < |u.states|
    ensures Inv(c, u.states[i])
  {
    if i == 0 {
      InitIsSafe(c, u.states[0]);
    } else {
      RunIsSafe(c, u, i - 1);
      assert StepAt(c, u, i - 1);
      StepKeepsInv(c, u.states[i - 1], u.movers[i - 1], u.states[i]);
    }
  }

  // ---------- Words over a run ----------

  lemma StepEvolves(c: Config, s: State, p: nat, t: State, k: nat)
    requires Inv(c, s) && Next(c, s, p, t) && k < |s.words|
    ensures |t.words| == |s.words| && Evolves(s.words[k], t.words[k])
  {
    if Steps(c, s, p, t) {
      var r', eff :| Allowed(c, s, p, r', eff) && t == Apply(s, p, r', eff);
      StepEvolvesWords(c, s, p, r', eff);
    } else {
      assert EntryOk(c, k, s.words[k]);
      WordEvolvesToItself(s.words[k]);
    }
  }

  /** Step j of a run, with the invariant left out of sight. */
  lemma RunStepEvolves(c: Config, u: Run, j: nat, k: nat)
    requires IsRun(c, u) && j < |u.movers| && k < |c.texts|
    ensures k < |u.states[j].words| && k < |u.states[j + 1].words|
    ensures Shaped(u.states[j].words[k].w) && Evolves(u.states[j].words[k], u.states[j + 1].words[k])
  {
    RunIsSafe(c, u, j);
    assert EntryOk(c, k, u.states[j].words[k]);
    assert StepAt(c, u, j);
    StepEvolves(c, u.states[j], u.movers[j], u.states[j + 1], k);
  }

  lemma RunKeepsShape(c: Config, u: Run, i: nat, k: nat)
    requires IsRun(c, u) && i < |u.states| && k < |c.texts|
    ensures k < |u.states[i].words| && Shaped(u.states[i].words[k].w)
  {
    RunIsSafe(c, u, i);
    assert EntryOk(c, k, u.states[i].words[k]);
  }

  lemma {:induction false} RunEvolves(c: Config, u: Run, i: nat, j: nat, k: nat)
    requires IsRun(c, u) && i <= j < |u.states| && k < |c.texts|
    ensures k < |u.states[i].words| && k < |u.states[j].words|
    ensures Evolves(u.states[i].words[k], u.states[j].words[k])
  {
    RunKeepsShape(c, u, i, k);
    if i == j {
      WordEvolvesToItself(u.states[i].words[k]);
    } else {
      RunEvolves(c, u, i, j - 1, k);
      RunStepEvolves(c, u, j - 1, k);
      GrowsTransitive(u.states[i].words[k].w, u.states[j - 1].words[k].w, u.states[j].words[k].w);
    }
  }

  /** A slot once fixed stays fixed and keeps the letter that belongs there, to the end of the run. */
  lemma FixedForGood(c: Config, u: Run, i: nat, j: nat, k: nat, x: nat)
    requires IsRun(c, u) && i <= j < |u.states| && k < |c.texts| && x < |c.texts[k]|
    requires k < |u.states[i].words| && x < |u.states[i].words[k].w.fixed| && u.states[i].words[k].w.fixed[x]
    ensures k < |u.states[j].words|
    ensures var w := u.states[j].words[k].w;
      x < |w.fixed| == |w.occupied| == |w.area| && w.fixed[x] && w.occupied[x] && w.area[x] == c.texts[k][x]
  {
    RunEvolves(c, u, i, j, k);
    RunIsSafe(c, u, j);
    assert EntryOk(c, k, u.states[j].words[k]);
    assert Placed(u.states[j].words[k].w, x);
  }

  /** The letters standing in a word's slots are always exactly the letters delivered to it. */
  lemma SlotsHoldDeliveredLetters(c: Config, u: Run, i: nat, k: nat, x: char)
    requires IsRun(c, u) && i < |u.states| && k < |c.texts|
    ensures k < |u.states[i].words|
    ensures var w := u.states[i].words[k].w;
      Shaped(w) && w.original == c.texts[k] && Count(w.area, w.occupied, x) == Count(w.original, w.delivered, x)
  {
    RunIsSafe(c, u, i);
    assert EntryOk(c, k, u.states[i].words[k]);
  }

  /** A completed word reads as it read in the input. */
  lemma CompletedWordReadsOriginal(c: Config, u: Run, i: nat, k: nat)
    requires IsRun(c, u) && i < |u.states| && k < |c.texts|
    requires k < |u.states[i].words| && u.states[i].words[k].w.completed
    ensures u.states[i].words[k].w.area == c.texts[k]
    ensures u.states[i].words[k].admitted && All(u.states[i].words[k].w.delivered)
  {
    RunIsSafe(c, u, i);
    assert EntryOk(c, k, u.states[i].words[k]);
    CompletedWordIsRebuilt(u.states[i].words[k].w);
  }

  /** A letter carrier about to drop its letter is the only one with that task, and finds a free slot. */
  lemma DeliveryNeverFails(c: Config, u: Run, i: nat, p: nat, k: nat, t: nat)
    requires IsRun(c, u) && i < |u.states|
    requires p < |u.states[i].procs| && u.states[i].procs[p].pc == LPlaceHeld(k, t)
    ensures var s := u.states[i];
      && k < |s.words| && Shaped(s.words[k].w) && t < |s.words[k].w.original|
      && s.words[k].w.claimed[t] && !s.words[k].w.delivered[t]
      && FreeSlot(s.words[k].w, 0) >= 0
      && forall q | 0 <= q < |s.procs| && q != p :: Job(s.procs[q].pc) != Some(Task(k, t))
  {
    RunIsSafe(c, u, i);
    var s := u.states[i];
    assert Underway(s, Task(k, t)) by { assert Job(s.procs[p].pc) == Some(Task(k, t)); }
    assert EntryOk(c, k, s.words[k]);
    DeliveryFindsRoom(s.words[k].w, t);
  }

  /** In no round of a sorter's pass does the search for the correct slot fail. */
  lemma SearchNeverFails(c: Config, u: Run, i: nat, p: nat, k: nat, x: nat)
    requires IsRun(c, u) && i < |u.states| && k < |c.texts| && x < |c.texts[k]|
    requires p < |u.states[i].procs| && u.states[i].procs[p].pc == SPass(k)
    ensures k < |u.states[i].words| && Shaped(u.states[i].words[k].w) && u.states[i].words[k].w.original == c.texts[k]
    ensures var v := SortSlots(u.states[i].words[k].w, x); Loose(v, x) ==> CorrectSlot(v, x) >= 0
  {
    RunIsSafe(c, u, i);
    var w := u.states[i].words[k].w;
    assert EntryOk(c, k, u.states[i].words[k]);
    assert Sorting(w);
    SortSlotsKeepSorting(w, x);
    var v := SortSlots(w, x);
    var v' := v.(completed := All(v.fixed));
    if Loose(v, x) {
      LooseLetterHasSlot(v', x);
      SameChoice(v, v', x);
    }
  }

  // ---------- Progress ----------

  /** No step of any process lowers a word's score; a pass over a loose letter raises it. */
  lemma StepNeverLowersScore(c: Config, s: State, p: nat, t: State, k: nat)
    requires Inv(c, s) && Next(c, s, p, t) && k < |s.words|
    ensures |t.words| == |s.words| && Shaped(s.words[k].w) && Shaped(t.words[k].w)
    ensures Score(s.words[k].w) <= Score(t.words[k].w)
    ensures p < |s.procs| && s.procs[p].pc == SPass(k)
        && (exists i | 0 <= i < |s.words[k].w.original| :: Loose(s.words[k].w, i))
      ==> Score(s.words[k].w) < Score(t.words[k].w)
  {
    StepEvolves(c, s, p, t, k);
    GrowthRaisesScore(s.words[k].w, t.words[k].w);
    if p < |s.procs| && s.procs[p].pc == SPass(k)
      && exists i | 0 <= i < |s.words[k].w.original| :: Loose(s.words[k].w, i) {
      PassStepSorts(c, s, p, t, k);
      assert EntryOk(c, k, s.words[k]);
      PassRaisesScore(s.words[k].w);
    }
  }

  lemma PassStepSorts(c: Config, s: State, p: nat, t: State, k: nat)
    requires Steps(c, s, p, t) && s.procs[p].pc == SPass(k) && k < |s.words| && Shaped(s.words[k].w)
    ensures k < |t.words| && t.words[k].w == SortPass(s.words[k].w)
  {
    var r', eff :| Allowed(c, s, p, r', eff) && t == Apply(s, p, r', eff);
  }

  /** How many of the steps i..j are executed passes over word k. */
  ghost function Passes(u: Run, k: nat, i: nat, j: nat): nat
    requires i <= j <= |u.movers| < |u.states|
  {
    if i == j then 0
    else Passes(u, k, i, j - 1) +
         var s, p := u.states[j - 1], u.movers[j - 1];
         if p < |s.procs| && s.procs[p].pc == SPass(k) then 1 else 0
  }

  lemma PassStepRaises(c: Config, s: State, p: nat, t: State, k: nat)
    requires Inv(c, s) && Next(c, s, p, t) && k < |s.words| && All(s.words[k].w.delivered)
    ensures |t.words| == |s.words| && Shaped(s.words[k].w) && Shaped(t.words[k].w) && All(t.words[k].w.delivered)
    ensures s.words[k].w.completed ==> t.words[k].w.completed
    ensures !s.words[k].w.completed ==>
      Score(s.words[k].w) + (if p < |s.procs| && s.procs[p].pc == SPass(k) then 1 else 0) <= Score(t.words[k].w)
  {
    assert EntryOk(c, k, s.words[k]);
    StepEvolves(c, s, p, t, k);
    StepNeverLowersScore(c, s, p, t, k);
    if !s.words[k].w.completed {
      DeliveredWordHasLooseLetter(s.words[k].w);
    }
  }

  lemma {:induction false} PassesRaiseScore(c: Config, u: Run, k: nat, i: nat, j: nat)
    requires IsRun(c, u) && i <= j <= |u.movers| && k < |c.texts|
    requires k < |u.states[i].words| && All(u.states[i].words[k].w.delivered)
    ensures k < |u.states[j].words| && Shaped(u.states[j].words[k].w) && All(u.states[j].words[k].w.delivered)
    ensures u.states[j].words[k].w.completed || Passes(u, k, i, j) <= Score(u.states[j].words[k].w)
  {
    RunKeepsShape(c, u, i, k);
    if i < j {
      PassesRaiseScore(c, u, k, i, j - 1);
      RunPassStep(c, u, k, j - 1);
    }
  }

  lemma RunPassStep(c: Config, u: Run, k: nat, j: nat)
    requires IsRun(c, u) && j < |u.movers| && k < |c.texts|
    requires k < |u.states[j].words| && All(u.states[j].words[k].w.delivered)
    ensures k < |u.states[j + 1].words|
    ensures var w, v := u.states[j].words[k].w, u.states[j + 1].words[k].w;
      && Shaped(w) && Shaped(v) && All(v.delivered)
      && (w.completed ==> v.completed)
      && (!w.completed ==> Score(w) + Passes(u, k, j, j + 1) <= Score(v))
  {
    RunIsSafe(c, u, j);
    assert StepAt(c, u, j);
    PassStepRaises(c, u.states[j], u.movers[j], u.states[j + 1], k);
    assert Passes(u, k, j, j) == 0;
  }

  /** Once its letters are delivered, a word of n letters is completed by at most 2n executed passes. */
  lemma DeliveredWordCompletes(c: Config, u: Run, k: nat, i: nat, j: nat)
    requires IsRun(c, u) && i <= j <= |u.movers| && k < |c.texts|
    requires k < |u.states[i].words| && All(u.states[i].words[k].w.delivered)
    requires Passes(u, k, i, j) >= 2 * |c.texts[k]|
    ensures k < |u.states[j].words| && u.states[j].words[k].w.completed && u.states[j].words[k].w.area == c.texts[k]
  {
    PassesRaiseScore(c, u, k, i, j);
    RunIsSafe(c, u, j);
    assert EntryOk(c, k, u.states[j].words[k]);
    ScoreBound(u.states[j].words[k].w);
    CompletedWordReadsOriginal(c, u, j, k);
  }

  // ---------- Counters ----------

  ghost function CompletedWords(words: seq<Entry>): set<nat> {
    set k: nat | k < |words| && words[k].w.completed
  }

  ghost function AdmittedWords(words: seq<Entry>): set<nat> {
    set k: nat | k < |words| && words[k].admitted
  }

  /** A sorter that has completed a word and not yet counted it. */
  predicate Announcing(r: Proc) {
    r.pc.SFloor? || r.pc.SFloorHeld? || r.pc.SDone? || r.pc.SDoneHeld?
  }

  /** A carrier that has admitted a word and not yet counted it. */
  predicate Entering(r: Proc) {
    r.pc.WSource? || r.pc.WCount? || r.pc.WCountHeld?
  }

  ghost function AnnouncingProcs(procs: seq<Proc>): set<nat> {
    set p: nat | p < |procs| && Announcing(procs[p])
  }

  ghost function EnteringProcs(procs: seq<Proc>): set<nat> {
    set p: nat | p < |procs| && Entering(procs[p])
  }

  lemma {:induction false} DoneTotalIsSize(c: Config, words: seq<Entry>)
    ensures WordTotal(c, Done, words) == |CompletedWords(words)|
  {
    if words != [] {
      var n := |words| - 1;
      DoneTotalIsSize(c, words[..n]);
      assert CompletedWords(words) == CompletedWords(words[..n]) + if words[n].w.completed then {n} else {};
    }
  }

  lemma {:induction false} AdmittedTotalIsSize(c: Config, words: seq<Entry>)
    ensures WordTotal(c, Admitted, words) == |AdmittedWords(words)|
  {
    if words != [] {
      var n := |words| - 1;
      AdmittedTotalIsSize(c, words[..n]);
      assert AdmittedWords(words) == AdmittedWords(words[..n]) + if words[n].admitted then {n} else {};
    }
  }

  lemma AnnouncingExtends(procs: seq<Proc>)
    requires procs != []
    ensures var n := |procs| - 1;
      AnnouncingProcs(procs) == AnnouncingProcs(procs[..n]) + (if Announcing(procs[n]) then {n} else {})
        && n !in AnnouncingProcs(procs[..n])
  {
    var n := |procs| - 1;
    forall p: nat | p < n ensures p in AnnouncingProcs(procs) <==> p in AnnouncingProcs(procs[..n]) {
      assert procs[..n][p] == procs[p];
    }
  }

  lemma {:induction false} AnnouncingTotalIsSize(c: Config, procs: seq<Proc>)
    ensures ProcTotal(c, Done, procs) == -|AnnouncingProcs(procs)|
  {
    if procs != [] {
      var n := |procs| - 1;
      AnnouncingTotalIsSize(c, procs[..n]);
      AnnouncingExtends(procs);
    }
  }

  lemma EnteringExtends(procs: seq<Proc>)
    requires procs != []
    ensures var n := |procs| - 1;
      EnteringProcs(procs) == EnteringProcs(procs[..n]) + (if Entering(procs[n]) then {n} else {})
        && n !in EnteringProcs(procs[..n])
  {
    var n := |procs| - 1;
    forall p: nat | p < n ensures p in EnteringProcs(procs) <==> p in EnteringProcs(procs[..n]) {
      assert procs[..n][p] == procs[p];
    }
  }

  lemma {:induction false} EnteringTotalIsSize(c: Config, procs: seq<Proc>)
    ensures ProcTotal(c, Admitted, procs) == -|EnteringProcs(procs)|
  {
    if procs != [] {
      var n := |procs| - 1;
      EnteringTotalIsSize(c, procs[..n]);
      EnteringExtends(procs);
    }
  }

  /** done_count and admitted_count equal what they count, up to increments still pending. */
  lemma CountersAreExact(c: Config, u: Run, i: nat)
    requires IsRun(c, u) && i < |u.states|
    ensures var s := u.states[i];
      && s.header.doneCount + |AnnouncingProcs(s.procs)| == |CompletedWords(s.words)|
      && s.header.admittedCount + |EnteringProcs(s.procs)| == |AdmittedWords(s.words)|
  {
    RunIsSafe(c, u, i);
    var s := u.states[i];
    assert Counts(c, s, Done) && Counts(c, s, Admitted);
    DoneTotalIsSize(c, s.words);
    AdmittedTotalIsSize(c, s.words);
    AnnouncingTotalIsSize(c, s.procs);
    EnteringTotalIsSize(c, s.procs);
  }

  /** A floor's count is never negative and passes the limit by one at most, after a same-floor admission. */
  lemma FloorsStayBounded(c: Config, u: Run, i: nat, f: nat)
    requires IsRun(c, u) && i < |u.states| && f < c.floors
    ensures f < |u.states[i].floors|
    ensures 0 <= u.states[i].floors[f] <= c.maxWords + 1
    ensures u.states[i].floors[f] > c.maxWords ==> SameFloorAdmission(c, u.states[i], f)
    ensures u.states[i].floors[f]
      == WordTotal(c, OnFloor(f), u.states[i].words) + ProcTotal(c, OnFloor(f), u.states[i].procs)
  {
    RunIsSafe(c, u, i);
    assert Counts(c, u.states[i], OnFloor(f));
    FloorShareNotNegative(c, f, u.states[i].procs);
  }

  /** A word is admitted at most once: whoever marks it finds it unmarked, and owns it alone. */
  lemma AdmittedOnce(c: Config, u: Run, i: nat, p: nat, k: nat)
    requires IsRun(c, u) && i < |u.states| && p < |u.states[i].procs| && u.states[i].procs[p].pc == WMark(k)
    ensures var s := u.states[i];
      && k < |s.words| && s.words[k].taken && !s.words[k].admitted && s.words[k].arrival == s.procs[p].floor
      && forall q | 0 <= q < |s.procs| && q != p :: Owned(s.procs[q].pc) != Some(k)
  {
    RunIsSafe(c, u, i);
    assert OwnerOk(u.states[i], u.states[i].procs[p]);
  }

  // ---------- No circular wait ----------

  ghost predicate CanStep(c: Config, s: State, p: nat) {
    exists t :: Steps(c, s, p, t)
  }

  /** The order in which nested mutexes are taken; the others are only ever taken alone. */
  function Rank(c: Config, l: Lock): nat {
    match l
    case WordMutex(_) => 0
    case FloorMutex(f) => 1 + f
    case _ => 1 + c.floors
  }

  lemma WaitsUpwards(c: Config, s: State, r: Proc, l: Lock)
    requires ProcOk(c, s, r) && |c.sortFloor| == |s.words|
    requires forall k | 0 <= k < |c.sortFloor| :: c.sortFloor[k] < c.floors
    requires Wants(c, r) == Some(l)
    ensures Rank(c, l) <= 1 + c.floors && forall h | h in Holds(c, r) :: Rank(c, h) < Rank(c, l)
  {
  }

  lemma Witness(c: Config, s: State, p: nat, r': Proc, eff: Effect)
    requires p < |s.procs| && Allowed(c, s, p, r', eff)
    ensures CanStep(c, s, p)
  {
    assert Steps(c, s, p, Apply(s, p, r', eff));
  }

  lemma CarrierWitness(c: Config, s: State, p: nat, r': Proc, eff: Effect)
    requires p < |s.procs| && CarrierStep(c, s, s.procs[p], r', eff)
    ensures CanStep(c, s, p)
  {
    Witness(c, s, p, r', eff);
  }

  lemma LetterWitness(c: Config, s: State, p: nat, r': Proc, eff: Effect)
    requires p < |s.procs| && LetterStep(c, s, s.procs[p], r', eff)
    ensures CanStep(c, s, p)
  {
    Witness(c, s, p, r', eff);
  }

  lemma SorterWitness(c: Config, s: State, p: nat, r': Proc, eff: Effect)
    requires p < |s.procs| && SorterStep(c, s, s.procs[p], r', eff)
    ensures CanStep(c, s, p)
  {
    Witness(c, s, p, r', eff);
  }

  /** A process whose mutex is free can take it. */
  lemma WaiterSteps(c: Config, s: State, p: nat, l: Lock)
    requires Wellformed(c, s) && p < |s.procs| && Wants(c, s.procs[p]) == Some(l) && Free(c, s, l)
    ensures CanStep(c, s, p)
  {
    var r := s.procs[p];
    assert ProcOk(c, s, r);
    match r.pc
    case WTop => Witness(c, s, p, r.(pc := WTopHeld), Skip);
    case WPick => Witness(c, s, p, r.(pc := WPickHeld), Skip);
    case WClaim(k) => Witness(c, s, p, r.(pc := WClaimHeld(k)), Skip);
    case WLow(k) => Witness(c, s, p, r.(pc := if r.floor == c.sortFloor[k] then WBoth(k) else WHigh(k)), Skip);
    case WHigh(k) => Witness(c, s, p, r.(pc := WBoth(k)), Skip);
    case WCount(k) => Witness(c, s, p, r.(pc := WCountHeld(k)), Skip);
    case WRetry => Witness(c, s, p, r.(pc := WRetryHeld), Skip);
    case LClaim(k, t) => Witness(c, s, p, r.(pc := LClaimHeld(k, t)), Skip);
    case LRide(job, dest, stage, inside) => Witness(c, s, p, r.(pc := LRide(job, dest, stage, true)), Skip);
    case LPlace(k, t) => Witness(c, s, p, r.(pc := LPlaceHeld(k, t)), Skip);
    case SFloor(k) => Witness(c, s, p, r.(pc := SFloorHeld(k)), Skip);
    case SDone(k) => Witness(c, s, p, r.(pc := SDoneHeld(k)), Skip);
    case EMutex(e) => Witness(c, s, p, r.(pc := EHeld(e)), Skip);
    case _ => assert false;
  }

  /** A process that holds a mutex and waits for none can go on. */
  lemma HolderSteps(c: Config, s: State, p: nat)
    requires Wellformed(c, s) && p < |s.procs| && Holds(c, s.procs[p]) != {} && Wants(c, s.procs[p]) == None
    ensures CanStep(c, s, p)
  {
    var pc := s.procs[p].pc;
    if pc.LClaimHeld? || pc.LPlaceHeld? || pc.LRide? {
      LetterHolderSteps(c, s, p);
    } else if pc.SPass? || pc.SFloorHeld? || pc.SDoneHeld? || pc.SRelease? || pc.EHeld? {
      SorterHolderSteps(c, s, p);
    } else {
      CarrierHolderSteps(c, s, p);
    }
  }

  lemma CarrierHolderSteps(c: Config, s: State, p: nat)
    requires Wellformed(c, s) && p < |s.procs|
    requires var pc := s.procs[p].pc;
      pc.WTopHeld? || pc.WPickHeld? || pc.WClaimHeld? || pc.WBoth? || pc.WCountHeld? || pc.WRetryHeld?
    ensures CanStep(c, s, p)
  {
    var r, h := s.procs[p], s.header;
    assert ProcOk(c, s, r);
    match r.pc
    case WTopHeld => CarrierWitness(c, s, p, r.(pc := if h.admittedCount >= |s.words| then Gone else WPick), Skip);
    case WPickHeld => CarrierWitness(c, s, p, r.(pc := WScan(h.rrIndex, 0)),
        PutHeader(h.(rrIndex := (h.rrIndex + 1) % |s.words|)));
    case WClaimHeld(k) =>
      if s.words[k].taken || s.words[k].admitted {
        CarrierWitness(c, s, p, r.(pc := WTop), Skip);
      } else {
        CarrierWitness(c, s, p, r.(pc := WLow(k)), PutEntry(k, s.words[k].(taken := true)));
      }
    case WBoth(k) =>
      var a := Admit(c, s, r.floor, k);
      if a.Some? {
        CarrierWitness(c, s, p, r.(pc := WArrive(k)), PutFloors(a.value));
      } else {
        CarrierWitness(c, s, p, r.(pc := WReject(k)), Skip);
      }
    case WCountHeld(k) => CarrierWitness(c, s, p, r.(pc := WTop), PutHeader(h.(admittedCount := h.admittedCount + 1)));
    case WRetryHeld => CarrierWitness(c, s, p, r.(pc := WTop), PutHeader(h.(retryCount := h.retryCount + 1)));
  }

  lemma PassSteps(c: Config, s: State, p: nat, k: nat)
    requires Wellformed(c, s) && p < |s.procs| && s.procs[p].pc == SPass(k)
    ensures CanStep(c, s, p)
  {
    var r := s.procs[p];
    assert ProcOk(c, s, r) && EntryOk(c, k, s.words[k]);
    var v := SortPass(s.words[k].w);
    var r' := r.(pc := if v.completed && !s.words[k].w.completed then SFloor(k) else SRelease(k));
    var eff := PutEntry(k, s.words[k].(w := v));
    SorterWitness(c, s, p, r', eff);
  }

  lemma SorterHolderSteps(c: Config, s: State, p: nat)
    requires Wellformed(c, s) && p < |s.procs|
    requires var pc := s.procs[p].pc; pc.SPass? || pc.SFloorHeld? || pc.SDoneHeld? || pc.SRelease? || pc.EHeld?
    ensures CanStep(c, s, p)
  {
    var r, h := s.procs[p], s.header;
    assert ProcOk(c, s, r);
    match r.pc
    case SPass(k) => PassSteps(c, s, p, k);
    case SFloorHeld(k) => SorterWitness(c, s, p, r.(pc := SDone(k)),
        PutFloors(s.floors[r.floor := s.floors[r.floor] - 1]));
    case SDoneHeld(k) => SorterWitness(c, s, p, r.(pc := SRelease(k)), PutHeader(h.(doneCount := h.doneCount + 1)));
    case SRelease(k) => SorterWitness(c, s, p, r.(pc := SFind), Skip);
    case EHeld(e) => SorterWitness(c, s, p, r.(pc := ERest(e)), Skip);
  }

  lemma LetterHolderSteps(c: Config, s: State, p: nat)
    requires Wellformed(c, s) && p < |s.procs|
    requires var pc := s.procs[p].pc; pc.LClaimHeld? || pc.LPlaceHeld? || (pc.LRide? && pc.inside)
    ensures CanStep(c, s, p)
  {
    var r := s.procs[p];
    assert ProcOk(c, s, r);
    match r.pc
    case LClaimHeld(k, t) =>
      assert EntryOk(c, k, s.words[k]);
      var w := s.words[k].w;
      if w.claimed[t] || w.delivered[t] {
        LetterWitness(c, s, p, r.(pc := LFind), Skip);
      } else {
        LetterWitness(c, s, p, r.(pc := if c.sortFloor[k] == r.floor then LPlace(k, t)
                                  else LRide(Some(Task(k, t)), c.sortFloor[k], Board, false)),
                PutEntry(k, s.words[k].(w := Claim(w, t))));
      }
    case LPlaceHeld(k, t) =>
      assert EntryOk(c, k, s.words[k]);
      LetterWitness(c, s, p, r.(pc := LFind), PutEntry(k, s.words[k].(w := Place(s.words[k].w, t))));
    case LRide(_, _, _, _) =>
      RideSteps(c, s, p);
  }

  lemma RideSteps(c: Config, s: State, p: nat)
    requires p < |s.procs| && s.procs[p].pc.LRide? && s.procs[p].pc.inside
    ensures CanStep(c, s, p)
  {
    var r := s.procs[p];
    var job, dest := r.pc.job, r.pc.dest;
    var r' := match r.pc.stage
      case Board => r.(pc := LRide(job, dest, Request, false))
      case Request => r.(pc := LRide(job, dest, Poll, false))
      case Poll => r.(pc := LRide(job, dest, Leave, false))
      case Leave => r.(pc := LRide(job, dest, Record, false))
      case Record => Alight(r, job, dest, true);
    LetterWitness(c, s, p, r', Skip);
  }

  /** While some process is blocked on a mutex, some process that holds one can take a step. */
  lemma BlockedImpliesMovableHolder(c: Config, s: State, p: nat, l: Lock)
    requires Wellformed(c, s) && p < |s.procs| && Wants(c, s.procs[p]) == Some(l) && !Free(c, s, l)
    ensures exists q | 0 <= q < |s.procs| :: Holds(c, s.procs[q]) != {} && CanStep(c, s, q)
    decreases 1 + c.floors - Rank(c, l)
  {
    var q :| 0 <= q < |s.procs| && l in Holds(c, s.procs[q]);
    assert ProcOk(c, s, s.procs[q]) && ProcOk(c, s, s.procs[p]);
    WaitsUpwards(c, s, s.procs[p], l);
    match Wants(c, s.procs[q])
    case None =>
      HolderSteps(c, s, q);
    case Some(m) =>
      WaitsUpwards(c, s, s.procs[q], m);
      if Free(c, s, m) {
        WaiterSteps(c, s, q, m);
      } else {
        BlockedImpliesMovableHolder(c, s, q, m);
      }
  }

  /** No reachable state holds a circular wait. */
  lemma NoCircularWait(c: Config, u: Run, i: nat, p: nat, l: Lock)
    requires IsRun(c, u) && i < |u.states|
    requires p < |u.states[i].procs| && Wants(c, u.states[i].procs[p]) == Some(l) && !Free(c, u.states[i], l)
    ensures exists q | 0 <= q < |u.states[i].procs| ::
      Holds(c, u.states[i].procs[q]) != {} && CanStep(c, u.states[i], q)
  {
    RunIsSafe(c, u, i);
    BlockedImpliesMovableHolder(c, u.states[i], p, l);
  }
}
