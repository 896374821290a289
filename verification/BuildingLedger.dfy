/**
 * The counters of the building agree with what they count.  A counter may run
 * ahead of or behind the words while a process is between the two writes; the
 * process then accounts for the difference.
 */
module BuildingLedger {
  import opened WordSlots
  import opened Building
  import opened BuildingSafety

  datatype Gauge = OnFloor(f: nat) | Done | Admitted

  function Value(s: State, g: Gauge): int {
    match g
    case OnFloor(f) => if f < |s.floors| then s.floors[f] else 0
    case Done => s.header.doneCount
    case Admitted => s.header.admittedCount
  }

  function Unit(b: bool): nat {
    if b then 1 else 0
  }

  /** What a word contributes: its arrival share stays for good, its sorting share until completion. */
  function WordShare(c: Config, g: Gauge, k: nat, e: Entry): nat {
    match g
    case OnFloor(f) => Unit(e.admitted && e.arrival == f) + Unit(e.admitted && Sorts(c, k, f) && !e.w.completed)
    case Done => Unit(e.w.completed)
    case Admitted => Unit(e.admitted)
  }

  /** What a process accounts for while it is between two writes. */
  function ProcShare(c: Config, g: Gauge, r: Proc): int {
    match (g, r.pc)
    case (OnFloor(f), WArrive(k)) => Unit(r.floor == f) + Unit(Sorts(c, k, f))
    case (OnFloor(f), WMark(k)) => Unit(r.floor == f) + Unit(Sorts(c, k, f))
    case (OnFloor(f), SFloor(_)) => Unit(r.floor == f)
    case (OnFloor(f), SFloorHeld(_)) => Unit(r.floor == f)
    case (Done, SFloor(_)) => -1
    case (Done, SFloorHeld(_)) => -1
    case (Done, SDone(_)) => -1
    case (Done, SDoneHeld(_)) => -1
    case (Admitted, WSource(_, _)) => -1
    case (Admitted, WCount(_)) => -1
    case (Admitted, WCountHeld(_)) => -1
    case _ => 0
  }

  ghost function WordTotal(c: Config, g: Gauge, words: seq<Entry>): nat {
    if words == [] then 0
    else WordTotal(c, g, words[..|words| - 1]) + WordShare(c, g, |words| - 1, words[|words| - 1])
  }

  ghost function ProcTotal(c: Config, g: Gauge, procs: seq<Proc>): int {
    if procs == [] then 0
    else ProcTotal(c, g, procs[..|procs| - 1]) + ProcShare(c, g, procs[|procs| - 1])
  }

  lemma {:induction false} WordTotalUpdate(c: Config, g: Gauge, words: seq<Entry>, k: nat, e: Entry)
    requires k < |words|
    ensures WordTotal(c, g, words[k := e])
      == WordTotal(c, g, words) - WordShare(c, g, k, words[k]) + WordShare(c, g, k, e)
  {
    var n := |words| - 1;
    if k == n {
      assert words[k := e][..n] == words[..n];
    } else {
      WordTotalUpdate(c, g, words[..n], k, e);
      assert words[k := e][..n] == words[..n][k := e];
    }
  }

  lemma {:induction false} ProcTotalUpdate(c: Config, g: Gauge, procs: seq<Proc>, p: nat, r: Proc)
    requires p < |procs|
    ensures ProcTotal(c, g, procs[p := r]) == ProcTotal(c, g, procs) - ProcShare(c, g, procs[p]) + ProcShare(c, g, r)
  {
    var n := |procs| - 1;
    if p == n {
      assert procs[p := r][..n] == procs[..n];
    } else {
      ProcTotalUpdate(c, g, procs[..n], p, r);
      assert procs[p := r][..n] == procs[..n][p := r];
    }
  }

  ghost predicate Counts(c: Config, s: State, g: Gauge) {
    Value(s, g) == WordTotal(c, g, s.words) + ProcTotal(c, g, s.procs)
  }

  ghost predicate Proper(c: Config, g: Gauge) {
    g.OnFloor? ==> g.f < c.floors
  }

  ghost predicate Balanced(c: Config, s: State) {
    forall g | Proper(c, g) :: Counts(c, s, g)
  }

  function EntryChange(c: Config, s: State, g: Gauge, eff: Effect): int {
    if eff.PutEntry? && eff.k < |s.words| then
      WordShare(c, g, eff.k, eff.e) - WordShare(c, g, eff.k, s.words[eff.k])
    else 0
  }

  function ValueAfter(s: State, g: Gauge, eff: Effect): int {
    match (g, eff)
    case (OnFloor(f), PutFloors(fl)) => if f < |fl| then fl[f] else 0
    case (Done, PutHeader(h)) => h.doneCount
    case (Admitted, PutHeader(h)) => h.admittedCount
    case _ => Value(s, g)
  }

  /** A step changes a counter by what its word and its process change. */
  ghost predicate StepBalances(c: Config, s: State, g: Gauge, r: Proc, r': Proc, eff: Effect) {
    ValueAfter(s, g, eff) - Value(s, g) == EntryChange(c, s, g, eff) + ProcShare(c, g, r') - ProcShare(c, g, r)
  }

  lemma CarrierBalances(c: Config, s: State, g: Gauge, r: Proc, r': Proc, eff: Effect)
    requires ProcOk(c, s, r) && OwnerOk(s, r) && |c.sortFloor| == |s.words| && |s.floors| == c.floors && Proper(c, g)
    requires r.pc.WMark? ==> !s.words[r.pc.k].w.completed
    requires CarrierStep(c, s, r, r', eff)
    ensures StepBalances(c, s, g, r, r', eff)
  {
  }

  lemma LetterBalances(c: Config, s: State, g: Gauge, r: Proc, r': Proc, eff: Effect)
    requires LetterStep(c, s, r, r', eff)
    ensures StepBalances(c, s, g, r, r', eff)
  {
  }

  lemma SorterBalances(c: Config, s: State, g: Gauge, r: Proc, r': Proc, eff: Effect)
    requires ProcOk(c, s, r) && |s.floors| == c.floors && Proper(c, g)
    requires r.pc.SPass? ==> Sound(s.words[r.pc.k].w)
    requires SorterStep(c, s, r, r', eff)
    ensures StepBalances(c, s, g, r, r', eff)
  {
    if r.pc.SPass? {
      PassBalances(c, s, g, r, r', eff);
    }
  }

  lemma PassBalances(c: Config, s: State, g: Gauge, r: Proc, r': Proc, eff: Effect)
    requires ProcOk(c, s, r) && Proper(c, g) && r.pc.SPass? && Sound(s.words[r.pc.k].w)
    requires SorterStep(c, s, r, r', eff)
    ensures StepBalances(c, s, g, r, r', eff)
  {
    PassKeepsSound(s.words[r.pc.k].w);
    assert eff.k == r.pc.k && eff.e.admitted && eff.e.arrival == s.words[r.pc.k].arrival;
  }

  lemma MoverBalances(c: Config, s: State, p: nat, r': Proc, eff: Effect, g: Gauge)
    requires Wellformed(c, s) && OwnersExact(c, s) && Proper(c, g)
    requires p < |s.procs| && Allowed(c, s, p, r', eff)
    ensures StepBalances(c, s, g, s.procs[p], r', eff)
  {
    var r := s.procs[p];
    assert ProcOk(c, s, r) && OwnerOk(s, r);
    if CarrierStep(c, s, r, r', eff) {
      assert r.pc.WMark? ==> EntryOk(c, r.pc.k, s.words[r.pc.k]);
      CarrierBalances(c, s, g, r, r', eff);
    } else if LetterStep(c, s, r, r', eff) {
      LetterBalances(c, s, g, r, r', eff);
    } else {
      assert r.pc.SPass? ==> EntryOk(c, r.pc.k, s.words[r.pc.k]);
      SorterBalances(c, s, g, r, r', eff);
    }
  }

  lemma BalancedStepCounts(c: Config, s: State, p: nat, r': Proc, eff: Effect, g: Gauge)
    requires p < |s.procs| && StepBalances(c, s, g, s.procs[p], r', eff) && Counts(c, s, g)
    ensures Counts(c, Apply(s, p, r', eff), g)
  {
    ProcTotalUpdate(c, g, s.procs, p, r');
    if eff.PutEntry? && eff.k < |s.words| {
      WordTotalUpdate(c, g, s.words, eff.k, eff.e);
    }
  }

  lemma StepKeepsBalanced(c: Config, s: State, p: nat, r': Proc, eff: Effect)
    requires Wellformed(c, s) && OwnersExact(c, s) && Balanced(c, s)
    requires p < |s.procs| && Allowed(c, s, p, r', eff)
    ensures Balanced(c, Apply(s, p, r', eff))
  {
    forall g | Proper(c, g) ensures Counts(c, Apply(s, p, r', eff), g) {
      MoverBalances(c, s, p, r', eff, g);
      BalancedStepCounts(c, s, p, r', eff, g);
    }
  }

  // ---------- Bounds on a floor ----------

  lemma {:induction false} FloorShareNotNegative(c: Config, f: nat, procs: seq<Proc>)
    ensures ProcTotal(c, OnFloor(f), procs) >= 0
  {
    if procs != [] {
      FloorShareNotNegative(c, f, procs[..|procs| - 1]);
    }
  }

  /** Word k was, or is being, admitted to the floor on which it is sorted. */
  ghost predicate SameFloorWord(c: Config, s: State, f: nat, k: nat) {
    && k < |s.words| && Sorts(c, k, f)
    && (|| (s.words[k].admitted && s.words[k].arrival == f)
        || (exists p | 0 <= p < |s.procs| ::
              s.procs[p].floor == f && (s.procs[p].pc == WArrive(k) || s.procs[p].pc == WMark(k))))
  }

  ghost predicate SameFloorAdmission(c: Config, s: State, f: nat) {
    exists k: nat :: SameFloorWord(c, s, f, k)
  }

  /** The count passes the limit by at most one, and only after a same-floor admission. */
  ghost predicate Bounded(c: Config, s: State) {
    forall f | 0 <= f < |s.floors| ::
      s.floors[f] <= c.maxWords + 1 && (s.floors[f] > c.maxWords ==> SameFloorAdmission(c, s, f))
  }

  lemma SameFloorWordStays(c: Config, s: State, p: nat, r': Proc, eff: Effect, f: nat, k: nat)
    requires Wellformed(c, s) && OwnersExact(c, s) && JobsExact(c, s)
    requires p < |s.procs| && Allowed(c, s, p, r', eff) && SameFloorWord(c, s, f, k)
    ensures SameFloorWord(c, Apply(s, p, r', eff), f, k)
  {
    var t := Apply(s, p, r', eff);
    StepEvolvesWords(c, s, p, r', eff);
    if s.words[k].admitted && s.words[k].arrival == f {
      assert Evolves(s.words[k], t.words[k]);
    } else {
      var q :| 0 <= q < |s.procs|
        && s.procs[q].floor == f && (s.procs[q].pc == WArrive(k) || s.procs[q].pc == WMark(k));
      if q != p {
        assert t.procs[q] == s.procs[q];
      } else {
        ArrivingWordStays(c, s, p, r', eff, f, k);
      }
    }
  }

  lemma ArrivingWordStays(c: Config, s: State, p: nat, r': Proc, eff: Effect, f: nat, k: nat)
    requires Wellformed(c, s) && OwnersExact(c, s) && p < |s.procs| && Allowed(c, s, p, r', eff)
    requires k < |s.words| && Sorts(c, k, f)
    requires s.procs[p].floor == f && (s.procs[p].pc == WArrive(k) || s.procs[p].pc == WMark(k))
    ensures SameFloorWord(c, Apply(s, p, r', eff), f, k)
  {
    assert OwnerOk(s, s.procs[p]);
    ArrivalGoesOn(c, s, s.procs[p], r', eff, k);
    assert Apply(s, p, r', eff).procs[p] == r';
  }

  lemma ArrivalGoesOn(c: Config, s: State, r: Proc, r': Proc, eff: Effect, k: nat)
    requires (r.pc == WArrive(k) || r.pc == WMark(k)) && k < |s.words|
    requires CarrierStep(c, s, r, r', eff) || LetterStep(c, s, r, r', eff) || SorterStep(c, s, r, r', eff)
    ensures r.pc == WArrive(k) ==> r' == r.(pc := WMark(k))
    ensures r.pc == WMark(k) ==> eff == PutEntry(k, s.words[k].(admitted := true))
  {
  }

  lemma StepKeepsBounded(c: Config, s: State, p: nat, r': Proc, eff: Effect)
    requires Wellformed(c, s) && OwnersExact(c, s) && JobsExact(c, s) && Bounded(c, s)
    requires p < |s.procs| && Allowed(c, s, p, r', eff)
    ensures Bounded(c, Apply(s, p, r', eff))
  {
    var r, t := s.procs[p], Apply(s, p, r', eff);
    assert ProcOk(c, s, r);
    FloorWrites(c, s, r, r', eff);
    forall f | 0 <= f < |t.floors|
      ensures t.floors[f] <= c.maxWords + 1 && (t.floors[f] > c.maxWords ==> SameFloorAdmission(c, t, f))
    {
      if t.floors[f] > c.maxWords {
        if s.floors[f] > c.maxWords {
          var k: nat :| SameFloorWord(c, s, f, k);
          SameFloorWordStays(c, s, p, r', eff, f, k);
        } else {
          assert t.procs[p] == r' == r.(pc := WArrive(r.pc.k));
          assert SameFloorWord(c, t, f, r.pc.k);
        }
      }
    }
  }

  /** Floor counts fall by one, or rise at an admission that found them below the limit. */
  lemma FloorWrites(c: Config, s: State, r: Proc, r': Proc, eff: Effect)
    requires ProcOk(c, s, r) && |s.floors| == c.floors && |c.sortFloor| == |s.words|
    requires CarrierStep(c, s, r, r', eff) || LetterStep(c, s, r, r', eff) || SorterStep(c, s, r, r', eff)
    ensures eff.PutFloors? ==>
      && |eff.floors| == |s.floors|
      && forall f | 0 <= f < |s.floors| ::
           || eff.floors[f] <= s.floors[f]
           || (s.floors[f] < c.maxWords && eff.floors[f] == s.floors[f] + 1)
           || (&& s.floors[f] < c.maxWords && eff.floors[f] == s.floors[f] + 2
               && r.pc.WBoth? && r' == r.(pc := WArrive(r.pc.k)) && r.floor == f && Sorts(c, r.pc.k, f))
  {
  }
}
