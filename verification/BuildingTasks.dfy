/**
 * Over a whole run each letter is claimed by one carrier and placed once: the steps that win a claim and the
 * steps that place are counted, and the task marks are exactly those counts.
 */
module BuildingTasks {
  import opened Options
  import opened WordSlots
  import opened Building
  import opened BuildingSafety
  import opened BuildingRuns

  /** Process p, in the critical section of its claim, finds task t of word k unclaimed and undelivered. */
  ghost predicate WinsClaim(s: State, p: nat, k: nat, t: nat) {
    && p < |s.procs| && s.procs[p].pc == LClaimHeld(k, t)
    && Letter(s, k, t) && Shaped(s.words[k].w)
    && !s.words[k].w.claimed[t] && !s.words[k].w.delivered[t]
  }

  /** Process p, in the critical section of its placement, holds task t of word k. */
  ghost predicate PlacesLetter(s: State, p: nat, k: nat, t: nat) {
    p < |s.procs| && s.procs[p].pc == LPlaceHeld(k, t)
  }

  /** How many of the first j steps of a run win the claim of a task. */
  ghost function Claims(u: Run, k: nat, t: nat, j: nat): nat
    requires j <= |u.movers| < |u.states|
  {
    if j == 0 then 0
    else Claims(u, k, t, j - 1) + if WinsClaim(u.states[j - 1], u.movers[j - 1], k, t) then 1 else 0
  }

  /** How many of the first j steps of a run place the letter of a task. */
  ghost function Placements(u: Run, k: nat, t: nat, j: nat): nat
    requires j <= |u.movers| < |u.states|
  {
    if j == 0 then 0
    else Placements(u, k, t, j - 1) + if PlacesLetter(u.states[j - 1], u.movers[j - 1], k, t) then 1 else 0
  }

  /** The marks of task t of word k before and after a step: they rise exactly at a won claim and at a placement. */
  ghost predicate MarksFollow(s: State, p: nat, s': State, k: nat, t: nat) {
    && k < |s.words| && k < |s'.words| && t < |s.words[k].w.claimed| && t < |s'.words[k].w.claimed|
    && t < |s.words[k].w.delivered| && t < |s'.words[k].w.delivered|
    && (WinsClaim(s, p, k, t) ==> !s.words[k].w.claimed[t])
    && s'.words[k].w.claimed[t] == (s.words[k].w.claimed[t] || WinsClaim(s, p, k, t))
    && (PlacesLetter(s, p, k, t) ==> !s.words[k].w.delivered[t])
    && s'.words[k].w.delivered[t] == (s.words[k].w.delivered[t] || PlacesLetter(s, p, k, t))
  }

  lemma SameMarksFollow(s: State, p: nat, s': State, k: nat, t: nat)
    requires k < |s.words| && k < |s'.words| && Shaped(s.words[k].w) && t < |s.words[k].w.original|
    requires SameMarks(s.words[k], s'.words[k]) && !WinsClaim(s, p, k, t) && !PlacesLetter(s, p, k, t)
    ensures MarksFollow(s, p, s', k, t)
  {
  }

  /** A letter carrier's step marks a task only as the winner of its claim or at its placement. */
  lemma LetterStepFollows(c: Config, s: State, p: nat, r': Proc, eff: Effect, k: nat, t: nat)
    requires Wellformed(c, s) && JobsExact(c, s) && p < |s.procs| && LetterStep(c, s, s.procs[p], r', eff)
    requires k < |s.words| && Shaped(s.words[k].w) && t < |s.words[k].w.original|
    ensures MarksFollow(s, p, Apply(s, p, r', eff), k, t)
  {
    var r := s.procs[p];
    LetterMarks(c, s, p, r', eff);
    assert ProcOk(c, s, r);
    if r.pc.LPlaceHeld? {
      assert Job(r.pc) == Some(Task(r.pc.k, r.pc.t));
      assert Underway(s, Task(r.pc.k, r.pc.t));
      PlacementFollows(c, s, p, r', eff, k, t);
    } else if r.pc.LClaimHeld? {
      ClaimFollows(c, s, p, r', eff, k, t);
    } else {
      SameMarksFollow(s, p, Apply(s, p, r', eff), k, t);
    }
  }

  lemma ClaimFollows(c: Config, s: State, p: nat, r': Proc, eff: Effect, k: nat, t: nat)
    requires p < |s.procs| && s.procs[p].pc.LClaimHeld? && LetterStep(c, s, s.procs[p], r', eff)
    requires ProcOk(c, s, s.procs[p])
    requires k < |s.words| && Shaped(s.words[k].w) && t < |s.words[k].w.original|
    ensures MarksFollow(s, p, Apply(s, p, r', eff), k, t)
  {
  }

  lemma PlacementFollows(c: Config, s: State, p: nat, r': Proc, eff: Effect, k: nat, t: nat)
    requires p < |s.procs| && s.procs[p].pc.LPlaceHeld? && LetterStep(c, s, s.procs[p], r', eff)
    requires Wellformed(c, s) && Underway(s, Task(s.procs[p].pc.k, s.procs[p].pc.t))
    requires k < |s.words| && Shaped(s.words[k].w) && t < |s.words[k].w.original|
    ensures MarksFollow(s, p, Apply(s, p, r', eff), k, t)
  {
    var pc := s.procs[p].pc;
    assert EntryOk(c, pc.k, s.words[pc.k]);
    PlaceKeepsSound(s.words[pc.k].w, pc.t);
  }

  lemma StepFollows(c: Config, s: State, p: nat, s': State, k: nat, t: nat)
    requires Inv(c, s) && Next(c, s, p, s') && k < |s.words| && t < |s.words[k].w.original|
    ensures MarksFollow(s, p, s', k, t)
  {
    assert EntryOk(c, k, s.words[k]);
    if Steps(c, s, p, s') {
      var r', eff :| Allowed(c, s, p, r', eff) && s' == Apply(s, p, r', eff);
      var r := s.procs[p];
      if LetterStep(c, s, r, r', eff) {
        LetterStepFollows(c, s, p, r', eff, k, t);
      } else {
        OtherStepFollows(c, s, p, r', eff, k, t);
      }
    }
  }

  lemma OtherStepFollows(c: Config, s: State, p: nat, r': Proc, eff: Effect, k: nat, t: nat)
    requires Wellformed(c, s) && JobsExact(c, s) && p < |s.procs|
    requires CarrierStep(c, s, s.procs[p], r', eff) || SorterStep(c, s, s.procs[p], r', eff)
    requires k < |s.words| && Shaped(s.words[k].w) && t < |s.words[k].w.original|
    ensures MarksFollow(s, p, Apply(s, p, r', eff), k, t)
  {
    OtherStepHasNoJob(c, s, p, r', eff);
    MarksChangeByCarrier(c, s, p, r', eff);
    SameMarksFollow(s, p, Apply(s, p, r', eff), k, t);
  }

  lemma OtherStepHasNoJob(c: Config, s: State, p: nat, r': Proc, eff: Effect)
    requires p < |s.procs|
    requires CarrierStep(c, s, s.procs[p], r', eff) || SorterStep(c, s, s.procs[p], r', eff)
    ensures Job(s.procs[p].pc) == None == Job(r'.pc)
    ensures !s.procs[p].pc.LClaimHeld? && !s.procs[p].pc.LPlaceHeld?
  {
  }

  lemma RunStepFollows(c: Config, u: Run, j: nat, k: nat, t: nat)
    requires IsRun(c, u) && j < |u.movers| && k < |c.texts| && t < |c.texts[k]|
    ensures MarksFollow(u.states[j], u.movers[j], u.states[j + 1], k, t)
  {
    RunIsSafe(c, u, j);
    assert EntryOk(c, k, u.states[j].words[k]);
    assert StepAt(c, u, j);
    StepFollows(c, u.states[j], u.movers[j], u.states[j + 1], k, t);
  }

  lemma StartsUnmarked(c: Config, s: State, k: nat, t: nat)
    requires Init(c, s) && k < |c.texts| && t < |c.texts[k]|
    ensures k < |s.words| && t < |s.words[k].w.claimed| && t < |s.words[k].w.delivered|
    ensures !s.words[k].w.claimed[t] && !s.words[k].w.delivered[t]
  {
  }

  /**
   * In every run each letter's claim is won at most once and the letter placed at most once, and
   * the marks say which.
   */
  lemma {:induction false} ClaimedAndPlacedOnce(c: Config, u: Run, j: nat, k: nat, t: nat)
    requires IsRun(c, u) && j <= |u.movers| && k < |c.texts| && t < |c.texts[k]|
    ensures var s := u.states[j];
      && k < |s.words| && t < |s.words[k].w.claimed| && t < |s.words[k].w.delivered|
      && Claims(u, k, t, j) == (if s.words[k].w.claimed[t] then 1 else 0)
      && Placements(u, k, t, j) == (if s.words[k].w.delivered[t] then 1 else 0)
  {
    if j == 0 {
      StartsUnmarked(c, u.states[0], k, t);
    } else {
      ClaimedAndPlacedOnce(c, u, j - 1, k, t);
      RunStepFollows(c, u, j - 1, k, t);
    }
  }
}
