/**
 * The dispatcher's loop as it runs on its own flags and the level queues, tied to
 * the steps it takes among the other processes.
 */
module DispatcherLoop {
  import opened Pipeline

  /** What the loop body makes of an entry just popped. */
  function Handled(s: Sys, e: Entry): Sys
    requires Sized(s)
  {
    if !Valid(e.level) then s
    else if !e.eof then s.(b := s.b[e.level := s.b[e.level] + [e]])
    else if !s.forwarded[e.level] && s.eofCount[e.level] >= s.totalReaders then
      PostEof(s, e.level).(forwarded := s.forwarded[e.level := true], finishedLevels := s.finishedLevels + 1)
    else s
  }

  /** After the loop: levels from lv on that got no EOF get one. */
  function Forced(s: Sys, lv: nat): Sys
    requires Sized(s) && lv <= LEVELS
    decreases LEVELS - lv
  {
    if lv == LEVELS then s
    else Forced(if s.forwarded[lv] then s else PostEof(s, lv), lv + 1)
  }

  /** Of the levels below n those not yet forwarded have got an EOF; nothing else has changed. */
  ghost predicate EofsSent(forwarded: seq<bool>, b0: seq<seq<Entry>>, e0: seq<bool>, b: seq<seq<Entry>>, e: seq<bool>,
                           n: nat) {
    && |forwarded| == |b0| == |e0| == |b| == |e| == LEVELS
    && (forall lv | 0 <= lv < n && lv < LEVELS ::
          && b[lv] == b0[lv] + (if forwarded[lv] then [] else [Marker(0)])
          && e[lv] == (e0[lv] || !forwarded[lv]))
    && (forall lv | n <= lv < LEVELS :: b[lv] == b0[lv] && e[lv] == e0[lv])
  }

  class Loop {
    const forwarded: array<bool>
    const regionB: array<seq<Entry>>
    const eofPosted: array<bool>
    var finishedLevels: int
    var regionD: seq<Entry>
    ghost var eofsPushed: seq<nat>

    ghost predicate Valid()
      reads this
    {
      && forwarded.Length == regionB.Length == eofPosted.Length == |eofsPushed| == LEVELS
      && forwarded != eofPosted
    }

    /** The shared state s with this loop's flags and queues in it. */
    ghost function In(s: Sys): Sys
      requires Valid()
      reads this, forwarded, regionB, eofPosted
    {
      s.(forwarded := forwarded[..], finishedLevels := finishedLevels,
         b := regionB[..], eofPosted := eofPosted[..], eofsPushed := eofsPushed)
    }

    constructor ()
      ensures Valid() && finishedLevels == 0 && regionD == [] && fresh(forwarded) && fresh(regionB) && fresh(eofPosted)
      ensures forall lv | 0 <= lv < LEVELS ::
        !forwarded[lv] && regionB[lv] == [] && !eofPosted[lv] && eofsPushed[lv] == 0
    {
      forwarded := new bool[LEVELS](_ => false);
      regionB := new seq<Entry>[LEVELS](_ => []);
      eofPosted := new bool[LEVELS](_ => false);
      finishedLevels, regionD, eofsPushed := 0, [], [0, 0, 0, 0];
    }

    method SendEof(lv: nat, ghost s: Sys)
      requires Valid() && lv < LEVELS
      modifies this`eofsPushed, regionB, eofPosted
      ensures Valid() && In(s) == PostEof(old(In(s)), lv)
      ensures regionB[..] == old(regionB[..])[lv := old(regionB[lv]) + [Marker(0)]]
      ensures eofPosted[..] == old(eofPosted[..])[lv := true]
    {
      regionB[lv] := regionB[lv] + [Marker(0)];
      eofPosted[lv] := true;
      eofsPushed := eofsPushed[lv := eofsPushed[lv] + 1];
    }

    /**
     * One round of the loop.  An entry of a priority source also goes to region D, unless region D stays full
     * until the push times out; the level queue of the entry has room.
     */
    method Handle(e: Entry, priority: bool, timedOut: bool, eofCount: seq<int>, totalReaders: int, ghost s: Sys)
      requires Valid() && |eofCount| == LEVELS && s.eofCount == eofCount && s.totalReaders == totalReaders
      modifies this, forwarded, regionB, eofPosted
      ensures Valid() && In(s) == Handled(old(In(s)), e)
      ensures forall lv | 0 <= lv < LEVELS ::
        regionB[lv] == old(regionB[lv])
          + (if lv != e.level then [] else if !e.eof then [e]
             else if !old(forwarded[lv]) && eofCount[lv] >= totalReaders then [Marker(0)] else [])
      ensures regionD == old(regionD) + if !e.eof && Pipeline.Valid(e.level) && priority && !timedOut then [e] else []
    {
      var lv := e.level;
      if e.eof {
        if lv < 0 || lv >= LEVELS {
          return;
        }
        if !forwarded[lv] && eofCount[lv] >= totalReaders {
          SendEof(lv, s);
          forwarded[lv] := true;
          finishedLevels := finishedLevels + 1;
        }
        return;
      }
      if lv < 0 || lv >= LEVELS {
        return;
      }
      if priority && !timedOut {
        regionD := regionD + [e];
      }
      regionB[lv] := regionB[lv] + [e];
    }

    method Finish(ghost s: Sys)
      requires Valid() && |s.eofCount| == LEVELS
      modifies this, forwarded, regionB, eofPosted
      ensures Valid() && In(s) == Forced(old(In(s)), 0) && regionD == old(regionD)
      ensures forwarded[..] == old(forwarded[..])
      ensures EofsSent(forwarded[..], old(regionB[..]), old(eofPosted[..]), regionB[..], eofPosted[..], LEVELS)
    {
      for lv := 0 to LEVELS
        invariant Valid() && Forced(In(s), lv) == Forced(old(In(s)), 0) && regionD == old(regionD)
        invariant forwarded[..] == old(forwarded[..])
        invariant EofsSent(forwarded[..], old(regionB[..]), old(eofPosted[..]), regionB[..], eofPosted[..], lv)
      {
        if !forwarded[lv] {
          SendEof(lv, s);
        }
      }
    }
  }

  // ---------- The loop body is a few steps of the dispatcher ----------

  /** t is reached from s by dispatcher steps alone. */
  ghost predicate Reaches(c: Caps, s: Sys, t: Sys, steps: nat)
    requires Shape(c, s)
    decreases steps
  {
    s == t || (steps > 0 && exists u :: DispatcherStep(c, s, u) && Shape(c, u) && Reaches(c, u, t, steps - 1))
  }

  lemma OneStep(c: Caps, s: Sys, u: Sys, t: Sys, steps: nat)
    requires Shape(c, s) && Shape(c, u) && DispatcherStep(c, s, u) && Reaches(c, u, t, steps)
    ensures Reaches(c, s, t, steps + 1)
  {
  }

  /** With room in the level's queue, one round of the loop is at most three steps of the dispatcher. */
  lemma RoundIsSteps(c: Caps, s: Sys)
    requires Shape(c, s) && s.dispatcher == Fetching && s.finishedLevels < LEVELS && s.a != []
    requires forall lv | 0 <= lv < LEVELS :: |s.b[lv]| < c.b
    ensures Reaches(c, s, Handled(s.(a := s.a[1..]), s.a[0]), 3)
  {
    var e := s.a[0];
    var popped := s.(a := s.a[1..]);
    var t := Handled(popped, e);
    if !Pipeline.Valid(e.level) {
      OneStep(c, s, popped, t, 2);
    } else if !e.eof {
      var u := popped.(dispatcher := Routing(e));
      OneStep(c, u, t, t, 1);
      OneStep(c, s, u, t, 2);
    } else {
      MarkerRound(c, popped, e.level);
      OneStep(c, s, popped.(dispatcher := Checking(e.level)), t, 2);
    }
  }

  /** With room in the queues, the work after the loop is the dispatcher's steps from level lv to its end. */
  lemma {:induction false} FinishIsSteps(c: Caps, s: Sys, lv: nat)
    requires Shape(c, s) && s.dispatcher == Forcing(lv) && lv <= LEVELS
    requires forall i | lv <= i < LEVELS :: |s.b[i]| < c.b
    ensures Reaches(c, s, Forced(s, lv).(dispatcher := DispatcherGone), LEVELS - lv + 1)
    decreases LEVELS - lv
  {
    if lv == LEVELS {
      LastStep(c, s);
    } else {
      var v := (if s.forwarded[lv] then s else PostEof(s, lv)).(dispatcher := Forcing(lv + 1));
      ForcingStep(c, s, lv, v);
      FinishIsSteps(c, v, lv + 1);
      ForcedOn(s, lv, v);
      OneStep(c, s, v, Forced(s, lv).(dispatcher := DispatcherGone), LEVELS - lv);
    }
  }

  lemma LastStep(c: Caps, s: Sys)
    requires Shape(c, s) && s.dispatcher == Forcing(LEVELS)
    ensures Reaches(c, s, Forced(s, LEVELS).(dispatcher := DispatcherGone), 1)
  {
    var t := s.(dispatcher := DispatcherGone);
    OneStep(c, s, t, t, 0);
  }

  lemma ForcedOn(s: Sys, lv: nat, v: Sys)
    requires Sized(s) && lv < LEVELS
    requires v == (if s.forwarded[lv] then s else PostEof(s, lv)).(dispatcher := Forcing(lv + 1))
    ensures Forced(v, lv + 1).(dispatcher := DispatcherGone) == Forced(s, lv).(dispatcher := DispatcherGone)
  {
    ForcedIgnoresHand(if s.forwarded[lv] then s else PostEof(s, lv), lv + 1, Forcing(lv + 1));
  }

  lemma ForcingStep(c: Caps, s: Sys, lv: nat, v: Sys)
    requires Shape(c, s) && s.dispatcher == Forcing(lv) && lv < LEVELS && |s.b[lv]| < c.b
    requires v == (if s.forwarded[lv] then s else PostEof(s, lv)).(dispatcher := Forcing(lv + 1))
    ensures DispatcherStep(c, s, v) && Shape(c, v)
    ensures forall i | lv < i < LEVELS :: v.b[i] == s.b[i]
  {
  }

  lemma {:induction false} ForcedIgnoresHand(s: Sys, lv: nat, d: Dispatcher)
    requires Sized(s) && lv <= LEVELS
    ensures Forced(s.(dispatcher := d), lv) == Forced(s, lv).(dispatcher := d)
    decreases LEVELS - lv
  {
    if lv < LEVELS {
      ForcedIgnoresHand(if s.forwarded[lv] then s else PostEof(s, lv), lv + 1, d);
    }
  }

  lemma MarkerRound(c: Caps, s: Sys, lv: nat)
    requires Shape(c, s) && s.dispatcher == Fetching && lv < LEVELS && |s.b[lv]| < c.b
    ensures Reaches(c, s.(dispatcher := Checking(lv)), Handled(s, Marker(lv)), 2)
  {
    var u, t := s.(dispatcher := Checking(lv)), Handled(s, Marker(lv));
    if !s.forwarded[lv] && s.eofCount[lv] >= s.totalReaders {
      var v := s.(dispatcher := Forwarding(lv));
      OneStep(c, v, t, t, 0);
      OneStep(c, u, v, t, 1);
    } else {
      OneStep(c, u, t, t, 1);
    }
  }
}
