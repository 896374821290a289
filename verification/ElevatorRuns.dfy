/**
 * An elevator and the letter carriers that ride it, before shutdown.  Each
 * critical section under the elevator's mutex is one step; the scan for further
 * requests runs without the mutex and reads one floor at a time.
 */
module ElevatorRuns {
  import opened Elevator

  datatype Rider =
    | Away
    | Boarding(dest: nat)   // wait_for_capacity
    | Aboard(dest: nat)     // counted in the load, request not yet entered
    | Ringing(dest: nat)    // request entered, semaphore not yet posted
    | Riding(dest: nat)     // polling for arrival
    | Leaving(dest: nat)    // arrived, load not yet reduced

  datatype Lift =
    | Asleep                // sem_wait on the request semaphore
    | Awake                 // holds a token, iteration not yet run
    | Scanning(i: nat)      // any_request has found floors below i unrequested
    | Found                 // any_request succeeded, semaphore not yet posted

  datatype Sys = Sys(car: Car, sem: nat, lift: Lift, riders: seq<Rider>, capacity: int)

  ghost predicate RiderStep(s: Sys, r: nat, t: Sys) {
    r < |s.riders| &&
    match s.riders[r]
    case Away =>
      exists d: nat | d < |s.car.requests| :: t == s.(riders := s.riders[r := Boarding(d)])
    case Boarding(d) =>
      if s.car.load < s.capacity then
        t == s.(car := s.car.(load := s.car.load + 1), riders := s.riders[r := Aboard(d)])
      else t == s
    case Aboard(d) =>
      d < |s.car.requests| &&
      t == s.(car := s.car.(requests := s.car.requests[d := s.car.requests[d] + 1]),
          riders := s.riders[r := Ringing(d)])
    case Ringing(d) =>
      t == s.(sem := s.sem + 1, riders := s.riders[r := Riding(d)])
    case Riding(d) =>
      d < |s.car.requests| &&
      t == if s.car.requests[d] == 0 && s.car.floor == d then s.(riders := s.riders[r := Leaving(d)]) else s
    case Leaving(d) =>
      t == s.(car := s.car.(load := s.car.load - 1), riders := s.riders[r := Away])
  }

  ghost predicate LiftStep(s: Sys, t: Sys) {
    match s.lift
    case Asleep => s.sem > 0 && t == s.(sem := s.sem - 1, lift := Awake)
    case Awake => InShaft(s.car) && t == s.(car := Iterate(s.car), lift := Scanning(0))
    case Scanning(i) =>
      t == s.(lift := if i >= |s.car.requests| then Asleep
                      else if s.car.requests[i] > 0 then Found else Scanning(i + 1))
    case Found => t == s.(sem := s.sem + 1, lift := Asleep)
  }

  /** mover is the rider that steps; the number of riders stands for the elevator. */
  ghost predicate Next(s: Sys, mover: nat, t: Sys) {
    RiderStep(s, mover, t) || (mover == |s.riders| && LiftStep(s, t))
  }

  ghost predicate Init(s: Sys) {
    && |s.car.requests| > 0
    && s.car == Car(0, UP, 0, seq(|s.car.requests|, _ => 0))
    && s.sem == 0 && s.lift == Asleep
    && forall r | 0 <= r < |s.riders| :: s.riders[r] == Away
  }

  datatype Run = Run(states: seq<Sys>, movers: seq<nat>)

  ghost predicate StepAt(u: Run, i: nat) {
    i < |u.movers| < |u.states| && Next(u.states[i], u.movers[i], u.states[i + 1])
  }

  ghost predicate IsRun(u: Run) {
    && |u.states| == |u.movers| + 1
    && Init(u.states[0])
    && forall i | 0 <= i < |u.movers| :: StepAt(u, i)
  }

  // ---------- Invariants ----------

  predicate Counted(r: Rider) {
    !r.Away? && !r.Boarding?
  }

  ghost function LoadOf(riders: seq<Rider>): nat {
    if riders == [] then 0
    else LoadOf(riders[..|riders| - 1]) + if Counted(riders[|riders| - 1]) then 1 else 0
  }

  lemma {:induction false} LoadUpdate(riders: seq<Rider>, r: nat, x: Rider)
    requires r < |riders|
    ensures LoadOf(riders[r := x]) ==
      LoadOf(riders) - (if Counted(riders[r]) then 1 else 0) + if Counted(x) then 1 else 0
    ensures Counted(riders[r]) ==> LoadOf(riders) >= 1
  {
    var n := |riders| - 1;
    if r == n {
      assert riders[r := x][..n] == riders[..n];
    } else {
      LoadUpdate(riders[..n], r, x);
      assert riders[r := x][..n] == riders[..n][r := x];
    }
  }

  /** Someone will still look at the requests: a token, an iteration, a scan ahead, or a rider about to post. */
  ghost predicate Watched(s: Sys) {
    || s.sem > 0
    || s.lift == Awake
    || s.lift == Found
    || (s.lift.Scanning? && exists f | s.lift.i <= f < |s.car.requests| :: s.car.requests[f] > 0)
    || (exists r | 0 <= r < |s.riders| :: s.riders[r].Ringing?)
  }

  ghost predicate Inv(s: Sys) {
    && InShaft(s.car)
    && (forall f | 0 <= f < |s.car.requests| :: s.car.requests[f] >= 0)
    && (forall r | 0 <= r < |s.riders| && !s.riders[r].Away? :: s.riders[r].dest < |s.car.requests|)
    && s.car.load == LoadOf(s.riders)
    && (Outstanding(s.car.requests) ==> Watched(s))
  }

  lemma RiderStepKeepsInv(s: Sys, r: nat, t: Sys)
    requires Inv(s) && RiderStep(s, r, t)
    ensures Inv(t)
  {
    if t.riders != s.riders {
      LoadUpdate(s.riders, r, t.riders[r]);
      assert t.riders == s.riders[r := t.riders[r]];
    }
    if Outstanding(t.car.requests) {
      match s.riders[r]
      case Aboard(d) => assert t.riders[r].Ringing?;
      case Ringing(d) =>
      case _ =>
        assert Watched(s);
        if q :| 0 <= q < |s.riders| && s.riders[q].Ringing? { assert t.riders[q].Ringing?; }
    }
  }

  lemma LiftStepKeepsInv(s: Sys, t: Sys)
    requires Inv(s) && LiftStep(s, t)
    ensures Inv(t)
  {
    if Outstanding(t.car.requests) && s.lift.Scanning? {
      assert Watched(s);
    }
  }

  lemma {:induction false} RunKeepsInv(u: Run, i: nat)
    requires IsRun(u) && i < |u.states|
    ensures Inv(u.states[i])
  {
    if i == 0 {
      NobodyAboard(u.states[0].riders);
    } else {
      RunKeepsInv(u, i - 1);
      var s, m, t := u.states[i - 1], u.movers[i - 1], u.states[i];
      assert StepAt(u, i - 1);
      if RiderStep(s, m, t) {
        RiderStepKeepsInv(s, m, t);
      } else {
        LiftStepKeepsInv(s, t);
      }
    }
  }

  lemma {:induction false} NobodyAboard(riders: seq<Rider>)
    requires forall r | 0 <= r < |riders| :: riders[r] == Away
    ensures LoadOf(riders) == 0
  {
    if riders != [] {
      NobodyAboard(riders[..|riders| - 1]);
    }
  }

  /** No wake-up is lost: the elevator never sleeps over a request without a token or a rider about to post one. */
  lemma NoLostWakeup(u: Run, i: nat)
    requires IsRun(u) && i < |u.states| && Outstanding(u.states[i].car.requests)
    ensures Watched(u.states[i])
    ensures var s := u.states[i];
      s.lift == Asleep && s.sem == 0 ==> exists r | 0 <= r < |s.riders| :: s.riders[r].Ringing?
  {
    RunKeepsInv(u, i);
  }

  /** The load is the number of carriers counted aboard and never passes the capacity. */
  lemma {:induction false} LoadIsExact(u: Run, i: nat)
    requires IsRun(u) && i < |u.states| && u.states[0].capacity >= 0
    ensures u.states[i].car.load == LoadOf(u.states[i].riders)
    ensures u.states[i].capacity == u.states[0].capacity && u.states[i].car.load <= u.states[i].capacity
  {
    RunKeepsInv(u, i);
    if i > 0 {
      LoadIsExact(u, i - 1);
      RunKeepsInv(u, i - 1);
      assert StepAt(u, i - 1);
    }
  }

  /** A rider gets aboard exactly when the car is below its capacity, and otherwise tries again. */
  lemma BoardsIffRoom(u: Run, m: nat, d: nat)
    requires IsRun(u) && m < |u.movers| && u.movers[m] < |u.states[m].riders|
    requires u.states[m].riders[u.movers[m]] == Boarding(d)
    ensures var s, t, r := u.states[m], u.states[m + 1], u.movers[m];
      if s.car.load < s.capacity then
        t.riders == s.riders[r := Aboard(d)] && t.car == s.car.(load := s.car.load + 1)
      else t == s
  {
    assert StepAt(u, m);
  }

  /** A rider aboard rings for its floor, and leaves exactly when it finds the car there with its request served. */
  lemma LeavesIffServed(u: Run, m: nat, d: nat)
    requires IsRun(u) && m < |u.movers| && u.movers[m] < |u.states[m].riders|
    ensures var s, t, r := u.states[m], u.states[m + 1], u.movers[m];
      && (s.riders[r] == Aboard(d) ==>
            && d < |s.car.requests| && t.riders == s.riders[r := Ringing(d)]
            && t.car == s.car.(requests := s.car.requests[d := s.car.requests[d] + 1]))
      && (s.riders[r] == Riding(d) ==>
            && d < |s.car.requests|
            && t == if s.car.floor == d && s.car.requests[d] == 0 then s.(riders := s.riders[r := Leaving(d)]) else s)
      && (s.riders[r] == Leaving(d) ==>
            t.riders == s.riders[r := Away] && t.car == s.car.(load := s.car.load - 1))
  {
    assert StepAt(u, m);
  }

  // ---------- The service bound ----------

  /** Rider r has entered a request for d and has not left the car in any of the states i..j. */
  ghost predicate WaitsThroughout(u: Run, r: nat, d: nat, i: nat, j: nat) {
    i <= j < |u.states| && forall m | i <= m <= j :: Waits(u.states[m], r, d)
  }

  predicate Waits(s: Sys, r: nat, d: nat) {
    r < |s.riders| && (s.riders[r] == Ringing(d) || s.riders[r] == Riding(d))
  }

  predicate Iterates(s: Sys, mover: nat) {
    mover == |s.riders| && s.lift == Awake
  }

  /** How many of the steps i..j are elevator iterations. */
  ghost function Iterations(u: Run, i: nat, j: nat): nat
    requires i <= j <= |u.movers| < |u.states|
  {
    if i == j then 0 else Iterations(u, i, j - 1) + if Iterates(u.states[j - 1], u.movers[j - 1]) then 1 else 0
  }

  /** Floor d is served by an iteration among the steps i..j. */
  ghost predicate Served(u: Run, d: nat, i: nat, j: nat) {
    exists m | i <= m < j :: ServedAt(u, d, m)
  }

  ghost predicate ServedAt(u: Run, d: nat, m: nat) {
    && m + 1 < |u.states| && m < |u.movers| && Iterates(u.states[m], u.movers[m])
    && u.states[m + 1].car.floor == d
    && d < |u.states[m + 1].car.requests| && u.states[m + 1].car.requests[d] == 0
  }

  lemma RiderKeepsLoad(riders: seq<Rider>, r: nat)
    requires r < |riders| && Counted(riders[r])
    ensures LoadOf(riders) >= 1
  {
    LoadUpdate(riders, r, riders[r]);
  }

  /** Step m serves floor d, or shortens the distance to it by one if it is an iteration. */
  ghost predicate Approaches(u: Run, d: nat, m: nat)
    requires m < |u.movers| < |u.states|
  {
    || ServedAt(u, d, m)
    || (&& |u.states[m + 1].car.requests| == |u.states[m].car.requests| > d
        && Distance(u.states[m + 1].car, d) + (if Iterates(u.states[m], u.movers[m]) then 1 else 0)
           == Distance(u.states[m].car, d))
  }

  /** One step of a wait: nothing changes for the waiting floor, or an iteration comes nearer or serves it. */
  lemma WaitingStep(u: Run, r: nat, d: nat, m: nat)
    requires IsRun(u) && m < |u.movers| && Waits(u.states[m], r, d) && Waits(u.states[m + 1], r, d)
    ensures Approaches(u, d, m)
  {
    RunKeepsInv(u, m);
    var s, t := u.states[m], u.states[m + 1];
    assert StepAt(u, m);
    if Iterates(s, u.movers[m]) {
      RiderKeepsLoad(s.riders, r);
      LoadedCarApproaches(s.car, d);
    }
  }

  /** The distance to d has run down by the iterations made. */
  ghost predicate RunDown(u: Run, d: nat, i: nat, j: nat)
    requires i <= j <= |u.movers| < |u.states|
  {
    && |u.states[j].car.requests| == |u.states[i].car.requests| > d
    && Distance(u.states[j].car, d) + Iterations(u, i, j) == Distance(u.states[i].car, d)
  }

  lemma ServedSooner(u: Run, d: nat, i: nat, j: nat)
    requires i < j && (Served(u, d, i, j - 1) || ServedAt(u, d, j - 1))
    ensures Served(u, d, i, j)
  {
    if Served(u, d, i, j - 1) {
      var m :| i <= m < j - 1 && ServedAt(u, d, m);
      assert ServedAt(u, d, m);
    }
  }

  lemma GoesOn(u: Run, d: nat, i: nat, j: nat)
    requires i < j <= |u.movers| < |u.states| && Approaches(u, d, j - 1)
    requires Served(u, d, i, j - 1) || RunDown(u, d, i, j - 1)
    ensures Served(u, d, i, j) || (RunDown(u, d, i, j) && !ServedAt(u, d, j - 1))
  {
    if Served(u, d, i, j - 1) || ServedAt(u, d, j - 1) {
      ServedSooner(u, d, i, j);
    }
  }

  lemma WaitingRoom(u: Run, r: nat, d: nat, i: nat)
    requires IsRun(u) && i < |u.states| && Waits(u.states[i], r, d)
    ensures |u.states[i].car.requests| > d
  {
    RunKeepsInv(u, i);
  }

  lemma WaitsUpTo(u: Run, r: nat, d: nat, i: nat, j: nat)
    requires i < j && WaitsThroughout(u, r, d, i, j)
    ensures WaitsThroughout(u, r, d, i, j - 1) && Waits(u.states[j - 1], r, d) && Waits(u.states[j], r, d)
  {
  }

  /** While one rider waits, every iteration serves its floor or comes one nearer. */
  lemma {:induction false} WaitingRunsDown(u: Run, r: nat, d: nat, i: nat, j: nat)
    requires IsRun(u) && WaitsThroughout(u, r, d, i, j)
    ensures Served(u, d, i, j) || RunDown(u, d, i, j)
  {
    if i == j {
      assert Waits(u.states[i], r, d);
      WaitingRoom(u, r, d, i);
    } else {
      WaitsUpTo(u, r, d, i, j);
      WaitingRunsDown(u, r, d, i, j - 1);
      WaitingStep(u, r, d, j - 1);
      GoesOn(u, d, i, j);
    }
  }

  // ---------- Any outstanding request ----------

  /** Behind every outstanding request stands a rider that has made it and not left the car. */
  ghost predicate Requested(s: Sys) {
    forall d: nat | d < |s.car.requests| && s.car.requests[d] > 0 :: HasWaiter(s, d)
  }

  ghost predicate HasWaiter(s: Sys, d: nat) {
    exists r: nat :: Waits(s, r, d)
  }

  /** A rider keeps waiting through any step, unless it finds its floor served. */
  lemma WaiterStays(s: Sys, mover: nat, t: Sys, r: nat, d: nat)
    requires Next(s, mover, t) && Waits(s, r, d) && d < |s.car.requests| && d < |t.car.requests|
    requires t.car.requests[d] > 0
    ensures Waits(t, r, d)
  {
  }

  lemma StepKeepsRequested(s: Sys, mover: nat, t: Sys)
    requires Inv(s) && Requested(s) && Next(s, mover, t)
    ensures Requested(t)
  {
    forall d: nat | d < |t.car.requests| && t.car.requests[d] > 0 ensures HasWaiter(t, d) {
      if s.car.requests[d] > 0 {
        assert HasWaiter(s, d);
        var r: nat :| Waits(s, r, d);
        WaiterStays(s, mover, t, r, d);
      } else {
        assert Waits(t, mover, d);
      }
    }
  }

  lemma {:induction false} RunKeepsRequested(u: Run, i: nat)
    requires IsRun(u) && i < |u.states|
    ensures Requested(u.states[i])
  {
    if i > 0 {
      RunKeepsRequested(u, i - 1);
      RunKeepsInv(u, i - 1);
      assert StepAt(u, i - 1);
      StepKeepsRequested(u.states[i - 1], u.movers[i - 1], u.states[i]);
    }
  }

  /** Until floor d is served, its request stays outstanding. */
  lemma RequestStays(u: Run, d: nat, m: nat)
    requires IsRun(u) && m < |u.movers| && d < |u.states[m].car.requests| && u.states[m].car.requests[d] > 0
    ensures |u.states[m + 1].car.requests| == |u.states[m].car.requests|
    ensures ServedAt(u, d, m) || u.states[m + 1].car.requests[d] > 0
  {
    RunKeepsInv(u, m);
    assert StepAt(u, m);
  }

  /** A request, and so a rider aboard: each iteration serves the floor or comes one nearer. */
  lemma RequestStep(u: Run, d: nat, m: nat)
    requires IsRun(u) && m < |u.movers| && d < |u.states[m].car.requests| && u.states[m].car.requests[d] > 0
    ensures Approaches(u, d, m)
  {
    if !ServedAt(u, d, m) {
      RequestStays(u, d, m);
      RunKeepsRequested(u, m);
      assert HasWaiter(u.states[m], d);
      var r: nat :| Waits(u.states[m], r, d);
      assert StepAt(u, m);
      WaiterStays(u.states[m], u.movers[m], u.states[m + 1], r, d);
      WaitingStep(u, r, d, m);
    }
  }

  lemma {:induction false} RequestRunsDown(u: Run, d: nat, i: nat, j: nat)
    requires IsRun(u) && i <= j <= |u.movers|
    requires d < |u.states[i].car.requests| && u.states[i].car.requests[d] > 0
    ensures Served(u, d, i, j) || (RunDown(u, d, i, j) && u.states[j].car.requests[d] > 0)
  {
    if i < j {
      RequestRunsDown(u, d, i, j - 1);
      if Served(u, d, i, j - 1) {
        ServedSooner(u, d, i, j);
      } else {
        RequestStep(u, d, j - 1);
        GoesOn(u, d, i, j);
        RequestStays(u, d, j - 1);
      }
    }
  }

  /** Every requested floor is served within 2 * floors - 1 iterations of the elevator. */
  lemma ServedInTime(u: Run, d: nat, i: nat, j: nat)
    requires IsRun(u) && i <= j <= |u.movers|
    requires d < |u.states[i].car.requests| && u.states[i].car.requests[d] > 0
    requires Iterations(u, i, j) >= 2 * |u.states[i].car.requests| - 1
    ensures Served(u, d, i, j)
  {
    RunKeepsInv(u, i);
    RunKeepsInv(u, j);
    RequestRunsDown(u, d, i, j);
    DistanceBound(u.states[i].car, d);
    if !Served(u, d, i, j) {
      DistanceBound(u.states[j].car, d);
    }
  }
}
