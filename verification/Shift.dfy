/**
 * One shift of the courier service: the main thread, the couriers and a SIGINT
 * that may arrive at any moment.  The queue is the abstract multiset that the
 * heap implements; every atomic update and every critical section is one step.
 */
module Shift {
  import opened OrderHeap

  const UNIT_MS := 500

  lemma OneMoreQueued(orders: seq<Order>, i: nat)
    requires i < |orders|
    ensures multiset(orders[..i + 1]) == multiset(orders[..i]) + multiset{orders[i]}
  {
    assert orders[..i + 1] == orders[..i] + [orders[i]];
  }

  /** All orders are queued before the first courier starts. */
  method EnqueueAll(orders: seq<Order>) returns (pq: PriorityQueue)
    ensures fresh(pq) && fresh(pq.heap) && pq.Valid() && pq.Orders() == multiset(orders) && !pq.shutdown
  {
    var capacity := if |orders| > 0 then |orders| else 1;
    pq := new PriorityQueue(capacity);
    for i := 0 to |orders|
      invariant pq.Valid() && pq.size == i && pq.Orders() == multiset(orders[..i]) && !pq.shutdown
      invariant fresh(pq) && fresh(pq.heap)
    {
      OneMoreQueued(orders, i);
      ghost var queued := pq.Orders();
      var ok := pq.Push(orders[i]);
      assert pq.Orders() == queued + multiset{orders[i]};
    }
    assert orders[..|orders|] == orders;
  }

  datatype Stage =
    | Waiting
    | Delivering(o: Order)   // popped, not yet counted
    | Counted(o: Order)      // completed_orders raised
    | Timed(o: Order)        // total_delivery_time raised
    | Noted(o: Order)        // own completed raised, own time not yet
    | Over

  datatype Courier = Courier(stage: Stage, completed: int, timeMs: int)

  datatype Main =
    | Watching            // wait_for_shift_end
    | Deciding            // about to look at the SIGINT flag again
    | Cancelling(i: nat)  // i drained orders have been counted as cancelled
    | Closing             // about to shut the queue down
    | Joining
    | Ended               // SHIFT_END

  datatype Sys = Sys(
    queue: multiset<Order>, shutdown: bool, sigint: bool,
    couriers: seq<Courier>, completed: int, cancelled: int, totalMs: int,
    main: Main,
    popped: seq<Order>, drained: seq<Order>)  // history: the orders taken out, in order

  predicate Foremost(o: Order, q: multiset<Order>) {
    o in q && forall x | x in q :: AtMost(o, x)
  }

  ghost predicate CourierStep(s: Sys, i: nat, t: Sys) {
    i < |s.couriers| &&
    var c := s.couriers[i];
    match c.stage
    case Waiting =>
      if s.queue == multiset{} then
        s.shutdown && t == s.(couriers := s.couriers[i := c.(stage := Over)])
      else
        exists o :: Foremost(o, s.queue) &&
          t == s.(queue := s.queue - multiset{o}, popped := s.popped + [o],
              couriers := s.couriers[i := c.(stage := Delivering(o))])
    case Delivering(o) =>
      t == s.(completed := s.completed + 1, couriers := s.couriers[i := c.(stage := Counted(o))])
    case Counted(o) =>
      t == s.(totalMs := s.totalMs + o.duration * UNIT_MS, couriers := s.couriers[i := c.(stage := Timed(o))])
    case Timed(o) =>
      t == s.(couriers := s.couriers[i := Courier(Noted(o), c.completed + 1, c.timeMs)])
    case Noted(o) =>
      t == s.(couriers := s.couriers[i := Courier(Waiting, c.completed, c.timeMs + o.duration * UNIT_MS)])
    case Over => false
  }

  ghost predicate MainStep(s: Sys, n: nat, t: Sys) {
    match s.main
    case Watching => (s.sigint || s.completed >= n) && t == s.(main := Deciding)
    case Deciding =>
      if !s.sigint then t == s.(main := Closing)
      else exists out :: Sorted(out) && multiset(out) == s.queue &&
             t == s.(queue := multiset{}, drained := out, main := Cancelling(0))
    case Cancelling(i) =>
      if i < |s.drained| then t == s.(cancelled := s.cancelled + 1, main := Cancelling(i + 1))
      else t == s.(main := Closing)
    case Closing => t == s.(shutdown := true, main := Joining)
    case Joining => (forall i | 0 <= i < |s.couriers| :: s.couriers[i].stage == Over) && t == s.(main := Ended)
    case Ended => false
  }

  /** A courier or the main thread takes a step. */
  ghost predicate Moves(s: Sys, n: nat, t: Sys) {
    (exists i: nat :: CourierStep(s, i, t)) || MainStep(s, n, t)
  }

  ghost predicate Next(s: Sys, n: nat, t: Sys) {
    Moves(s, n, t) || (!s.sigint && t == s.(sigint := true))
  }

  ghost predicate Init(s: Sys, orders: seq<Order>) {
    && DistinctIds(multiset(orders)) && |s.couriers| > 0
    && s.queue == multiset(orders) && !s.shutdown && s.main == Watching
    && s.completed == s.cancelled == s.totalMs == 0 && s.popped == [] && s.drained == []
    && forall i | 0 <= i < |s.couriers| :: s.couriers[i] == Courier(Waiting, 0, 0)
  }

  ghost predicate StepAt(run: seq<Sys>, orders: seq<Order>, i: nat) {
    i + 1 < |run| && Next(run[i], |orders|, run[i + 1])
  }

  ghost predicate IsRun(run: seq<Sys>, orders: seq<Order>) {
    0 < |run| && Init(run[0], orders) && forall i | 0 <= i < |run| - 1 :: StepAt(run, orders, i)
  }

  // ---------- Figures ----------

  datatype Figure = Completed | Time | OwnCompleted | OwnTime

  function Durations(s: seq<Order>): int {
    if s == [] then 0 else Durations(s[..|s| - 1]) + s[|s| - 1].duration * UNIT_MS
  }

  /** What an order counts for in a figure. */
  function Worth(o: Order, f: Figure): int {
    if f == Completed || f == OwnCompleted then 1 else o.duration * UNIT_MS
  }

  /** The stages in which a popped order is still missing from a figure. */
  predicate Missing(st: Stage, f: Figure) {
    match f
    case Completed => st.Delivering?
    case Time => st.Delivering? || st.Counted?
    case OwnCompleted => st.Delivering? || st.Counted? || st.Timed?
    case OwnTime => st.Delivering? || st.Counted? || st.Timed? || st.Noted?
  }

  function Share(c: Courier, f: Figure): int {
    (if Missing(c.stage, f) then Worth(c.stage.o, f) else 0)
    + (if f == OwnCompleted then c.completed else if f == OwnTime then c.timeMs else 0)
  }

  function Shares(couriers: seq<Courier>, f: Figure): int {
    if couriers == [] then 0 else Shares(couriers[..|couriers| - 1], f) + Share(couriers[|couriers| - 1], f)
  }

  function Global(s: Sys, f: Figure): int {
    match f
    case Completed => s.completed
    case Time => s.totalMs
    case _ => 0
  }

  function Truth(s: seq<Order>, f: Figure): int {
    if f == Completed || f == OwnCompleted then |s| else Durations(s)
  }

  lemma {:induction false} SharesUpdate(couriers: seq<Courier>, i: nat, c: Courier, f: Figure)
    requires i < |couriers|
    ensures Shares(couriers[i := c], f) == Shares(couriers, f) - Share(couriers[i], f) + Share(c, f)
  {
    var n := |couriers| - 1;
    if i == n {
      assert couriers[i := c][..n] == couriers[..n];
    } else {
      SharesUpdate(couriers[..n], i, c, f);
      assert couriers[i := c][..n] == couriers[..n][i := c];
    }
  }

  lemma {:induction false} SharesOfIdle(couriers: seq<Courier>, f: Figure)
    requires forall i | 0 <= i < |couriers| :: couriers[i].stage == Waiting || couriers[i].stage == Over
    ensures f == Completed || f == Time ==> Shares(couriers, f) == 0
    ensures (forall i | 0 <= i < |couriers| :: couriers[i].completed == couriers[i].timeMs == 0)
      ==> Shares(couriers, f) == 0
  {
    if couriers != [] {
      SharesOfIdle(couriers[..|couriers| - 1], f);
    }
  }

  /** Every figure accounts for every popped order, delivered or still on its way. */
  ghost predicate FiguresOk(s: Sys) {
    forall f :: FigureOk(s, f)
  }

  ghost predicate FigureOk(s: Sys, f: Figure) {
    Global(s, f) + Shares(s.couriers, f) == Truth(s.popped, f)
  }

  // ---------- Invariant ----------

  ghost predicate OrderOk(s: Sys, orders: seq<Order>) {
    && multiset(s.popped) + s.queue + multiset(s.drained) == multiset(orders)
    && Sorted(s.popped) && NoneAfter(s.popped, s.queue) && NoneAfter(s.popped, multiset(s.drained)) && Sorted(s.drained)
    && (s.main.Watching? || s.main.Deciding? ==> s.drained == [])
  }

  ghost predicate MainOk(s: Sys, n: nat) {
    && |s.popped| + |s.queue| + |s.drained| == n
    && s.completed <= |s.popped|
    && (s.main == Deciding && !s.sigint ==> s.completed >= n)
    && (s.main.Cancelling? || s.main.Closing? || s.main.Joining? || s.main.Ended? ==> s.queue == multiset{})
    && s.cancelled == (if s.main.Cancelling? then s.main.i
                       else if s.main.Watching? || s.main.Deciding? then 0 else |s.drained|)
    && (s.main.Cancelling? ==> s.main.i <= |s.drained|)
    && s.shutdown == (s.main.Joining? || s.main.Ended?)
    && (forall i | 0 <= i < |s.couriers| && s.couriers[i].stage == Over :: s.shutdown)
    && (s.main.Ended? ==> forall i | 0 <= i < |s.couriers| :: s.couriers[i].stage == Over)
  }

  ghost predicate Inv(s: Sys, orders: seq<Order>) {
    OrderOk(s, orders) && MainOk(s, |orders|) && FiguresOk(s) && |s.couriers| > 0
  }

  /** A pop turns one order of the queue into one that is on its way. */
  lemma PopKeepsFigure(s: Sys, i: nat, o: Order, f: Figure)
    requires FigureOk(s, f) && i < |s.couriers| && s.couriers[i].stage == Waiting
    ensures FigureOk(s.(queue := s.queue - multiset{o}, popped := s.popped + [o],
                        couriers := s.couriers[i := s.couriers[i].(stage := Delivering(o))]), f)
  {
    SharesUpdate(s.couriers, i, s.couriers[i].(stage := Delivering(o)), f);
    assert (s.popped + [o])[..|s.popped|] == s.popped;
  }

  lemma DeliveryKeepsFigure(s: Sys, i: nat, t: Sys, f: Figure)
    requires FigureOk(s, f) && CourierStep(s, i, t) && (s.couriers[i].stage == Waiting ==> s.queue == multiset{})
    ensures FigureOk(t, f)
  {
    SharesUpdate(s.couriers, i, t.couriers[i], f);
  }

  lemma CourierKeepsFigures(s: Sys, i: nat, t: Sys)
    requires FiguresOk(s) && CourierStep(s, i, t)
    ensures FiguresOk(t)
  {
    forall f ensures FigureOk(t, f) {
      assert FigureOk(s, f);
      if s.couriers[i].stage == Waiting && s.queue != multiset{} {
        var o :| Foremost(o, s.queue) && t == s.(queue := s.queue - multiset{o}, popped := s.popped + [o],
                                                 couriers := s.couriers[i := s.couriers[i].(stage := Delivering(o))]);
        PopKeepsFigure(s, i, o, f);
      } else {
        DeliveryKeepsFigure(s, i, t, f);
      }
    }
  }

  lemma CourierKeepsOrder(s: Sys, orders: seq<Order>, i: nat, t: Sys)
    requires OrderOk(s, orders) && MainOk(s, |orders|) && CourierStep(s, i, t)
    ensures OrderOk(t, orders)
  {
    if s.couriers[i].stage.Waiting? && s.queue != multiset{} {
      var o :| Foremost(o, s.queue) && t == s.(queue := s.queue - multiset{o}, popped := s.popped + [o],
                                               couriers := s.couriers[i := s.couriers[i].(stage := Delivering(o))]);
      assert s.drained == [];
      AppendLeast(s.popped, o, s.queue);
    }
  }

  lemma {:induction false} OthersAreMissing(couriers: seq<Courier>, i: nat)
    requires i < |couriers| && couriers[i].stage.Delivering?
    ensures Shares(couriers, Completed) >= 1
  {
    PendingNotNegative(couriers[..|couriers| - 1]);
    if i < |couriers| - 1 {
      OthersAreMissing(couriers[..|couriers| - 1], i);
    }
  }

  lemma {:induction false} PendingNotNegative(couriers: seq<Courier>)
    ensures Shares(couriers, Completed) >= 0
  {
    if couriers != [] {
      PendingNotNegative(couriers[..|couriers| - 1]);
    }
  }

  lemma CourierKeepsMain(s: Sys, n: nat, i: nat, t: Sys)
    requires MainOk(s, n) && FigureOk(s, Completed) && CourierStep(s, i, t)
    ensures MainOk(t, n)
  {
    if s.couriers[i].stage == Waiting && s.queue != multiset{} {
      var o :| Foremost(o, s.queue) && t == s.(queue := s.queue - multiset{o}, popped := s.popped + [o],
                                               couriers := s.couriers[i := s.couriers[i].(stage := Delivering(o))]);
      PopKeepsMain(s, n, i, o);
    } else {
      if s.couriers[i].stage.Delivering? {
        OthersAreMissing(s.couriers, i);
      }
      DeliveryKeepsMain(s, n, i, t);
    }
  }

  lemma PopKeepsMain(s: Sys, n: nat, i: nat, o: Order)
    requires MainOk(s, n) && i < |s.couriers| && s.couriers[i].stage == Waiting && o in s.queue
    ensures MainOk(s.(queue := s.queue - multiset{o}, popped := s.popped + [o],
                      couriers := s.couriers[i := s.couriers[i].(stage := Delivering(o))]), n)
  {
    PopShrinks(s.queue, o);
  }

  lemma DeliveryKeepsMain(s: Sys, n: nat, i: nat, t: Sys)
    requires MainOk(s, n) && CourierStep(s, i, t) && (s.couriers[i].stage == Waiting ==> s.queue == multiset{})
    requires s.couriers[i].stage.Delivering? ==> s.completed < |s.popped|
    ensures MainOk(t, n)
  {
  }

  lemma MainKeepsOrder(s: Sys, orders: seq<Order>, t: Sys)
    requires OrderOk(s, orders) && MainOk(s, |orders|) && MainStep(s, |orders|, t)
    ensures OrderOk(t, orders)
  {
  }

  lemma MainKeepsMain(s: Sys, n: nat, t: Sys)
    requires MainOk(s, n) && MainStep(s, n, t) && (s.main.Deciding? ==> s.drained == [])
    ensures MainOk(t, n)
  {
    if s.main == Deciding && s.sigint {
      assert |multiset(t.drained)| == |t.drained|;
    }
  }

  lemma CourierKeepsInv(s: Sys, orders: seq<Order>, i: nat, t: Sys)
    requires Inv(s, orders) && CourierStep(s, i, t)
    ensures Inv(t, orders)
  {
    assert FigureOk(s, Completed);
    CourierKeepsFigures(s, i, t);
    CourierKeepsOrder(s, orders, i, t);
    CourierKeepsMain(s, |orders|, i, t);
  }

  lemma MainKeepsInv(s: Sys, orders: seq<Order>, t: Sys)
    requires Inv(s, orders) && MainStep(s, |orders|, t)
    ensures Inv(t, orders)
  {
    MainKeepsOrder(s, orders, t);
    MainKeepsMain(s, |orders|, t);
    SameFigures(s, t);
  }

  lemma SameFigures(s: Sys, t: Sys)
    requires FiguresOk(s)
    requires t.popped == s.popped && t.couriers == s.couriers && t.completed == s.completed && t.totalMs == s.totalMs
    ensures FiguresOk(t)
  {
    forall f ensures FigureOk(t, f) { assert FigureOk(s, f); }
  }

  lemma StepKeepsInv(s: Sys, orders: seq<Order>, t: Sys)
    requires Inv(s, orders) && Next(s, |orders|, t)
    ensures Inv(t, orders)
  {
    if i: nat :| CourierStep(s, i, t) {
      CourierKeepsInv(s, orders, i, t);
    } else if MainStep(s, |orders|, t) {
      MainKeepsInv(s, orders, t);
    } else {
      SameFigures(s, t);
    }
  }

  lemma InitKeepsInv(s: Sys, orders: seq<Order>)
    requires Init(s, orders)
    ensures Inv(s, orders)
  {
    forall f ensures FigureOk(s, f) { SharesOfIdle(s.couriers, f); }
    assert |multiset(orders)| == |orders|;
  }

  lemma RunStepKeepsInv(run: seq<Sys>, orders: seq<Order>, i: nat, next: nat)
    requires IsRun(run, orders) && next == i + 1 < |run| && Inv(run[i], orders)
    ensures Inv(run[next], orders)
  {
    assert StepAt(run, orders, i);
    StepKeepsInv(run[i], orders, run[next]);
  }

  lemma {:induction false} RunKeepsInv(run: seq<Sys>, orders: seq<Order>, i: nat)
    requires IsRun(run, orders) && i < |run|
    ensures Inv(run[i], orders)
  {
    if i == 0 {
      InitKeepsInv(run[0], orders);
    } else {
      RunKeepsInv(run, orders, i - 1);
      RunStepKeepsInv(run, orders, i - 1, i);
    }
  }

  // ---------- Theorems ----------

  /**
   * At the end of every shift, interrupted or not, the orders popped by the
   * couriers followed by the drained ones list the input in order: there is
   * only one such list, so the k-th order taken out is the k-th most urgent.
   */
  lemma ShiftServesInOrder(run: seq<Sys>, orders: seq<Order>, i: nat, sorted: seq<Order>)
    requires IsRun(run, orders) && i < |run| && run[i].main == Ended
    requires Sorted(sorted) && multiset(sorted) == multiset(orders)
    ensures run[i].popped + run[i].drained == sorted
    ensures forall a, b | 0 <= a < b < |sorted| ::
      || sorted[a].priority < sorted[b].priority
      || (sorted[a].priority == sorted[b].priority && sorted[a].id < sorted[b].id)
      || sorted[a] == sorted[b]
  {
    RunKeepsInv(run, orders, i);
    var s := run[i];
    var all := s.popped + s.drained;
    forall a, b | 0 <= a < b < |all| ensures AtMost(all[a], all[b]) {
      if a < |s.popped| <= b {
        assert all[b] in multiset(s.drained);
      }
    }
    SortedIsUnique(all, sorted);
    forall a: nat, b: nat | a < b < |sorted| {
      SortedByPriorityThenId(sorted, a, b);
    }
  }

  /** At any moment the orders already popped are the most urgent ones, in order. */
  lemma PoppedIsPrefix(run: seq<Sys>, orders: seq<Order>, i: nat, rest: seq<Order>, sorted: seq<Order>)
    requires IsRun(run, orders) && i < |run|
    requires Sorted(rest) && multiset(rest) == run[i].queue + multiset(run[i].drained)
    requires Sorted(sorted) && multiset(sorted) == multiset(orders)
    ensures run[i].popped + rest == sorted
  {
    RunKeepsInv(run, orders, i);
    var s := run[i];
    var all := s.popped + rest;
    forall a, b | 0 <= a < b < |all| ensures AtMost(all[a], all[b]) {
      if a < |s.popped| <= b {
        assert all[b] in multiset(rest);
      }
    }
    assert multiset(all) == multiset(orders);
    SortedIsUnique(all, sorted);
  }

  /** Nothing still queued is more urgent than an order already popped. */
  lemma NoneOvertaken(run: seq<Sys>, orders: seq<Order>, i: nat, a: nat, o: Order)
    requires IsRun(run, orders) && i < |run| && a < |run[i].popped| && o in run[i].queue
    ensures var p := run[i].popped[a];
      p.priority < o.priority || (p.priority == o.priority && p.id <= o.id)
  {
    RunKeepsInv(run, orders, i);
    assert AtMost(run[i].popped[a], o);
  }

  // ---------- Without an interruption ----------

  /** Orders are drained, and the drain is begun, only after a SIGINT. */
  ghost predicate CalmOk(s: Sys) {
    s.drained == [] || s.sigint
  }

  lemma {:induction false} RunKeepsCalm(run: seq<Sys>, orders: seq<Order>, i: nat)
    requires IsRun(run, orders) && i < |run|
    ensures CalmOk(run[i])
  {
    if i > 0 {
      RunKeepsCalm(run, orders, i - 1);
      assert StepAt(run, orders, i - 1);
      StepKeepsCalm(run[i - 1], |orders|, run[i]);
    }
  }

  lemma StepKeepsCalm(s: Sys, n: nat, t: Sys)
    requires CalmOk(s) && Next(s, n, t)
    ensures CalmOk(t)
  {
    if i: nat :| CourierStep(s, i, t) {
      assert t.drained == s.drained && t.sigint == s.sigint;
    }
  }

  /** A shift without a SIGINT delivers every order. */
  lemma CalmShiftDeliversAll(run: seq<Sys>, orders: seq<Order>, i: nat)
    requires IsRun(run, orders) && i < |run| && run[i].main == Ended && !run[i].sigint
    ensures multiset(run[i].popped) == multiset(orders)
    ensures run[i].completed == |orders| && run[i].cancelled == 0
  {
    RunKeepsCalm(run, orders, i);
    ShiftAccountsForAll(run, orders, i);
  }

  /** At the end of the shift every order was delivered or cancelled, and all figures agree. */
  lemma ShiftAccountsForAll(run: seq<Sys>, orders: seq<Order>, i: nat)
    requires IsRun(run, orders) && i < |run| && run[i].main == Ended
    ensures var s := run[i];
      && s.completed + s.cancelled == |orders|
      && s.completed == |s.popped| && s.cancelled == |s.drained|
      && multiset(s.popped) + multiset(s.drained) == multiset(orders)
      && s.totalMs == Durations(s.popped)
      && Shares(s.couriers, OwnCompleted) == s.completed
      && Shares(s.couriers, OwnTime) == s.totalMs
  {
    RunKeepsInv(run, orders, i);
    var s := run[i];
    assert FigureOk(s, Completed) && FigureOk(s, Time) && FigureOk(s, OwnCompleted) && FigureOk(s, OwnTime);
    SharesOfIdle(s.couriers, Completed);
    SharesOfIdle(s.couriers, Time);
  }

  // ---------- The shift ends ----------

  function StageWork(st: Stage): nat {
    match st
    case Waiting => 1
    case Delivering(_) => 6
    case Counted(_) => 5
    case Timed(_) => 4
    case Noted(_) => 3
    case Over => 0
  }

  function CourierWork(couriers: seq<Courier>): nat {
    if couriers == [] then 0 else CourierWork(couriers[..|couriers| - 1]) + StageWork(couriers[|couriers| - 1].stage)
  }

  function MainWork(s: Sys): int {
    match s.main
    case Watching => 9
    case Deciding => 8
    case Cancelling(i) => 3 + |s.drained| - i
    case Closing => 2
    case Joining => 1
    case Ended => 0
  }

  function Work(s: Sys): int {
    6 * |s.queue| + CourierWork(s.couriers) + MainWork(s) + if s.sigint then 0 else 1
  }

  lemma {:induction false} CourierWorkUpdate(couriers: seq<Courier>, i: nat, c: Courier)
    requires i < |couriers|
    ensures CourierWork(couriers[i := c]) == CourierWork(couriers) - StageWork(couriers[i].stage) + StageWork(c.stage)
  {
    var n := |couriers| - 1;
    if i == n {
      assert couriers[i := c][..n] == couriers[..n];
    } else {
      CourierWorkUpdate(couriers[..n], i, c);
      assert couriers[i := c][..n] == couriers[..n][i := c];
    }
  }

  lemma CourierUsesWork(s: Sys, i: nat, t: Sys)
    requires CourierStep(s, i, t)
    ensures Work(t) < Work(s)
  {
    CourierWorkUpdate(s.couriers, i, t.couriers[i]);
    if s.couriers[i].stage == Waiting && s.queue != multiset{} {
      var o :| Foremost(o, s.queue) && t == s.(queue := s.queue - multiset{o}, popped := s.popped + [o],
                                               couriers := s.couriers[i := s.couriers[i].(stage := Delivering(o))]);
      PopShrinks(s.queue, o);
    } else {
      DeliveryUsesWork(s, i, t);
    }
  }

  lemma PopShrinks(q: multiset<Order>, o: Order)
    requires o in q
    ensures |q - multiset{o}| == |q| - 1
  {
    assert q == (q - multiset{o}) + multiset{o};
  }

  lemma DeliveryUsesWork(s: Sys, i: nat, t: Sys)
    requires CourierStep(s, i, t) && (s.couriers[i].stage == Waiting ==> s.queue == multiset{})
    ensures Work(t) < Work(s)
  {
    CourierWorkUpdate(s.couriers, i, t.couriers[i]);
  }

  lemma MainUsesWork(s: Sys, n: nat, t: Sys)
    requires MainOk(s, n) && MainStep(s, n, t)
    ensures Work(t) < Work(s)
  {
    if s.main == Deciding && s.sigint {
      assert |multiset(t.drained)| == |t.drained|;
    }
  }

  /** Every step brings the shift closer to its end. */
  lemma StepUsesWork(s: Sys, orders: seq<Order>, t: Sys)
    requires Inv(s, orders) && Next(s, |orders|, t)
    ensures 0 <= Work(t) < Work(s)
  {
    StepKeepsInv(s, orders, t);
    assert MainWork(t) >= 0;
    if i: nat :| CourierStep(s, i, t) {
      CourierUsesWork(s, i, t);
    } else if MainStep(s, |orders|, t) {
      MainUsesWork(s, |orders|, t);
    }
  }

  lemma {:induction false} LeastExists(q: multiset<Order>)
    requires q != multiset{}
    ensures exists o :: Foremost(o, q)
    decreases |q|
  {
    var x :| x in q;
    var rest := q - multiset{x};
    assert forall z | z in q :: z == x || z in rest;
    if rest == multiset{} {
      assert Foremost(x, q);
    } else {
      LeastExists(rest);
      var y :| Foremost(y, rest);
      if AtMost(x, y) {
        assert Foremost(x, q);
      } else {
        assert Foremost(y, q);
      }
    }
  }

  lemma {:induction false} ListingExists(q: multiset<Order>) returns (out: seq<Order>)
    ensures Sorted(out) && multiset(out) == q
    decreases |q|
  {
    if q == multiset{} {
      return [];
    }
    LeastExists(q);
    var o :| Foremost(o, q);
    var rest := ListingExists(q - multiset{o});
    out := [o] + rest;
    forall i, j | 0 <= i < j < |out| ensures AtMost(out[i], out[j]) {
      if i == 0 {
        assert out[j] in multiset(rest);
      }
    }
  }

  ghost predicate CanMove(s: Sys, n: nat) {
    exists t :: Moves(s, n, t)
  }

  lemma CourierMoves(s: Sys, n: nat, i: nat)
    requires i < |s.couriers| && s.couriers[i].stage != Over
    requires s.couriers[i].stage == Waiting ==> s.queue != multiset{} || s.shutdown
    ensures CanMove(s, n)
  {
    var c := s.couriers[i];
    match c.stage
    case Waiting =>
      if s.queue == multiset{} {
        CourierWitness(s, n, i, s.(couriers := s.couriers[i := c.(stage := Over)]));
      } else {
        LeastExists(s.queue);
        var o :| Foremost(o, s.queue);
        CourierWitness(s, n, i, s.(queue := s.queue - multiset{o}, popped := s.popped + [o],
                                   couriers := s.couriers[i := c.(stage := Delivering(o))]));
      }
    case Delivering(o) =>
      CourierWitness(s, n, i, s.(completed := s.completed + 1, couriers := s.couriers[i := c.(stage := Counted(o))]));
    case Counted(o) =>
      CourierWitness(s, n, i, s.(totalMs := s.totalMs + o.duration * UNIT_MS,
                                 couriers := s.couriers[i := c.(stage := Timed(o))]));
    case Timed(o) =>
      CourierWitness(s, n, i, s.(couriers := s.couriers[i := Courier(Noted(o), c.completed + 1, c.timeMs)]));
    case Noted(o) =>
      CourierWitness(s, n, i,
          s.(couriers := s.couriers[i := Courier(Waiting, c.completed, c.timeMs + o.duration * UNIT_MS)]));
    case Over =>
  }

  lemma CourierWitness(s: Sys, n: nat, i: nat, t: Sys)
    requires CourierStep(s, i, t)
    ensures CanMove(s, n)
  {
    assert Moves(s, n, t);
  }

  lemma MainWitness(s: Sys, n: nat, t: Sys)
    requires MainStep(s, n, t)
    ensures CanMove(s, n)
  {
    assert Moves(s, n, t);
  }

  lemma {:induction false} SomeoneDelivers(couriers: seq<Courier>)
    requires Shares(couriers, Completed) > 0
    ensures exists i | 0 <= i < |couriers| :: couriers[i].stage.Delivering?
  {
    if !couriers[|couriers| - 1].stage.Delivering? {
      SomeoneDelivers(couriers[..|couriers| - 1]);
      var i :| 0 <= i < |couriers| - 1 && couriers[..|couriers| - 1][i].stage.Delivering?;
      assert couriers[i].stage.Delivering?;
    }
  }

  /** While main watches and orders are missing, some courier can go on. */
  lemma ShiftGoesOn(s: Sys, orders: seq<Order>)
    requires Inv(s, orders) && s.main == Watching && s.completed < |orders|
    ensures CanMove(s, |orders|)
  {
    if s.queue != multiset{} {
      CourierMoves(s, |orders|, 0);
    } else {
      assert |s.queue| == 0 && |s.drained| == 0;
      assert FigureOk(s, Completed);
      SomeoneDelivers(s.couriers);
      var i :| 0 <= i < |s.couriers| && s.couriers[i].stage.Delivering?;
      CourierMoves(s, |orders|, i);
    }
  }

  /** Until SHIFT_END the main thread or a courier can always go on, with no need of a SIGINT. */
  lemma NeverStuck(s: Sys, orders: seq<Order>)
    requires Inv(s, orders) && s.main != Ended
    ensures CanMove(s, |orders|)
  {
    var n := |orders|;
    match s.main
    case Watching =>
      if s.sigint || s.completed >= n {
        MainWitness(s, n, s.(main := Deciding));
      } else {
        ShiftGoesOn(s, orders);
      }
    case Deciding =>
      if !s.sigint {
        MainWitness(s, n, s.(main := Closing));
      } else {
        var out := ListingExists(s.queue);
        MainWitness(s, n, s.(queue := multiset{}, drained := out, main := Cancelling(0)));
      }
    case Cancelling(i) =>
      MainWitness(s, n,
          if i < |s.drained| then s.(cancelled := s.cancelled + 1, main := Cancelling(i + 1)) else s.(main := Closing));
    case Closing =>
      MainWitness(s, n, s.(shutdown := true, main := Joining));
    case Joining =>
      if i :| 0 <= i < |s.couriers| && s.couriers[i].stage != Over {
        CourierMoves(s, n, i);
      } else {
        MainWitness(s, n, s.(main := Ended));
      }
    case Ended =>
  }

  lemma RunStepUsesWork(run: seq<Sys>, orders: seq<Order>, i: nat, next: nat)
    requires IsRun(run, orders) && next == i + 1 < |run|
    ensures 0 <= Work(run[next]) < Work(run[i])
  {
    RunKeepsInv(run, orders, i);
    assert StepAt(run, orders, i);
    StepUsesWork(run[i], orders, run[next]);
  }

  /** Every shift ends: no run is longer than the work it starts with. */
  lemma {:induction false} RunsEnd(run: seq<Sys>, orders: seq<Order>, i: nat)
    requires IsRun(run, orders) && i < |run|
    ensures 0 <= Work(run[i]) && i + Work(run[i]) <= Work(run[0])
  {
    if i > 0 {
      RunsEnd(run, orders, i - 1);
      RunStepUsesWork(run, orders, i - 1, i);
    }
  }
}
