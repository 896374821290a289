/**
 * One elevator of the building: the car, the scan for requests and the loop
 * body that moves the car by one floor.
 */
module Elevator {

  const UP := 1
  const DOWN := -1

  /** The car as its mutex protects it. */
  datatype Car = Car(floor: int, dir: int, load: int, requests: seq<int>)

  ghost predicate InShaft(e: Car) {
    0 <= e.floor < |e.requests| && (e.dir == UP || e.dir == DOWN)
  }

  predicate Ahead(requests: seq<int>, cur: int, dir: int, i: int) {
    0 <= i < |requests| && requests[i] > 0 && if dir == UP then cur < i else i < cur
  }

  /** Some request lies strictly ahead of the car. */
  predicate RequestAhead(requests: seq<int>, cur: int, dir: int) {
    exists i | 0 <= i < |requests| :: Ahead(requests, cur, dir, i)
  }

  predicate Outstanding(requests: seq<int>) {
    exists i | 0 <= i < |requests| :: requests[i] > 0
  }

  /** The lowest requested floor at or above k, or -1. */
  function FirstRequest(requests: seq<int>, k: nat): (r: int)
    requires k <= |requests|
    ensures r == -1 || (k <= r < |requests| && requests[r] > 0)
    ensures forall j | k <= j < (if r == -1 then |requests| else r) :: requests[j] <= 0
    decreases |requests| - k
  {
    if k == |requests| then -1 else if requests[k] > 0 then k else FirstRequest(requests, k + 1)
  }

  /** An empty car with nothing ahead turns towards the lowest requested floor. */
  function Retarget(e: Car): Car {
    if e.load == 0 && !RequestAhead(e.requests, e.floor, e.dir) then
      var i := FirstRequest(e.requests, 0);
      if i == -1 then e else e.(dir := if i > e.floor then UP else DOWN)
    else e
  }

  /** One floor on, bouncing at either end of the shaft. */
  function Advance(e: Car): Car {
    var f := e.floor + e.dir;
    if f >= |e.requests| then e.(floor := |e.requests| - 1, dir := DOWN)
    else if f < 0 then e.(floor := 0, dir := UP)
    else e.(floor := f)
  }

  /** Serving clears every request for the floor; an empty car with nothing ahead turns round. */
  function Serve(e: Car): Car
    requires 0 <= e.floor < |e.requests|
  {
    var q := if e.requests[e.floor] > 0 then e.requests[e.floor := 0] else e.requests;
    e.(requests := q, dir := if !RequestAhead(q, e.floor, e.dir) && e.load == 0 then -e.dir else e.dir)
  }

  function Iterate(e: Car): (r: Car)
    requires InShaft(e)
    ensures InShaft(r) && |r.requests| == |e.requests| && r.load == e.load
  {
    Serve(Advance(Retarget(e)))
  }

  // ---------- The loop body ----------

  class Shaft {
    var currentFloor: int
    var direction: int
    var currentLoad: int
    const requests: array<int>

    function State(): Car
      reads this, requests
    {
      Car(currentFloor, direction, currentLoad, requests[..])
    }

    constructor (floors: nat)
      requires floors > 0
      ensures State() == Car(0, UP, 0, seq(floors, _ => 0)) && fresh(requests)
    {
      currentFloor, direction, currentLoad := 0, UP, 0;
      requests := new int[floors](_ => 0);
    }

    method HasRequestInDirection(cur: int, dir: int) returns (found: bool)
      requires 0 <= cur < requests.Length && (dir == UP || dir == DOWN)
      ensures found == RequestAhead(requests[..], cur, dir)
      ensures found <==> exists i ::
        0 <= i < requests.Length && requests[i] > 0 && if dir == 1 then cur < i else i < cur
    {
      if dir == UP {
        var i := cur + 1;
        while i < requests.Length
          invariant cur < i <= requests.Length
          invariant forall j | cur < j < i :: requests[j] <= 0
        {
          if requests[i] > 0 {
            assert Ahead(requests[..], cur, dir, i);
            return true;
          }
          i := i + 1;
        }
      } else {
        var i := cur - 1;
        while i >= 0
          invariant -1 <= i < cur
          invariant forall j | i < j < cur :: requests[j] <= 0
        {
          if requests[i] > 0 {
            assert Ahead(requests[..], cur, dir, i);
            return true;
          }
          i := i - 1;
        }
      }
      return false;
    }

    method AnyRequest() returns (found: bool)
      ensures found == Outstanding(requests[..])
      ensures found <==> exists i :: 0 <= i < requests.Length && requests[i] > 0
    {
      var i := 0;
      while i < requests.Length
        invariant 0 <= i <= requests.Length
        invariant forall j | 0 <= j < i :: requests[j] <= 0
      {
        if requests[i] > 0 {
          assert requests[..][i] > 0;
          return true;
        }
        i := i + 1;
      }
      return false;
    }

    /** An empty car with nothing ahead turns to the lowest request. */
    method TurnToRequest()
      requires InShaft(State())
      modifies this`direction
      ensures State() == Retarget(old(State()))
    {
      ghost var e := State();
      var ahead := HasRequestInDirection(currentFloor, direction);
      if currentLoad == 0 && !ahead {
        var i := 0;
        while i < requests.Length
          invariant 0 <= i <= requests.Length && State() == e
          invariant FirstRequest(e.requests, 0) == FirstRequest(e.requests, i)
        {
          if requests[i] > 0 {
            direction := if i > currentFloor then UP else DOWN;
            break;
          }
          i := i + 1;
        }
      }
    }

    /** What the elevator does between taking and releasing its mutex. */
    method RunOnce()
      requires InShaft(State())
      modifies this, requests
      ensures InShaft(State()) && State() == Iterate(old(State()))
    {
      ghost var e := State();
      TurnToRequest();
      var floor := currentFloor + direction;
      if floor >= requests.Length {
        floor := requests.Length - 1;
        direction := DOWN;
      }
      if floor < 0 {
        floor := 0;
        direction := UP;
      }
      currentFloor := floor;
      assert State() == Advance(Retarget(e));
      if requests[floor] > 0 {
        requests[floor] := 0;
      }
      var ahead := HasRequestInDirection(floor, direction);
      if !ahead && currentLoad == 0 {
        direction := -direction;
      }
    }
  }

  // ---------- One iteration ----------

  lemma AheadMeans(e: Car)
    requires InShaft(e)
    ensures RequestAhead(e.requests, e.floor, e.dir) <==> exists i ::
      0 <= i < |e.requests| && e.requests[i] > 0 && if e.dir == 1 then e.floor < i else i < e.floor
  {
    if RequestAhead(e.requests, e.floor, e.dir) {
      var i :| 0 <= i < |e.requests| && Ahead(e.requests, e.floor, e.dir, i);
      assert e.requests[i] > 0;
    }
    if i :| 0 <= i < |e.requests| && e.requests[i] > 0 && if e.dir == 1 then e.floor < i else i < e.floor {
      assert Ahead(e.requests, e.floor, e.dir, i);
    }
  }

  /** The way the car goes: a loaded car keeps on; an empty one with nothing ahead goes up if all requests are above. */
  lemma CarFaces(e: Car)
    requires InShaft(e)
    ensures var ahead := exists i ::
              0 <= i < |e.requests| && e.requests[i] > 0 && if e.dir == 1 then e.floor < i else i < e.floor;
      Retarget(e).dir ==
        if e.load != 0 || ahead || !(exists i :: 0 <= i < |e.requests| && e.requests[i] > 0) then e.dir
        else if forall i | 0 <= i < |e.requests| && e.requests[i] > 0 :: e.floor < i then 1 else -1
    ensures Retarget(e) == e.(dir := Retarget(e).dir)
  {
    AheadMeans(e);
    var i := FirstRequest(e.requests, 0);
    if i != -1 && i > e.floor {
      assert forall k | 0 <= k < |e.requests| && e.requests[k] > 0 :: e.floor < k;
    }
  }

  /** The car moves one floor that way, or stays at the end of the shaft; it serves that floor and no other. */
  lemma CarMoves(e: Car)
    requires InShaft(e)
    ensures var r, next := Iterate(e), e.floor + Retarget(e).dir;
      && r.floor == (if 0 <= next < |e.requests| then next else e.floor)
      && r.load == e.load && |r.requests| == |e.requests|
      && forall f | 0 <= f < |e.requests| ::
           r.requests[f] == if f == r.floor && e.requests[f] > 0 then 0 else e.requests[f]
  {
  }

  /** After serving, an empty car with no request left ahead turns round, and only such a car; the ends turn any car. */
  lemma CarTurns(e: Car)
    requires InShaft(e)
    ensures var r, d, next := Iterate(e), Retarget(e).dir, e.floor + Retarget(e).dir;
      var facing := if 0 <= next < |e.requests| then d else -d;
      r.dir == if e.load == 0 && !RequestAhead(r.requests, r.floor, facing) then -facing else facing
  {
  }

  // ---------- The sweep of a loaded car ----------

  /** How many iterations a loaded car needs to come to floor d. */
  function Distance(e: Car, d: int): int {
    if e.dir == UP then
      if e.floor < d then d - e.floor else 2 * (|e.requests| - 1 - d) + 1 + (d - e.floor)
    else
      if d < e.floor then e.floor - d else e.floor + 1 + d
  }

  lemma DistanceBound(e: Car, d: int)
    requires InShaft(e) && 0 <= d < |e.requests|
    ensures 1 <= Distance(e, d) <= 2 * |e.requests| - 1
  {
  }

  /** A loaded car comes to d exactly when its distance has run down, and serves d on arrival. */
  lemma LoadedCarApproaches(e: Car, d: int)
    requires InShaft(e) && e.load > 0 && 0 <= d < |e.requests|
    ensures var r := Iterate(e);
      && (r.floor == d <==> Distance(e, d) == 1)
      && (r.floor == d ==> r.requests[d] <= 0)
      && (r.floor != d ==> Distance(r, d) == Distance(e, d) - 1)
  {
  }

  /** An empty car over an unrequested floor always turns to where a request is, if there is one. */
  lemma EmptyCarFacesRequest(e: Car)
    requires InShaft(e) && e.load == 0 && Outstanding(e.requests) && e.requests[e.floor] == 0
    ensures RequestAhead(e.requests, e.floor, Retarget(e).dir)
  {
    if !RequestAhead(e.requests, e.floor, e.dir) {
      var k :| 0 <= k < |e.requests| && e.requests[k] > 0;
      var i := FirstRequest(e.requests, 0);
      assert Ahead(e.requests, e.floor, Retarget(e).dir, i);
    }
  }

  /** An empty car ends every iteration facing a request, as long as one is outstanding. */
  lemma EmptyCarEndsFacing(e: Car)
    requires InShaft(e) && e.load == 0 && (forall f | 0 <= f < |e.requests| :: e.requests[f] >= 0)
    requires Outstanding(Iterate(e).requests)
    ensures var r := Iterate(e); RequestAhead(r.requests, r.floor, r.dir)
  {
    var r := Iterate(e);
    var k :| 0 <= k < |r.requests| && r.requests[k] > 0;
    assert k != r.floor;
    assert Ahead(r.requests, r.floor, if k > r.floor then UP else DOWN, k);
  }
}
