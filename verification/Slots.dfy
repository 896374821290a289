/** The client tables of both servers: a fixed row of slots, the first free one going to the next connection. */
module Slots {

  /** The first slot at or after i without a connection, or the number of slots. */
  function FreeFrom(connected: seq<bool>, i: nat): (r: nat)
    requires i <= |connected|
    ensures i <= r <= |connected| && (r < |connected| ==> !connected[r])
    ensures forall j | i <= j < r :: connected[j]
    decreases |connected| - i
  {
    if i == |connected| || !connected[i] then i else FreeFrom(connected, i + 1)
  }

  function FreeSlot(connected: seq<bool>): (r: nat)
    ensures r <= |connected| && (r < |connected| ==> !connected[r])
    ensures forall j | 0 <= j < r :: connected[j]
  {
    FreeFrom(connected, 0)
  }

  method FindFreeSlot(connected: seq<bool>) returns (r: nat)
    ensures r == FreeSlot(connected)
  {
    r := 0;
    while r < |connected| && connected[r]
      invariant r <= |connected| && FreeFrom(connected, 0) == FreeFrom(connected, r)
    {
      r := r + 1;
    }
  }
}
