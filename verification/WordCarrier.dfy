/**
 * The word carrier as it runs: the round-robin choice of a word and its admission
 * to two floors.
 */
module WordCarrier {
  import Building

  /** Whether the word j places after start, counting round, can be claimed. */
  predicate Available(claimed: seq<bool>, admitted: seq<bool>, start: nat, j: nat)
    requires |claimed| == |admitted| > 0
  {
    !claimed[(start + j) % |claimed|] && !admitted[(start + j) % |claimed|]
  }

  /** The first word, from start on and round, that is neither claimed nor admitted; -1 if there is none. */
  function Pick(claimed: seq<bool>, admitted: seq<bool>, start: nat, i: nat): (r: int)
    requires |claimed| == |admitted| > 0 && i <= |claimed|
    ensures -1 <= r < |claimed|
    ensures r >= 0 ==> !claimed[r] && !admitted[r]
    ensures r == -1 ==> forall j | i <= j < |claimed| :: !Available(claimed, admitted, start, j)
    decreases |claimed| - i
  {
    if i == |claimed| then -1
    else
      if Available(claimed, admitted, start, i) then (start + i) % |claimed| else Pick(claimed, admitted, start, i + 1)
  }

  /** One place on floor g, counted on floor f. */
  function Shares(f: nat, g: nat): int {
    if f == g then 1 else 0
  }

  class Words {
    const claimed: array<bool>
    const admitted: array<bool>
    const arrival: array<int>
    const source: array<seq<int>>
    const sortingFloor: seq<nat>
    const floors: array<int>
    var rrIndex: nat
    var admittedCount: int
    var retryCount: int

    ghost predicate Valid()
      reads this
    {
      && |sortingFloor| == claimed.Length == admitted.Length == arrival.Length == source.Length > 0
      && (forall k | 0 <= k < |sortingFloor| :: sortingFloor[k] < floors.Length)
      && claimed != admitted && arrival != floors
      && rrIndex < claimed.Length
    }

    constructor (floorOf: seq<nat>, lens: seq<nat>, floorCount: nat)
      requires |lens| == |floorOf|
      requires floorOf != [] && forall k | 0 <= k < |floorOf| :: floorOf[k] < floorCount
      ensures Valid() && sortingFloor == floorOf && floors.Length == floorCount
      ensures rrIndex == 0 && admittedCount == 0 && retryCount == 0
      ensures forall k | 0 <= k < |floorOf| :: !claimed[k] && !admitted[k] && arrival[k] == -1
      ensures forall k | 0 <= k < |floorOf| :: source[k] == seq(lens[k], _ => -1)
      ensures forall f | 0 <= f < floorCount :: floors[f] == 0
    {
      sortingFloor := floorOf;
      claimed := new bool[|floorOf|](_ => false);
      admitted := new bool[|floorOf|](_ => false);
      arrival := new int[|floorOf|](_ => -1);
      source := new seq<int>[|floorOf|](k requires 0 <= k < |lens| => seq(lens[k], _ => -1));
      floors := new int[floorCount](_ => 0);
      rrIndex, admittedCount, retryCount := 0, 0, 0;
    }

    method RrPick() returns (r: int)
      requires Valid()
      modifies this`rrIndex
      ensures Valid() && rrIndex == (old(rrIndex) + 1) % claimed.Length
      ensures r == Pick(claimed[..], admitted[..], old(rrIndex), 0)
    {
      var total := claimed.Length;
      var start := rrIndex;
      rrIndex := (rrIndex + 1) % total;
      var i := 0;
      while i < total
        invariant i <= total
        invariant Pick(claimed[..], admitted[..], start, 0) == Pick(claimed[..], admitted[..], start, i)
      {
        var idx := (start + i) % total;
        if !claimed[idx] && !admitted[idx] {
          return idx;
        }
        i := i + 1;
      }
      r := -1;
    }

    /** The part of the admission that holds the floor mutexes. */
    method TryAdmit(k: nat, floor: nat, maxWords: nat) returns (ok: bool)
      requires Valid() && k < |sortingFloor| && floor < floors.Length
      modifies floors
      ensures var after := Building.AdmitFloors(old(floors[..]), floor, sortingFloor[k], maxWords);
        ok == after.Some? && floors[..] == if after.Some? then after.value else old(floors[..])
      ensures ok <==> old(floors[floor]) < maxWords && old(floors[sortingFloor[k]]) < maxWords
      ensures forall f | 0 <= f < floors.Length ::
        floors[f] == old(floors[f]) + if ok then Shares(f, floor) + Shares(f, sortingFloor[k]) else 0
    {
      ok := false;
      var g := sortingFloor[k];
      var lo := if floor < g then floor else g;
      var hi := if floor < g then g else floor;
      if lo == hi {
        if floors[lo] < maxWords {
          floors[lo] := floors[lo] + 2;
          ok := true;
        }
      } else if floors[floor] < maxWords && floors[g] < maxWords {
        floors[floor] := floors[floor] + 1;
        floors[g] := floors[g] + 1;
        ok := true;
      }
    }

    /** Every letter of word k now starts from this floor. */
    method SetSources(k: nat, floor: nat)
      requires Valid() && k < |sortingFloor|
      modifies source
      ensures source[..] == old(source[..])[k := seq(|old(source[..])[k]|, _ => floor)]
    {
      ghost var before := source[..];
      for j := 0 to |source[k]|
        invariant |source[k]| == |before[k]|
        invariant forall i | 0 <= i < j :: source[k][i] == floor
        invariant source[..] == before[k := source[k]]
      {
        source[k] := source[k][j := floor];
      }
      assert source[k] == seq(|before[k]|, _ => floor);
    }

    /** One uninterrupted turn of the carrier's loop after its check of the admitted count. */
    method Turn(floor: nat, maxWords: nat) returns (k: int)
      requires Valid() && floor < floors.Length
      modifies this, claimed, admitted, arrival, source, floors
      ensures Valid() && rrIndex == (old(rrIndex) + 1) % claimed.Length
      ensures k == Pick(old(claimed[..]), old(admitted[..]), old(rrIndex), 0)
      ensures k == -1 ==>
        claimed[..] == old(claimed[..]) && admitted[..] == old(admitted[..]) && arrival[..] == old(arrival[..])
        && source[..] == old(source[..]) && floors[..] == old(floors[..]) && admittedCount == old(admittedCount)
        && retryCount == old(retryCount)
      ensures k >= 0 ==>
        var after := Building.AdmitFloors(old(floors[..]), floor, sortingFloor[k], maxWords);
        if after.Some? then
          && claimed[..] == old(claimed[..])[k := true]
          && admitted[..] == old(admitted[..])[k := true]
          && arrival[..] == old(arrival[..])[k := floor]
          && source[..] == old(source[..])[k := seq(|old(source[..])[k]|, _ => floor)]
          && floors[..] == after.value
          && admittedCount == old(admittedCount) + 1 && retryCount == old(retryCount)
        else
          && claimed[..] == old(claimed[..])
          && admitted[..] == old(admitted[..])
          && arrival[..] == old(arrival[..])
          && source[..] == old(source[..])
          && floors[..] == old(floors[..])
          && admittedCount == old(admittedCount) && retryCount == old(retryCount) + 1
      ensures k >= 0 ==>
        var room := old(floors[floor]) < maxWords && old(floors[sortingFloor[k]]) < maxWords;
        admitted[k] == room && admittedCount == old(admittedCount) + (if room then 1 else 0)
        && retryCount == old(retryCount) + if room then 0 else 1
    {
      k := RrPick();
      if k < 0 {
        return;
      }
      claimed[k] := true;
      var ok := TryAdmit(k, floor, maxWords);
      if ok {
        arrival[k] := floor;
        admitted[k] := true;
        SetSources(k, floor);
        admittedCount := admittedCount + 1;
      } else {
        claimed[k] := false;
        retryCount := retryCount + 1;
      }
    }
  }

  // ---------- The round robin ----------

  lemma Wraps(x: nat, n: nat)
    requires 0 < n && x < 2 * n
    ensures x % n == if x < n then x else x - n
  {
  }

  /** Where the index stands after a number of picks, by whichever carriers. */
  function IndexAfter(rr: nat, total: nat, picks: nat): (r: nat)
    requires rr < total
    ensures r < total
  {
    if picks == 0 then rr else (IndexAfter(rr, total, picks - 1) + 1) % total
  }

  lemma {:induction false} IndexAdvances(rr: nat, total: nat, picks: nat)
    requires rr < total && picks < total
    ensures IndexAfter(rr, total, picks) == if rr + picks < total then rr + picks else rr + picks - total
  {
    if picks > 0 {
      IndexAdvances(rr, total, picks - 1);
      Wraps(IndexAfter(rr, total, picks - 1) + 1, total);
    }
  }

  /** A pick that starts at an available word returns it. */
  lemma PickTakesStart(claimed: seq<bool>, admitted: seq<bool>, k: nat)
    requires |claimed| == |admitted| && k < |claimed| && !claimed[k] && !admitted[k]
    ensures Pick(claimed, admitted, k, 0) == k
  {
    Wraps(k, |claimed|);
    assert Available(claimed, admitted, k, 0);
  }

  /** The word picked is the first available one from the start on. */
  lemma {:induction false} PickIsFirst(claimed: seq<bool>, admitted: seq<bool>, start: nat, i: nat) returns (j: nat)
    requires |claimed| == |admitted| > 0 && i <= |claimed| && Pick(claimed, admitted, start, i) >= 0
    ensures i <= j < |claimed| && Pick(claimed, admitted, start, i) == (start + j) % |claimed|
    ensures forall h | i <= h < j :: !Available(claimed, admitted, start, h)
    decreases |claimed| - i
  {
    if Available(claimed, admitted, start, i) {
      j := i;
    } else {
      j := PickIsFirst(claimed, admitted, start, i + 1);
    }
  }

  /** A pick fails exactly when no word is available. */
  lemma PickFailsIffNone(claimed: seq<bool>, admitted: seq<bool>, start: nat)
    requires |claimed| == |admitted| && start < |claimed|
    ensures Pick(claimed, admitted, start, 0) == -1 <==> forall k | 0 <= k < |claimed| :: claimed[k] || admitted[k]
  {
    var n := |claimed|;
    if Pick(claimed, admitted, start, 0) == -1 {
      forall k | 0 <= k < n ensures claimed[k] || admitted[k] {
        var j := if k >= start then k - start else k + n - start;
        Wraps(start + j, n);
        assert !Available(claimed, admitted, start, j);
      }
    }
  }

  /** No available word is passed over for ever: within as many picks as there are words one starts at it. */
  lemma EveryWordHasItsTurn(rr: nat, total: nat, k: nat) returns (picks: nat)
    requires rr < total && k < total
    ensures picks < total && IndexAfter(rr, total, picks) == k
  {
    picks := if k >= rr then k - rr else k + total - rr;
    IndexAdvances(rr, total, picks);
  }
}
