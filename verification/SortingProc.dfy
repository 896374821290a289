/**
 * The sorting process and the letter carrier's slot work as they run: loops
 * over the arrays of a shared word.  Each method is tied to the function of
 * WordSlots that describes its effect.
 */
module SortingProc {
  import opened Letters
  import opened WordSlots

  /** The counters of the floors and of the whole building. */
  class Counters {
    const floorCount: array<int>
    var doneCount: int

    constructor (floors: nat)
      ensures fresh(floorCount) && floorCount.Length == floors && doneCount == 0
      ensures forall f | 0 <= f < floors :: floorCount[f] == 0
    {
      floorCount := new int[floors](_ => 0);
      doneCount := 0;
    }
  }

  class SharedWord {
    const original: seq<char>
    const sortingFloor: nat
    const area: array<char>
    const occupied: array<bool>
    const fixed: array<bool>
    const claimed: array<bool>
    const delivered: array<bool>
    var admitted: bool
    var completed: bool

    ghost predicate Valid()
      reads this, area, occupied, fixed, claimed, delivered
    {
      && Shaped(State())
      && occupied != fixed && occupied != claimed && occupied != delivered
      && fixed != claimed && fixed != delivered && claimed != delivered
    }

    function State(): Word
      reads this, area, occupied, fixed, claimed, delivered
    {
      Word(original, area[..], occupied[..], fixed[..], claimed[..], delivered[..], completed)
    }

    constructor (text: seq<char>, floor: nat)
      requires text != []
      ensures Valid() && State() == Fresh(text) && sortingFloor == floor && !admitted
      ensures fresh(area) && fresh(occupied) && fresh(fixed) && fresh(claimed) && fresh(delivered)
    {
      original, sortingFloor := text, floor;
      area := new char[|text|](_ => NUL);
      occupied := new bool[|text|](_ => false);
      fixed := new bool[|text|](_ => false);
      claimed := new bool[|text|](_ => false);
      delivered := new bool[|text|](_ => false);
      admitted, completed := false, false;
    }

    method FindCorrectSlot(i: nat) returns (r: int)
      requires Valid() && i < |original|
      ensures r == CorrectSlot(State(), i)
    {
      var c := area[i];
      if original[i] == c && !fixed[i] {
        return i;
      }
      ghost var w := State();
      var bestEmpty, bestSwappable := -1, -1;
      for j := 0 to |original|
        invariant bestEmpty == -1 ==> FirstCandidate(w, i, false, 0) == FirstCandidate(w, i, false, j)
        invariant bestEmpty != -1 ==> FirstCandidate(w, i, false, 0) == bestEmpty
        invariant bestSwappable == -1 ==> FirstCandidate(w, i, true, 0) == FirstCandidate(w, i, true, j)
        invariant bestSwappable != -1 ==> FirstCandidate(w, i, true, 0) == bestSwappable
      {
        if original[j] != c || fixed[j] || j == i {
          continue;
        }
        if !occupied[j] && bestEmpty == -1 {
          bestEmpty := j;
        } else if occupied[j] && bestSwappable == -1 {
          bestSwappable := j;
        }
      }
      if bestEmpty != -1 {
        return bestEmpty;
      }
      return bestSwappable;
    }

    /** The body of the pass: skip, fix, move or swap the letter in slot i. */
    method SortRound(i: nat) returns (acted: bool)
      requires Valid() && i < |original|
      modifies area, occupied, fixed
      ensures Valid() && State() == SortSlot(old(State()), i)
      ensures acted == old(occupied[i] && !fixed[i] && CorrectSlot(State(), i) >= 0)
    {
      acted := false;
      if !occupied[i] || fixed[i] {
        return;
      }
      ghost var w := State();
      var c := area[i];
      var correct := FindCorrectSlot(i);
      if correct < 0 {
        return;
      }
      if correct == i {
        fixed[i] := true;
        acted := true;
      } else if !occupied[correct] {
        area[correct] := c;
        occupied[correct] := true;
        area[i] := NUL;
        occupied[i] := false;
        acted := true;
      } else if !fixed[correct] {
        var tmp := area[correct];
        area[correct] := c;
        area[i] := tmp;
        acted := true;
      }
      assert area[..] == SortSlot(w, i).area;
    }

    /** One pass, run by a sorter of the given floor; lockFree is the outcome of sem_trywait. */
    method SortStep(floor: nat, lockFree: bool, counters: Counters) returns (changed: bool)
      requires Valid() && floor < counters.floorCount.Length
      modifies this`completed, area, occupied, fixed, counters, counters.floorCount
      ensures Valid()
      ensures var runs := sortingFloor == floor && admitted && !old(completed) && lockFree;
        && State() == (if runs then SortPass(old(State())) else old(State()))
        && changed == (runs && Acted(old(State()), |original|))
      ensures var ends := if completed && !old(completed) then 1 else 0;
        && counters.doneCount == old(counters.doneCount) + ends
        && counters.floorCount[..] == old(counters.floorCount[..])[floor := old(counters.floorCount[floor]) - ends]
    {
      changed := false;
      if sortingFloor != floor || !admitted || completed {
        return;
      }
      if !lockFree {
        return;
      }
      ghost var w := State();
      for i := 0 to |original|
        invariant Valid() && State() == SortSlots(w, i)
        invariant changed == Acted(w, i)
        modifies area, occupied, fixed
      {
        var acted := SortRound(i);
        changed := changed || acted;
      }
      var allDelivered := AllSet(delivered);
      var allFixed := AllSet(fixed);
      if allDelivered && allFixed && !completed {
        completed := true;
        counters.floorCount[floor] := counters.floorCount[floor] - 1;
        counters.doneCount := counters.doneCount + 1;
      }
    }

    static method AllSet(marks: array<bool>) returns (all: bool)
      ensures all == All(marks[..])
    {
      all := true;
      var i := 0;
      while i < marks.Length
        invariant i <= marks.Length
        invariant all && forall j | 0 <= j < i :: marks[j]
      {
        if !marks[i] {
          all := false;
          break;
        }
        i := i + 1;
      }
      assert forall j | 0 <= j < marks.Length :: marks[..][j] == marks[j];
    }

    /** The critical section in which a letter carrier claims task t, if it still can. */
    method ClaimTask(t: nat) returns (won: bool)
      requires Valid() && t < |original|
      modifies claimed
      ensures Valid() && State() == Claim(old(State()), t)
      ensures won == (!old(claimed[t]) && !delivered[t])
    {
      won := !claimed[t] && !delivered[t];
      if won {
        claimed[t] := true;
      }
    }

    /** Drops the letter of task t into the first free slot; -1 is the error branch. */
    method PlaceChar(t: nat) returns (slot: int)
      requires Valid() && t < |original|
      modifies area, occupied, delivered
      ensures Valid() && State() == Place(old(State()), t)
      ensures slot == FreeSlot(old(State()), 0)
      ensures Sound(old(State())) && !old(delivered[t]) ==> slot >= 0
    {
      ghost var w := State();
      slot := -1;
      var i := 0;
      while i < |original|
        invariant i <= |original|
        invariant slot == -1 && FreeSlot(w, 0) == FreeSlot(w, i)
      {
        if !occupied[i] && !fixed[i] {
          slot := i;
          break;
        }
        i := i + 1;
      }
      if slot >= 0 {
        area[slot] := original[t];
        occupied[slot] := true;
        delivered[t] := true;
        assert State() == Place(w, t);
      }
      if Sound(w) && !w.delivered[t] {
        DeliveryFindsRoom(w, t);
      }
    }
  }
}
