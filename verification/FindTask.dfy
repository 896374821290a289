/**
 * The letter carrier's search for a task on its floor, over the table of words.
 */
module FindTask {

  class TaskTable {
    const lens: seq<nat>
    const admitted: array<bool>
    const completed: array<bool>
    const arrival: array<int>
    const source: array2<int>
    const claimed: array2<bool>
    const delivered: array2<bool>

    ghost predicate Valid() {
      && |lens| == admitted.Length == completed.Length == arrival.Length
      && |lens| == source.Length0 == claimed.Length0 == delivered.Length0
      && source.Length1 == claimed.Length1 == delivered.Length1
      && (forall w | 0 <= w < |lens| :: lens[w] <= source.Length1)
      && admitted != completed && claimed != delivered
    }

    /** A letter of a word admitted to this floor that nobody has taken up. */
    ghost predicate Waiting(w: nat, t: nat, floor: int)
      requires Valid()
      reads admitted, completed, arrival, source, claimed, delivered
    {
      && w < |lens| && t < lens[w]
      && admitted[w] && !completed[w] && arrival[w] == floor && source[w, t] == floor
      && !claimed[w, t] && !delivered[w, t]
    }

    /** The first waiting letter, word by word, is claimed; no other mark changes. */
    method Find(floor: int) returns (found: bool, w: nat, t: nat)
      requires Valid()
      modifies claimed
      ensures found ==>
        && w < |lens| && t < lens[w] && admitted[w] && !completed[w] && arrival[w] == floor == source[w, t]
        && !old(claimed[w, t]) && !delivered[w, t]
      ensures !found ==> forall v, i | 0 <= v < |lens| && 0 <= i < lens[v] ::
        !admitted[v] || completed[v] || arrival[v] != floor || source[v, i] != floor || claimed[v, i] || delivered[v, i]
      ensures found ==>
        && old(Waiting(w, t, floor)) && claimed[w, t]
        && (forall v, i | 0 <= v < |lens| && 0 <= i < lens[v] && (v < w || (v == w && i < t)) ::
              !old(Waiting(v, i, floor)))
        && (forall v, i | 0 <= v < |lens| && 0 <= i < lens[v] && (v != w || i != t) ::
              claimed[v, i] == old(claimed[v, i]))
      ensures !found ==>
        && (forall v, i | 0 <= v < |lens| && 0 <= i < lens[v] :: !Waiting(v, i, floor))
        && (forall v, i | 0 <= v < |lens| && 0 <= i < lens[v] :: claimed[v, i] == old(claimed[v, i]))
    {
      found, w, t := Search(floor);
      if found {
        forall v: nat, i: nat | v < |lens| && i < lens[v] && (v < w || (v == w && i < t))
          ensures !old(Waiting(v, i, floor))
        {
          assert Waiting(v, i, floor) == old(Waiting(v, i, floor));
        }
        claimed[w, t] := true;
      } else {
        forall v: nat, i: nat | v < |lens| && i < lens[v]
          ensures !admitted[v] || completed[v] || arrival[v] != floor || source[v, i] != floor
            || claimed[v, i] || delivered[v, i]
        {
          assert !Waiting(v, i, floor);
        }
      }
    }

    method Search(floor: int) returns (found: bool, w: nat, t: nat)
      requires Valid()
      ensures found ==> Waiting(w, t, floor)
      ensures forall v, i | 0 <= v < |lens| && 0 <= i < lens[v] && (!found || v < w || (v == w && i < t)) ::
        !Waiting(v, i, floor)
    {
      w, t := 0, 0;
      while w < |lens|
        invariant w <= |lens|
        invariant forall v, i | 0 <= v < w && 0 <= i < lens[v] :: !Waiting(v, i, floor)
      {
        if admitted[w] && !completed[w] && arrival[w] == floor {
          t := FindIn(w, floor);
          if t < lens[w] {
            return true, w, t;
          }
        }
        w := w + 1;
      }
      found := false;
    }

    /** The first waiting letter of an admitted word on this floor, or its length. */
    method FindIn(w: nat, floor: int) returns (t: nat)
      requires Valid() && w < |lens| && admitted[w] && !completed[w] && arrival[w] == floor
      ensures t <= lens[w] && (t < lens[w] ==> Waiting(w, t, floor))
      ensures forall i | 0 <= i < t :: !Waiting(w, i, floor)
    {
      t := 0;
      while t < lens[w]
        invariant t <= lens[w]
        invariant forall i | 0 <= i < t :: !Waiting(w, i, floor)
      {
        if !claimed[w, t] && !delivered[w, t] && source[w, t] == floor {
          return;
        }
        t := t + 1;
      }
    }
  }
}
