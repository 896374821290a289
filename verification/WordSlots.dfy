/**
 * One word of the sorting building: its original letters, the sorting area in
 * which carriers drop them, and the marks that steer sorting and delivery.
 * The functions give the effect of each critical section under the word's
 * mutex; the lemmas say what those effects keep and what they achieve.
 */
module WordSlots {
  import opened Letters

  const NUL: char := '\0'

  datatype Word = Word(
    original: seq<char>,
    area: seq<char>,
    occupied: seq<bool>,
    fixed: seq<bool>,
    claimed: seq<bool>,    // per letter task
    delivered: seq<bool>,  // per letter task
    completed: bool)

  /** The word as shared memory is initialised: nothing placed, nothing claimed. */
  function Fresh(original: seq<char>): Word {
    var off := seq(|original|, _ => false);
    Word(original, seq(|original|, _ => NUL), off, off, off, off, false)
  }

  ghost predicate Shaped(w: Word) {
    && 0 < |w.original|
    && |w.area| == |w.occupied| == |w.fixed| == |w.claimed| == |w.delivered| == |w.original|
  }

  /** What every reachable word satisfies. */
  ghost predicate Sound(w: Word) {
    && Shaped(w)
    && SameLetters(w.area, w.occupied, w.original, w.delivered)
    && Marks(w.occupied) == Marks(w.delivered)
    && (forall i | 0 <= i < |w.fixed| && w.fixed[i] :: Placed(w, i))
    && (forall t | 0 <= t < |w.delivered| && w.delivered[t] :: w.claimed[t])
    && (w.completed <==> All(w.fixed))
  }

  /** Slot i shows the letter that belongs there. */
  ghost predicate Placed(w: Word, i: nat)
    requires Shaped(w) && i < |w.original|
  {
    w.occupied[i] && w.area[i] == w.original[i]
  }

  ghost predicate Loose(w: Word, i: nat)
    requires Shaped(w) && i < |w.original|
  {
    w.occupied[i] && !w.fixed[i]
  }

  // ---------- find_correct_slot ----------

  predicate Candidate(w: Word, i: nat, j: nat, taken: bool)
    requires Shaped(w) && i < |w.original| && j < |w.original|
  {
    w.original[j] == w.area[i] && !w.fixed[j] && j != i && w.occupied[j] == taken
  }

  /** The first candidate slot at or after k, or -1. */
  function FirstCandidate(w: Word, i: nat, taken: bool, k: nat): (r: int)
    requires Shaped(w) && i < |w.original| && k <= |w.original|
    ensures r == -1 || (k <= r < |w.original| && Candidate(w, i, r, taken))
    ensures forall j | k <= j < (if r == -1 then |w.original| else r) :: !Candidate(w, i, j, taken)
    decreases |w.original| - k
  {
    if k == |w.original| then -1
    else if Candidate(w, i, k, taken) then k
    else FirstCandidate(w, i, taken, k + 1)
  }

  /** The slot the sorter chooses for the letter in slot i: its own, else an empty one, else an occupied one. */
  function CorrectSlot(w: Word, i: nat): (r: int)
    requires Shaped(w) && i < |w.original|
    ensures -1 <= r < |w.original|
  {
    if w.original[i] == w.area[i] && !w.fixed[i] then i
    else
      var e := FirstCandidate(w, i, false, 0);
      if e != -1 then e else FirstCandidate(w, i, true, 0)
  }

  // ---------- sort_step ----------

  /** One round of the sorter's loop: skip, fix, move or swap. */
  function SortSlot(w: Word, i: nat): (r: Word)
    requires Shaped(w) && i < |w.original|
    ensures Shaped(r) && r.completed == w.completed
  {
    if !w.occupied[i] || w.fixed[i] then w
    else
      var j := CorrectSlot(w, i);
      if j < 0 then w
      else if j == i then w.(fixed := w.fixed[i := true])
      else if !w.occupied[j] then
        w.(area := w.area[j := w.area[i]][i := NUL], occupied := w.occupied[j := true][i := false])
      else w.(area := w.area[j := w.area[i]][i := w.area[j]])
  }

  /** The word after the first k rounds of a pass. */
  function SortSlots(w: Word, k: nat): (r: Word)
    requires Shaped(w) && k <= |w.original|
    ensures Shaped(r) && r.original == w.original && r.completed == w.completed
  {
    if k == 0 then w else SortSlot(SortSlots(w, k - 1), k - 1)
  }

  /** The first k rounds contain one that acted. */
  predicate Acted(w: Word, k: nat)
    requires Shaped(w) && k <= |w.original|
  {
    k > 0 && (Acted(w, k - 1) ||
              var v := SortSlots(w, k - 1); v.occupied[k - 1] && !v.fixed[k - 1] && CorrectSlot(v, k - 1) >= 0)
  }

  /** A whole pass under the word mutex, with the completion check at its end. */
  function SortPass(w: Word): (r: Word)
    requires Shaped(w)
    ensures Shaped(r) && r.original == w.original
  {
    var v := SortSlots(w, |w.original|);
    if All(v.delivered) && All(v.fixed) then v.(completed := true) else v
  }

  // ---------- find_task and place_char ----------

  function Claim(w: Word, t: nat): (r: Word)
    requires Shaped(w) && t < |w.original|
    ensures Shaped(r)
  {
    if !w.claimed[t] && !w.delivered[t] then w.(claimed := w.claimed[t := true]) else w
  }

  /** The first slot at or after k that is neither occupied nor fixed, or -1. */
  function FreeSlot(w: Word, k: nat): (r: int)
    requires Shaped(w) && k <= |w.original|
    ensures r == -1 || (k <= r < |w.original| && !w.occupied[r] && !w.fixed[r])
    ensures forall j | k <= j < (if r == -1 then |w.original| else r) :: w.occupied[j] || w.fixed[j]
    decreases |w.original| - k
  {
    if k == |w.original| then -1
    else if !w.occupied[k] && !w.fixed[k] then k
    else FreeSlot(w, k + 1)
  }

  function Place(w: Word, t: nat): (r: Word)
    requires Shaped(w) && t < |w.original|
    ensures Shaped(r)
  {
    var i := FreeSlot(w, 0);
    if i < 0 then w
    else w.(area := w.area[i := w.original[t]], occupied := w.occupied[i := true],
            delivered := w.delivered[t := true])
  }

  // ---------- What the choices are ----------

  /**
   * The slot chosen for the letter in slot i: slot i itself if it belongs there and is not fixed; else a slot that
   * wants the letter and is not fixed, an empty one if there is any, and the first of its kind.
   */
  lemma ChoiceIsBest(w: Word, i: nat)
    requires Shaped(w) && i < |w.original|
    ensures var r := CorrectSlot(w, i);
      if w.original[i] == w.area[i] && !w.fixed[i] then r == i
      else if r == -1 then forall j | 0 <= j < |w.original| && j != i :: w.original[j] != w.area[i] || w.fixed[j]
      else
        && r != i && w.original[r] == w.area[i] && !w.fixed[r]
        && (w.occupied[r] ==>
              forall j | 0 <= j < |w.original| && j != i && !w.fixed[j] && w.original[j] == w.area[i] :: w.occupied[j])
        && (forall j | 0 <= j < r && j != i && !w.fixed[j] && w.original[j] == w.area[i] ::
              w.occupied[j] != w.occupied[r])
  {
    var r := CorrectSlot(w, i);
    if w.original[i] != w.area[i] || w.fixed[i] {
      forall j | 0 <= j < |w.original| && j != i && !w.fixed[j] && w.original[j] == w.area[i]
        ensures Candidate(w, i, j, w.occupied[j])
      {
      }
    }
  }

  /** A round leaves alone a slot that is empty or fixed, and fixes a letter that stands where it belongs. */
  lemma RoundFixes(w: Word, i: nat)
    requires Shaped(w) && i < |w.original|
    ensures var r := SortSlot(w, i);
      && (!w.occupied[i] || w.fixed[i] ==> r == w)
      && (w.occupied[i] && !w.fixed[i] && w.original[i] == w.area[i] ==> r == w.(fixed := w.fixed[i := true]))
  {
  }

  /** A loose letter that belongs elsewhere goes to its slot: what stood there, if anything, comes back in exchange. */
  lemma RoundMoves(w: Word, i: nat, x: nat)
    requires Sound(w) && i < |w.original| && x < |w.original| && Loose(w, i) && w.original[i] != w.area[i]
    ensures var r, j := SortSlot(w, i), CorrectSlot(w, i);
      && 0 <= j < |w.original| && j != i && r == w.(area := r.area, occupied := r.occupied)
      && r.occupied[j] && r.area[j] == w.area[i] == w.original[j]
      && r.occupied[i] == w.occupied[j] && r.area[i] == (if w.occupied[j] then w.area[j] else '\0')
      && (x != i && x != j ==> r.area[x] == w.area[x] && r.occupied[x] == w.occupied[x])
  {
    LooseLetterHasSlot(w, i);
  }

  // ---------- Slots without a letter ----------

  /** A slot that holds no letter shows none. */
  ghost predicate Blank(w: Word)
    requires Shaped(w)
  {
    forall i | 0 <= i < |w.original| && !w.occupied[i] :: w.area[i] == '\0'
  }

  lemma FreshIsBlank(original: seq<char>)
    requires original != []
    ensures Blank(Fresh(original))
  {
  }

  lemma ClaimAndPlaceKeepBlank(w: Word, t: nat)
    requires Shaped(w) && Blank(w) && t < |w.original|
    ensures Blank(Claim(w, t)) && Blank(Place(w, t))
  {
  }

  lemma RoundKeepsBlank(w: Word, i: nat)
    requires Shaped(w) && Blank(w) && i < |w.original|
    ensures Blank(SortSlot(w, i))
  {
  }

  lemma {:induction false} RoundsKeepBlank(w: Word, k: nat)
    requires Shaped(w) && Blank(w) && k <= |w.original|
    ensures Blank(SortSlots(w, k))
  {
    if k > 0 {
      RoundsKeepBlank(w, k - 1);
      RoundKeepsBlank(SortSlots(w, k - 1), k - 1);
    }
  }

  lemma PassKeepsBlank(w: Word)
    requires Shaped(w) && Blank(w)
    ensures Blank(SortPass(w))
  {
    RoundsKeepBlank(w, |w.original|);
  }

  // ---------- The failure branches cannot be reached ----------

  /** A letter that is still to be delivered always finds a free slot. */
  lemma DeliveryFindsRoom(w: Word, t: nat)
    requires Sound(w) && t < |w.original| && !w.delivered[t]
    ensures FreeSlot(w, 0) >= 0
  {
    MarksFull(w.delivered);
    MarksFull(w.occupied);
    assert forall i | 0 <= i < |w.fixed| && w.fixed[i] :: Placed(w, i);
  }

  /** However often its letter is repeated, a loose letter has a slot to go to. */
  lemma LooseLetterHasSlot(w: Word, i: nat)
    requires Sound(w) && i < |w.original| && Loose(w, i)
    ensures CorrectSlot(w, i) >= 0
    ensures w.original[CorrectSlot(w, i)] == w.area[i] && !w.fixed[CorrectSlot(w, i)]
  {
    var c := w.area[i];
    if CorrectSlot(w, i) < 0 {
      forall j | 0 <= j < |w.original|
        ensures Shows(w.original, w.delivered, j, c) ==> Shows(w.area, w.occupied, j, c)
      {
        if w.original[j] == c {
          assert !Candidate(w, i, j, true) && !Candidate(w, i, j, false);
          assert Placed(w, j);
        }
      }
      assert Shows(w.area, w.occupied, i, c) && !Shows(w.original, w.delivered, i, c);
      assert Count(w.area, w.occupied, c) == Count(w.original, w.delivered, c);
      CountDominates(w.original, w.delivered, w.area, w.occupied, c);
    }
  }

  // ---------- Soundness of every step ----------

  lemma FreshIsSound(original: seq<char>)
    requires original != []
    ensures Sound(Fresh(original))
  {
    var w := Fresh(original);
    NothingMarked(w.area, w.occupied);
    NothingMarked(w.original, w.delivered);
    assert !w.fixed[0];
  }

  lemma {:induction false} NothingMarked(s: seq<char>, m: seq<bool>)
    requires |s| == |m| && forall i | 0 <= i < |m| :: !m[i]
    ensures Marks(m) == 0 && forall x: char :: Count(s, m, x) == 0
  {
    if s != [] {
      NothingMarked(s[..|s| - 1], m[..|m| - 1]);
    }
  }

  lemma ClaimKeepsSound(w: Word, t: nat)
    requires Sound(w) && t < |w.original|
    ensures Sound(Claim(w, t))
  {
    var r := Claim(w, t);
    forall i | 0 <= i < |r.fixed| && r.fixed[i] ensures Placed(r, i) { assert Placed(w, i); }
  }

  lemma PlaceKeepsSound(w: Word, t: nat)
    requires Sound(w) && t < |w.original| && w.claimed[t] && !w.delivered[t]
    ensures Sound(Place(w, t)) && Place(w, t).delivered[t]
  {
    DeliveryFindsRoom(w, t);
    var i, r := FreeSlot(w, 0), Place(w, t);
    forall x: char ensures Count(r.area, r.occupied, x) == Count(r.original, r.delivered, x) {
      CountUpdate(w.area, w.occupied, i, w.original[t], true, x);
      CountUpdate(w.original, w.delivered, t, w.original[t], true, x);
      assert w.original[t := w.original[t]] == w.original;
    }
    MarksUpdate(w.occupied, i, true);
    MarksUpdate(w.delivered, t, true);
    forall j | 0 <= j < |r.fixed| && r.fixed[j] ensures Placed(r, j) { assert Placed(w, j); }
  }

  /** A word in the middle of a pass: sound, except that completion is decided only at the end. */
  ghost predicate Sorting(w: Word) {
    Sound(w.(completed := All(w.fixed)))
  }

  lemma SortSlotKeepsLetters(w: Word, i: nat)
    requires Sorting(w) && i < |w.original|
    ensures var r := SortSlot(w, i);
      SameLetters(r.area, r.occupied, r.original, r.delivered) && Marks(r.occupied) == Marks(r.delivered)
  {
    var r := SortSlot(w, i);
    assert SameLetters(w.area, w.occupied, w.original, w.delivered);
    if r.area != w.area || r.occupied != w.occupied {
      MoveKeepsCount(w, i, NUL);
      forall x: char ensures Count(r.area, r.occupied, x) == Count(r.original, r.delivered, x) {
        MoveKeepsCount(w, i, x);
        assert Count(w.area, w.occupied, x) == Count(w.original, w.delivered, x);
      }
    }
  }

  /** A move or an exchange shows every letter as often as before. */
  lemma MoveKeepsCount(w: Word, i: nat, x: char)
    requires Shaped(w) && i < |w.original|
    requires SortSlot(w, i).area != w.area || SortSlot(w, i).occupied != w.occupied
    ensures var r := SortSlot(w, i);
      && Count(r.area, r.occupied, x) == Count(w.area, w.occupied, x) && Marks(r.occupied) == Marks(w.occupied)
      && r.original == w.original && r.delivered == w.delivered
  {
    var r, j := SortSlot(w, i), CorrectSlot(w, i);
    var a, o := w.area[j := w.area[i]], w.occupied[j := true];
    CountUpdate(w.area, w.occupied, j, w.area[i], true, x);
    CountUpdate(a, o, i, r.area[i], r.occupied[i], x);
    assert o[i := r.occupied[i]] == r.occupied && a[i := r.area[i]] == r.area;
    MarksUpdate(w.occupied, j, true);
    MarksUpdate(o, i, r.occupied[i]);
  }

  lemma SortSlotKeepsSorting(w: Word, i: nat)
    requires Sorting(w) && i < |w.original|
    ensures Sorting(SortSlot(w, i))
  {
    var r := SortSlot(w, i);
    SortSlotKeepsLetters(w, i);
    var q := r.(completed := All(r.fixed));
    forall j | 0 <= j < |q.fixed| && q.fixed[j] ensures Placed(q, j) {
      if w.fixed[j] { assert Placed(w.(completed := All(w.fixed)), j); }
    }
  }

  lemma OneMoreSlotSorted(w: Word, r: Word, i: nat)
    requires Sorting(r) && i < |r.original|
    requires r.completed == w.completed && r.claimed == w.claimed && r.delivered == w.delivered
    ensures var q := SortSlot(r, i);
      Sorting(q) && q.completed == w.completed && q.claimed == w.claimed && q.delivered == w.delivered
  {
    SortSlotKeepsSorting(r, i);
  }

  lemma {:induction false} SortSlotsKeepSorting(w: Word, k: nat)
    requires Sorting(w) && k <= |w.original|
    ensures Sorting(SortSlots(w, k)) && SortSlots(w, k).completed == w.completed
    ensures SortSlots(w, k).claimed == w.claimed && SortSlots(w, k).delivered == w.delivered
  {
    if k > 0 {
      SortSlotsKeepSorting(w, k - 1);
      OneMoreSlotSorted(w, SortSlots(w, k - 1), k - 1);
    }
  }

  /** Once every slot is fixed, every letter has been delivered. */
  lemma FixedMeansDelivered(w: Word)
    requires Sorting(w) && All(w.fixed)
    ensures All(w.delivered)
  {
    var q := w.(completed := All(w.fixed));
    forall i | 0 <= i < |w.fixed| ensures w.occupied[i] { assert Placed(q, i); }
    MarksFull(w.occupied);
    MarksFull(w.delivered);
  }

  // ---------- Progress ----------

  ghost function PlacedSlots(w: Word): set<nat>
    requires Shaped(w)
  {
    set i: nat | i < |w.original| && Placed(w, i)
  }

  ghost function FixedSlots(w: Word): set<nat>
    requires Shaped(w)
  {
    set i: nat | i < |w.original| && w.fixed[i]
  }

  /** Correctly placed letters plus fixed slots. */
  ghost function Score(w: Word): nat
    requires Shaped(w)
  {
    |PlacedSlots(w)| + |FixedSlots(w)|
  }

  /** No slot loses its correct letter or its fixed mark from w to v. */
  ghost predicate Grows(w: Word, v: Word)
    requires Shaped(w) && Shaped(v)
  {
    && v.original == w.original
    && (forall i | 0 <= i < |w.original| :: Placed(w, i) ==> Placed(v, i))
    && (forall i | 0 <= i < |w.fixed| && w.fixed[i] :: v.fixed[i])
  }

  lemma GrowthRaisesScore(w: Word, v: Word)
    requires Shaped(w) && Shaped(v) && Grows(w, v)
    ensures Score(w) <= Score(v)
    ensures (exists i | 0 <= i < |w.original| :: !w.fixed[i] && v.fixed[i]) ==> Score(w) < Score(v)
    ensures (exists i | 0 <= i < |w.original| :: !Placed(w, i) && Placed(v, i)) ==> Score(w) < Score(v)
  {
    if i :| 0 <= i < |w.original| && !w.fixed[i] && v.fixed[i] {
      assert i in FixedSlots(v) && i !in FixedSlots(w);
    }
    if i :| 0 <= i < |w.original| && !Placed(w, i) && Placed(v, i) {
      assert i in PlacedSlots(v) && i !in PlacedSlots(w);
    }
    Smaller(PlacedSlots(w), PlacedSlots(v));
    Smaller(FixedSlots(w), FixedSlots(v));
  }

  lemma Smaller(a: set<nat>, b: set<nat>)
    requires a <= b
    ensures |a| <= |b| && (a < b ==> |a| < |b|)
  {
    assert b == a + (b - a);
  }

  /** The score is at most twice the length, and reaches it only when every slot is fixed. */
  lemma ScoreBound(w: Word)
    requires Sound(w)
    ensures Score(w) <= 2 * |w.original|
    ensures Score(w) == 2 * |w.original| <==> All(w.fixed)
  {
    var slots := Below(|w.original|);
    Smaller(PlacedSlots(w), slots);
    Smaller(FixedSlots(w), slots);
    assert FixedSlots(w) <= PlacedSlots(w);
    if All(w.fixed) {
      assert forall i: nat | i < |w.original| :: i in FixedSlots(w);
      assert FixedSlots(w) == slots == PlacedSlots(w);
    } else {
      var i :| 0 <= i < |w.fixed| && !w.fixed[i];
      assert i in slots && i !in FixedSlots(w);
    }
  }

  function Below(n: nat): (r: set<nat>)
    ensures |r| == n && forall i: nat :: i in r <==> i < n
  {
    if n == 0 then {} else Below(n - 1) + {n - 1}
  }

  lemma SortSlotGrows(w: Word, i: nat)
    requires Sorting(w) && i < |w.original|
    ensures Grows(w, SortSlot(w, i))
  {
  }

  lemma GrowsTransitive(u: Word, v: Word, w: Word)
    requires Shaped(u) && Shaped(v) && Shaped(w) && Grows(u, v) && Grows(v, w)
    ensures Grows(u, w)
  {
  }

  lemma RoundGrows(w: Word, j: nat, k: nat, next: nat)
    requires Sorting(w) && j <= k && next == k + 1 <= |w.original| && Grows(SortSlots(w, j), SortSlots(w, k))
    ensures Grows(SortSlots(w, j), SortSlots(w, next))
  {
    SortSlotsKeepSorting(w, k);
    SortSlotGrows(SortSlots(w, k), k);
    GrowsTransitive(SortSlots(w, j), SortSlots(w, k), SortSlots(w, next));
  }

  lemma {:induction false} SortSlotsGrow(w: Word, j: nat, k: nat)
    requires Sorting(w) && j <= k <= |w.original|
    ensures Grows(SortSlots(w, j), SortSlots(w, k))
  {
    if j < k {
      SortSlotsGrow(w, j, k - 1);
      RoundGrows(w, j, k - 1, k);
    }
  }

  lemma RoundLeavesLater(w: Word, k: nat, i: nat)
    requires Shaped(w) && k < i < |w.original|
    ensures SortSlot(w, k).original == w.original && SortSlot(w, k).fixed[i] == w.fixed[i]
    ensures w.occupied[i] ==> SortSlot(w, k).occupied[i]
  {
  }

  /** Until its own round, a slot keeps being occupied and keeps its mark. */
  lemma {:induction false} SlotAwaitsItsRound(w: Word, k: nat, i: nat)
    requires Shaped(w) && k <= i < |w.original|
    ensures w.occupied[i] ==> SortSlots(w, k).occupied[i]
    ensures SortSlots(w, k).fixed[i] == w.fixed[i]
  {
    if k > 0 {
      SlotAwaitsItsRound(w, k - 1, i);
      RoundLeavesLater(SortSlots(w, k - 1), k - 1, i);
    }
  }

  lemma PlacedSlotGetsFixed(w: Word, j: nat)
    requires Sorting(w) && j < |w.original| && Placed(w, j)
    ensures SortSlots(w, j + 1).fixed[j]
  {
    SortSlotsGrow(w, 0, j);
    assert Placed(SortSlots(w, j), j);
  }

  /**
   * A pass over a loose slot i gains a slot j, even though a swap of two equal
   * letters leaves the word as it was: the letter already in j is fixed then.
   */
  lemma LooseSlotGains(w: Word, i: nat) returns (j: nat)
    requires Sound(w) && i < |w.original| && Loose(w, i)
    ensures j < |w.original|
    ensures var z := SortSlots(w, |w.original|);
      (!w.fixed[j] && z.fixed[j]) || (!Placed(w, j) && Placed(z, j))
  {
    LooseRound(w, i);
    j := CorrectSlot(SortSlots(w, i), i);
    if j != i && Placed(w, j) {
      PlacedSlotGetsFixed(w, j);
      SortSlotsGrow(w, j + 1, |w.original|);
    } else {
      SortSlotsGrow(w, i + 1, |w.original|);
    }
  }

  lemma RoundsRaiseScore(w: Word, i: nat)
    requires Sound(w) && i < |w.original| && Loose(w, i)
    ensures Score(w) < Score(SortSlots(w, |w.original|))
  {
    var j := LooseSlotGains(w, i);
    SortSlotsGrow(w, 0, |w.original|);
    GrowthRaisesScore(w, SortSlots(w, |w.original|));
  }

  /** When a loose slot's round comes it is still loose, and the round fixes it or places its letter. */
  lemma LooseRound(w: Word, i: nat)
    requires Sound(w) && i < |w.original| && Loose(w, i)
    ensures var v, u := SortSlots(w, i), SortSlots(w, i + 1);
      var j := CorrectSlot(v, i);
      && Loose(v, i) && 0 <= j
      && (if j == i then u.fixed[i] else !w.fixed[j] && Placed(u, j))
  {
    assert Sorting(w);
    SortSlotsKeepSorting(w, i);
    SlotAwaitsItsRound(w, i, i);
    var v := SortSlots(w, i);
    var v' := v.(completed := All(v.fixed));
    LooseLetterHasSlot(v', i);
    SameChoice(v, v', i);
    SortSlotsGrow(w, 0, i);
  }

  /** The sorter's choice does not look at the completion flag. */
  lemma SameChoice(v: Word, u: Word, i: nat)
    requires Shaped(v) && i < |v.original| && u == v.(completed := u.completed)
    ensures CorrectSlot(u, i) == CorrectSlot(v, i)
  {
    assert forall j, b | 0 <= j < |v.original| :: Candidate(u, i, j, b) == Candidate(v, i, j, b);
  }

  lemma PassKeepsSound(w: Word)
    requires Sound(w)
    ensures Sound(SortPass(w)) && Grows(w, SortPass(w))
    ensures SortPass(w).claimed == w.claimed && SortPass(w).delivered == w.delivered
  {
    assert Sorting(w);
    var n := |w.original|;
    SortSlotsKeepSorting(w, n);
    SortSlotsGrow(w, 0, n);
    var v := SortSlots(w, n);
    if All(v.fixed) {
      FixedMeansDelivered(v);
    }
    assert SortPass(w) == v.(completed := All(v.fixed));
    forall i | 0 <= i < n ensures Placed(w, i) ==> Placed(SortPass(w), i) {
      assert Placed(SortPass(w), i) == Placed(v, i);
    }
  }

  /** While a delivered letter is loose, a pass raises the score. */
  lemma PassRaisesScore(w: Word)
    requires Sound(w) && exists i | 0 <= i < |w.original| :: Loose(w, i)
    ensures Score(w) < Score(SortPass(w))
  {
    var i :| 0 <= i < |w.original| && Loose(w, i);
    RoundsRaiseScore(w, i);
    var v := SortSlots(w, |w.original|);
    assert PlacedSlots(SortPass(w)) == PlacedSlots(v) && FixedSlots(SortPass(w)) == FixedSlots(v);
  }

  lemma ClaimGrows(w: Word, t: nat)
    requires Shaped(w) && t < |w.original|
    ensures Grows(w, Claim(w, t))
  {
  }

  lemma PlaceGrows(w: Word, t: nat)
    requires Shaped(w) && t < |w.original|
    ensures Grows(w, Place(w, t))
  {
  }

  /** With every letter delivered, an uncompleted word still has a loose letter. */
  lemma DeliveredWordHasLooseLetter(w: Word)
    requires Sound(w) && All(w.delivered) && !w.completed
    ensures exists i | 0 <= i < |w.original| :: Loose(w, i)
  {
    MarksFull(w.delivered);
    MarksFull(w.occupied);
    var i :| 0 <= i < |w.fixed| && !w.fixed[i];
    assert Loose(w, i);
  }

  /** A completed word has been rebuilt, letter for letter. */
  lemma CompletedWordIsRebuilt(w: Word)
    requires Sound(w) && w.completed
    ensures w.area == w.original && All(w.delivered)
  {
    FixedMeansDelivered(w);
    forall i | 0 <= i < |w.original| ensures w.area[i] == w.original[i] { assert Placed(w, i); }
  }

  /** A pass reports activity exactly when it found a loose letter. */
  lemma ActedIffLoose(w: Word)
    requires Sound(w)
    ensures Acted(w, |w.original|) <==> exists i | 0 <= i < |w.original| :: Loose(w, i)
  {
    var n := |w.original|;
    if i :| 0 <= i < n && Loose(w, i) {
      LooseRound(w, i);
      ActedStays(w, i + 1, n);
    } else {
      NothingLooseNothingDone(w, n);
    }
  }

  lemma {:induction false} ActedStays(w: Word, j: nat, k: nat)
    requires Shaped(w) && j <= k <= |w.original| && Acted(w, j)
    ensures Acted(w, k)
  {
    if j < k {
      ActedStays(w, j, k - 1);
    }
  }

  lemma {:induction false} NothingLooseNothingDone(w: Word, k: nat)
    requires Shaped(w) && k <= |w.original|
    requires forall i | 0 <= i < |w.original| :: !Loose(w, i)
    ensures SortSlots(w, k) == w && !Acted(w, k)
  {
    if k > 0 {
      NothingLooseNothingDone(w, k - 1);
      assert !Loose(w, k - 1);
    }
  }
}
