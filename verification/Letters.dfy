/**
 * Counting letters.  A word's letters sit in slots, some of which are marked.
 * `Count` says how often a letter occurs in the marked slots, so that two
 * marked words hold the same multiset of letters when their counts agree.
 */
module Letters {

  function One(c: char, m: bool, x: char): nat {
    if m && c == x then 1 else 0
  }

  /** How many marked slots of s show the letter x. */
  function Count(s: seq<char>, m: seq<bool>, x: char): nat
    requires |s| == |m|
  {
    if s == [] then 0
    else Count(s[..|s| - 1], m[..|s| - 1], x) + One(s[|s| - 1], m[|s| - 1], x)
  }

  /** The marked slots of (s, m) and of (t, k) hold the same multiset of letters. */
  ghost predicate SameLetters(s: seq<char>, m: seq<bool>, t: seq<char>, k: seq<bool>)
    requires |s| == |m| && |t| == |k|
  {
    forall x: char :: Count(s, m, x) == Count(t, k, x)
  }

  /** How many slots are marked. */
  function Marks(m: seq<bool>): nat {
    if m == [] then 0
    else Marks(m[..|m| - 1]) + if m[|m| - 1] then 1 else 0
  }

  predicate All(m: seq<bool>) {
    forall i | 0 <= i < |m| :: m[i]
  }

  /** Rewriting one slot exchanges that slot's contribution and no other. */
  lemma {:induction false} CountUpdate(s: seq<char>, m: seq<bool>, i: nat, c: char, b: bool, x: char)
    requires |s| == |m| && i < |s|
    ensures Count(s[i := c], m[i := b], x) + One(s[i], m[i], x) == Count(s, m, x) + One(c, b, x)
  {
    var n := |s| - 1;
    if i == n {
      assert s[i := c][..n] == s[..n] && m[i := b][..n] == m[..n];
    } else {
      CountUpdate(s[..n], m[..n], i, c, b, x);
      assert s[i := c][..n] == s[..n][i := c] && m[i := b][..n] == m[..n][i := b];
    }
  }

  lemma {:induction false} MarksUpdate(m: seq<bool>, i: nat, b: bool)
    requires i < |m|
    ensures Marks(m[i := b]) + (if m[i] then 1 else 0) == Marks(m) + if b then 1 else 0
  {
    var n := |m| - 1;
    if i == n {
      assert m[i := b][..n] == m[..n];
    } else {
      MarksUpdate(m[..n], i, b);
      assert m[i := b][..n] == m[..n][i := b];
    }
  }

  /** As many marks as slots exactly when every slot is marked. */
  lemma {:induction false} MarksFull(m: seq<bool>)
    ensures Marks(m) <= |m|
    ensures Marks(m) == |m| <==> All(m)
  {
    if m != [] {
      MarksFull(m[..|m| - 1]);
    }
  }

  predicate Shows(s: seq<char>, m: seq<bool>, i: nat, x: char)
    requires |s| == |m| && i < |s|
  {
    m[i] && s[i] == x
  }

  /**
   * If x shows in every slot of (t, k) where it shows in (s, m), it is counted
   * at least as often there; one slot more makes the comparison strict.
   */
  lemma {:induction false} CountDominates(s: seq<char>, m: seq<bool>, t: seq<char>, k: seq<bool>, x: char)
    requires |s| == |m| == |t| == |k|
    requires forall i | 0 <= i < |s| :: Shows(s, m, i, x) ==> Shows(t, k, i, x)
    ensures Count(s, m, x) <= Count(t, k, x)
    ensures (exists i | 0 <= i < |s| :: Shows(t, k, i, x) && !Shows(s, m, i, x)) ==> Count(s, m, x) < Count(t, k, x)
  {
    if s != [] {
      var n := |s| - 1;
      forall i | 0 <= i < n
        ensures Shows(s[..n], m[..n], i, x) ==> Shows(t[..n], k[..n], i, x)
      {
        assert Shows(s, m, i, x) ==> Shows(t, k, i, x);
      }
      CountDominates(s[..n], m[..n], t[..n], k[..n], x);
      assert Shows(s, m, n, x) ==> Shows(t, k, n, x);
      if i :| 0 <= i < |s| && Shows(t, k, i, x) && !Shows(s, m, i, x) {
        if i < n {
          assert Shows(t[..n], k[..n], i, x) && !Shows(s[..n], m[..n], i, x);
        }
      }
    }
  }
}
