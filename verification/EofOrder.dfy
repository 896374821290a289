/**
 * When the dispatcher's EOF test is met by counting markers pushed, not markers
 * popped: which queues keep every entry of a level ahead of its EOF, and which do not.
 */
module EofOrder {
  import opened Pipeline
  import opened DispatcherLoop

  predicate Marks(e: Entry, lv: nat) {
    e.eof && e.level == lv
  }

  predicate Holds(e: Entry, lv: nat) {
    !e.eof && e.level == lv
  }

  /** The loop body applied to a queue of entries, all of whose markers have been counted. */
  function HandledAll(s: Sys, q: seq<Entry>): (t: Sys)
    requires Sized(s)
    ensures Sized(t)
    decreases |q|
  {
    if q == [] then s else HandledAll(Handled(s, q[0]), q[1..])
  }

  /** What reaches the workers' queue of a level: its entries, and an EOF where the first marker was. */
  function Routed(q: seq<Entry>, lv: nat, posted: bool): seq<Entry>
    decreases |q|
  {
    if q == [] then []
    else if Holds(q[0], lv) then [q[0]] + Routed(q[1..], lv, posted)
    else if Marks(q[0], lv) && !posted then [Marker(0)] + Routed(q[1..], lv, true)
    else Routed(q[1..], lv, posted)
  }

  lemma {:induction false} HandledRoutes(s: Sys, q: seq<Entry>, lv: nat)
    requires Sized(s) && lv < LEVELS && s.eofCount[lv] >= s.totalReaders
    ensures HandledAll(s, q).b[lv] == s.b[lv] + Routed(q, lv, s.forwarded[lv])
    decreases |q|
  {
    if q != [] {
      HandledRoutes(Handled(s, q[0]), q[1..], lv);
    }
  }

  lemma {:induction false} AfterEof(q: seq<Entry>, lv: nat)
    ensures forall i | 0 <= i < |Routed(q, lv, true)| :: !Routed(q, lv, true)[i].eof
    ensures Routed(q, lv, true) == [] <==> forall j | 0 <= j < |q| :: !Holds(q[j], lv)
    decreases |q|
  {
    if q != [] {
      AfterEof(q[1..], lv);
      assert q == [q[0]] + q[1..];
    }
  }

  /** No entry of the level is queued behind a marker of the level. */
  ghost predicate EntriesFirst(q: seq<Entry>, lv: nat) {
    forall i, j | 0 <= i < j < |q| && Marks(q[i], lv) :: !Holds(q[j], lv)
  }

  lemma {:induction false} RoutedOrder(q: seq<Entry>, lv: nat)
    ensures MarkerLast(Routed(q, lv, false)) <==> EntriesFirst(q, lv)
    decreases |q|
  {
    if q != [] {
      var rest := q[1..];
      assert q == [q[0]] + rest;
      RoutedOrder(rest, lv);
      AfterEof(rest, lv);
      if Marks(q[0], lv) {
        MarkerFirst(q, lv);
      } else {
        EntriesFirstTail(q, lv);
        if Holds(q[0], lv) {
          assert Routed(q, lv, false)[1..] == Routed(rest, lv, false);
          DataFirst(q[0], Routed(rest, lv, false));
        }
      }
    }
  }

  lemma DataFirst(e: Entry, r: seq<Entry>)
    requires !e.eof
    ensures MarkerLast([e] + r) <==> MarkerLast(r)
  {
    if MarkerLast([e] + r) {
      assert forall i | 0 <= i < |r| :: ([e] + r)[i + 1] == r[i];
    }
  }

  lemma MarkerLastBehind(b: seq<Entry>, r: seq<Entry>)
    requires NoMarkers(b)
    ensures MarkerLast(b + r) <==> MarkerLast(r)
  {
    if MarkerLast(b + r) {
      assert forall i | 0 <= i < |r| :: (b + r)[|b| + i] == r[i];
    }
  }

  lemma MarkerFirst(q: seq<Entry>, lv: nat)
    requires q != [] && Marks(q[0], lv)
    ensures MarkerLast(Routed(q, lv, false)) <==> EntriesFirst(q, lv)
  {
    var after := Routed(q[1..], lv, true);
    AfterEof(q[1..], lv);
    assert Routed(q, lv, false) == [Marker(0)] + after;
    if after != [] {
      assert Routed(q, lv, false)[0].eof;
      var j :| 0 <= j < |q[1..]| && Holds(q[1..][j], lv);
      assert Holds(q[j + 1], lv);
    } else {
      forall j | 0 < j < |q| ensures !Holds(q[j], lv) {
        assert q[j] == q[1..][j - 1];
      }
    }
  }

  lemma EntriesFirstTail(q: seq<Entry>, lv: nat)
    requires q != [] && !Marks(q[0], lv)
    ensures EntriesFirst(q, lv) <==> EntriesFirst(q[1..], lv)
  {
    if EntriesFirst(q[1..], lv) {
      forall i, j | 0 <= i < j < |q| && Marks(q[i], lv) ensures !Holds(q[j], lv) {
        assert q[i] == q[1..][i - 1] && q[j] == q[1..][j - 1];
      }
    }
    if EntriesFirst(q, lv) {
      forall i, j | 0 <= i < j < |q[1..]| && Marks(q[1..][i], lv) ensures !Holds(q[1..][j], lv) {
        assert q[i + 1] == q[1..][i] && q[j + 1] == q[1..][j];
      }
    }
  }

  /**
   * With as many markers pushed as there are readers, the workers of a level see
   * all its entries before the EOF exactly when region A holds no entry of the
   * level behind a marker of the level.
   */
  lemma EofLastIffEntriesFirst(s: Sys, q: seq<Entry>, lv: nat)
    requires Sized(s) && lv < LEVELS && s.eofCount[lv] >= s.totalReaders
    requires !s.forwarded[lv] && NoMarkers(s.b[lv])
    ensures MarkerLast(HandledAll(s, q).b[lv]) <==> EntriesFirst(q, lv)
  {
    HandledRoutes(s, q, lv);
    RoutedOrder(q, lv);
    MarkerLastBehind(s.b[lv], Routed(q, lv, false));
  }
}
