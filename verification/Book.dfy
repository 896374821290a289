/**
 * The small tables both servers keep per client (a wizard's spellbook, a trader's
 * portfolio): entries in the order they were added, with the last entry moved into
 * the place of one that runs out.
 */
module Book {

  datatype Entry = Entry(name: string, qty: int)

  /** The position of a name at or after i, or the length. */
  function FindFrom(book: seq<Entry>, name: string, i: nat): (r: nat)
    requires i <= |book|
    ensures i <= r <= |book| && (r < |book| ==> book[r].name == name)
    ensures forall j | i <= j < r :: book[j].name != name
    decreases |book| - i
  {
    if i == |book| || book[i].name == name then i else FindFrom(book, name, i + 1)
  }

  function Find(book: seq<Entry>, name: string): nat {
    FindFrom(book, name, 0)
  }

  predicate Has(book: seq<Entry>, name: string) {
    Find(book, name) < |book|
  }

  function Held(book: seq<Entry>, name: string): int {
    var i := Find(book, name);
    if i < |book| then book[i].qty else 0
  }

  /** Raises an entry, or appends one if there is room; without room nothing is kept. */
  function Put(book: seq<Entry>, room: nat, name: string, qty: int): seq<Entry> {
    var i := Find(book, name);
    if i < |book| then book[i := Entry(book[i].name, book[i].qty + qty)]
    else if |book| >= room then book
    else book + [Entry(name, qty)]
  }

  function MoveLastTo(book: seq<Entry>, i: nat): seq<Entry>
    requires i < |book|
  {
    book[i := book[|book| - 1]][..|book| - 1]
  }

  /** Lowers an entry to no less than zero and drops it at zero. */
  function Take(book: seq<Entry>, name: string, qty: int): seq<Entry> {
    var i := Find(book, name);
    if i == |book| then book
    else
      var left := if book[i].qty - qty < 0 then 0 else book[i].qty - qty;
      if left == 0 then MoveLastTo(book, i) else book[i := Entry(book[i].name, left)]
  }

  ghost predicate Distinct(book: seq<Entry>) {
    forall i, j | 0 <= i < j < |book| :: book[i].name != book[j].name
  }

  /** No name twice, nothing held in zero or negative quantity. */
  ghost predicate Tidy(book: seq<Entry>) {
    Distinct(book) && forall i | 0 <= i < |book| :: book[i].qty > 0
  }

  lemma HeldAt(book: seq<Entry>, k: nat)
    requires Distinct(book) && k < |book|
    ensures Find(book, book[k].name) == k && Held(book, book[k].name) == book[k].qty
  {
    var i := Find(book, book[k].name);
    assert i <= k;
  }

  /** In a tidy book a name is held in positive quantity exactly when it is present. */
  lemma HeldIffPresent(book: seq<Entry>, name: string)
    requires Tidy(book)
    ensures Held(book, name) >= 0
    ensures Held(book, name) > 0 <==> Has(book, name)
  {
  }

  /** Changing the quantity of one entry changes what is held of that name alone. */
  lemma RaiseHeld(book: seq<Entry>, k: nat, qty: int, other: string)
    requires Distinct(book) && k < |book|
    ensures Distinct(book[k := Entry(book[k].name, qty)])
    ensures Tidy(book) && qty > 0 ==> Tidy(book[k := Entry(book[k].name, qty)])
    ensures Held(book[k := Entry(book[k].name, qty)], other) == if other == book[k].name then qty else Held(book, other)
  {
    var after := book[k := Entry(book[k].name, qty)];
    if Has(book, other) {
      var i := Find(book, other);
      assert after[i].name == other;
      HeldAt(after, i);
    }
  }

  lemma AppendHeld(book: seq<Entry>, e: Entry, other: string)
    requires Tidy(book) && e.qty > 0 && !Has(book, e.name)
    ensures Tidy(book + [e])
    ensures Held(book + [e], other) == if other == e.name then e.qty else Held(book, other)
  {
    var after := book + [e];
    if Has(after, other) {
      var i := Find(after, other);
      if i < |book| {
        HeldAt(book, i);
      }
    }
    if other == e.name {
      HeldAt(after, |book|);
    } else if Has(book, other) {
      HeldAt(after, Find(book, other));
    }
  }

  lemma PutHeld(book: seq<Entry>, room: nat, name: string, qty: int, other: string)
    requires Tidy(book) && qty > 0 && |book| <= room
    ensures Tidy(Put(book, room, name, qty)) && |Put(book, room, name, qty)| <= room
    ensures Held(Put(book, room, name, qty), other)
         == Held(book, other)
            + (if other == name && (Has(book, name) || |book| < room) then qty else 0)
  {
    if Has(book, name) {
      var i := Find(book, name);
      RaiseHeld(book, i, book[i].qty + qty, other);
    } else if |book| < room {
      AppendHeld(book, Entry(name, qty), other);
    }
  }

  lemma MoveLastHeld(book: seq<Entry>, i: nat, other: string)
    requires Tidy(book) && i < |book|
    ensures Tidy(MoveLastTo(book, i))
    ensures Held(MoveLastTo(book, i), other) == if other == book[i].name then 0 else Held(book, other)
  {
    var after := MoveLastTo(book, i);
    if Has(after, other) {
      var k := Find(after, other);
      HeldAt(book, if k == i then |book| - 1 else k);
    }
    if Has(book, other) && other != book[i].name {
      var k := Find(book, other);
      HeldAt(after, if k == |book| - 1 then i else k);
    }
  }

  lemma TakeHeld(book: seq<Entry>, name: string, qty: int, other: string)
    requires Tidy(book) && 0 < qty
    ensures Tidy(Take(book, name, qty)) && |Take(book, name, qty)| <= |book|
    ensures Held(Take(book, name, qty), other)
         == Held(book, other) - (if other != name then 0 else if qty <= Held(book, name) then qty else Held(book, name))
  {
    var i := Find(book, name);
    if i < |book| {
      if book[i].qty <= qty {
        MoveLastHeld(book, i, other);
      } else {
        RaiseHeld(book, i, book[i].qty - qty, other);
      }
    }
  }

  /** Taking out what was just put in gives back the very same book. */
  lemma TakeUndoesPut(book: seq<Entry>, room: nat, name: string, qty: int)
    requires Tidy(book) && qty > 0 && (Has(book, name) || |book| < room)
    ensures Take(Put(book, room, name, qty), name, qty) == book
  {
    var after := Put(book, room, name, qty);
    if Has(book, name) {
      var i := Find(book, name);
      PutKeepsPlace(book, room, name, qty);
      assert after[i].qty - qty == book[i].qty > 0;
      assert after[i := book[i]] == book;
    } else {
      assert FindFrom(after, name, 0) == |book| by { AppendedFound(book, Entry(name, qty), 0); }
      assert MoveLastTo(after, |book|) == book;
    }
  }

  lemma PutKeepsPlace(book: seq<Entry>, room: nat, name: string, qty: int)
    requires Has(book, name)
    ensures Find(Put(book, room, name, qty), name) == Find(book, name)
  {
    var after := Put(book, room, name, qty);
    assert after[Find(book, name)].name == name;
    assert forall j | 0 <= j < |book| :: after[j].name == book[j].name;
  }

  lemma AppendedFound(book: seq<Entry>, e: Entry, i: nat)
    requires i <= |book| && FindFrom(book, e.name, i) == |book|
    ensures FindFrom(book + [e], e.name, i) == |book|
  {
    var r := FindFrom(book + [e], e.name, i);
    assert (book + [e])[|book|].name == e.name;
  }

  /** What all the books together hold of a name. */
  function Total(books: seq<seq<Entry>>, name: string): int {
    if books == [] then 0
    else Total(books[..|books| - 1], name) + Held(books[|books| - 1], name)
  }

  lemma {:induction false} TotalUpdate(books: seq<seq<Entry>>, k: nat, book: seq<Entry>, name: string)
    requires k < |books|
    ensures Total(books[k := book], name) == Total(books, name) - Held(books[k], name) + Held(book, name)
  {
    var n := |books| - 1;
    if k == n {
      assert books[k := book][..n] == books[..n];
    } else {
      assert books[k := book][..n] == books[..n][k := book];
      TotalUpdate(books[..n], k, book, name);
    }
  }

  lemma {:induction false} TotalNotNegative(books: seq<seq<Entry>>, name: string)
    requires forall b | b in books :: Tidy(b)
    ensures Total(books, name) >= 0
  {
    if books != [] {
      assert Tidy(books[|books| - 1]);
      HeldIffPresent(books[|books| - 1], name);
      TotalNotNegative(books[..|books| - 1], name);
    }
  }

  /** Books without entries hold nothing. */
  lemma {:induction false} TotalOfEmpty(books: seq<seq<Entry>>, name: string)
    requires forall i | 0 <= i < |books| :: books[i] == []
    ensures Total(books, name) == 0
  {
    if books != [] {
      assert books[|books| - 1] in books && Held([], name) == 0;
      TotalOfEmpty(books[..|books| - 1], name);
    }
  }

  function Names(book: seq<Entry>): set<string> {
    if book == [] then {} else Names(book[..|book| - 1]) + {book[|book| - 1].name}
  }

  lemma HasInit(book: seq<Entry>, name: string)
    requires book != []
    ensures Has(book, name) <==> Has(book[..|book| - 1], name) || name == book[|book| - 1].name
  {
    var init := book[..|book| - 1];
    if Has(init, name) {
      assert book[Find(init, name)].name == name;
    }
    if Has(book, name) && Find(book, name) < |init| {
      assert init[Find(book, name)].name == name;
    }
    if name == book[|book| - 1].name {
      assert book[|book| - 1].name == name;
    }
  }

  lemma {:induction false} NamesOf(book: seq<Entry>)
    ensures forall name :: name in Names(book) <==> Has(book, name)
    ensures Distinct(book) ==> |Names(book)| == |book|
  {
    if book != [] {
      var init := book[..|book| - 1];
      NamesOf(init);
      forall name ensures name in Names(book) <==> Has(book, name) {
        HasInit(book, name);
      }
      if Distinct(book) {
        LastIsNew(book);
      }
    }
  }

  lemma LastIsNew(book: seq<Entry>)
    requires book != [] && Distinct(book)
    ensures !Has(book[..|book| - 1], book[|book| - 1].name) && Distinct(book[..|book| - 1])
  {
    var i := Find(book[..|book| - 1], book[|book| - 1].name);
  }

  lemma {:induction false} NamesOnly(a: seq<Entry>, b: seq<Entry>)
    requires |a| == |b| && forall i | 0 <= i < |a| :: a[i].name == b[i].name
    ensures Names(a) == Names(b)
  {
    if a != [] {
      NamesOnly(a[..|a| - 1], b[..|b| - 1]);
    }
  }

  lemma NamesAppend(book: seq<Entry>, e: Entry)
    ensures Names(book + [e]) == Names(book) + {e.name}
  {
    assert (book + [e])[..|book|] == book;
  }

  /** Adding brings in the name, unless it is new and the book is full. */
  lemma PutNames(book: seq<Entry>, room: nat, name: string, qty: int)
    ensures Names(Put(book, room, name, qty))
         == Names(book) + if Has(book, name) || |book| < room then {name} else {}
  {
    if Has(book, name) {
      NamesOnly(book, Put(book, room, name, qty));
      NameOf(book, name);
    } else if |book| < room {
      NamesAppend(book, Entry(name, qty));
    }
  }

  lemma NameOf(book: seq<Entry>, name: string)
    requires Has(book, name)
    ensures name in Names(book)
  {
    NamesOf(book);
  }

  /** A book over the names of a table has room for each one it lacks. */
  lemma RoomForAnother(book: seq<Entry>, table: seq<Entry>, name: string)
    requires Distinct(book) && (forall n | Has(book, n) :: Has(table, n))
    requires Has(table, name) && !Has(book, name)
    ensures |book| < |table|
  {
    NamesOf(book);
    NamesOf(table);
    NamesAtMost(table);
    assert name in Names(table) - Names(book);
    Below(Names(book), Names(table), name);
  }

  lemma Below(a: set<string>, b: set<string>, x: string)
    requires a <= b && x in b && x !in a
    ensures |a| < |b|
  {
    assert a <= b - {x};
    SubsetSize(a, b - {x});
  }

  lemma {:induction false} SubsetSize(a: set<string>, b: set<string>)
    requires a <= b
    ensures |a| <= |b|
    decreases |a|
  {
    if a != {} {
      var x :| x in a;
      SubsetSize(a - {x}, b - {x});
    }
  }

  lemma {:induction false} NamesAtMost(book: seq<Entry>)
    ensures |Names(book)| <= |book|
  {
    if book != [] {
      NamesAtMost(book[..|book| - 1]);
    }
  }

  // ---------- The table in place ----------

  class Table {
    const entries: array<Entry>
    var count: nat

    ghost predicate Valid()
      reads this
    {
      count <= entries.Length
    }

    ghost function Contents(): seq<Entry>
      requires Valid()
      reads this, entries
    {
      entries[..count]
    }

    constructor (room: nat)
      ensures Valid() && fresh(entries) && entries.Length == room && Contents() == []
    {
      entries := new Entry[room](_ => Entry("", 0));
      count := 0;
    }

    method Lookup(name: string) returns (i: nat)
      requires Valid()
      ensures i == Find(Contents(), name)
    {
      i := 0;
      while i < count && entries[i].name != name
        invariant i <= count && FindFrom(Contents(), name, 0) == FindFrom(Contents(), name, i)
      {
        i := i + 1;
      }
    }

    method Add(name: string, qty: int) returns (kept: bool)
      requires Valid()
      modifies this`count, entries
      ensures Valid()
      ensures kept == (Has(old(Contents()), name) || old(count) < entries.Length)
      ensures Contents() == Put(old(Contents()), entries.Length, name, qty)
    {
      var i := Lookup(name);
      if i < count {
        entries[i] := Entry(entries[i].name, entries[i].qty + qty);
        return true;
      }
      if count >= entries.Length {
        return false;
      }
      entries[count] := Entry(name, qty);
      count := count + 1;
      kept := true;
    }

    method Sub(name: string, qty: int)
      requires Valid()
      modifies this`count, entries
      ensures Valid() && Contents() == Take(old(Contents()), name, qty)
    {
      var i := Lookup(name);
      if i == count {
        return;
      }
      var left := entries[i].qty - qty;
      if left < 0 {
        left := 0;
      }
      entries[i] := Entry(entries[i].name, left);
      if left == 0 {
        entries[i] := entries[count - 1];
        count := count - 1;
      }
    }
  }
}
