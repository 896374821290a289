/**
 * The order queue of the courier service: a binary heap in a fixed array.  The
 * class is specified by the multiset of queued orders; the heap layout is its
 * own affair.
 */
module OrderHeap {

  datatype Order = Order(id: int, name: string, priority: int, duration: int)

  /** Urgent priorities first, then the smaller id. */
  predicate Less(a: Order, b: Order) {
    if a.priority != b.priority then a.priority < b.priority else a.id < b.id
  }

  predicate AtMost(a: Order, b: Order) {
    !Less(b, a)
  }

  // ---------- Heaps as sequences ----------

  function Parent(k: nat): nat
    requires k > 0
  {
    (k - 1) / 2
  }

  predicate Below(s: seq<Order>, k: nat)
    requires 0 < k < |s|
  {
    AtMost(s[Parent(k)], s[k])
  }

  predicate Heap(s: seq<Order>) {
    forall k | 0 < k < |s| :: Below(s, k)
  }

  /** A heap but for slot i, which may be smaller than its parent. */
  predicate HeapUp(s: seq<Order>, i: nat) {
    && (forall k | 0 < k < |s| && k != i :: Below(s, k))
    && (forall k | 0 < k < |s| && Parent(k) == i && 0 < i < |s| :: AtMost(s[Parent(i)], s[k]))
  }

  /** A heap but for slot i, which may be larger than its children. */
  predicate HeapDown(s: seq<Order>, i: nat) {
    && (forall k | 0 < k < |s| && Parent(k) != i :: Below(s, k))
    && (forall k | 0 < k < |s| && Parent(k) == i && 0 < i < |s| :: AtMost(s[Parent(i)], s[k]))
  }

  lemma {:induction false} RootIsLeast(s: seq<Order>, k: nat)
    requires Heap(s) && k < |s|
    ensures AtMost(s[0], s[k])
  {
    if k > 0 {
      RootIsLeast(s, Parent(k));
      assert Below(s, k);
    }
  }

  function Swapped(s: seq<Order>, i: nat, j: nat): seq<Order>
    requires i < |s| && j < |s|
  {
    s[i := s[j]][j := s[i]]
  }

  lemma SwapKeepsOrders(s: seq<Order>, i: nat, j: nat)
    requires i < |s| && j < |s|
    ensures multiset(Swapped(s, i, j)) == multiset(s)
  {
  }

  lemma SwapUp(s: seq<Order>, i: nat)
    requires HeapUp(s, i) && 0 < i < |s| && Less(s[i], s[Parent(i)])
    ensures HeapUp(Swapped(s, i, Parent(i)), Parent(i))
  {
    var t, p := Swapped(s, i, Parent(i)), Parent(i);
    forall k | 0 < k < |t| && k != p ensures Below(t, k) {
      if k != i {
        assert Below(s, k);
      }
    }
    forall k | 0 < k < |t| && Parent(k) == p && 0 < p ensures AtMost(t[Parent(p)], t[k]) {
      assert Below(s, p);
      if k != i {
        assert Below(s, k);
      }
    }
  }

  /** The smaller child of i, or i itself when neither child is smaller. */
  function Best(s: seq<Order>, i: nat): (b: nat)
    requires i < |s|
    ensures b < |s|
  {
    var l, r := 2 * i + 1, 2 * i + 2;
    var b := if l < |s| && Less(s[l], s[i]) then l else i;
    if r < |s| && Less(s[r], s[b]) then r else b
  }

  lemma BestIsLeast(s: seq<Order>, i: nat)
    requires i < |s|
    ensures AtMost(s[Best(s, i)], s[i])
    ensures forall k | 0 < k < |s| && Parent(k) == i :: AtMost(s[Best(s, i)], s[k])
    ensures Best(s, i) != i ==> Best(s, i) > i && Parent(Best(s, i)) == i && Less(s[Best(s, i)], s[i])
  {
    forall k | 0 < k < |s| && Parent(k) == i ensures AtMost(s[Best(s, i)], s[k]) {
      assert k == 2 * i + 1 || k == 2 * i + 2;
    }
  }

  lemma SwapDown(s: seq<Order>, i: nat)
    requires HeapDown(s, i) && i < |s| && Best(s, i) != i
    ensures HeapDown(Swapped(s, i, Best(s, i)), Best(s, i))
  {
    BestIsLeast(s, i);
    var b := Best(s, i);
    var t := Swapped(s, i, b);
    forall k | 0 < k < |t| && Parent(k) != b ensures Below(t, k) {
      if k == i {
        assert AtMost(s[Parent(i)], s[b]);
      } else if Parent(k) == i {
        assert AtMost(s[b], s[k]);
      } else {
        assert Below(s, k);
      }
    }
    forall k | 0 < k < |t| && Parent(k) == b && 0 < b ensures AtMost(t[Parent(b)], t[k]) {
      assert Below(s, k);
    }
  }

  lemma BestMakesHeap(s: seq<Order>, i: nat)
    requires HeapDown(s, i) && i < |s| && Best(s, i) == i
    ensures Heap(s)
  {
    BestIsLeast(s, i);
  }

  // ---------- Sorting on an array ----------

  method SwapAt(heap: array<Order>, i: nat, j: nat, ghost size: nat)
    requires i < size && j < size && size <= heap.Length
    modifies heap
    ensures heap[..size] == Swapped(old(heap[..size]), i, j)
    ensures heap[size..] == old(heap[size..])
    ensures multiset(heap[..size]) == multiset(old(heap[..size]))
  {
    SwapKeepsOrders(heap[..size], i, j);
    var tmp := heap[i];
    heap[i] := heap[j];
    heap[j] := tmp;
    assert heap[..size] == Swapped(old(heap[..size]), i, j);
  }

  method SiftUp(heap: array<Order>, start: nat, ghost size: nat)
    requires start < size <= heap.Length && HeapUp(heap[..size], start)
    modifies heap
    ensures Heap(heap[..size])
    ensures multiset(heap[..size]) == multiset(old(heap[..size]))
    ensures heap[size..] == old(heap[size..])
  {
    var i: nat := start;
    while i > 0
      invariant i < size && HeapUp(heap[..size], i)
      invariant multiset(heap[..size]) == multiset(old(heap[..size])) && heap[size..] == old(heap[size..])
    {
      var parent := (i - 1) / 2;
      if Less(heap[i], heap[parent]) {
        SwapUp(heap[..size], i);
        SwapAt(heap, i, parent, size);
        i := parent;
      } else {
        break;
      }
    }
  }

  method BestChild(heap: array<Order>, size: nat, i: nat) returns (best: nat)
    requires i < size <= heap.Length
    ensures best == Best(heap[..size], i)
  {
    var left, right := 2 * i + 1, 2 * i + 2;
    best := i;
    if left < size && Less(heap[left], heap[best]) {
      best := left;
    }
    if right < size && Less(heap[right], heap[best]) {
      best := right;
    }
  }

  method SiftDown(heap: array<Order>, size: nat, start: nat)
    requires start < size <= heap.Length && HeapDown(heap[..size], start)
    modifies heap
    ensures Heap(heap[..size])
    ensures multiset(heap[..size]) == multiset(old(heap[..size]))
    ensures heap[size..] == old(heap[size..])
  {
    var i: nat := start;
    while true
      invariant i < size && HeapDown(heap[..size], i)
      invariant multiset(heap[..size]) == multiset(old(heap[..size])) && heap[size..] == old(heap[size..])
      decreases size - i
    {
      var best := BestChild(heap, size, i);
      if best == i {
        BestMakesHeap(heap[..size], i);
        break;
      }
      SwapDown(heap[..size], i);
      BestIsLeast(heap[..size], i);
      SwapAt(heap, i, best, size);
      i := best;
    }
  }

  predicate Sorted(s: seq<Order>) {
    forall i, j | 0 <= i < j < |s| :: AtMost(s[i], s[j])
  }

  // ---------- The queue ----------

  class PriorityQueue {
    const heap: array<Order>
    var size: nat
    var shutdown: bool

    ghost predicate Valid()
      reads this, heap
    {
      size <= heap.Length && Heap(heap[..size])
    }

    /** The orders in the queue. */
    ghost function Orders(): multiset<Order>
      requires Valid()
      reads this, heap
    {
      multiset(heap[..size])
    }

    constructor (capacity: nat)
      requires capacity > 0
      ensures Valid() && size == 0 && Orders() == multiset{} && !shutdown && heap.Length == capacity && fresh(heap)
    {
      heap := new Order[capacity](_ => Order(0, "", 0, 0));
      size, shutdown := 0, false;
    }

    method Push(order: Order) returns (ok: bool)
      requires Valid()
      modifies this`size, heap
      ensures Valid() && ok == (old(size) < heap.Length)
      ensures Orders() == if ok then old(Orders()) + multiset{order} else old(Orders())
      ensures size == if ok then old(size) + 1 else old(size)
    {
      if size >= heap.Length {
        return false;
      }
      ghost var before := heap[..size];
      heap[size] := order;
      assert heap[..size + 1] == before + [order];
      ghost var after := heap[..size + 1];
      forall k | 0 < k < |after| && k != size ensures Below(after, k) { assert Below(before, k); }
      SiftUp(heap, size, size + 1);
      size := size + 1;
      return true;
    }

    /** Removes the root of a queue that is not empty. */
    method TakeRoot() returns (out: Order)
      requires Valid() && size > 0
      modifies this`size, heap
      ensures Valid() && size == old(size) - 1
      ensures out in old(Orders()) && Orders() == old(Orders()) - multiset{out}
      ensures forall o | o in old(Orders()) :: AtMost(out, o)
      ensures forall o | o in old(Orders()) ::
        out.priority < o.priority || (out.priority == o.priority && out.id <= o.id)
    {
      ghost var s := heap[..size];
      out := heap[0];
      forall o | o in multiset(s) ensures AtMost(out, o) {
        var k :| 0 <= k < |s| && s[k] == o;
        RootIsLeast(s, k);
      }
      size := size - 1;
      if size > 0 {
        heap[0] := heap[size];
        RootReplaced(s, heap[..size]);
        SiftDown(heap, size, 0);
      } else {
        assert s == [out];
      }
    }

    /** Once the wait is over: the most urgent order, or the news of the shutdown. */
    method PopBlocking() returns (ok: bool, out: Order)
      requires Valid() && (size > 0 || shutdown)
      modifies this`size, heap
      ensures Valid() && ok == (old(size) > 0)
      ensures ok ==> out in old(Orders()) && Orders() == old(Orders()) - multiset{out}
      ensures ok ==> forall o | o in old(Orders()) :: AtMost(out, o)
      ensures ok ==> forall o | o in old(Orders()) ::
        out.priority < o.priority || (out.priority == o.priority && out.id <= o.id)
      ensures !ok ==> shutdown && Orders() == old(Orders()) == multiset{}
    {
      if size == 0 {
        return false, Order(0, "", 0, 0);
      }
      out := TakeRoot();
      ok := true;
    }

    method Shutdown()
      requires Valid()
      modifies this`shutdown
      ensures Valid() && shutdown && size == old(size) && Orders() == old(Orders())
    {
      shutdown := true;
    }

    /** Empties the queue; the orders come out sorted. */
    method Drain() returns (out: seq<Order>)
      requires Valid()
      modifies this`size, heap
      ensures Valid() && Orders() == multiset{}
      ensures Sorted(out) && multiset(out) == old(Orders())
      ensures forall i, j | 0 <= i < j < |out| ::
        out[i].priority < out[j].priority || (out[i].priority == out[j].priority && out[i].id <= out[j].id)
    {
      out := [];
      while size > 0
        invariant Valid() && Sorted(out)
        invariant multiset(out) + Orders() == old(Orders())
        invariant NoneAfter(out, Orders())
      {
        ghost var before := Orders();
        var o := TakeRoot();
        AppendLeast(out, o, before);
        out := out + [o];
      }
    }
  }

  /** Nothing in rest comes before anything in out. */
  ghost predicate NoneAfter(out: seq<Order>, rest: multiset<Order>) {
    forall i, o | 0 <= i < |out| && o in rest :: AtMost(out[i], o)
  }

  lemma AppendLeast(out: seq<Order>, o: Order, rest: multiset<Order>)
    requires Sorted(out) && NoneAfter(out, rest) && o in rest && forall x | x in rest :: AtMost(o, x)
    ensures Sorted(out + [o]) && NoneAfter(out + [o], rest - multiset{o})
    ensures multiset(out + [o]) + (rest - multiset{o}) == multiset(out) + rest
  {
  }

  /** The last order moved into the root of a heap leaves only the root out of place. */
  lemma RootReplaced(s: seq<Order>, t: seq<Order>)
    requires Heap(s) && |s| > 1 && |t| == |s| - 1
    requires t[0] == s[|s| - 1] && forall k | 0 < k < |t| :: t[k] == s[k]
    ensures HeapDown(t, 0) && multiset(t) == multiset(s) - multiset{s[0]}
  {
    forall k | 0 < k < |t| && Parent(k) != 0 ensures Below(t, k) { assert Below(s, k); }
    var n := |s| - 1;
    assert s == [s[0]] + s[1..n] + [s[n]];
    assert t == [s[n]] + s[1..n];
  }

  // ---------- Sorted listings are unique ----------

  ghost predicate DistinctIds(s: multiset<Order>) {
    forall a, b | a in s && b in s && a.id == b.id :: a == b
  }

  lemma TailIsDistinct(s: seq<Order>)
    requires s != [] && DistinctIds(multiset(s))
    ensures DistinctIds(multiset(s[1..]))
  {
    assert s == [s[0]] + s[1..];
    assert multiset(s[1..]) <= multiset(s);
  }

  /** With distinct ids, in order means by priority, and by id among equal priorities. */
  lemma SortedByPriorityThenId(s: seq<Order>, i: nat, j: nat)
    requires Sorted(s) && DistinctIds(multiset(s)) && i < j < |s|
    ensures s[i] == s[j] || s[i].priority < s[j].priority || (s[i].priority == s[j].priority && s[i].id < s[j].id)
  {
    assert AtMost(s[i], s[j]);
    assert s[i] in multiset(s) && s[j] in multiset(s);
  }

  lemma SameHead(s: seq<Order>, t: seq<Order>)
    requires Sorted(s) && Sorted(t) && multiset(s) == multiset(t) && DistinctIds(multiset(s)) && s != [] && t != []
    ensures s[0] == t[0]
  {
    assert s[0] in multiset(t) && t[0] in multiset(s);
    var j :| 0 <= j < |t| && t[j] == s[0];
    var i :| 0 <= i < |s| && s[i] == t[0];
    assert i > 0 ==> AtMost(s[0], s[i]);
    assert j > 0 ==> AtMost(t[0], t[j]);
  }

  lemma SameLength(s: seq<Order>, t: seq<Order>)
    requires multiset(s) == multiset(t)
    ensures |s| == |t|
  {
    assert |multiset(s)| == |s| && |multiset(t)| == |t|;
  }

  lemma TailsMatch(s: seq<Order>, t: seq<Order>)
    requires s != [] && t != [] && s[0] == t[0] && multiset(s) == multiset(t)
    ensures multiset(s[1..]) == multiset(t[1..])
  {
    assert s == [s[0]] + s[1..] && t == [t[0]] + t[1..];
    assert multiset(s[1..]) == multiset(s) - multiset{s[0]};
    assert multiset(t[1..]) == multiset(t) - multiset{t[0]};
  }

  /** With distinct ids there is only one way to list orders in order. */
  lemma {:induction false} SortedIsUnique(s: seq<Order>, t: seq<Order>)
    requires Sorted(s) && Sorted(t) && multiset(s) == multiset(t) && DistinctIds(multiset(s))
    ensures s == t
    decreases |s|
  {
    SameLength(s, t);
    if s != [] {
      SameHead(s, t);
      TailsMatch(s, t);
      TailIsDistinct(s);
      SortedIsUnique(s[1..], t[1..]);
      assert s == [s[0]] + s[1..] && t == [t[0]] + t[1..];
    }
  }
}
