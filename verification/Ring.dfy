/**
 * The circular buffers of the log pipeline: a fixed array with head, tail and
 * count, used as a bounded queue.
 */
module Ring {

  class Ring<T(0)> {
    const data: array<T>
    var head: nat
    var tail: nat
    var count: nat

    ghost predicate Valid()
      reads this
    {
      && 0 < data.Length
      && head < data.Length && count <= data.Length
      && tail == Wrap(head + count, data.Length)
    }

    /** The queued elements, oldest first. */
    ghost function Contents(): (q: seq<T>)
      requires Valid()
      reads this, data
      ensures |q| == count
    {
      if head + count <= data.Length then data[head..head + count]
      else data[head..] + data[..head + count - data.Length]
    }

    constructor (capacity: nat)
      requires 0 < capacity
      ensures Valid() && Contents() == [] && data.Length == capacity && fresh(data)
    {
      data := new T[capacity];
      head, tail, count := 0, 0, 0;
    }

    method Push(x: T) returns (ok: bool)
      requires Valid()
      modifies this, data
      ensures Valid()
      ensures ok == (old(count) < data.Length)
      ensures Contents() == if ok then old(Contents()) + [x] else old(Contents())
    {
      if count == data.Length {
        return false;
      }
      ghost var q := Contents();
      data[tail] := x;
      NextSlot(tail, data.Length);
      tail := (tail + 1) % data.Length;
      count := count + 1;
      if head + count <= data.Length {
        assert data[head..head + count - 1] == q;
      } else if head + count - 1 == data.Length {
        assert data[head..] == q;
      } else {
        assert data[head..] == q[..data.Length - head];
        assert data[..head + count - 1 - data.Length] == q[data.Length - head..];
      }
      return true;
    }

    method Pop(fallback: T) returns (ok: bool, x: T)
      requires Valid()
      modifies this
      ensures Valid()
      ensures ok == (old(count) > 0)
      ensures if ok then old(Contents()) == [x] + Contents() else x == fallback && Contents() == old(Contents())
    {
      if count == 0 {
        return false, fallback;
      }
      x := data[head];
      NextSlot(head, data.Length);
      head := (head + 1) % data.Length;
      count := count - 1;
      return true, x;
    }
  }

  lemma NextSlot(i: nat, n: nat)
    requires i < n
    ensures (i + 1) % n == Wrap(i + 1, n)
  {
    if i + 1 < n {
      SmallRemainder(i + 1, n);
    }
  }

  lemma SmallRemainder(i: nat, n: nat)
    requires i < n
    ensures i % n == i
  {
  }

  function Wrap(i: nat, n: nat): nat
    requires 0 < n
  {
    if i < n then i else i - n
  }

  /** The buffer between the reader threads and the parser thread of one reader process. */
  class InternalBuffer<T(0)> {
    const queue: Ring<T>
    var done: bool
    var activeReaders: int

    ghost predicate Valid()
      reads this, queue
    {
      queue.Valid()
    }

    constructor (capacity: nat, readers: nat)
      requires 0 < capacity
      ensures Valid() && queue.Contents() == [] && !done && activeReaders == readers
      ensures fresh(queue) && fresh(queue.data) && queue.data.Length == capacity
    {
      queue := new Ring<T>(capacity);
      done, activeReaders := false, readers;
    }

    /** The critical section of ibuf_push once its wait for room is over. */
    method Push(x: T)
      requires Valid() && queue.count < queue.data.Length
      modifies queue, queue.data
      ensures Valid() && queue.Contents() == old(queue.Contents()) + [x]
    {
      var ok := queue.Push(x);
    }

    /** The critical section of ibuf_pop once its wait is over: an entry, or the news that no more will come. */
    method Pop(fallback: T) returns (more: bool, x: T)
      requires Valid() && (queue.count > 0 || done)
      modifies queue
      ensures Valid()
      ensures more == (old(queue.count) > 0)
      ensures more ==> old(queue.Contents()) == [x] + queue.Contents()
      ensures !more ==> done && queue.Contents() == old(queue.Contents()) == []
    {
      more, x := queue.Pop(fallback);
    }

    method ReaderDone()
      requires Valid()
      modifies this
      ensures Valid() && activeReaders == old(activeReaders) - 1
      ensures done == (old(done) || activeReaders == 0)
    {
      activeReaders := activeReaders - 1;
      if activeReaders == 0 {
        done := true;
      }
    }
  }
}
