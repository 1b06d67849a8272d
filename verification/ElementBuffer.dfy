/** The circular array of blocking_queue.h that holds the queued elements. */
module ElementBuffer {
  import opened Modulo

  /** The array place of the i-th element behind front. */
  function Slot(front: nat, i: nat, capacity: nat): (p: nat)
    requires capacity > 0
    ensures p < capacity
  {
    (front + i) % capacity
  }

  lemma SlotWraps(front: nat, i: nat, capacity: nat)
    requires front < capacity && i <= capacity
    ensures Slot(front, i, capacity) == if front + i < capacity then front + i else front + i - capacity
  {
    var q := if front + i < capacity then 0 else 1;
    ModUnique(front + i, capacity, q, front + i - q * capacity);
  }

  /** The elements held by an array, front first. */
  function Read(a: seq<int>, front: nat, size: nat): (s: seq<int>)
    requires front < |a| && size <= |a|
    ensures |s| == size
  {
    seq(size, i requires 0 <= i < size => a[Slot(front, i, |a|)])
  }

  class CircularBuffer {
    var queue: array<int>
    var size: nat
    var front: nat
    var rear: nat

    ghost predicate Valid()
      reads this
    {
      && queue.Length > 0 && size <= queue.Length && front < queue.Length
      && rear == Slot(front, size + queue.Length - 1, queue.Length)
    }

    ghost function Contents(): seq<int>
      reads this, queue
      requires Valid()
    {
      Read(queue[..], front, size)
    }

    constructor (capacity: nat)
      requires capacity > 0
      ensures Valid() && fresh(queue) && queue.Length == capacity && Contents() == []
    {
      queue := new int[capacity];
      size, front, rear := 0, 0, capacity - 1;
      new;
      assert rear == Slot(0, capacity - 1, capacity);
    }

    method Enqueue(element: int)
      requires Valid() && size < queue.Length
      modifies this`rear, this`size, queue
      ensures Valid() && Contents() == old(Contents()) + [element]
    {
      ghost var a := queue[..];
      NextRear(front, size, queue.Length, rear);
      rear := (rear + 1) % queue.Length;
      queue[rear] := element;
      size := size + 1;
      ReadEnqueue(a, front, size - 1, element);
      assert queue[..] == a[rear := element];
    }

    method Dequeue() returns (element: int)
      requires Valid() && size > 0
      modifies this`front, this`size
      ensures Valid() && old(Contents()) == [element] + Contents()
    {
      SlotWraps(front, 0, queue.Length);
      ReadDequeue(queue[..], front, size);
      NextFront(front, size, queue.Length);
      element := queue[front];
      front := (front + 1) % queue.Length;
      size := size - 1;
    }

    /** grow_queue, called when the array is full: the elements move to the front of an array twice as long. */
    method Grow()
      requires Valid() && size == queue.Length
      modifies this
      ensures Valid() && fresh(queue) && queue.Length == 2 * old(queue.Length) && size == old(size)
      ensures Contents() == old(Contents())
    {
      var capacity := queue.Length;
      var bigger := new int[2 * capacity];
      FullRear(front, capacity);
      if rear >= front {
        forall i | 0 <= i < size { bigger[i] := queue[front + i]; }
      } else {
        var first := capacity - front;
        forall i | 0 <= i < first { bigger[i] := queue[front + i]; }
        forall i | 0 <= i < rear + 1 { bigger[first + i] := queue[i]; }
      }
      ghost var s := Contents();
      forall i | 0 <= i < size ensures bigger[i] == s[i] {
        SlotWraps(front, i, capacity);
      }
      queue := bigger;
      front := 0;
      rear := size - 1;
      ReadPrefix(queue[..], size);
      GrownRear(size);
      assert queue[..][..size] == s;
    }
  }

  lemma NextRear(front: nat, size: nat, capacity: nat, rear: nat)
    requires front < capacity && size < capacity && rear == Slot(front, size + capacity - 1, capacity)
    ensures (rear + 1) % capacity == Slot(front, size, capacity) == Slot(front, size + capacity, capacity)
  {
    ModAddOne(front + size + capacity - 1, capacity);
    assert (front + size + capacity - 1) + 1 == front + (size + capacity);
    ModShift(front + size, capacity);
  }

  lemma NextFront(front: nat, size: nat, capacity: nat)
    requires front < capacity && 0 < size <= capacity
    ensures Slot(front, size + capacity - 1, capacity) ==
            Slot((front + 1) % capacity, size - 1 + capacity - 1, capacity)
  {
    ModAdd(front + 1, size - 1 + capacity - 1, capacity);
  }

  lemma FullRear(front: nat, capacity: nat)
    requires front < capacity
    ensures Slot(front, capacity + capacity - 1, capacity) == if front == 0 then capacity - 1 else front - 1
  {
    ModShift(front + capacity - 1, capacity);
    SlotWraps(front, capacity - 1, capacity);
  }

  lemma GrownRear(size: nat)
    requires size > 0
    ensures Slot(0, size + 2 * size - 1, 2 * size) == size - 1
  {
    ModUnique(size + 2 * size - 1, 2 * size, 1, size - 1);
  }

  lemma ReadEnqueue(a: seq<int>, front: nat, size: nat, x: int)
    requires front < |a| && size < |a|
    ensures Read(a[Slot(front, size, |a|) := x], front, size + 1) == Read(a, front, size) + [x]
  {
    var b := a[Slot(front, size, |a|) := x];
    forall i | 0 <= i < size ensures Read(b, front, size + 1)[i] == Read(a, front, size)[i] {
      SlotWraps(front, i, |a|);
      SlotWraps(front, size, |a|);
    }
  }

  lemma ReadDequeue(a: seq<int>, front: nat, size: nat)
    requires front < |a| && 0 < size <= |a|
    ensures Read(a, front, size) == [a[front]] + Read(a, (front + 1) % |a|, size - 1)
  {
    SlotWraps(front, 0, |a|);
    var rest := Read(a, (front + 1) % |a|, size - 1);
    forall i | 0 <= i < size ensures Read(a, front, size)[i] == ([a[front]] + rest)[i] {
      if i > 0 {
        ModAdd(front + 1, i - 1, |a|);
      }
    }
  }

  lemma ReadPrefix(a: seq<int>, size: nat)
    requires size < |a|
    ensures Read(a, 0, size) == a[..size]
  {
    forall i | 0 <= i < size ensures Read(a, 0, size)[i] == a[i] {
      SlotWraps(0, i, |a|);
    }
  }
}
