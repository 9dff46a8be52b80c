/** The fixed circular queue of clients: an array of slots used as a ring, an error when it is full. */
module BoundedQueue {
  import opened GrowableQueue
  import opened Wrappers

  class ClientQueue<T(0)> {
    var front: nat
    var back: int
    const cap: nat
    var size: nat
    const line: array<T>

    ghost predicate Valid()
      reads this
    {
      && size <= cap == line.Length
      && (cap == 0 ==> front == 0)
      && (cap > 0 ==> front < cap && back == if front + size == 0 then cap - 1
                                             else if front + size <= cap then front + size - 1
                                             else front + size - 1 - cap)
    }

    /** The waiting items, oldest first. */
    ghost function Contents(): (s: seq<T>)
      requires Valid()
      reads this, line
      ensures |s| == size
    {
      Ring(line[..], front, size, cap)
    }

    constructor (cap: nat)
      ensures Valid() && Contents() == [] && this.cap == cap && fresh(line)
    {
      this.cap := cap;
      front, size := 0, 0;
      back := cap - 1;
      line := new T[cap];
    }

    predicate IsFull()
      reads this
    {
      size == cap
    }

    predicate IsEmpty()
      reads this
    {
      size == 0
    }

    /** Appends an item; refused, and nothing changes, exactly when cap items are waiting. */
    method Enqueue(item: T) returns (ok: bool)
      requires Valid()
      modifies this, line
      ensures Valid() && ok == (|old(Contents())| < cap)
      ensures Contents() == if ok then old(Contents()) + [item] else old(Contents())
    {
      hide Ring;
      if IsFull() {
        return false;
      }
      Wrap(back + 1, cap);
      ghost var slots := line[..];
      back := (back + 1) % cap;
      line[back] := item;
      size := size + 1;
      assert line[..] == slots[back := item];
      RingPush(slots, front, size - 1, cap, back, item);
      ok := true;
    }

    /** Removes the oldest item; an empty queue is an error. */
    method Dequeue() returns (item: Option<T>)
      requires Valid()
      modifies this
      ensures Valid()
      ensures old(Contents()) == [] ==> item == None && Contents() == []
      ensures old(Contents()) != [] ==> item == Some(old(Contents())[0]) && Contents() == old(Contents())[1..]
    {
      if IsEmpty() {
        return None;
      }
      RingPop(line[..], front, size, cap);
      Wrap(front + 1, cap);
      item := Some(line[front]);
      front := (front + 1) % cap;
      size := size - 1;
    }

    /** The oldest item, which stays. */
    method Front() returns (item: Option<T>)
      requires Valid()
      ensures item == if Contents() == [] then None else Some(Contents()[0])
    {
      if IsEmpty() {
        return None;
      }
      item := Some(line[front]);
    }
  }
}
