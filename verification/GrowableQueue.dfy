/** The growable circular queue: an array of slots used as a ring, doubled when it is full. */
module GrowableQueue {
  import opened Wrappers

  /** An index one past the last slot of the ring wraps around to 0. */
  lemma Wrap(index: nat, cap: nat)
    requires 0 < cap && index <= cap
    ensures index % cap == if index == cap then 0 else index
  {
    if index < cap {
      assert index == 0 * cap + index;
    } else {
      assert index == 1 * cap + 0;
    }
  }

  /** The `size` items of a ring of `cap` slots, oldest first, starting at `front`. */
  function Ring<T>(line: seq<T>, front: nat, size: nat, cap: nat): (s: seq<T>)
    requires size <= cap <= |line| && (front < cap || front + size == 0)
    ensures |s| == size && forall i :: 0 <= i < |s| ==> s[i] in line
  {
    if front + size <= cap then line[front..front + size]
    else line[front..cap] + line[..front + size - cap]
  }

  /** Writing the slot after the newest item appends it. */
  lemma RingPush<T>(line: seq<T>, front: nat, size: nat, cap: nat, slot: nat, item: T)
    requires size < cap <= |line| && front < cap
    requires slot == if front + size < cap then front + size else front + size - cap
    ensures Ring(line[slot := item], front, size + 1, cap) == Ring(line, front, size, cap) + [item]
  {
  }

  /** Moving the front past the oldest item drops it. */
  lemma RingPop<T>(line: seq<T>, front: nat, size: nat, cap: nat)
    requires 0 < size <= cap <= |line| && front < cap
    ensures Ring(line, front, size, cap)[0] == line[front]
    ensures Ring(line, if front + 1 == cap then 0 else front + 1, size - 1, cap) == Ring(line, front, size, cap)[1..]
  {
  }

  class Queue<T(0)> {
    var front: nat
    var back: int
    var cap: nat
    var size: nat
    var line: array<T>

    ghost predicate Valid()
      reads this
    {
      && size <= cap <= line.Length
      && (cap == 0 ==> front == 0)
      && (cap > 0 ==> front < cap && back == if front + size == 0 then cap - 1
                                             else if front + size <= cap then front + size - 1
                                             else front + size - 1 - cap)
    }

    /** The queued items, oldest first. */
    ghost function Contents(): (s: seq<T>)
      requires Valid()
      reads this, line
      ensures |s| == size
    {
      Ring(line[..], front, size, cap)
    }

    constructor (cap: nat)
      ensures Valid() && Contents() == [] && this.cap == cap && line.Length == cap && fresh(line)
    {
      this.cap := cap;
      front, size := 0, 0;
      back := cap - 1;
      line := new T[cap];
    }

    predicate IsFull()
      reads this
    {
      size == cap
    }

    predicate IsEmpty()
      reads this
    {
      size == 0
    }

    /** Removes the oldest item; an empty queue is the error the source exits on. */
    method Dequeue() returns (item: Option<T>)
      requires Valid()
      modifies this
      ensures Valid() && line == old(line) && cap == old(cap)
      ensures old(Contents()) == [] ==> item == None && Contents() == []
      ensures old(Contents()) != [] ==> item == Some(old(Contents())[0]) && Contents() == old(Contents())[1..]
    {
      if IsEmpty() {
        return None;
      }
      RingPop(line[..], front, size, cap);
      Wrap(front + 1, cap);
      item := Some(line[front]);
      front := (front + 1) % cap;
      size := size - 1;
    }

    /** The newest item. */
    method Back() returns (item: Option<T>)
      requires Valid()
      ensures Contents() == [] ==> item == None
      ensures Contents() != [] ==> item == Some(Contents()[|Contents()| - 1])
    {
      if IsEmpty() {
        return None;
      }
      item := Some(line[back]);
    }

    /** Appends an item, doubling the queue first when it is full; the caller's queue is replaced then. */
    static method Enqueue(q: Queue<T>, item: T) returns (r: Queue<T>)
      requires q.Valid() && q.cap > 0
      modifies q, q.line
      ensures r.Valid() && r.Contents() == old(q.Contents()) + [item]
      ensures r.cap == if old(q.IsFull()) then 2 * old(q.cap) else old(q.cap)
      ensures if old(q.IsFull()) then fresh(r) && fresh(r.line) else r == q && r.line == old(q.line)
      decreases if q.IsFull() then 2 else 0
    {
      hide Ring;
      r := q;
      if r.IsFull() {
        r := Enlarge(r);
      }
      Wrap(r.back + 1, r.cap);
      ghost var slots := r.line[..];
      r.back := (r.back + 1) % r.cap;
      r.line[r.back] := item;
      r.size := r.size + 1;
      assert r.line[..] == slots[r.back := item];
      RingPush(slots, r.front, r.size - 1, r.cap, r.back, item);
    }

    /** Moves everything, oldest first, into a queue of twice the capacity, which is never full meanwhile. */
    static method Enlarge(q: Queue<T>) returns (r: Queue<T>)
      requires q.Valid() && q.cap > 0
      modifies q
      ensures r.Valid() && r.Contents() == old(q.Contents())
      ensures r.cap == 2 * old(q.cap) && fresh(r) && fresh(r.line)
      decreases 1
    {
      hide Ring;
      r := new Queue(q.cap * 2);
      ghost var all := q.Contents();
      while !q.IsEmpty()
        invariant q.Valid() && q.cap == old(q.cap)
        invariant r.Valid() && r.cap == 2 * q.cap && fresh(r) && fresh(r.line)
        invariant q.line == old(q.line) && r.line != q.line && r != q
        invariant r.Contents() + q.Contents() == all
        decreases q.size
      {
        ghost var moved, rest := r.Contents(), q.Contents();
        assert rest == [rest[0]] + rest[1..];
        var item := q.Dequeue();
        r := Enqueue(r, item.value);
        assert moved + rest == (moved + [rest[0]]) + rest[1..];
      }
    }

    /** Makes `dest` an image of `src`, slot by slot; `dest` must have the room for it. */
    static method Copy(src: Queue<T>, dest: Queue<T>)
      requires src.Valid() && src != dest && src.line != dest.line && src.cap <= dest.line.Length
      modifies dest, dest.line
      ensures dest.Valid() && dest.line == old(dest.line) && dest.cap == src.cap
      ensures src.Valid() && src.Contents() == old(src.Contents()) && dest.Contents() == src.Contents()
    {
      dest.back, dest.cap, dest.front, dest.size := src.back, src.cap, src.front, src.size;
      for i := 0 to src.cap
        invariant src.line[..] == old(src.line[..])
        invariant dest.line[..i] == src.line[..i]
        modifies dest.line
      {
        dest.line[i] := src.line[i];
      }
      assert dest.line[..src.cap] == src.line[..src.cap];
      assert forall k :: 0 <= k < src.cap ==>
        dest.line[k] == dest.line[..src.cap][k] == src.line[..src.cap][k] == src.line[k];
    }
  }
}
