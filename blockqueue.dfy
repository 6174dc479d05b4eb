/** The bounded double-ended queue of log/blockqueue.h, taken one call at a
    time. Waiting is not modelled: "wait while full" becomes the
    precondition that the deque is not full, and "wait while empty" the
    precondition that the deque is not empty or has been closed (a waiting
    consumer of a closed, empty deque is released with `false`). */
module BlockQueue {

  /** Default argument of the constructor. */
  const DEFAULT_DEQUE_CAPACITY: nat := 1000

  class BlockDeque<T> {
    var items: seq<T>
    var capacity: nat
    var closed: bool

    /** The deque never holds more than its capacity, which is positive. */
    ghost predicate Valid()
      reads this
    {
      0 < capacity && |items| <= capacity
    }

    constructor (maxCapacity: nat := DEFAULT_DEQUE_CAPACITY)
      requires maxCapacity > 0
      ensures Valid()
      ensures items == [] && capacity == maxCapacity && !closed
    {
      items := [];
      capacity := maxCapacity;
      closed := false;
    }

    /** Discards every queued item and marks the deque closed. */
    method Close()
      requires Valid()
      modifies this`items, this`closed
      ensures Valid()
      ensures items == [] && closed
    {
      items := [];
      closed := true;
    }

    /** Discards every queued item; the closed flag stays as it was. */
    method Clear()
      requires Valid()
      modifies this`items
      ensures Valid()
      ensures items == []
    {
      items := [];
    }

    method IsEmpty() returns (empty: bool)
      ensures empty <==> items == []
    {
      empty := |items| == 0;
    }

    /** Full means "at least `capacity` items"; in a valid deque that is
        exactly `capacity`, so a push is possible exactly when not full. */
    method IsFull() returns (full: bool)
      ensures full <==> |items| >= capacity
      ensures Valid() ==> (full <==> |items| == capacity)
    {
      full := |items| >= capacity;
    }

    method GetQueueSize() returns (size: nat)
      ensures size == |items|
    {
      size := |items|;
    }

    method GetCapacity() returns (cap: nat)
      ensures cap == capacity
    {
      cap := capacity;
    }

    method GetFront() returns (item: T)
      requires items != []
      ensures item == items[0]
    {
      item := items[0];
    }

    method GetBack() returns (item: T)
      requires items != []
      ensures item == items[|items| - 1]
    {
      item := items[|items| - 1];
    }

    /** Appends `item`; the deque must not be full (the source waits until
        it is not). A closed deque accepts the push like any other. */
    method PushBack(item: T)
      requires Valid() && |items| < capacity
      modifies this`items
      ensures Valid()
      ensures items == old(items) + [item]
    {
      items := items + [item];
    }

    /** Prepends `item`; the deque must not be full. */
    method PushFront(item: T)
      requires Valid() && |items| < capacity
      modifies this`items
      ensures Valid()
      ensures items == [item] + old(items)
    {
      items := [item] + items;
    }

    /** Removes and returns the front item. `current` is the value the
        caller's `item` variable held; it is handed back unchanged on
        failure. A caller finding the deque empty waits for a producer, so
        the call needs an item or a closed deque; a closed, empty deque
        gives `false`. */
    method PopFront(current: T) returns (ok: bool, item: T)
      requires Valid()
      requires items != [] || closed
      modifies this`items
      ensures Valid()
      ensures ok <==> old(items) != []
      ensures ok ==> item == old(items)[0] && items == old(items)[1..]
      ensures !ok ==> item == current && items == old(items)
    {
      if items == [] {
        return false, current;
      }
      item := items[0];
      items := items[1..];
      ok := true;
    }

    /** The timed `PopFront`: on an empty deque the wait ends by timeout or
        by close, both of which give `false`; no producer exists in a
        sequential run, so an empty deque always gives `false`. */
    method PopFrontTimed(current: T, timeout: int) returns (ok: bool, item: T)
      requires Valid()
      modifies this`items
      ensures Valid()
      ensures ok <==> old(items) != []
      ensures ok ==> item == old(items)[0] && items == old(items)[1..]
      ensures !ok ==> item == current && items == old(items)
    {
      if items == [] {
        return false, current;
      }
      item := items[0];
      items := items[1..];
      ok := true;
    }

    /** Wakes one waiting consumer; no state changes. */
    method Flush()
    {
    }
  }
}
