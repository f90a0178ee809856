/** The bounded ring that carries events to the event loop. */
module RingBuffer {

  // The position after pos.
  function Add(pos: nat, capacity: nat): nat {
    if pos + 1 == capacity then 0 else pos + 1
  }

  // The position k slots after pos.
  function Place(pos: nat, k: nat, capacity: nat): nat
    requires k <= capacity
  {
    if pos + k < capacity then pos + k else pos + k - capacity
  }

  class RingBuffer<T(0)> {
    const capacity: nat
    const slots: array<T>
    var putPos: nat
    var getPos: nat
    var count: nat

    ghost predicate Valid()
      reads this
    {
      && slots.Length == capacity && count <= capacity
      && (capacity > 0 ==> getPos < capacity && putPos == Place(getPos, count, capacity))
    }

    // The elements, oldest first.
    ghost function Contents(): (s: seq<T>)
      requires Valid()
      reads this, slots
      ensures |s| == count
    {
      seq(count, k requires 0 <= k < count && Valid() reads this, slots => slots[Place(getPos, k, capacity)])
    }

    constructor (capacity: nat, init: T)
      ensures Valid() && Contents() == [] && this.capacity == capacity && fresh(slots)
    {
      this.capacity := capacity;
      slots := new T[capacity](_ => init);
      putPos, getPos, count := 0, 0, 0;
    }

    method Push(data: T) returns (ok: bool)
      requires Valid()
      modifies this, slots
      ensures Valid() && ok == (|old(Contents())| < capacity)
      ensures Contents() == if ok then old(Contents()) + [data] else old(Contents())
    {
      if count < capacity {
        slots[putPos] := data;
        putPos := Add(putPos, capacity);
        count := count + 1;
        return true;
      }
      return false;
    }

    /** The slot keeps whatever a move leaves behind. */
    method Pop(moved: T) returns (ok: bool, data: T)
      requires Valid()
      modifies this, slots
      ensures Valid() && ok == (old(Contents()) != [])
      ensures ok ==> [data] + Contents() == old(Contents())
      ensures !ok ==> Contents() == old(Contents())
    {
      if count > 0 {
        data := slots[getPos];
        slots[getPos] := moved;
        getPos := Add(getPos, capacity);
        count := count - 1;
        return true, data;
      }
      return false, moved;
    }
  }
}
