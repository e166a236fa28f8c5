/**
 * BufferDynamic: a ring whose backing list starts empty and grows by one
 * element per enqueue until it reaches the capacity; from then on slots are
 * reused at `tail`.
 */
module Dynamic {
  import opened Wrappers
  import opened Ring

  class BufferDynamic<T> {
    /** The capacity, fixed at construction. */
    const maxSize: nat
    /** The backing list; `None` marks a cleared slot. */
    var buffer: seq<Option<T>>
    var head: nat
    var tail: nat
    var size: nat

    /**
     * The object invariant. The list never outgrows the capacity; while it
     * is shorter, `tail` is its length (so an append lands at `tail`) and the
     * live slots end at its last element; and the list, padded with
     * sentinels to the capacity, is a valid ring.
     */
    ghost predicate Valid()
      reads this
    {
      |buffer| <= maxSize &&
      (|buffer| < maxSize ==> tail == |buffer| && head + size == |buffer|) &&
      Shape(Pad(buffer, maxSize), head, tail, size)
    }

    /** The queue the buffer stands for: the `size` slots from `head`, oldest first, all of them items. */
    ghost function Contents(): (q: seq<Option<T>>)
      reads this
      requires Valid()
      ensures forall k :: 0 <= k < |q| ==> q[k].Some?
    {
      WindowItems(Pad(buffer, maxSize), head, tail, size);
      Window(Pad(buffer, maxSize), head, size)
    }

    constructor (maxSize: nat)
      requires maxSize >= 1
      ensures Valid()
      ensures this.maxSize == maxSize && Contents() == []
      ensures buffer == [] && head == 0 && tail == 0 && size == 0
    {
      this.maxSize := maxSize;
      buffer := [];
      head, tail, size := 0, 0, 0;
      new;
      EmptyShape<T>(maxSize);
      assert Pad(buffer, maxSize) == seq<Option<T>>(maxSize, _ => None);
    }

    method IsEmpty() returns (b: bool)
      requires Valid()
      ensures b <==> Contents() == []
    {
      b := size == 0;
    }

    method IsFull() returns (b: bool)
      requires Valid()
      ensures b <==> |Contents()| == maxSize
    {
      b := size == maxSize;
    }

    /**
     * Appends `item` to the queue, or raises when the buffer is full and
     * changes nothing. The list is extended while it is shorter than the
     * capacity and written in place afterwards; either way, viewed as a ring,
     * exactly slot `tail` changes.
     */
    method Enqueue(item: T) returns (r: Outcome<Error>)
      requires Valid()
      modifies this
      ensures Valid()
      ensures r.Fail? <==> |old(Contents())| == maxSize
      ensures r.Fail? ==> r.error == BufferFull
      ensures r.Fail? ==> buffer == old(buffer) && head == old(head) && tail == old(tail) && size == old(size)
      ensures r.Pass? ==> Contents() == old(Contents()) + [Some(item)]
      ensures r.Pass? ==> buffer == if old(|buffer|) < maxSize then old(buffer) + [Some(item)]
                                   else old(buffer)[old(tail) := Some(item)]
      ensures r.Pass? ==> Pad(buffer, maxSize) == Pad(old(buffer), maxSize)[old(tail) := Some(item)]
      ensures r.Pass? ==> head == old(head) && tail == Slot(old(tail), 1, maxSize) && size == old(size) + 1
    {
      if size == maxSize {
        return Fail(BufferFull);
      }
      WriteTail(Pad(buffer, maxSize), head, tail, size, item);
      if |buffer| < maxSize {
        PadAppend(buffer, maxSize, Some(item));
        buffer := buffer + [Some(item)];
      } else {
        PadFull(buffer, maxSize);
        buffer := buffer[tail := Some(item)];
        PadFull(buffer, maxSize);
      }
      tail := Slot(tail, 1, maxSize);
      size := size + 1;
      r := Pass;
    }

    /** Removes and returns the oldest item, or raises when the buffer is empty and changes nothing. */
    method Dequeue() returns (r: Result<T, Error>)
      requires Valid()
      modifies this
      ensures Valid()
      ensures r.Err? <==> old(Contents()) == []
      ensures r.Err? ==> r.error == BufferEmpty
      ensures r.Err? ==> buffer == old(buffer) && head == old(head) && tail == old(tail) && size == old(size)
      ensures r.Ok? ==> Some(r.value) == old(Contents())[0] && Contents() == old(Contents())[1..]
      ensures r.Ok? ==> old(head) < old(|buffer|) && old(buffer[head]) == Some(r.value)
      ensures r.Ok? ==> buffer == old(buffer)[old(head) := None]
      ensures r.Ok? ==> head == Slot(old(head), 1, maxSize) && tail == old(tail) && size == old(size) - 1
    {
      if size == 0 {
        return Err(BufferEmpty);
      }
      ClearHead(Pad(buffer, maxSize), head, tail, size);
      assert head < |buffer|;
      var item := buffer[head];
      PadUpdate(buffer, maxSize, head, None);
      buffer := buffer[head := None];
      head := Slot(head, 1, maxSize);
      size := size - 1;
      r := Ok(item.value);
    }

    /** A snapshot of the backing list; it never outgrows the capacity. */
    method GetBuffer() returns (view: seq<Option<T>>)
      requires Valid()
      ensures |view| <= maxSize && view == buffer
      ensures Window(Pad(view, maxSize), head, size) == Contents()
    {
      view := buffer;
    }
  }
}
