/** BufferFixed: a ring pre-allocated to its capacity that rejects overflow and underflow. */
module Fixed {
  import opened Wrappers
  import opened Ring

  class BufferFixed<T> {
    /** The capacity, fixed at construction. */
    const maxSize: nat
    /** The pre-allocated slots; `None` marks a free slot. */
    const buffer: array<Option<T>>
    var head: nat
    var tail: nat
    var size: nat

    /** The object invariant: the slots form a valid ring of `maxSize` slots. */
    ghost predicate Valid()
      reads this, buffer
    {
      buffer.Length == maxSize && Shape(buffer[..], head, tail, size)
    }

    /** The queue the buffer stands for: the `size` slots from `head`, oldest first, all of them items. */
    ghost function Contents(): (q: seq<Option<T>>)
      reads this, buffer
      requires Valid()
      ensures forall k :: 0 <= k < |q| ==> q[k].Some?
    {
      WindowItems(buffer[..], head, tail, size);
      Window(buffer[..], head, size)
    }

    constructor (maxSize: nat)
      requires maxSize >= 1
      ensures Valid() && fresh(buffer)
      ensures this.maxSize == maxSize && Contents() == []
      ensures buffer[..] == seq(maxSize, _ => None) && head == 0 && tail == 0 && size == 0
    {
      this.maxSize := maxSize;
      buffer := new Option<T>[maxSize](_ => None);
      head, tail, size := 0, 0, 0;
      new;
      EmptyShape<T>(maxSize);
    }

    method IsEmpty() returns (b: bool)
      requires Valid()
      ensures b <==> Contents() == []
    {
      b := size == 0;
    }

    method IsFull() returns (b: bool)
      requires Valid()
      ensures b <==> |Contents()| == maxSize
    {
      b := size == maxSize;
    }

    /** Appends `item` to the queue, or raises when the buffer is full and changes nothing. */
    method Enqueue(item: T) returns (r: Outcome<Error>)
      requires Valid()
      modifies this, buffer
      ensures Valid()
      ensures r.Fail? <==> |old(Contents())| == maxSize
      ensures r.Fail? ==> r.error == BufferFull
      ensures r.Fail? ==> buffer[..] == old(buffer[..]) && head == old(head) && tail == old(tail) && size == old(size)
      ensures r.Pass? ==> Contents() == old(Contents()) + [Some(item)]
      ensures r.Pass? ==> buffer[..] == old(buffer[..])[old(tail) := Some(item)]
      ensures r.Pass? ==> head == old(head) && tail == Slot(old(tail), 1, maxSize) && size == old(size) + 1
    {
      if size == maxSize {
        return Fail(BufferFull);
      }
      WriteTail(buffer[..], head, tail, size, item);
      buffer[tail] := Some(item);
      tail := Slot(tail, 1, maxSize);
      size := size + 1;
      r := Pass;
    }

    /** Removes and returns the oldest item, or raises when the buffer is empty and changes nothing. */
    method Dequeue() returns (r: Result<T, Error>)
      requires Valid()
      modifies this, buffer
      ensures Valid()
      ensures r.Err? <==> old(Contents()) == []
      ensures r.Err? ==> r.error == BufferEmpty
      ensures r.Err? ==> buffer[..] == old(buffer[..]) && head == old(head) && tail == old(tail) && size == old(size)
      ensures r.Ok? ==> Some(r.value) == old(Contents())[0] && Contents() == old(Contents())[1..]
      ensures r.Ok? ==> old(buffer[head]) == Some(r.value)
      ensures r.Ok? ==> buffer[..] == old(buffer[..])[old(head) := None]
      ensures r.Ok? ==> head == Slot(old(head), 1, maxSize) && tail == old(tail) && size == old(size) - 1
    {
      if size == 0 {
        return Err(BufferEmpty);
      }
      ClearHead(buffer[..], head, tail, size);
      var item := buffer[head];
      buffer[head] := None;
      head := Slot(head, 1, maxSize);
      size := size - 1;
      r := Ok(item.value);
    }

    /** A snapshot of the slots; the queue is read off it from `head`. */
    method GetBuffer() returns (view: seq<Option<T>>)
      requires Valid()
      ensures |view| == maxSize && Window(view, head, size) == Contents()
      ensures forall i :: 0 <= i < maxSize ==> view[i] == buffer[i]
    {
      view := buffer[..];
    }
  }
}
