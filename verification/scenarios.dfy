/**
 * Client scenarios. Each one drives a buffer through a fixed sequence of
 * calls and states exactly what the calls return, proved from the buffers'
 * contracts alone.
 */
module Scenarios {
  import opened Wrappers
  import opened Ring
  import Fixed
  import Dynamic
  import Overwrite

  /**
   * Capacity 5: enqueue a, b, c, dequeue once, enqueue d, e, f. The buffer
   * is then full, a sixth enqueue is refused, and draining it yields
   * b, c, d, e, f, after which a dequeue is refused again.
   */
  method FixedRefill() returns (first: Result<char, Error>, full: bool, overflow: Outcome<Error>,
                                outs: seq<char>, underflow: Result<char, Error>)
    ensures first == Ok('a') && full && overflow == Fail(BufferFull)
    ensures outs == "bcdef" && underflow == Err(BufferEmpty)
  {
    var b := new Fixed.BufferFixed<char>(5);
    first := FixedLoad(b);
    full, overflow := FixedTopUp(b);
    outs, underflow := FixedDrain(b);
  }

  /** First phase of FixedRefill: enqueue a, b, c and dequeue once. */
  method FixedLoad(b: Fixed.BufferFixed<char>) returns (first: Result<char, Error>)
    requires b.Valid() && b.maxSize == 5 && b.Contents() == []
    modifies b, b.buffer
    ensures b.Valid() && b.Contents() == [Some('b'), Some('c')] && first == Ok('a')
  {
    var e := b.Enqueue('a');
    e := b.Enqueue('b');
    e := b.Enqueue('c');
    first := b.Dequeue();
  }

  /** Second phase of FixedRefill: enqueue d, e, f, which fills the buffer, then one more. */
  method FixedTopUp(b: Fixed.BufferFixed<char>) returns (full: bool, overflow: Outcome<Error>)
    requires b.Valid() && b.maxSize == 5 && b.Contents() == [Some('b'), Some('c')]
    modifies b, b.buffer
    ensures b.Valid() && b.Contents() == [Some('b'), Some('c'), Some('d'), Some('e'), Some('f')]
    ensures full && overflow == Fail(BufferFull)
  {
    var e := b.Enqueue('d');
    e := b.Enqueue('e');
    e := b.Enqueue('f');
    full := b.IsFull();
    overflow := b.Enqueue('g');
  }

  /** Last phase of FixedRefill: six dequeues from a full buffer. */
  method FixedDrain(b: Fixed.BufferFixed<char>) returns (outs: seq<char>, underflow: Result<char, Error>)
    requires b.Valid() && b.Contents() == [Some('b'), Some('c'), Some('d'), Some('e'), Some('f')]
    modifies b, b.buffer
    ensures outs == "bcdef" && underflow == Err(BufferEmpty)
  {
    var r := b.Dequeue();
    outs := [r.value];
    r := b.Dequeue();
    outs := outs + [r.value];
    r := b.Dequeue();
    outs := outs + [r.value];
    assert b.Contents() == [Some('e'), Some('f')];
    r := b.Dequeue();
    outs := outs + [r.value];
    r := b.Dequeue();
    outs := outs + [r.value];
    underflow := b.Dequeue();
  }

  /** A fresh buffer refuses a dequeue, and reports itself empty and not full. */
  method FixedFresh() returns (empty: bool, full: bool, r: Result<int, Error>)
    ensures empty && !full && r == Err(BufferEmpty)
  {
    var b := new Fixed.BufferFixed<int>(3);
    empty := b.IsEmpty();
    full := b.IsFull();
    r := b.Dequeue();
  }

  /**
   * Capacity 2: enqueue a, b (the list reaches the capacity), dequeue a,
   * enqueue c (written in place at slot 0), then drain. The items come out
   * in order and the list is left with two cleared slots.
   */
  method DynamicReuse() returns (first: Result<char, Error>, full: bool, outs: seq<char>,
                                 storage: seq<Option<char>>)
    ensures first == Ok('a') && full && outs == "bc" && storage == [None, None]
  {
    var b := new Dynamic.BufferDynamic<char>(2);
    var e := b.Enqueue('a');
    e := b.Enqueue('b');
    first := b.Dequeue();
    e := b.Enqueue('c');
    full := b.IsFull();
    var r := b.Dequeue();
    outs := [r.value];
    r := b.Dequeue();
    outs := outs + [r.value];
    storage := b.GetBuffer();
  }

  /**
   * The list grows on every enqueue until it reaches the capacity, not only
   * when the queue grows: with capacity 3, enqueue, dequeue, enqueue leaves a
   * list of two slots although the queue never held more than one item.
   */
  method DynamicGrowth() returns (storage: seq<Option<int>>)
    ensures storage == [None, Some(2)]
  {
    var b := new Dynamic.BufferDynamic<int>(3);
    var e := b.Enqueue(1);
    var r := b.Dequeue();
    e := b.Enqueue(2);
    storage := b.GetBuffer();
  }

  /**
   * Capacity 3, enqueue 10, 20, 30, 40. The fourth write lands on slot 0
   * without moving the read cursor (the write cursor is 0 there), `size`
   * becomes 4 so the buffer no longer reports full, and the dequeues return
   * 40, 20, 30, then the cleared slot 0, then nothing.
   */
  method OverwriteLap() returns (size: nat, full: bool, outs: seq<Option<int>>)
    ensures size == 4 && !full
    ensures outs == [Some(40), Some(20), Some(30), None, None]
  {
    var b := new Overwrite.BufferFixedOverwrite<int>(3);
    b.Enqueue(10);
    b.Enqueue(20);
    b.Enqueue(30);
    b.Enqueue(40);
    size := b.size;
    full := b.IsFull();
    outs := [];
    var r := b.Dequeue();
    outs := outs + [r];
    r := b.Dequeue();
    outs := outs + [r];
    r := b.Dequeue();
    outs := outs + [r];
    r := b.Dequeue();
    outs := outs + [r];
    r := b.Dequeue();
    outs := outs + [r];
  }

  /**
   * Capacity 3: enqueue 10, dequeue it, enqueue 20. The second write finds
   * both cursors at slot 1 and pushes the read cursor past the new item, so
   * the next dequeue returns the sentinel and 20 stays in its slot.
   */
  method OverwriteReadPast() returns (first: Option<int>, second: Option<int>,
                                      storage: seq<Option<int>>, inIndex: nat, outIndex: nat)
    ensures first == Some(10) && second == None
    ensures storage == [None, Some(20), None] && inIndex == 2 && outIndex == 0
  {
    var b := new Overwrite.BufferFixedOverwrite<int>(3);
    b.Enqueue(10);
    first := b.Dequeue();
    b.Enqueue(20);
    second := b.Dequeue();
    storage, inIndex, outIndex := b.GetBuffer();
  }
}
