/**
 * Index arithmetic and the slot invariant shared by the two bounded buffers
 * (BufferDynamic and BufferFixed): a ring of `n` slots, a read cursor `head`,
 * a write cursor `tail` and a count `size`.
 */
module Ring {
  import opened Wrappers

  /** The two exceptions the bounded buffers raise. */
  datatype Error = BufferFull | BufferEmpty

  /** The slot `k` places after `head` in a ring of `n` slots, wrapping past the end. */
  function Slot(head: nat, k: nat, n: nat): (r: nat)
    requires head < n && k <= n
    ensures r < n
  {
    if head + k < n then head + k else head + k - n
  }

  /** `Slot` is Python's `(head + k) % n`. */
  lemma SlotIsMod(head: nat, k: nat, n: nat)
    requires head < n && k <= n
    ensures Slot(head, k, n) == (head + k) % n
  {
    ModBelowTwice(head + k, n);
  }

  /** How many places slot `i` lies after `head`: the inverse of `Slot`. */
  function Offset(i: nat, head: nat, n: nat): (d: nat)
    requires i < n && head < n
    ensures d < n && Slot(head, d, n) == i
  {
    if head <= i then i - head else i + n - head
  }

  /** Counting `k` places from `head` and measuring back from `head` gives `k` again. */
  lemma OffsetSlot(head: nat, k: nat, n: nat)
    requires head < n && k < n
    ensures Offset(Slot(head, k, n), head, n) == k
  {
  }

  /** `a % n` for `0 <= a < 2 * n`, without the division. */
  lemma ModBelowTwice(a: nat, n: nat)
    requires a < 2 * n
    ensures a % n == if a < n then a else a - n
  {
    if a < n {
      assert a == 0 * n + a;
    } else {
      assert a == 1 * n + (a - n);
    }
  }

  /** The `size` slots from `head` onwards, in reading order. */
  function Window<T>(slots: seq<T>, head: nat, size: nat): (w: seq<T>)
    requires head < |slots| && size <= |slots|
    ensures |w| == size
    ensures forall k {:trigger Slot(head, k, |slots|)} ::
              0 <= k < size ==> w[k] == slots[Slot(head, k, |slots|)]
  {
    seq(size, k requires 0 <= k < size => slots[Slot(head, k, |slots|)])
  }

  /**
   * The invariant of a bounded ring: the cursors are in range, `tail` is
   * `size` places after `head`, and a slot holds an item exactly when it lies
   * within the `size` slots from `head`; every other slot holds the sentinel.
   */
  ghost predicate Shape<T>(slots: seq<Option<T>>, head: nat, tail: nat, size: nat)
  {
    0 < |slots| && head < |slots| && tail < |slots| && size <= |slots| &&
    tail == Slot(head, size, |slots|) &&
    forall i {:trigger Offset(i, head, |slots|)} ::
      0 <= i < |slots| ==> (slots[i].Some? <==> Offset(i, head, |slots|) < size)
  }

  /**
   * The cursor invariant in the source's own terms: both cursors index the
   * ring, the count is at most its length, and `tail == (head + size) % n`.
   */
  lemma ShapeCursors<T>(slots: seq<Option<T>>, head: nat, tail: nat, size: nat)
    requires Shape(slots, head, tail, size)
    ensures head < |slots| && tail < |slots| && size <= |slots|
    ensures tail == (head + size) % |slots|
  {
    SlotIsMod(head, size, |slots|);
  }

  /** Every entry of the window of a valid ring is an item, never the sentinel. */
  lemma WindowItems<T>(slots: seq<Option<T>>, head: nat, tail: nat, size: nat)
    requires Shape(slots, head, tail, size)
    ensures forall k :: 0 <= k < size ==> Window(slots, head, size)[k].Some?
  {
    forall k | 0 <= k < size
      ensures Window(slots, head, size)[k].Some?
    {
      OffsetSlot(head, k, |slots|);
    }
  }

  /** A ring of `n` sentinel slots with both cursors at 0 is a valid, empty ring. */
  lemma EmptyShape<T>(n: nat)
    requires 0 < n
    ensures Shape(seq<Option<T>>(n, _ => None), 0, 0, 0)
    ensures Window(seq<Option<T>>(n, _ => None), 0, 0) == []
  {
  }

  /**
   * Writing an item at `tail` and advancing `tail` keeps the invariant and
   * appends the item to the window.
   */
  lemma WriteTail<T>(slots: seq<Option<T>>, head: nat, tail: nat, size: nat, x: T)
    requires Shape(slots, head, tail, size) && size < |slots|
    ensures Shape(slots[tail := Some(x)], head, Slot(tail, 1, |slots|), size + 1)
    ensures Window(slots[tail := Some(x)], head, size + 1) == Window(slots, head, size) + [Some(x)]
  {
    var n := |slots|;
    var s := slots[tail := Some(x)];
    assert Offset(tail, head, n) == size;
    forall i | 0 <= i < n
      ensures s[i].Some? <==> Offset(i, head, n) < size + 1
    {
      if i != tail {
        assert Offset(i, head, n) != size;
      }
    }
    forall k | 0 <= k < size
      ensures Window(s, head, size + 1)[k] == Window(slots, head, size)[k]
    {
      assert Slot(head, k, n) != tail;
    }
  }

  /**
   * Clearing the slot at `head` and advancing `head` keeps the invariant and
   * drops the first element of the window, which is an item.
   */
  lemma ClearHead<T>(slots: seq<Option<T>>, head: nat, tail: nat, size: nat)
    requires Shape(slots, head, tail, size) && 0 < size
    ensures slots[head].Some?
    ensures Shape(slots[head := None], Slot(head, 1, |slots|), tail, size - 1)
    ensures Window(slots, head, size) == [slots[head]] + Window(slots[head := None], Slot(head, 1, |slots|), size - 1)
  {
    var n := |slots|;
    var s := slots[head := None];
    var h := Slot(head, 1, n);
    assert Offset(head, head, n) == 0;
    forall i | 0 <= i < n
      ensures s[i].Some? <==> Offset(i, h, n) < size - 1
    {
      if i != head {
        assert Offset(i, h, n) + 1 == Offset(i, head, n);
      }
    }
    forall k | 1 <= k < size
      ensures Window(slots, head, size)[k] == Window(s, h, size - 1)[k - 1]
    {
      assert Slot(h, k - 1, n) == Slot(head, k, n) != head;
    }
  }

  /** A list of at most `n` slots, viewed as a ring of `n` slots whose missing tail is sentinels. */
  function Pad<T>(list: seq<Option<T>>, n: nat): (p: seq<Option<T>>)
    requires |list| <= n
    ensures |p| == n
    ensures forall i :: 0 <= i < |list| ==> p[i] == list[i]
    ensures forall i :: |list| <= i < n ==> p[i] == None
  {
    list + seq(n - |list|, _ => None)
  }

  /** Appending to a list shorter than the ring is the same as writing the slot at its length. */
  lemma PadAppend<T>(list: seq<Option<T>>, n: nat, x: Option<T>)
    requires |list| < n
    ensures Pad(list + [x], n) == Pad(list, n)[|list| := x]
  {
  }

  /** Writing a slot of the list is writing the same slot of the padded ring. */
  lemma PadUpdate<T>(list: seq<Option<T>>, n: nat, i: nat, x: Option<T>)
    requires |list| <= n && i < |list|
    ensures Pad(list[i := x], n) == Pad(list, n)[i := x]
  {
  }

  /** A list already as long as the ring needs no padding. */
  lemma PadFull<T>(list: seq<Option<T>>, n: nat)
    requires |list| == n
    ensures Pad(list, n) == list
  {
  }
}
