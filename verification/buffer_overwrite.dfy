/**
 * BufferFixedOverwrite: a pre-allocated ring whose enqueue never fails. Its
 * two cursors live in a small Iterator object; advancing the write cursor onto
 * a nonzero read cursor pushes the read cursor one slot forward.
 *
 * This is the behaviour of the code as written, which does not keep FIFO
 * order once the write cursor laps the read cursor, and whose `size` is not
 * capped at the capacity.
 */
module Overwrite {
  import opened Wrappers

  /** One step of a cursor over `0 .. maxIndex`, wrapping back to 0. */
  function Advance(i: nat, maxIndex: nat): (r: nat)
    requires i <= maxIndex
    ensures r <= maxIndex
    ensures r == (i + 1) % (maxIndex + 1)
  {
    if i == maxIndex then 0 else i + 1
  }

  /** Whether advancing the write cursor also pushes the read cursor. */
  predicate Evicts(inIndex: nat, outIndex: nat)
  {
    inIndex != 0 && inIndex == outIndex
  }

  /** The write cursor `inIndex` and the read cursor `outIndex`. */
  datatype Cursors = Cursors(inIndex: nat, outIndex: nat)

  /** The cursors lie in `0 .. maxIndex`. */
  predicate InRange(c: Cursors, maxIndex: nat)
  {
    c.inIndex <= maxIndex && c.outIndex <= maxIndex
  }

  /** The cursors after a read (`get_out`): the read cursor moves one slot, wrapping. */
  function ReadStep(c: Cursors, maxIndex: nat): (d: Cursors)
    requires InRange(c, maxIndex)
    ensures InRange(d, maxIndex)
    ensures d.outIndex == (c.outIndex + 1) % (maxIndex + 1) && d.inIndex == c.inIndex
  {
    c.(outIndex := Advance(c.outIndex, maxIndex))
  }

  /**
   * The cursors after a write (`get_in`): the write cursor moves one slot,
   * wrapping; the read cursor moves exactly when the write would land on it
   * away from slot 0, and then the two coincide again.
   */
  function WriteStep(c: Cursors, maxIndex: nat): (d: Cursors)
    requires InRange(c, maxIndex)
    ensures InRange(d, maxIndex)
    ensures d.inIndex == (c.inIndex + 1) % (maxIndex + 1)
    ensures d.outIndex != c.outIndex <==> Evicts(c.inIndex, c.outIndex)
    ensures Evicts(c.inIndex, c.outIndex) ==> d.outIndex == d.inIndex
  {
    var c' := if Evicts(c.inIndex, c.outIndex) then ReadStep(c, maxIndex) else c;
    c'.(inIndex := Advance(c.inIndex, maxIndex))
  }

  /** The cursors after `k` writes and no reads. */
  function WriteSteps(c: Cursors, k: nat, maxIndex: nat): (d: Cursors)
    requires InRange(c, maxIndex)
    ensures InRange(d, maxIndex)
    decreases k
  {
    if k == 0 then c else WriteStep(WriteSteps(c, k - 1, maxIndex), maxIndex)
  }

  lemma MulStep(d: int, n: int)
    requires 1 <= d && 0 < n
    ensures n <= d * n
  {
  }

  /** `a % n` is the `r` of any division `a == q * n + r` with `0 <= r < n`. */
  lemma ModUnique(a: int, n: int, q: int, r: int)
    requires 0 < n && 0 <= r < n && a == q * n + r
    ensures a % n == r
  {
    var q0, r0 := a / n, a % n;
    assert a == q0 * n + r0;
    if q > q0 {
      MulStep(q - q0, n);
      assert false;
    } else if q < q0 {
      MulStep(q0 - q, n);
      assert false;
    }
  }

  /** Stepping a reduced counter and reducing again is stepping the counter. */
  lemma AdvanceMod(a: nat, n: nat)
    requires 0 < n
    ensures ((a % n) + 1) % n == (a + 1) % n
  {
    var q, r := a / n, a % n;
    assert a == q * n + r;
    if r + 1 < n {
      ModUnique(a + 1, n, q, r + 1);
      ModUnique(r + 1, n, 0, r + 1);
    } else {
      assert a + 1 == (q + 1) * n;
      ModUnique(a + 1, n, q + 1, 0);
      ModUnique(r + 1, n, 1, 0);
    }
  }

  /**
   * Writes alone never move a read cursor that stands at slot 0: the write
   * cursor is 0 whenever it reaches the read cursor, so it never evicts, and
   * it simply counts the writes modulo the capacity.
   */
  lemma {:induction false} WritesKeepReadAtZero(c: Cursors, k: nat, maxIndex: nat)
    requires InRange(c, maxIndex) && c.outIndex == 0
    ensures WriteSteps(c, k, maxIndex) == Cursors((c.inIndex + k) % (maxIndex + 1), 0)
  {
    var n := maxIndex + 1;
    if k == 0 {
      ModUnique(c.inIndex, n, 0, c.inIndex);
    } else {
      var prev := WriteSteps(c, k - 1, maxIndex);
      WritesKeepReadAtZero(c, k - 1, maxIndex);
      assert prev == Cursors((c.inIndex + k - 1) % n, 0);
      assert !Evicts(prev.inIndex, prev.outIndex);
      AdvanceMod(c.inIndex + k - 1, n);
      assert WriteStep(prev, maxIndex).inIndex == (c.inIndex + k) % n;
    }
  }

  /** The write and read cursors of a BufferFixedOverwrite. */
  class Iterator {
    const maxIndex: nat
    var inIndex: nat
    var outIndex: nat

    /** Both cursors lie in `0 .. maxIndex`. */
    ghost predicate Valid()
      reads this
    {
      InRange(State(), maxIndex)
    }

    /** The two cursors as a value. */
    ghost function State(): Cursors
      reads this
    {
      Cursors(inIndex, outIndex)
    }

    constructor (maxIndex: nat)
      ensures Valid()
      ensures this.maxIndex == maxIndex && inIndex == 0 && outIndex == 0
    {
      this.maxIndex := maxIndex;
      inIndex, outIndex := 0, 0;
    }

    /** Returns the read cursor and advances it; the write cursor does not move. */
    method GetOut() returns (index: nat)
      requires Valid()
      modifies this
      ensures Valid()
      ensures index == old(outIndex) && index <= maxIndex
      ensures State() == ReadStep(old(State()), maxIndex)
    {
      index := outIndex;
      outIndex := Advance(outIndex, maxIndex);
    }

    /**
     * Returns the write cursor and advances it. The read cursor advances too
     * exactly when the old write cursor is nonzero and equal to it.
     */
    method GetIn() returns (index: nat)
      requires Valid()
      modifies this
      ensures Valid()
      ensures index == old(inIndex) && index <= maxIndex
      ensures State() == WriteStep(old(State()), maxIndex)
    {
      index := inIndex;
      if inIndex != 0 && inIndex == outIndex {
        var _ := GetOut();
      }
      inIndex := Advance(inIndex, maxIndex);
    }
  }

  class BufferFixedOverwrite<T> {
    /** The capacity, fixed at construction. */
    const maxSize: nat
    /** The pre-allocated slots; `None` marks a free slot. */
    const buffer: array<Option<T>>
    /** The cursors, owned by this buffer. */
    const iter: Iterator
    /** Incremented by every enqueue and decremented by every successful dequeue; never capped. */
    var size: nat

    /** The slots and the cursors cover the same `maxSize` positions. */
    ghost predicate Valid()
      reads this, iter
    {
      buffer.Length == maxSize == iter.maxIndex + 1 && iter.Valid()
    }

    constructor (maxSize: nat)
      requires maxSize >= 1
      ensures Valid() && fresh(buffer) && fresh(iter)
      ensures this.maxSize == maxSize && size == 0
      ensures buffer[..] == seq(maxSize, _ => None)
      ensures iter.inIndex == 0 && iter.outIndex == 0
    {
      this.maxSize := maxSize;
      buffer := new Option<T>[maxSize](_ => None);
      iter := new Iterator(maxSize - 1);
      size := 0;
    }

    method IsFull() returns (b: bool)
      requires Valid()
      ensures b <==> size == maxSize
    {
      b := size == maxSize;
    }

    method IsEmpty() returns (b: bool)
      requires Valid()
      ensures b <==> size == 0
    {
      b := size == 0;
    }

    /**
     * Writes `item` at the slot the write cursor names and counts it; never
     * fails, and overwrites whatever that slot held.
     */
    method Enqueue(item: T)
      requires Valid()
      modifies this, buffer, iter
      ensures Valid()
      ensures buffer[..] == old(buffer[..])[old(iter.inIndex) := Some(item)]
      ensures size == old(size) + 1
      ensures iter.State() == WriteStep(old(iter.State()), iter.maxIndex)
    {
      var i := iter.GetIn();
      buffer[i] := Some(item);
      size := size + 1;
    }

    /**
     * When `size` is zero, returns `None` and changes nothing. Otherwise reads
     * and clears the slot the read cursor names, advances that cursor, and
     * returns what the slot held, which may itself be `None`.
     */
    method Dequeue() returns (r: Option<T>)
      requires Valid()
      modifies this, buffer, iter
      ensures Valid()
      ensures old(size) == 0 ==> r == None && unchanged(this) && unchanged(buffer) && unchanged(iter)
      ensures old(size) != 0 ==> r == old(buffer[iter.outIndex]) && size == old(size) - 1
      ensures old(size) != 0 ==> buffer[..] == old(buffer[..])[old(iter.outIndex) := None]
      ensures old(size) != 0 ==> iter.State() == ReadStep(old(iter.State()), iter.maxIndex)
    {
      if size != 0 {
        var outIndex := iter.GetOut();
        r := buffer[outIndex];
        buffer[outIndex] := None;
        size := size - 1;
      } else {
        r := None;
      }
    }

    /** A snapshot of the slots and of the two cursors. */
    method GetBuffer() returns (view: seq<Option<T>>, inIndex: nat, outIndex: nat)
      requires Valid()
      ensures |view| == maxSize && inIndex < maxSize && outIndex < maxSize
      ensures view == buffer[..] && inIndex == iter.inIndex && outIndex == iter.outIndex
    {
      view, inIndex, outIndex := buffer[..], iter.inIndex, iter.outIndex;
    }
  }
}
