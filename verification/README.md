# Bounded FIFO ring buffers, modelled in Dafny

`main.py` defines three ring-buffer queues:

- `BufferDynamic` keeps its slots in a Python list. The list starts empty and
  grows by `append` until it reaches `max_size`; after that, slots are reused
  at `tail`.
- `BufferFixed` pre-allocates `max_size` slots holding `None`. It advances
  `head` and `tail` modulo `max_size` and keeps a count `size`.
- `BufferFixedOverwrite` pre-allocates its slots too, but delegates its two
  cursors to a nested `Iterator`. Its enqueue never fails. Its dequeue
  returns `None` instead of raising.

The first two raise when an enqueue finds the buffer full or a dequeue finds
it empty. Each raise happens before anything is changed.

## How the model is built

- `wrappers.dfy` (module `Wrappers`): `Option`, used for slots and for the
  `None` sentinel, plus `Result` and `Outcome`, used for "returns a value or
  raises" and "returns nothing or raises".
- `ring.dfy` (module `Ring`): what the two bounded buffers share.
  - `Slot(head, k, n)` is the cursor step `(head + k) % n`, written as an
    explicit wrap.
  - `Window(slots, head, size)` is the queue a ring stands for: the `size`
    slots from `head`, oldest first.
  - `Shape` is the ring invariant: the cursors are in range,
    `tail == (head + size) % n`, and a slot holds an item exactly when it
    lies within the window.
  - `Pad` views the growing list as a ring of `max_size` slots.
  - Lemmas show that a write at `tail` and a clear at `head` keep the
    invariant and append to or pop from the window. Another shows that an
    append to a list shorter than the ring is a write of the slot at `tail`.
- `buffer_fixed.dfy` (module `Fixed`) and `buffer_dynamic.dfy` (module
  `Dynamic`): one class each. Each has the source's fields, a `Valid()`
  object invariant and a ghost `Contents()` (the window). Every method is
  proved against these.
  - Enqueue appends the item to `Contents()`.
  - Dequeue returns `Contents()[0]` and drops it.
  - Both state the exact new slots and cursors.
  - On failure, both state that no field changed.
- `buffer_overwrite.dfy` (module `Overwrite`): classes `Iterator` and
  `BufferFixedOverwrite`.
  - The cursor steps are also pure functions over a `Cursors` value:
    `ReadStep` for `get_out` and `WriteStep` for `get_in`. The methods are
    proved against them.
  - The buffer is modelled exactly as written. No FIFO property is claimed
    for it.
- `scenarios.dfy` (module `Scenarios`): client methods that drive each
  buffer through a fixed sequence of calls. Each method states exactly what
  the calls return, proved from the classes' contracts alone.

Where the code and its documentation disagree, the model follows the code:

- The `BufferFixedOverwrite` docstring (main.py:106-108) says it overflows
  without breaking the FIFO queue. The code does not keep FIFO order:
  - With capacity 3, enqueueing 10, 20, 30, 40 and then dequeueing gives
    40, 20, 30, then `None`. The write cursor is 0 when it laps the read
    cursor, and the eviction at main.py:156 is skipped when the write cursor
    is 0.
  - Enqueue 10, dequeue, enqueue 20 makes the next dequeue return `None`.
  - `size` grows past the capacity, so `is_full` stops reporting full.
  - `Scenarios.OverwriteLap`, `Scenarios.OverwriteReadPast` and
    `Overwrite.WritesKeepReadAtZero` prove these facts.
- The `BufferDynamic` docstring (main.py:5-8) says the list grows or shrinks
  with the number of queued items. In the code the list never shrinks, and
  it grows on every enqueue until it reaches the capacity, however few items
  are queued. `Scenarios.DynamicGrowth` proves a two-slot list after a queue
  that never held more than one item.

## Model

| member | source | states |
|---|---|---|
| `Ring.Slot` | main.py:88 | advancing a cursor by one or more places keeps it inside the ring of `max_size` slots |
| `Ring.SlotIsMod` | main.py:37 | the cursor step equals the source's `(cursor + 1) % max_size`, and generally `(head + k) % n` |
| `Ring.ShapeCursors` | main.py:71-98 | under the ring invariant, `0 <= head, tail < max_size`, `size <= max_size` and `tail == (head + size) % max_size` |
| `Ring.EmptyShape` | main.py:71-76 | a ring of `max_size` `None` slots with `head = tail = size = 0` satisfies the invariant and stands for the empty queue |
| `Ring.WriteTail` | main.py:87-89 | writing an item at `tail`, then advancing `tail` and incrementing `size`, keeps the invariant and appends the item to the queue |
| `Ring.ClearHead` | main.py:94-97 | on a non-empty ring, slot `head` holds an item; clearing it, then advancing `head` and decrementing `size`, keeps the invariant and drops exactly that item from the front of the queue |
| `Ring.WindowItems` | main.py:87-98 | in a valid ring every position of the queue holds an item, never the `None` sentinel, so a dequeue never returns a cleared slot |
| `Ring.OffsetSlot` | main.py:96 | counting `k < n` places from `head` and measuring the distance back gives `k`, so distinct queue positions occupy distinct slots |
| `Ring.PadAppend` | main.py:33-34 | appending to a list shorter than the ring changes the padded ring exactly at the index equal to the list's old length |
| `Ring.PadUpdate` | main.py:44 | assigning a slot of the list assigns the same slot of the padded ring |
| `Ring.PadFull` | main.py:35-36 | once the list has `max_size` elements, the padded ring is the list itself |
| `Dynamic.BufferDynamic.constructor` | main.py:17-22 | a new buffer has an empty list, zero cursors and count, and an empty queue |
| `Dynamic.BufferDynamic.Contents` | main.py:17-47 | the queue the buffer stands for, oldest first; every entry is an enqueued item, never the `None` sentinel |
| `Dynamic.BufferDynamic.IsEmpty` | main.py:24-25 | true exactly when the queue is empty |
| `Dynamic.BufferDynamic.IsFull` | main.py:27-28 | true exactly when the queue holds `max_size` items |
| `Dynamic.BufferDynamic.Enqueue` | main.py:30-38 | fails with BufferFull, changing nothing, exactly when full; otherwise appends to the list while it is shorter than `max_size`, else writes slot `tail`. Either way the padded ring changes only at `tail`, the queue gains the item at its end, `tail` advances and `size` grows by one. The invariant kept includes `tail == len(buffer)` while the list is short |
| `Dynamic.BufferDynamic.Dequeue` | main.py:40-47 | fails with BufferEmpty, changing nothing, exactly when empty; otherwise `head` is inside the list, the result is the front of the queue and the item that slot `head` held, only that slot is set to `None`, `head` advances and `size` drops by one |
| `Dynamic.BufferDynamic.GetBuffer` | main.py:49-50 | returns a snapshot of the list, never longer than `max_size`, from which the queue is read off at `head` |
| `Fixed.BufferFixed.constructor` | main.py:71-76 | a new buffer has `max_size` `None` slots, zero cursors and count, and an empty queue |
| `Fixed.BufferFixed.Contents` | main.py:71-98 | the queue the buffer stands for, oldest first; every entry is an enqueued item, never the `None` sentinel |
| `Fixed.BufferFixed.IsEmpty` | main.py:78-79 | true exactly when the queue is empty |
| `Fixed.BufferFixed.IsFull` | main.py:81-82 | true exactly when the queue holds `max_size` items |
| `Fixed.BufferFixed.Enqueue` | main.py:84-89 | fails with BufferFull, changing nothing, exactly when full; otherwise writes only slot `tail`, appends the item to the queue, advances `tail` modulo `max_size` and increments `size` |
| `Fixed.BufferFixed.Dequeue` | main.py:91-98 | fails with BufferEmpty, changing nothing, exactly when empty; otherwise returns the front of the queue (the old content of slot `head`), sets only that slot to `None`, advances `head` modulo `max_size` and decrements `size` |
| `Fixed.BufferFixed.GetBuffer` | main.py:100-101 | returns a snapshot of all `max_size` slots, from which the queue is read off at `head` |
| `Overwrite.Advance` | main.py:166-169 | the wrap-at-`max_index` step stays in `0..max_index` and equals `(i + 1) % (max_index + 1)` |
| `Overwrite.ReadStep` | main.py:164-170 | `get_out` moves the read cursor to `(out + 1) % (max_index + 1)` and leaves the write cursor alone |
| `Overwrite.WriteStep` | main.py:154-162 | `get_in` moves the write cursor to `(in + 1) % (max_index + 1)`; the read cursor moves exactly when the old write cursor is nonzero and equal to it, and then the two coincide; both stay in range |
| `Overwrite.WriteSteps` | main.py:154-162 | any number of `get_in` calls keeps both cursors in `0..max_index` |
| `Overwrite.WritesKeepReadAtZero` | main.py:155-161 | starting with the read cursor at 0, any number of writes without reads never moves it, and the write cursor is the start plus the number of writes, modulo the capacity |
| `Overwrite.Iterator.constructor` | main.py:146-149 | both cursors start at 0 |
| `Overwrite.Iterator.GetOut` | main.py:164-170 | returns the old read cursor and performs `ReadStep` on the cursors |
| `Overwrite.Iterator.GetIn` | main.py:154-162 | returns the old write cursor and performs `WriteStep` on the cursors, calling `GetOut` on the eviction path |
| `Overwrite.BufferFixedOverwrite.constructor` | main.py:111-115 | `max_size` `None` slots, an Iterator with `max_index = max_size - 1` and both cursors at 0, and `size` 0 |
| `Overwrite.BufferFixedOverwrite.IsFull` | main.py:117-118 | true exactly when `size == max_size`, which stops holding once `size` passes the capacity |
| `Overwrite.BufferFixedOverwrite.IsEmpty` | main.py:120-121 | true exactly when `size == 0` |
| `Overwrite.BufferFixedOverwrite.Enqueue` | main.py:123-125 | never fails; writes the item at the old write cursor, changing only that slot; performs `WriteStep`; increments `size` with no cap |
| `Overwrite.BufferFixedOverwrite.Dequeue` | main.py:127-135 | on `size == 0` returns `None` and changes nothing; otherwise returns the old content of the slot at the read cursor, which may be `None`, clears only that slot, performs `ReadStep` and decrements `size` |
| `Overwrite.BufferFixedOverwrite.GetBuffer` | main.py:137-138 | returns a snapshot of the slots and of both cursors, each cursor below `max_size` |
| `Scenarios.FixedRefill` | main.py:84-98 | capacity 5: enqueue a, b, c, dequeue (gives a), enqueue d, e, f. The buffer is then full, the next enqueue fails with BufferFull, the five dequeues give b, c, d, e, f in order, and the sixth fails with BufferEmpty |
| `Scenarios.FixedFresh` | main.py:71-98 | a fresh buffer is empty, not full, and refuses a dequeue |
| `Scenarios.DynamicReuse` | main.py:30-47 | capacity 2: after the list has grown to full length, the wrapped enqueue reuses slot 0, items still come out in order, and the list is left with two `None` slots |
| `Scenarios.DynamicGrowth` | main.py:33-34 | enqueue, dequeue, enqueue on capacity 3 leaves the list `[None, 2]`: it grew although the queue never held two items |
| `Scenarios.OverwriteLap` | main.py:123-170 | capacity 3, enqueue 10, 20, 30, 40: `size` is 4 and `is_full` is false; dequeues give 40, 20, 30, `None`, `None` |
| `Scenarios.OverwriteReadPast` | main.py:154-157 | capacity 3, enqueue 10, dequeue (gives 10), enqueue 20: the write pushes the read cursor past 20, so the next dequeue gives `None`, and 20 stays stranded in slot 1 |

## Left out

- `main()` and the `__main__` guard (main.py:173-178): an empty stub.
- The string rendering of `BufferFixedOverwrite.get_buffer` and `Iterator.get_val` (main.py:137-138, 151-152).
  `GetBuffer` returns the slots and both cursors as values instead of formatting them.
- `get_buffer` of the two bounded buffers returns the internal list itself, so a caller can mutate the buffer through it.
  The model returns a snapshot and does not capture that aliasing.
- The exception messages (main.py:32, 42, 86, 93). Only the failure kind is modelled.
- Python's `None` used as an item: the model keeps items (`Some(x)`) distinct from the empty sentinel (`None`).
  In the source, an enqueued `None` is indistinguishable from a cleared slot.
- A capacity below 1: every constructor requires `max_size >= 1`, which the source does not check.
  - At capacity 0, `BufferDynamic` and `BufferFixed` are valid buffers that are always both empty and full.
    `enqueue` raises "Buffer is full" and `dequeue` raises "Buffer is empty" before any `% 0` is reached.
  - At capacity 0, `BufferFixedOverwrite.enqueue` raises an IndexError at main.py:124.
  - With a negative capacity, the first enqueue of any of the three buffers raises an IndexError (main.py:36, 87, 124).
- The default argument `max_index=1` of `Iterator.__init__`. The only caller always passes `max_size - 1`.
- `Iterator.max_index` is a public attribute in the source. It is modelled as a constant because no code assigns it.
- Concurrency: the source has none, and the model assumes a single caller.
