# Arena allocator

A model of `arena_allocator.h`, a single-header bump allocator written in C.
An `Arena` owns a singly linked chain of `Buffer`s. Each buffer has a fixed
capacity counted in 8-byte chunks and a fill count. `arena_alloc` rounds a
byte size up to whole chunks. It creates the first buffer lazily, with at
least 8192 chunks. It then hands out the active buffer's fill count as the
offset of the new range and advances the fill count by the chunk count.
`arena_reset` zeroes every fill count and keeps all buffers. `arena_free`
walks the chain, releases every buffer that has a successor (so the last
one is never released) and sets both pointers of the arena to null.

The project has two layers:

- `ArenaSpec` (`arena_spec.dfy`) is the value-level specification. An arena
  is a `seq<BufferView>`, one `(capacity, used)` pair per buffer, in chain
  order. Allocation, reset and release are functions on it. `size_t`
  arithmetic is written out modulo 2^64 (`AddSize`), because the rounding
  step and the fill-count bump both wrap in C.
- `ArenaAllocator` (`arena_allocator.dfy`) is the imperative model. It has
  the `Buffer` and `Arena` structs as classes whose fields are updated in
  place. A ghost `chain` lists the nodes reachable from `begin`, and
  `Arena.Valid()` ties `begin`, `end`, the links and the counts to it.
  `Arena.Alloc`, `Arena.AllocChecked`, `Arena.BumpEnd`, `Arena.Reset` and
  `Arena.Free` are proved against the matching `ArenaSpec` function
  (`Allocate`, `AllocateChecked`, `BumpLast`, `ResetAll`, `FreedAsWritten`).
  `Arena.LinkBuffer` is proved to append one empty buffer view,
  `Arena.FreeAll` to release exactly the old chain, and the constructors to
  set the fields they name. A call to
  `free()` is modelled by returning the sequence of buffers handed to it.

Where the header's documentation and its code disagree, the model follows
the code (`Arena.Alloc`, `Arena.Free`). The documented behaviour is modelled
next to it as a corrected member (`Arena.AllocChecked`, `Arena.FreeAll`).
See "## Findings" below.

## Model

| member | source | states |
|---|---|---|
| ArenaSpec.AddSize | arena_allocator.h:101 | a `size_t` sum is the exact sum when it fits, and otherwise the sum minus 2^64, which is smaller than both operands |
| ArenaSpec.ChunkCount | arena_allocator.h:87-88 | the chunk count computed as written: 0 for size 0; for sizes up to SIZE_MAX-7 the least k with size <= 8k; 0 for larger sizes, where `size + 7` wraps; never more chunks than bytes |
| ArenaSpec.ChunksFor | arena_allocator.h:87-88 | the intended rounding: the least k with size <= 8k for every size, and k*8 never exceeds 2^64 for a `size_t` size |
| ArenaSpec.ChunkCountIsChunksForBelowWrap | arena_allocator.h:87-88 | the written rounding equals the intended one for every size up to SIZE_MAX-7 |
| ArenaSpec.ChunkCountWrapsAtSizeMax | arena_allocator.h:87-88 | for SIZE_MAX the written rounding yields 0 chunks where 2^61 are needed |
| ArenaSpec.NewBufferCapacity | arena_allocator.h:94-95 | a new buffer holds at least the requested chunks and at least the 8192-chunk default, and is exactly one of the two |
| ArenaSpec.BumpLast | arena_allocator.h:100-101 | adding chunks to the last buffer's fill count in `size_t` keeps every count a `size_t` value |
| ArenaSpec.Allocate | arena_allocator.h:84-103 | arena_alloc as written: an empty arena gains exactly one buffer, a non-empty one never gains a buffer, and the range is always in the last buffer |
| ArenaSpec.AllocateOnEmpty | arena_allocator.h:90-98 | the first allocation creates one buffer of the default or larger capacity, returns offset 0 in it, fills exactly the requested chunks and fits |
| ArenaSpec.AllocateBumpsActive | arena_allocator.h:100-101 | on a non-empty arena the offset is the old fill count, the capacity is unchanged, the fill grows by the chunk count when the sum fits in `size_t` and by the chunk count minus 2^64 when it wraps, and earlier buffers are untouched |
| ArenaSpec.SuccessiveAllocationsAdjacent | arena_allocator.h:100-101 | two allocations in a row land in the same buffer, and the second starts exactly where the first ends |
| ArenaSpec.AllocateOverfillsBuffer | arena_allocator.h:100-101 | allocating 8192 chunks and then one more chunk puts 8193 chunks into an 8192-chunk buffer, which no longer fits |
| ArenaSpec.WithRoom | arena_allocator.h:54 | adding a buffer only when the arena is empty or the active buffer lacks room keeps every count a `size_t` value |
| ArenaSpec.AllocateChecked | arena_allocator.h:51-59 | arena_alloc as documented: a new buffer is linked exactly when the arena is empty or the active buffer lacks room; the range lies inside its buffer; every buffer still fits; earlier buffers are unchanged; a new buffer's capacity follows the creation rule |
| ArenaSpec.AllocateAgreesWhileItFits | arena_allocator.h:84-103 | while the request does not wrap and the active buffer has room, the written and the documented allocation give the same result |
| ArenaSpec.ResetAll | arena_allocator.h:105-111 | reset keeps the number of buffers and every capacity, and sets every fill count to 0 |
| ArenaSpec.ResetIdempotent | arena_allocator.h:105-111 | resetting twice is the same as resetting once |
| ArenaSpec.ResetRestoresFit | arena_allocator.h:105-111 | after a reset every buffer fits again, even one the as-written allocator overfilled |
| ArenaSpec.FreedAsWritten | arena_allocator.h:113-120 | the traversal as written hands every buffer except the last one to free(), in chain order |
| ArenaSpec.FreeLeaksLast | arena_allocator.h:113-120 | of a chain of distinct buffers all but the last are freed and the last never is; a one-buffer arena frees nothing |
| ArenaAllocator.Buffer.constructor | arena_allocator.h:73-82 | buffer_new: an unlinked buffer with the given capacity and fill count 0 |
| ArenaAllocator.Arena.constructor | arena_allocator.h:34-39 | a zero-initialised arena is empty and valid |
| ArenaAllocator.Arena.Alloc | arena_allocator.h:84-103 | arena_alloc as written: the new buffer views are `Allocate`'s; the returned buffer is the active one and the offset is `Allocate`'s; begin, end and the chain are unchanged on a non-empty arena; an empty arena gets one fresh buffer as both begin and end |
| ArenaAllocator.Arena.AllocChecked | arena_allocator.h:51-59 | the documented allocation on the linked structure: the new views are `AllocateChecked`'s, so every buffer still fits; the old chain is a prefix of the new one; a buffer added to the chain is fresh |
| ArenaAllocator.Arena.LinkBuffer | arena_allocator.h:54 | linking a new empty buffer after end appends exactly one fresh buffer to the chain and makes it the active one |
| ArenaAllocator.Arena.BumpEnd | arena_allocator.h:100-101 | returns the active buffer's old fill count and advances that count in `size_t`, as `BumpLast` does |
| ArenaAllocator.Arena.Reset | arena_allocator.h:105-111 | arena_reset: begin, end and the chain are unchanged and the buffer views become `ResetAll` of the old ones |
| ArenaAllocator.Arena.Free | arena_allocator.h:113-127 | arena_free as written: needs a non-empty arena, leaves it empty, and hands `FreedAsWritten` of the chain, the last buffer excluded, to free() |
| ArenaAllocator.Arena.FreeAll | arena_allocator.h:113-127 | the corrected release: hands every buffer of the chain to free() in order, the last one included, and leaves the arena empty, an empty arena included |
| ArenaAllocator.AllocTwice | arena_allocator.h:100-101 | two arena_alloc calls on one arena return the same buffer, and the second offset is the first offset plus the first chunk count |

## Left out

- The byte storage of a buffer (`m_data`) and the pointers into it are not modelled. An allocation is identified by its buffer and its chunk offset, so the returned pointer is `m_data + offset` chunks.
- A failing `malloc` in buffer_new (arena_allocator.h:75, whose result is used unchecked at line 77) is not modelled: every allocation of a buffer succeeds.
- The byte size computed for `malloc` in buffer_new (arena_allocator.h:74), `sizeof(Buffer) + 8 * chunk_count`, can itself overflow `size_t`. This is not modelled, because the storage is not.
- `free()` is modelled as the returned sequence of released buffers. Memory reuse and use after free are out of scope. buffer_free (arena_allocator.h:49) only forwards to `free()`, and arena_free does not call it, so it is not modelled separately.
- The `assert(t_arena->begin == nullptr)` on arena_allocator.h:93 is an abort in C. Here it is a checked assertion that `Arena.Valid()` proves, so it never fails.
- The include guard, the `true`/`false`/`nullptr` macros and the implementation switch (arena_allocator.h:1-12, 71) are not modelled. The chunk size is fixed at 8 bytes and the default capacity at 8192 chunks.
- Concurrency is not modelled. The header has no locking, and every operation is modelled as one sequential step.
- Reuse of earlier buffers after a reset is not modelled. arena_reset keeps `end`, so the next allocation continues in the last buffer, and the earlier buffers stay empty until the next reset.
- ArenaSpec.SuccessiveAllocationsAdjacent: it requires that the two chunk counts added to the fill count do not wrap past SIZE_MAX. Beyond that bound the offsets wrap, and `AllocateBumpsActive` states the wrapped value.
- ArenaAllocator.AllocTwice: it carries the same no-wrap requirement as `SuccessiveAllocationsAdjacent`.
- ArenaAllocator.Arena.Free: it requires a non-empty arena, because the code reads `begin->m_next` before any null check. `FreeAll` is the corrected release that handles the empty arena.

## Findings

| source | as written | input that shows it | evidently intended | confidence | as-written member | corrected member |
|---|---|---|---|---|---|---|
| arena_allocator.h:100-101 | the fill count is advanced with no check against the capacity, so an allocation can run past the end of its buffer | on an empty arena, arena_alloc(65536) and then arena_alloc(8): the buffer of 8192 chunks holds 8193 | when the active buffer lacks room, a new buffer is linked and becomes the active one (arena_allocator.h:54) | high; not executed | ArenaSpec.AllocateOverfillsBuffer | ArenaSpec.AllocateChecked |
| arena_allocator.h:114-119 | the loop stops at the buffer that has no successor, and the code after it releases nothing, so the last buffer leaks; `begin->m_next` is also read before any null check | an arena with one buffer: free() is never called on it; a zero-initialised arena: null dereference | every buffer is released, and an empty arena is left as it is | high; not executed | ArenaSpec.FreeLeaksLast | ArenaAllocator.Arena.FreeAll |
| arena_allocator.h:87-88 | `size + 7` is computed in `size_t` and wraps for the seven largest sizes, SIZE_MAX-6 to SIZE_MAX | arena_alloc(SIZE_MAX) rounds to 0 chunks and returns a zero-length range | the least number of chunks covering the size | medium; not executed | ArenaSpec.ChunkCountWrapsAtSizeMax | ArenaSpec.ChunksFor |
