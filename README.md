# Heap allocator layer of liballoc, modelled in Dafny

`src/liballoc/heap.rs` is the allocation layer that every owning pointer and
growable collection in the library sits on. It gives one interface
(`allocate`, `reallocate`, `reallocate_inplace`, `deallocate`, `usable_size`)
over a backend that is picked at build time: jemalloc, the platform's own
allocator (POSIX or Windows), or an external implementation. Above that
interface sit the unique-pointer hooks `exchange_malloc` and `exchange_free`.
`exchange_malloc` gives the shared non-null `EMPTY` address for size 0. When
an allocation fails, it hands control to the out-of-memory handler.

The model has four modules:

- `Alignment` (alignment.dfy): the architecture's `MIN_ALIGN`, powers of two,
  `trailing_zeros`, and the jemalloc flag functions `mallocx_align` and
  `align_to_flags`. Its lemmas show that trailing zeros invert `2^k`. They
  also show that flag 0 is given exactly on the fast path `align <= MIN_ALIGN`.
- `Jemalloc` (jemalloc.dfy): each jemalloc operation is modelled as the
  `je_*allocx` call it makes, together with that call's flags. The lemmas say
  which alignment those flags ask jemalloc for. They also show that all five
  operations on a block pass the same flags.
- `Memory` (memory.dfy): the live blocks are a map from address to (bytes,
  guaranteed alignment, primitive that made the block). The module also
  states `ptr::copy_memory` and the documented contracts of allocate,
  reallocate and deallocate, each as a relation between the heap before and
  after the call. The allocate–copy–free slow path is stated twice, as
  written and with the null test.
- `Heap` (heap.dfy): the class `NativeHeap` holds the live blocks and a trace
  of the foreign calls made. Its methods are:
  - the foreign primitives, which may fail nondeterministically;
  - the POSIX and Windows backends built on those primitives;
  - the public entry points;
  - `exchange_malloc` and `exchange_free`.

  The module also has the degenerate `usable_size` and `reallocate_inplace`,
  and the test `basic_reallocate_inplace_noop`.

Every backend method except the as-written POSIX `reallocate` is proved
against the contract relations in `Memory`. A successful `reallocate` keeps
the first `min(old_size, size)` bytes, frees the old block and changes no
other block. A failed one leaves the heap as it was.

The POSIX slow path as written breaks the failure half of that contract (see
Findings). So `reallocate` has two entry points:

- `NativeHeap.ReallocateAsWritten` forwards to the code as written. It meets
  the contract everywhere except on a failed POSIX slow-path allocation,
  where the original block is freed and null is returned.
- `NativeHeap.Reallocate` forwards to the corrected POSIX slow path, with the
  null test added, and meets the whole contract. It is therefore not the
  program's own `reallocate` on POSIX when `align > MIN_ALIGN`.

Modelling choices:

- `MIN_ALIGN` is the function `MinAlign` of an `Arch` parameter (8 on
  arm/mips/mipsel, 16 on x86/x86_64). It is not a build-time constant.
- The build-time choice of backend becomes the constant `os` of a
  `NativeHeap`, which the entry points dispatch on.
- `Aligned(p, a)` says that `p` is a multiple of the power of two `a`. It is
  defined by repeated halving, so every proof uses only `% 2` and `/ 2`.
- The caller's obligation to pass the `(old_size, align)` a block was created
  with is the predicate `CreatedWith`. On these backends `usable_size(size)`
  is `size`, so the allowed range for `old_size` is exactly the requested
  size.

## Model

| member | source | states |
|---|---|---|
| `Alignment.MinAlign` | src/liballoc/heap.rs:118-124 | MIN_ALIGN is 8 or 16, and 16 exactly on x86 and x86_64 |
| `Alignment.MultipleIsAligned` | src/liballoc/heap.rs:15 | every multiple of 2^k satisfies `Aligned(_, 2^k)`, so the alignment predicate held by every block admits every aligned address |
| `Alignment.AlignedIsMultiple` | src/liballoc/heap.rs:15 | every address satisfying `Aligned(_, 2^k)` is a multiple of 2^k, so "aligned to `align`" in each contract means exactly that |
| `Alignment.TrailingZeros` | src/liballoc/heap.rs:210 | the count never exceeds the word width, and a zero word has width-many trailing zeros |
| `Alignment.TrailingZerosOfPow2` | src/liballoc/heap.rs:210 | trailing_zeros(2^k) == k for every k below the word width |
| `Alignment.Pow2OfTrailingZeros` | src/liballoc/heap.rs:210 | 2^trailing_zeros(a) == a for every power of two that fits in the word |
| `Alignment.TrailingZerosLowestBit` | src/liballoc/heap.rs:210 | for any non-zero word, a is a multiple of 2^r but not of 2^(r+1), where r = trailing_zeros(a) |
| `Alignment.MallocxAlign` | src/liballoc/heap.rs:208-210 | MALLOCX_ALIGN(a) is trailing_zeros over the word and never exceeds the word width (its log2 meaning is `MallocxAlignIsLog2`) |
| `Alignment.MallocxAlignIsLog2` | src/liballoc/heap.rs:208-210 | MALLOCX_ALIGN(2^k) == k, the log2 encoding jemalloc expects |
| `Alignment.AlignToFlags` | src/liballoc/heap.rs:212-215 | the flag is 0 whenever align <= MIN_ALIGN, and MALLOCX_ALIGN(align) otherwise (both directions and the inverse are the lemmas below) |
| `Alignment.AlignToFlagsSlowPath` | src/liballoc/heap.rs:213-215 | above MIN_ALIGN, 2^align_to_flags(align) == align |
| `Alignment.AlignToFlagsZeroIffFastPath` | src/liballoc/heap.rs:213-215 | for a power-of-two alignment, the flag is 0 if and only if align <= MIN_ALIGN |
| `Alignment.AlignToFlagsInjective` | src/liballoc/heap.rs:213-215 | two slow-path alignments with the same flag are equal |
| `Alignment.MinAlignIsPowerOfTwo` | src/liballoc/heap.rs:118-124 | MIN_ALIGN is a power of two |
| `Alignment.FastPathAligned` | src/liballoc/heap.rs:115-117 | an address aligned to MIN_ALIGN is aligned to any power of two up to MIN_ALIGN, so plain malloc serves the fast path |
| `Jemalloc.FlagsRequestAlignment` | src/liballoc/heap.rs:212-215 | the flags ask jemalloc for exactly `align` above MIN_ALIGN and for the natural MIN_ALIGN below; both are powers of two and at least `align` |
| `Jemalloc.GuaranteedAligned` | src/liballoc/heap.rs:217-221 | memory with the alignment the flags ask for has the requested alignment |
| `Jemalloc.Allocate` | src/liballoc/heap.rs:217-221 | allocate issues je_mallocx with the requested size, and its flags guarantee at least the requested alignment |
| `Jemalloc.Reallocate` | src/liballoc/heap.rs:223-227 | reallocate issues je_rallocx on the same pointer with the new size and the flags allocate uses; the old size is dropped |
| `Jemalloc.ReallocateInplace` | src/liballoc/heap.rs:229-234 | reallocate_inplace issues je_xallocx with no extra bytes and the flags allocate uses |
| `Jemalloc.Deallocate` | src/liballoc/heap.rs:236-240 | deallocate issues the sized free je_sdallocx with old_size and the flags the block was allocated with |
| `Jemalloc.UsableSize` | src/liballoc/heap.rs:242-246 | usable_size issues je_nallocx with the size and the flags allocate uses |
| `Jemalloc.FlagsDetermineAlignment` | src/liballoc/heap.rs:213-215 | two alignments get the same flags if and only if they are equal or both take the fast path |
| `Memory.CreatedWith` | src/liballoc/heap.rs:35-37 | the caller's obligation: the block holds `old_size` bytes and, with `align`, is what allocate made for that request; a fast-path block comes from malloc at MIN_ALIGN, a slow-path one from an aligned primitive at exactly `align` |
| `Memory.Allocation` | src/liballoc/heap.rs:15-21 | allocate's contract as a relation: null with the heap unchanged, or a new address, aligned to `align`, holding a block of `size` bytes created with `(size, align)`, with no other block changed |
| `Memory.Reallocation` | src/liballoc/heap.rs:27-37 | reallocate's contract as a relation: null with the heap unchanged, or the old block gone and a block of `size` bytes at the result (possibly the same address), aligned and created with `(size, align)`, whose first min(old_size, size) bytes are the old block's, with no other block changed |
| `Memory.Deallocation` | src/liballoc/heap.rs:60-66 | deallocate's contract as a relation: exactly the given live block is released and nothing else changes |
| `Memory.Copied` | src/liballoc/heap.rs:291 | copy_memory overwrites the destination's first n bytes with the source's, keeps the rest of the destination and every other block, and touches no live block when the destination is not one |
| `Memory.ReallocationKeepsPrefix` | src/liballoc/heap.rs:27-37 | after a successful reallocate, every prefix that fits in both the old and the new size reads back unchanged |
| `Memory.ReallocationFailureKeepsOriginal` | src/liballoc/heap.rs:29 | after a failed reallocate, the original block is live and unchanged |
| `Memory.AllocateThenDeallocate` | src/liballoc/heap.rs:15-17 | allocating a block and then freeing it gives back the original heap |
| `Memory.UncheckedSlowPath` | src/liballoc/heap.rs:290-293 | the heap after copy and free without the null test: the original block is removed whatever allocate returned, and when the new pointer is not live (null) no other block changes |
| `Memory.CheckedSlowPath` | src/liballoc/heap.rs:289-294 | the heap after the slow path with the null test: unchanged after a failed allocate, otherwise the original block removed and every other block kept |
| `Memory.CheckedSlowPathIsReallocation` | src/liballoc/heap.rs:289-294 | with a null test on the new allocation, allocate–copy–free meets the whole reallocate contract, whatever allocate did within its own contract |
| `Memory.UncheckedSlowPathLosesBlockOnFailure` | src/liballoc/heap.rs:290-293 | as written, a failed slow-path allocation is allowed and still frees the original block, so the result breaks the reallocate contract |
| `Memory.UncheckedSlowPathExample` | src/liballoc/heap.rs:290-293 | a concrete heap with one 4-byte block at alignment 32 is left with no live block after a failed as-written slow path |
| `Heap.WindowsReleaseMatchesAllocate` | src/liballoc/heap.rs:329-360 | on Windows, a block comes from malloc exactly when it is released by free, and from _aligned_malloc exactly when it is released by _aligned_free |
| `Heap.UsableSize` | src/liballoc/heap.rs:308-311 | the usable size is never less than the requested size (the Windows backend, heap.rs:362-365, is the same) |
| `Heap.ReallocateInplace` | src/liballoc/heap.rs:297-301 | the result is usable_size(old_size, align), the promised result when nothing is resized (the Windows backend, heap.rs:347-351, is the same) |
| `Heap.NativeHeap.FreshAddress` | src/liballoc/heap.rs:15-17 | an address a foreign allocator may return is non-null, not live, and aligned as asked |
| `Heap.NativeHeap.Malloc` | src/liballoc/heap.rs:271 | the assumed contract of libc `malloc` (also heap.rs:332): null with the heap unchanged, or a fresh block of `size` bytes aligned to MIN_ALIGN, and one `malloc` call in the trace |
| `Heap.NativeHeap.Resize` | src/liballoc/heap.rs:288 | the assumed contract shared by `realloc` and `_aligned_realloc`: null with the heap unchanged, or the block moved to (or kept at) an aligned address with `size` bytes, the first min(old, size) of them kept, and no other block changed |
| `Heap.NativeHeap.Realloc` | src/liballoc/heap.rs:288 | the assumed contract of libc `realloc` on a malloc block (also heap.rs:341), with one `realloc` call in the trace |
| `Heap.NativeHeap.Free` | src/liballoc/heap.rs:305 | the assumed contract of libc `free` (also heap.rs:356): exactly the given block is released, with one `free` call in the trace |
| `Heap.NativeHeap.AlignedMalloc` | src/liballoc/heap.rs:323 | the assumed contract of `_aligned_malloc`: null with the heap unchanged, or a fresh block of `size` bytes aligned to `align` |
| `Heap.NativeHeap.AlignedRealloc` | src/liballoc/heap.rs:324-325 | the assumed contract of `_aligned_realloc` on an `_aligned_malloc` block of the same alignment, with one call in the trace |
| `Heap.NativeHeap.AlignedFree` | src/liballoc/heap.rs:326 | the assumed contract of `_aligned_free`: exactly the given `_aligned_malloc` block is released |
| `Heap.NativeHeap.CopyMemory` | src/liballoc/heap.rs:291 | `ptr::copy_memory` on the heap: the blocks become `Copied` of the old blocks, with one copy call in the trace |
| `Heap.NativeHeap.PosixMemalign` | src/liballoc/heap.rs:262-266 | returns 0 and a fresh aligned block at the out-pointer, or nonzero with the heap unchanged and the out-pointer unspecified |
| `Heap.NativeHeap.PosixAllocate` | src/liballoc/heap.rs:268-283 | calls malloc exactly when align <= MIN_ALIGN and posix_memalign otherwise; a nonzero posix_memalign return gives null; the result meets the allocate contract |
| `Heap.NativeHeap.PosixReallocate` | src/liballoc/heap.rs:285-295 | realloc on the fast path; otherwise posix_memalign, then the copy of min(size, old_size) bytes and the free of the old block, but only when the new allocation succeeded; the reallocate contract holds |
| `Heap.NativeHeap.PosixReallocateAsWritten` | src/liballoc/heap.rs:285-295 | success meets the reallocate contract; a failed slow path copies to null, frees the original and returns null, which breaks the contract |
| `Heap.NativeHeap.PosixDeallocate` | src/liballoc/heap.rs:303-306 | free releases exactly the given block, whichever primitive made it |
| `Heap.NativeHeap.WindowsAllocate` | src/liballoc/heap.rs:329-336 | calls malloc exactly when align <= MIN_ALIGN and _aligned_malloc otherwise; the result meets the allocate contract |
| `Heap.NativeHeap.WindowsReallocate` | src/liballoc/heap.rs:338-345 | calls realloc on the fast path and _aligned_realloc otherwise; the reallocate contract holds, including no change on failure |
| `Heap.NativeHeap.WindowsDeallocate` | src/liballoc/heap.rs:353-360 | releases the block with the primitive matching the one that made it (free for malloc, _aligned_free for _aligned_malloc) |
| `Heap.NativeHeap.Allocate` | src/liballoc/heap.rs:15-25 | null with the heap unchanged, or a new aligned block of `size` bytes with no other block changed, made by the primitive the platform uses for this alignment |
| `Heap.NativeHeap.Reallocate` | src/liballoc/heap.rs:27-41 | the entry point built on the corrected POSIX slow path: null with the original block intact, or the contents moved to a block of `size` bytes that keeps the first min(old_size, size) bytes, with the old block freed and no other block changed |
| `Heap.NativeHeap.ReallocateAsWritten` | src/liballoc/heap.rs:27-41 | the entry point as the program forwards it (POSIX slow path at heap.rs:285-295 as written): the reallocate contract holds except when the POSIX slow-path allocation fails; then the original block is freed, null is returned, and the contract is broken |
| `Heap.NativeHeap.Deallocate` | src/liballoc/heap.rs:60-70 | releases exactly the given non-null block, with the primitive matching its origin |
| `Heap.NativeHeap.ExchangeMalloc` | src/liballoc/heap.rs:92-106 | size 0 returns `EMPTY` (the non-null constant 1 of heap.rs:92) and calls no backend; otherwise it calls allocate once and never returns null, either returning the new block or ending in the out-of-memory handler with the heap unchanged |
| `Heap.NativeHeap.ExchangeFree` | src/liballoc/heap.rs:108-113 | releases exactly the given live block through deallocate, with the trace of deallocate's primitive matching the block's origin |
| `Heap.BasicReallocateInplaceNoop` | src/liballoc/heap.rs:377-387 | reallocate_inplace(ptr, 4000, 4000, 8) equals usable_size(4000, 8), and allocating and then freeing leaves the heap as it was |

## Left out

- Each foreign allocator is modelled only by its contract, never by its
  internals. This covers jemalloc's `je_*allocx`, `malloc`/`realloc`/`free`,
  `posix_memalign`, and `_aligned_malloc`/`_aligned_realloc`/`_aligned_free`
  (heap.rs:191-201, 262-266, 322-327). The allocating and resizing primitives
  (`malloc`, `realloc`, `posix_memalign`, `_aligned_malloc`,
  `_aligned_realloc`) may fail for any request. `free`, `_aligned_free` and
  `copy_memory` always succeed on a valid argument. For jemalloc, the model
  records only the calls made and their flags, plus the alignment those flags
  are taken to guarantee (next line). Blocks, sizes and failures that jemalloc
  returns are not modelled.
- `Jemalloc.Guaranteed`, and the `Aligned(p, MinAlign(arch))` postcondition
  of `Heap.NativeHeap.Malloc`, are assumptions about foreign allocators. They
  are not proved. Both are taken from the comment at heap.rs:115-117, which
  says plain `malloc`, or jemalloc with flag 0, returns memory aligned to
  MIN_ALIGN for a request of any size. Four things rest on that comment:
  - `Jemalloc.GuaranteedAligned`;
  - the `align <= Guaranteed(c.flags, arch)` clauses of the `Jemalloc`
    functions;
  - `Alignment.FastPathAligned`;
  - the alignment part of `Memory.Allocation` and `Memory.Reallocation` on
    the fast path.

  If some allocator gives less alignment, for example for small requests,
  those fast-path alignment promises do not hold for it.
- `Heap.NativeHeap.Reallocate`, on POSIX with `align > MIN_ALIGN`, models
  the corrected slow path, not the code as written. The code as written is
  `Heap.NativeHeap.ReallocateAsWritten` (see Findings).
- `stats_print` in every backend (heap.rs:84-86, 248-252, 313, 367): it is
  diagnostic output with no result.
- The `external_funcs` and `external_crate` backends (heap.rs:126-176) only
  forward to code that is not shown. As written, `external_funcs` defines
  `reallocate_inplace` twice (heap.rs:144, 155) and has no `reallocate`.
- The `cfg` selection of backend and architecture, and the `#[link]`
  attributes, are build configuration. They become the `os` and `arch`
  parameters.
- The alignment upper bound "no larger than the largest supported page size"
  has no constant in the source, so it is not required.
- Raw pointers and real memory: addresses are naturals, and memory is the map
  of live blocks. In the as-written slow path, the store through the null
  pointer is recorded only in the trace (`CopyCall(NULL, …)`). It changes no
  block in the model. In the real program it is undefined behaviour.
- `uint` wrap-around is not modelled. No operation in the modelled core does
  arithmetic on sizes, and the trailing-zero count is taken over the `uint`
  width of the architecture.
- The out-of-memory handler `oom()` cannot be written as a Dafny method that
  never returns. `ExchangeMalloc` instead returns `OutOfMemory` at the point
  where it would call the handler. The test method also stops there.
- `Heap.NativeHeap.ExchangeFree` requires a live block created with
  `(old_size, align)`, as `deallocate`'s documentation asks (heap.rs:62-66).
  The code passes any pointer to `deallocate`, `EMPTY` included (heap.rs:112).
  On POSIX that is `free(0x1)` (heap.rs:305). Freeing a pointer that is not a
  live block, `EMPTY` among them, is not modelled.
- Concurrency: every operation is a single synchronous step on the model's
  heap.
- The `alloc_owned_small` benchmark (heap.rs:389-394).

## Findings

| source | as written | input that shows it | evidently intended | confidence | as-written member | corrected member |
|---|---|---|---|---|---|---|
| src/liballoc/heap.rs:290-293 | the POSIX slow-path `reallocate` copies into `new_ptr` and frees `ptr` without testing `new_ptr` for null | a live block at alignment 32 on x86_64, reallocated while `posix_memalign` fails: the copy goes to address 0, the original block is freed, and null is returned | return null right after a failed `allocate`, leaving the original allocation intact as heap.rs:29 promises | high; not executed | `Heap.NativeHeap.PosixReallocateAsWritten`, `Heap.NativeHeap.ReallocateAsWritten`, `Memory.UncheckedSlowPathLosesBlockOnFailure` | `Heap.NativeHeap.PosixReallocate`, `Heap.NativeHeap.Reallocate`, `Memory.CheckedSlowPathIsReallocation` |
