// The allocator over the platform's own allocation primitives (the POSIX and
// Windows backends), and the public entry points above it: allocate,
// reallocate, reallocate_inplace, deallocate, usable_size, and the
// exchange_malloc / exchange_free pair used for unique pointers.
module Heap {
  import opened Alignment
  import opened Memory

  /** The one address every zero-size allocation shares. It is not null, so
      owning pointers stay non-null; it is never dereferenced and may equal
      the address of a real allocation. */
  const EMPTY: Addr := 1

  /** The platform family whose primitives back the allocator. */
  datatype Os = Unix | Windows

  /** A call into a foreign primitive, as recorded in the heap's trace. */
  datatype Call =
    | MallocCall(size: nat)
    | PosixMemalignCall(align: nat, size: nat)
    | AlignedMallocCall(size: nat, align: nat)
    | ReallocCall(ptr: Addr, size: nat)
    | AlignedReallocCall(ptr: Addr, size: nat, align: nat)
    | FreeCall(ptr: Addr)
    | AlignedFreeCall(ptr: Addr)
    | CopyCall(dst: Addr, src: Addr, n: nat)

  /** What `exchange_malloc` does: return a pointer, or hand control to the
      out-of-memory handler, which never returns. */
  datatype Boxed = Returned(ptr: Addr) | OutOfMemory

  /** The primitive `allocate` calls for a request on the given platform. */
  function AllocatePrimitive(os: Os, arch: Arch, size: nat, align: nat): (c: Call)
  {
    if FastPath(align, arch) then MallocCall(size)
    else if os == Unix then PosixMemalignCall(align, size)
    else AlignedMallocCall(size, align)
  }

  /** The primitive that may release a block of the given origin at `ptr`. */
  function ReleasePrimitive(os: Os, origin: Origin, ptr: Addr): (c: Call)
  {
    if os == Windows && origin == FromAlignedMalloc then AlignedFreeCall(ptr) else FreeCall(ptr)
  }

  /** Primitives of one platform never see blocks of the other's aligned primitive. */
  predicate OriginOn(os: Os, origin: Origin)
  {
    match os
    case Unix => origin != FromAlignedMalloc
    case Windows => origin != FromPosixMemalign
  }

  /** On Windows a block made by `malloc` is released by `free` and one made
      by `_aligned_malloc` by `_aligned_free`: the two `align <= MIN_ALIGN`
      tests in allocate and deallocate agree. */
  lemma WindowsReleaseMatchesAllocate(b: Block, ptr: Addr, size: nat, align: nat, arch: Arch)
    requires CreatedWith(b, size, align, arch) && OriginOn(Windows, b.origin)
    ensures AllocatePrimitive(Windows, arch, size, align).MallocCall?
            <==> ReleasePrimitive(Windows, b.origin, ptr).FreeCall?
    ensures AllocatePrimitive(Windows, arch, size, align).AlignedMallocCall?
            <==> ReleasePrimitive(Windows, b.origin, ptr).AlignedFreeCall?
  {
  }

  /** `usable_size` on the native backends: no bookkeeping is available, so
      the usable size is the requested size, never less. */
  function UsableSize(size: nat, align: nat): (r: nat)
    ensures r >= size
  {
    size
  }

  /** `reallocate_inplace` on the native backends never resizes: the result
      is the usable size of the allocation as it stands, which is what the
      operation promises when it does nothing. */
  function ReallocateInplace(ptr: Addr, oldSize: nat, size: nat, align: nat): (r: nat)
    ensures r == UsableSize(oldSize, align)
  {
    oldSize
  }

  class NativeHeap {
    const os: Os
    const arch: Arch
    /** The live blocks, by address. */
    var blocks: Blocks
    /** An address above every address handed out so far. */
    var top: Addr
    /** Every foreign primitive called so far, in order. */
    ghost var trace: seq<Call>

    ghost predicate Valid()
      reads this
    {
      && NULL !in blocks
      && forall p :: p in blocks ==>
           && p < top
           && Aligned(p, blocks[p].align)
           && OriginOn(os, blocks[p].origin)
    }

    /** `ptr` is live and `(size, align)` are the parameters it was created with. */
    predicate Allocated(ptr: Addr, size: nat, align: nat)
      reads this
    {
      ptr in blocks && CreatedWith(blocks[ptr], size, align, arch)
    }

    constructor (os: Os, arch: Arch)
      ensures Valid() && this.os == os && this.arch == arch
      ensures blocks == map[] && trace == []
    {
      this.os := os;
      this.arch := arch;
      blocks := map[];
      top := 1;
      trace := [];
    }

    /** An address the foreign allocator may hand out: non-null, unused, aligned. */
    method FreshAddress(align: nat) returns (p: Addr)
      requires Valid()
      ensures p > top && p != NULL && p !in blocks && Aligned(p, align)
    {
      AlignedAbove(top, align);
      p :| p > top && Aligned(p, align);
    }

    // -------------------------------------------------------------------
    // Foreign primitives. Their bodies are not part of the model; each
    // may fail, and what a success yields is chosen arbitrarily within
    // the primitive's own contract.

    /** `malloc(size)`: null, or fresh uninitialised memory aligned to MIN_ALIGN. */
    method Malloc(size: nat) returns (p: Addr)
      requires Valid()
      modifies this
      ensures Valid() && trace == old(trace) + [MallocCall(size)]
      ensures p == NULL ==> blocks == old(blocks)
      ensures p != NULL ==>
                && p !in old(blocks) && p in blocks
                && blocks == old(blocks)[p := Block(blocks[p].bytes, MinAlign(arch), FromMalloc)]
                && |blocks[p].bytes| == size && Aligned(p, MinAlign(arch))
    {
      trace := trace + [MallocCall(size)];
      var ok: bool := *;
      if !ok {
        return NULL;
      }
      p := FreshAddress(MinAlign(arch));
      assert |seq(size, _ => 0 as byte)| == size;
      var bytes: seq<byte> :| |bytes| == size;
      blocks := blocks[p := Block(bytes, MinAlign(arch), FromMalloc)];
      top := p + 1;
    }

    /** `posix_memalign(&memptr, align, size)`: 0 and a fresh block at
        `memptr`, or an error number and `memptr` unspecified. */
    method PosixMemalign(align: nat, size: nat) returns (ret: int, memptr: Addr)
      requires Valid() && os == Unix
      modifies this
      ensures Valid() && trace == old(trace) + [PosixMemalignCall(align, size)]
      ensures ret != 0 ==> blocks == old(blocks)
      ensures ret == 0 ==>
                && memptr != NULL && memptr !in old(blocks) && memptr in blocks
                && blocks == old(blocks)[memptr := Block(blocks[memptr].bytes, align, FromPosixMemalign)]
                && |blocks[memptr].bytes| == size && Aligned(memptr, align)
    {
      trace := trace + [PosixMemalignCall(align, size)];
      var ok: bool := *;
      if !ok {
        ret := 12;  // ENOMEM
        memptr := *;
        return;
      }
      ret := 0;
      memptr := FreshAddress(align);
      assert |seq(size, _ => 0 as byte)| == size;
      var bytes: seq<byte> :| |bytes| == size;
      blocks := blocks[memptr := Block(bytes, align, FromPosixMemalign)];
      top := memptr + 1;
    }

    /** `_aligned_malloc(size, align)`: null, or fresh memory aligned to `align`. */
    method AlignedMalloc(size: nat, align: nat) returns (p: Addr)
      requires Valid() && os == Windows
      modifies this
      ensures Valid() && trace == old(trace) + [AlignedMallocCall(size, align)]
      ensures p == NULL ==> blocks == old(blocks)
      ensures p != NULL ==>
                && p !in old(blocks) && p in blocks
                && blocks == old(blocks)[p := Block(blocks[p].bytes, align, FromAlignedMalloc)]
                && |blocks[p].bytes| == size && Aligned(p, align)
    {
      trace := trace + [AlignedMallocCall(size, align)];
      var ok: bool := *;
      if !ok {
        return NULL;
      }
      p := FreshAddress(align);
      assert |seq(size, _ => 0 as byte)| == size;
      var bytes: seq<byte> :| |bytes| == size;
      blocks := blocks[p := Block(bytes, align, FromAlignedMalloc)];
      top := p + 1;
    }

    /** Shared by `realloc` and `_aligned_realloc`: null and nothing
        changes, or the block moves to (or stays at) `q` with `size` bytes,
        the first min(old, size) of them kept. */
    method Resize(ptr: Addr, size: nat, align: nat, origin: Origin) returns (q: Addr)
      requires Valid() && ptr in blocks && blocks[ptr].align == align
      requires blocks[ptr].origin == origin
      modifies this`blocks, this`top
      ensures Valid()
      ensures q == NULL ==> blocks == old(blocks)
      ensures q != NULL ==>
                && (q == ptr || q !in old(blocks)) && q in blocks
                && blocks == (old(blocks) - {ptr})[q := Block(blocks[q].bytes, align, origin)]
                && |blocks[q].bytes| == size && Aligned(q, align)
                && var n := Min(|old(blocks)[ptr].bytes|, size);
                   blocks[q].bytes[..n] == old(blocks)[ptr].bytes[..n]
    {
      var ok: bool := *;
      if !ok {
        return NULL;
      }
      var moves: bool := *;
      if moves {
        q := FreshAddress(align);
        top := q + 1;
      } else {
        q := ptr;
      }
      var oldBytes := blocks[ptr].bytes;
      var n := Min(|oldBytes|, size);
      assert |seq(size - n, _ => 0 as byte)| == size - n;
      var tail: seq<byte> :| |tail| == size - n;
      var bytes := oldBytes[..n] + tail;
      assert bytes[..n] == oldBytes[..n];
      blocks := (blocks - {ptr})[q := Block(bytes, align, origin)];
    }

    /** `realloc(ptr, size)` on a block from `malloc`. */
    method Realloc(ptr: Addr, size: nat) returns (q: Addr)
      requires Valid() && ptr in blocks && blocks[ptr].origin == FromMalloc
      requires blocks[ptr].align == MinAlign(arch)
      modifies this
      ensures Valid() && trace == old(trace) + [ReallocCall(ptr, size)]
      ensures q == NULL ==> blocks == old(blocks)
      ensures q != NULL ==>
                && (q == ptr || q !in old(blocks)) && q in blocks
                && blocks == (old(blocks) - {ptr})[q := Block(blocks[q].bytes, MinAlign(arch), FromMalloc)]
                && |blocks[q].bytes| == size && Aligned(q, MinAlign(arch))
                && var n := Min(|old(blocks)[ptr].bytes|, size);
                   blocks[q].bytes[..n] == old(blocks)[ptr].bytes[..n]
    {
      trace := trace + [ReallocCall(ptr, size)];
      q := Resize(ptr, size, MinAlign(arch), FromMalloc);
    }

    /** `_aligned_realloc(ptr, size, align)` on a block from `_aligned_malloc`
        with the same alignment. */
    method AlignedRealloc(ptr: Addr, size: nat, align: nat) returns (q: Addr)
      requires Valid() && os == Windows
      requires ptr in blocks && blocks[ptr].origin == FromAlignedMalloc && blocks[ptr].align == align
      modifies this
      ensures Valid() && trace == old(trace) + [AlignedReallocCall(ptr, size, align)]
      ensures q == NULL ==> blocks == old(blocks)
      ensures q != NULL ==>
                && (q == ptr || q !in old(blocks)) && q in blocks
                && blocks == (old(blocks) - {ptr})[q := Block(blocks[q].bytes, align, FromAlignedMalloc)]
                && |blocks[q].bytes| == size && Aligned(q, align)
                && var n := Min(|old(blocks)[ptr].bytes|, size);
                   blocks[q].bytes[..n] == old(blocks)[ptr].bytes[..n]
    {
      trace := trace + [AlignedReallocCall(ptr, size, align)];
      q := Resize(ptr, size, align, FromAlignedMalloc);
    }

    /** `free(ptr)`: on Windows only for blocks from `malloc`; on POSIX also
        for blocks from `posix_memalign`. */
    method Free(ptr: Addr)
      requires Valid() && ptr in blocks
      requires os == Windows ==> blocks[ptr].origin == FromMalloc
      modifies this
      ensures Valid() && trace == old(trace) + [FreeCall(ptr)]
      ensures blocks == old(blocks) - {ptr}
    {
      trace := trace + [FreeCall(ptr)];
      blocks := blocks - {ptr};
    }

    /** `_aligned_free(ptr)`: only for blocks from `_aligned_malloc`. */
    method AlignedFree(ptr: Addr)
      requires Valid() && os == Windows
      requires ptr in blocks && blocks[ptr].origin == FromAlignedMalloc
      modifies this
      ensures Valid() && trace == old(trace) + [AlignedFreeCall(ptr)]
      ensures blocks == old(blocks) - {ptr}
    {
      trace := trace + [AlignedFreeCall(ptr)];
      blocks := blocks - {ptr};
    }

    /** `ptr::copy_memory(dst, src, n)`. */
    method CopyMemory(dst: Addr, src: Addr, n: nat)
      requires Valid() && src in blocks && n <= |blocks[src].bytes|
      requires dst in blocks ==> n <= |blocks[dst].bytes|
      modifies this
      ensures Valid() && trace == old(trace) + [CopyCall(dst, src, n)]
      ensures blocks == Copied(old(blocks), dst, src, n)
    {
      trace := trace + [CopyCall(dst, src, n)];
      blocks := Copied(blocks, dst, src, n);
    }

    // -------------------------------------------------------------------
    // The POSIX backend

    /** `malloc` on the fast path, otherwise `posix_memalign`, whose
        nonzero return is turned into null. */
    method PosixAllocate(size: nat, align: nat) returns (p: Addr)
      requires Valid() && os == Unix && size > 0 && IsPowerOfTwo(align)
      modifies this
      ensures Valid()
      ensures trace == old(trace) + [AllocatePrimitive(os, arch, size, align)]
      ensures Allocation(old(blocks), blocks, p, size, align, arch)
    {
      if align <= MinAlign(arch) {
        p := Malloc(size);
        if p != NULL {
          FastPathAligned(p, align, arch);
        }
      } else {
        var ret, memptr := PosixMemalign(align, size);
        if ret != 0 {
          p := NULL;
        } else {
          p := memptr;
        }
      }
    }

    /** `free`, whichever primitive made the block. */
    method PosixDeallocate(ptr: Addr, oldSize: nat, align: nat)
      requires Valid() && os == Unix && Allocated(ptr, oldSize, align)
      modifies this
      ensures Valid()
      ensures trace == old(trace) + [ReleasePrimitive(os, old(blocks)[ptr].origin, ptr)]
      ensures Deallocation(old(blocks), blocks, ptr)
    {
      Free(ptr);
    }

    /** `realloc` on the fast path; otherwise allocate, copy
        min(size, old_size) bytes, free the old block -- here only once the
        new allocation has succeeded. */
    method PosixReallocate(ptr: Addr, oldSize: nat, size: nat, align: nat) returns (q: Addr)
      requires Valid() && os == Unix && size > 0 && IsPowerOfTwo(align)
      requires Allocated(ptr, oldSize, align)
      modifies this
      ensures Valid()
      ensures Reallocation(old(blocks), blocks, ptr, oldSize, q, size, align, arch)
      ensures FastPath(align, arch) ==> trace == old(trace) + [ReallocCall(ptr, size)]
      ensures !FastPath(align, arch) ==>
                trace == old(trace) + [PosixMemalignCall(align, size)]
                         + (if q == NULL then []
                            else [CopyCall(q, ptr, Min(size, oldSize)), FreeCall(ptr)])
    {
      if align <= MinAlign(arch) {
        q := Realloc(ptr, size);
        if q != NULL {
          FastPathAligned(q, align, arch);
        }
      } else {
        ghost var m := blocks;
        var newPtr := PosixAllocate(size, align);
        ghost var m1 := blocks;
        CheckedSlowPathIsReallocation(m, m1, newPtr, ptr, oldSize, size, align, arch);
        if newPtr == NULL {
          return NULL;
        }
        CopyMemory(newPtr, ptr, Min(size, oldSize));
        PosixDeallocate(ptr, oldSize, align);
        q := newPtr;
      }
    }

    /** `reallocate` exactly as the POSIX backend writes it: the slow path
        copies into and frees around `new_ptr` without testing it for null. */
    method PosixReallocateAsWritten(ptr: Addr, oldSize: nat, size: nat, align: nat) returns (q: Addr)
      requires Valid() && os == Unix && size > 0 && IsPowerOfTwo(align)
      requires Allocated(ptr, oldSize, align)
      modifies this
      ensures Valid()
      ensures q != NULL ==> Reallocation(old(blocks), blocks, ptr, oldSize, q, size, align, arch)
      ensures q == NULL && FastPath(align, arch) ==> blocks == old(blocks)
      ensures q == NULL && !FastPath(align, arch) ==>
                && blocks == old(blocks) - {ptr}
                && !Reallocation(old(blocks), blocks, ptr, oldSize, q, size, align, arch)
                && trace == old(trace) + [PosixMemalignCall(align, size),
                                          CopyCall(NULL, ptr, Min(size, oldSize)), FreeCall(ptr)]
    {
      if align <= MinAlign(arch) {
        q := Realloc(ptr, size);
        if q != NULL {
          FastPathAligned(q, align, arch);
        }
      } else {
        ghost var m := blocks;
        var newPtr := PosixAllocate(size, align);
        ghost var m1 := blocks;
        CheckedSlowPathIsReallocation(m, m1, newPtr, ptr, oldSize, size, align, arch);
        if newPtr == NULL {
          UncheckedSlowPathLosesBlockOnFailure(m, ptr, oldSize, size, align, arch);
        }
        CopyMemory(newPtr, ptr, Min(size, oldSize));
        PosixDeallocate(ptr, oldSize, align);
        q := newPtr;
      }
    }

    // -------------------------------------------------------------------
    // The Windows backend

    /** `malloc` on the fast path, otherwise `_aligned_malloc`. */
    method WindowsAllocate(size: nat, align: nat) returns (p: Addr)
      requires Valid() && os == Windows && size > 0 && IsPowerOfTwo(align)
      modifies this
      ensures Valid()
      ensures trace == old(trace) + [AllocatePrimitive(os, arch, size, align)]
      ensures Allocation(old(blocks), blocks, p, size, align, arch)
    {
      if align <= MinAlign(arch) {
        p := Malloc(size);
        if p != NULL {
          FastPathAligned(p, align, arch);
        }
      } else {
        p := AlignedMalloc(size, align);
      }
    }

    /** `realloc` on the fast path, otherwise `_aligned_realloc`. */
    method WindowsReallocate(ptr: Addr, oldSize: nat, size: nat, align: nat) returns (q: Addr)
      requires Valid() && os == Windows && size > 0 && IsPowerOfTwo(align)
      requires Allocated(ptr, oldSize, align)
      modifies this
      ensures Valid()
      ensures Reallocation(old(blocks), blocks, ptr, oldSize, q, size, align, arch)
      ensures trace == old(trace) + [if FastPath(align, arch) then ReallocCall(ptr, size)
                                     else AlignedReallocCall(ptr, size, align)]
    {
      if align <= MinAlign(arch) {
        q := Realloc(ptr, size);
        if q != NULL {
          FastPathAligned(q, align, arch);
        }
      } else {
        q := AlignedRealloc(ptr, size, align);
      }
    }

    /** `free` on the fast path, otherwise `_aligned_free`. */
    method WindowsDeallocate(ptr: Addr, oldSize: nat, align: nat)
      requires Valid() && os == Windows && Allocated(ptr, oldSize, align)
      modifies this
      ensures Valid()
      ensures trace == old(trace) + [ReleasePrimitive(os, old(blocks)[ptr].origin, ptr)]
      ensures Deallocation(old(blocks), blocks, ptr)
    {
      if align <= MinAlign(arch) {
        Free(ptr);
      } else {
        AlignedFree(ptr);
      }
    }

    // -------------------------------------------------------------------
    // The public entry points, forwarding to the backend of the platform

    method Allocate(size: nat, align: nat) returns (p: Addr)
      requires Valid() && size > 0 && IsPowerOfTwo(align)
      modifies this
      ensures Valid()
      ensures trace == old(trace) + [AllocatePrimitive(os, arch, size, align)]
      ensures Allocation(old(blocks), blocks, p, size, align, arch)
    {
      if os == Unix {
        p := PosixAllocate(size, align);
      } else {
        p := WindowsAllocate(size, align);
      }
    }

    /** `reallocate` over the POSIX slow path with the null test restored,
        so that the documented contract holds on every platform. */
    method Reallocate(ptr: Addr, oldSize: nat, size: nat, align: nat) returns (q: Addr)
      requires Valid() && size > 0 && IsPowerOfTwo(align)
      requires Allocated(ptr, oldSize, align)
      modifies this
      ensures Valid()
      ensures Reallocation(old(blocks), blocks, ptr, oldSize, q, size, align, arch)
    {
      if os == Unix {
        q := PosixReallocate(ptr, oldSize, size, align);
      } else {
        q := WindowsReallocate(ptr, oldSize, size, align);
      }
    }

    /** `reallocate` as the program forwards it, to the POSIX slow path as
        written: the contract holds except when a POSIX slow-path allocation
        fails, where the original block is freed and null is returned. */
    method ReallocateAsWritten(ptr: Addr, oldSize: nat, size: nat, align: nat) returns (q: Addr)
      requires Valid() && size > 0 && IsPowerOfTwo(align)
      requires Allocated(ptr, oldSize, align)
      modifies this
      ensures Valid()
      ensures !(os == Unix && !FastPath(align, arch) && q == NULL) ==>
                Reallocation(old(blocks), blocks, ptr, oldSize, q, size, align, arch)
      ensures os == Unix && !FastPath(align, arch) && q == NULL ==>
                && blocks == old(blocks) - {ptr}
                && !Reallocation(old(blocks), blocks, ptr, oldSize, q, size, align, arch)
    {
      if os == Unix {
        q := PosixReallocateAsWritten(ptr, oldSize, size, align);
      } else {
        q := WindowsReallocate(ptr, oldSize, size, align);
      }
    }

    method Deallocate(ptr: Addr, oldSize: nat, align: nat)
      requires Valid() && Allocated(ptr, oldSize, align)
      modifies this
      ensures Valid()
      ensures trace == old(trace) + [ReleasePrimitive(os, old(blocks)[ptr].origin, ptr)]
      ensures Deallocation(old(blocks), blocks, ptr)
    {
      if os == Unix {
        PosixDeallocate(ptr, oldSize, align);
      } else {
        WindowsDeallocate(ptr, oldSize, align);
      }
    }

    /** The allocator for unique pointers: the shared EMPTY address for
        size 0, with no backend call; otherwise `allocate`, with a null
        result handed to the out-of-memory handler instead of returned. */
    method ExchangeMalloc(size: nat, align: nat) returns (r: Boxed)
      requires Valid() && (size > 0 ==> IsPowerOfTwo(align))
      modifies this
      ensures Valid()
      ensures size == 0 ==>
                r == Returned(EMPTY) && blocks == old(blocks) && top == old(top) && trace == old(trace)
      ensures size > 0 ==> trace == old(trace) + [AllocatePrimitive(os, arch, size, align)]
      ensures r.Returned? ==> r.ptr != NULL
      ensures size > 0 && r.Returned? ==> Allocation(old(blocks), blocks, r.ptr, size, align, arch)
      ensures r.OutOfMemory? ==> size > 0 && blocks == old(blocks)
    {
      if size == 0 {
        return Returned(EMPTY);
      }
      var p := Allocate(size, align);
      if p == NULL {
        return OutOfMemory;
      }
      return Returned(p);
    }

    /** The deallocator for unique pointers: `deallocate`, unconditionally. */
    method ExchangeFree(ptr: Addr, oldSize: nat, align: nat)
      requires Valid() && Allocated(ptr, oldSize, align)
      modifies this
      ensures Valid()
      ensures trace == old(trace) + [ReleasePrimitive(os, old(blocks)[ptr].origin, ptr)]
      ensures Deallocation(old(blocks), blocks, ptr)
    {
      Deallocate(ptr, oldSize, align);
    }
  }

  /** The `basic_reallocate_inplace_noop` test: allocate 4000 bytes at
      alignment 8 (the out-of-memory handler ends the test on null), resize
      in place to the same size, free, and compare with `usable_size`; the
      heap ends as it began. */
  method BasicReallocateInplaceNoop(h: NativeHeap) returns (completed: bool, ret: nat)
    requires h.Valid()
    modifies h
    ensures h.Valid() && h.blocks == old(h.blocks)
    ensures completed ==> ret == UsableSize(4000, 8)
  {
    var size := 4000;
    assert IsPowerOfTwo(2) && IsPowerOfTwo(4);
    assert IsPowerOfTwo(8);
    var ptr := h.Allocate(size, 8);
    if ptr == NULL {
      return false, 0;
    }
    completed := true;
    ret := ReallocateInplace(ptr, size, size, 8);
    h.Deallocate(ptr, size, 8);
    assert ret == UsableSize(size, 8);
  }
}
