// Abstract memory under the native backends: the live blocks as a map from
// address to contents, and the contract every backend operation must meet,
// written as relations between the heap before and after the operation.
module Memory {
  import opened Alignment

  type Addr = nat

  /** The null pointer, returned on failure and never a live block. */
  const NULL: Addr := 0

  newtype byte = x: int | 0 <= x < 256

  /** The foreign primitive that produced a block, and so the one that must release it. */
  datatype Origin = FromMalloc | FromPosixMemalign | FromAlignedMalloc

  /** A live block: its bytes, the alignment its address is known to have,
      and the primitive it came from. */
  datatype Block = Block(bytes: seq<byte>, align: nat, origin: Origin)

  type Blocks = map<Addr, Block>

  function Min(a: nat, b: nat): (r: nat)
    ensures r <= a && r <= b && (r == a || r == b)
  {
    if a <= b then a else b
  }

  /** The caller's obligation on reallocate and deallocate: `size` and
      `align` are those the block was created with. Below MIN_ALIGN the
      block came from plain malloc; above it, from the aligned primitive
      with exactly this alignment. */
  predicate CreatedWith(b: Block, size: nat, align: nat, arch: Arch)
  {
    && |b.bytes| == size
    && if FastPath(align, arch) then b.origin == FromMalloc && b.align == MinAlign(arch)
       else b.origin != FromMalloc && b.align == align
  }

  /** `ptr::copy_memory(dst, src, n)`: the first `n` bytes of `src` overwrite
      the first `n` bytes of `dst`. A destination that is not a live block
      (such as null) holds no bytes: the write lands outside the heap. */
  function Copied(m: Blocks, dst: Addr, src: Addr, n: nat): (m': Blocks)
    requires src in m && n <= |m[src].bytes|
    requires dst in m ==> n <= |m[dst].bytes|
    ensures m'.Keys == m.Keys
    ensures forall a :: a in m && a != dst ==> m'[a] == m[a]
    ensures dst in m ==> && |m'[dst].bytes| == |m[dst].bytes|
                         && m'[dst].bytes[..n] == m[src].bytes[..n]
                         && m'[dst].bytes[n..] == m[dst].bytes[n..]
                         && m'[dst].align == m[dst].align
                         && m'[dst].origin == m[dst].origin
  {
    if dst in m then
      var b := m[dst];
      var bytes := m[src].bytes[..n] + b.bytes[n..];
      assert bytes[..n] == m[src].bytes[..n];
      assert bytes[n..] == b.bytes[n..];
      m[dst := b.(bytes := bytes)]
    else
      m
  }

  /** `allocate`'s contract: either null and nothing changes, or a new
      address, aligned as asked, holding a block of `size` bytes created
      with `(size, align)`, and no other block changes. */
  predicate Allocation(m: Blocks, m': Blocks, p: Addr, size: nat, align: nat, arch: Arch)
  {
    if p == NULL then m' == m
    else
      && p !in m && p in m'
      && m' == m[p := m'[p]]
      && Aligned(p, align)
      && CreatedWith(m'[p], size, align, arch)
  }

  /** `reallocate`'s contract: either null and the original block is left
      intact, or the old block is gone, a block of `size` bytes created with
      `(size, align)` stands at the returned address (possibly the same one),
      its first min(old_size, size) bytes are the old block's, and no other
      block changes. */
  predicate Reallocation(m: Blocks, m': Blocks, ptr: Addr, oldSize: nat, q: Addr,
                         size: nat, align: nat, arch: Arch)
  {
    && ptr in m
    && if q == NULL then m' == m
       else
         && (q == ptr || q !in m) && q in m'
         && m' == (m - {ptr})[q := m'[q]]
         && Aligned(q, align)
         && CreatedWith(m'[q], size, align, arch)
         && Min(oldSize, size) <= |m[ptr].bytes|
         && m'[q].bytes[..Min(oldSize, size)] == m[ptr].bytes[..Min(oldSize, size)]
  }

  /** `deallocate`'s contract: exactly the given block is released. */
  predicate Deallocation(m: Blocks, m': Blocks, ptr: Addr)
  {
    ptr in m && m' == m - {ptr}
  }

  // ---------------------------------------------------------------------
  // Properties of the contract

  /** Content survives a successful reallocation: any prefix that fits in
      both the old and the new size reads back unchanged. */
  lemma ReallocationKeepsPrefix(m: Blocks, m': Blocks, ptr: Addr, oldSize: nat, q: Addr,
                                size: nat, align: nat, arch: Arch, k: nat)
    requires Reallocation(m, m', ptr, oldSize, q, size, align, arch)
    requires q != NULL && k <= oldSize && k <= size
    ensures k <= |m[ptr].bytes| && k <= |m'[q].bytes|
    ensures m'[q].bytes[..k] == m[ptr].bytes[..k]
  {
    var n := Min(oldSize, size);
    assert m'[q].bytes[..k] == m'[q].bytes[..n][..k];
    assert m[ptr].bytes[..k] == m[ptr].bytes[..n][..k];
  }

  /** A failed reallocation leaves the original block readable and unchanged. */
  lemma ReallocationFailureKeepsOriginal(m: Blocks, m': Blocks, ptr: Addr, oldSize: nat,
                                         size: nat, align: nat, arch: Arch)
    requires Reallocation(m, m', ptr, oldSize, NULL, size, align, arch)
    ensures ptr in m' && m'[ptr] == m[ptr]
  {
  }

  /** Allocating and then releasing the new block gives back the heap one started with. */
  lemma AllocateThenDeallocate(m: Blocks, m1: Blocks, m2: Blocks, p: Addr,
                               size: nat, align: nat, arch: Arch)
    requires Allocation(m, m1, p, size, align, arch) && p != NULL
    requires Deallocation(m1, m2, p)
    ensures m2 == m
  {
  }

  // ---------------------------------------------------------------------
  // The POSIX slow-path reallocation: allocate, copy, free

  /** The heap after the slow path as written: whatever `allocate` gave
      (`m1`, `newPtr`), then copy min(size, old_size) bytes to `newPtr`,
      then free `ptr` -- with no test of `newPtr` for null. */
  function UncheckedSlowPath(m1: Blocks, newPtr: Addr, ptr: Addr, oldSize: nat, size: nat): (m': Blocks)
    requires ptr in m1 && Min(size, oldSize) <= |m1[ptr].bytes|
    requires newPtr in m1 ==> Min(size, oldSize) <= |m1[newPtr].bytes|
    ensures m'.Keys == m1.Keys - {ptr}
    ensures newPtr !in m1 ==> forall a :: a in m' ==> m'[a] == m1[a]
  {
    Copied(m1, newPtr, ptr, Min(size, oldSize)) - {ptr}
  }

  /** The slow path with the null test the contract calls for: a failed
      allocation returns at once, before copying or freeing anything. */
  function CheckedSlowPath(m1: Blocks, newPtr: Addr, ptr: Addr, oldSize: nat, size: nat): (m': Blocks)
    requires ptr in m1 && Min(size, oldSize) <= |m1[ptr].bytes|
    requires newPtr in m1 ==> Min(size, oldSize) <= |m1[newPtr].bytes|
    ensures newPtr == NULL ==> m' == m1
    ensures newPtr != NULL ==> m'.Keys == m1.Keys - {ptr}
  {
    if newPtr == NULL then m1 else UncheckedSlowPath(m1, newPtr, ptr, oldSize, size)
  }

  /** With the null test, allocate-copy-free meets `reallocate`'s contract,
      whatever `allocate` did within its own. */
  lemma CheckedSlowPathIsReallocation(m: Blocks, m1: Blocks, newPtr: Addr, ptr: Addr,
                                      oldSize: nat, size: nat, align: nat, arch: Arch)
    requires NULL !in m && ptr in m && CreatedWith(m[ptr], oldSize, align, arch)
    requires Allocation(m, m1, newPtr, size, align, arch)
    ensures ptr in m1 && Min(size, oldSize) <= |m1[ptr].bytes|
    ensures newPtr in m1 ==> Min(size, oldSize) <= |m1[newPtr].bytes|
    ensures Reallocation(m, CheckedSlowPath(m1, newPtr, ptr, oldSize, size),
                         ptr, oldSize, newPtr, size, align, arch)
  {
  }

  /** Without the null test, a failed allocation still frees the original
      block and returns null: the caller is told the call failed and has
      lost its block, against the promise that failure leaves it intact. */
  lemma UncheckedSlowPathLosesBlockOnFailure(m: Blocks, ptr: Addr, oldSize: nat,
                                             size: nat, align: nat, arch: Arch)
    requires NULL !in m && ptr in m && CreatedWith(m[ptr], oldSize, align, arch)
    ensures Allocation(m, m, NULL, size, align, arch)
    ensures ptr !in UncheckedSlowPath(m, NULL, ptr, oldSize, size)
    ensures !Reallocation(m, UncheckedSlowPath(m, NULL, ptr, oldSize, size),
                          ptr, oldSize, NULL, size, align, arch)
  {
    var m': Blocks := UncheckedSlowPath(m, NULL, ptr, oldSize, size);
    assert ptr !in m';
    assert m' != m;
  }

  /** A concrete instance: one live 4-byte block aligned to 32 on x86_64,
      grown to 8 bytes while the aligned allocation fails. */
  lemma UncheckedSlowPathExample()
    ensures var m := map[32 := Block([1, 2, 3, 4], 32, FromPosixMemalign)];
            && Allocation(m, m, NULL, 8, 32, X86_64)
            && UncheckedSlowPath(m, NULL, 32, 4, 8) == map[]
  {
    var m: Blocks := map[32 := Block([1, 2, 3, 4], 32, FromPosixMemalign)];
    assert CreatedWith(m[32], 4, 32, X86_64);
    UncheckedSlowPathLosesBlockOnFailure(m, 32, 4, 8, 32, X86_64);
    assert UncheckedSlowPath(m, NULL, 32, 4, 8).Keys == {};
  }
}
