// The jemalloc backend. Each of its operations is one call into jemalloc's
// non-standard API with a flags word computed from the alignment; jemalloc
// itself is outside the model, so each operation is modelled as the call it
// issues, and the properties are about the flags those calls carry.
module Jemalloc {
  import opened Alignment

  /** One call into jemalloc's `*allocx` API, with its arguments. */
  datatype JeCall =
    | Mallocx(size: nat, flags: nat)
    | Rallocx(ptr: nat, size: nat, flags: nat)
    | Xallocx(ptr: nat, size: nat, extra: nat, flags: nat)
    | Sdallocx(ptr: nat, size: nat, flags: nat)
    | Nallocx(size: nat, flags: nat)

  /** The alignment jemalloc guarantees for a request with these flags:
      flag 0 asks for nothing beyond the natural MIN_ALIGN, any other
      value `lg` (MALLOCX_ALIGN's encoding) asks for 2^lg. */
  function Guaranteed(flags: nat, arch: Arch): (g: nat)
    ensures IsPowerOfTwo(g)
  {
    MinAlignIsPowerOfTwo(arch);
    Pow2IsPowerOfTwo(flags);
    if flags == 0 then MinAlign(arch) else Pow2(flags)
  }

  /** The alignment requested by the caller is met by what jemalloc is asked
      for: exactly the alignment above MIN_ALIGN, MIN_ALIGN itself below. */
  lemma FlagsRequestAlignment(align: nat, arch: Arch)
    requires IsPowerOfTwo(align) && align < Pow2(WordBits(arch))
    ensures var g := Guaranteed(AlignToFlags(align, arch), arch);
            IsPowerOfTwo(g) && align <= g
    ensures !FastPath(align, arch) ==> Guaranteed(AlignToFlags(align, arch), arch) == align
    ensures FastPath(align, arch) ==> Guaranteed(AlignToFlags(align, arch), arch) == MinAlign(arch)
  {
    AlignToFlagsZeroIffFastPath(align, arch);
    MinAlignIsPowerOfTwo(arch);
    if !FastPath(align, arch) {
      AlignToFlagsSlowPath(align, arch);
    }
  }

  /** An address with the guaranteed alignment has the requested one. */
  lemma GuaranteedAligned(p: nat, align: nat, arch: Arch)
    requires IsPowerOfTwo(align) && align < Pow2(WordBits(arch))
    requires Aligned(p, Guaranteed(AlignToFlags(align, arch), arch))
    ensures Aligned(p, align)
  {
    FlagsRequestAlignment(align, arch);
    AlignedWeaken(p, align, Guaranteed(AlignToFlags(align, arch), arch));
  }

  /** `allocate`: je_mallocx(size, align_to_flags(align)). */
  function Allocate(size: nat, align: nat, arch: Arch): (c: JeCall)
    requires IsPowerOfTwo(align) && align < Pow2(WordBits(arch))
    ensures c.Mallocx? && c.size == size
    ensures align <= Guaranteed(c.flags, arch)
  {
    FlagsRequestAlignment(align, arch);
    Mallocx(size, AlignToFlags(align, arch))
  }

  /** `reallocate`: je_rallocx(ptr, size, flags); the old size is not passed on. */
  function Reallocate(ptr: nat, oldSize: nat, size: nat, align: nat, arch: Arch): (c: JeCall)
    requires IsPowerOfTwo(align) && align < Pow2(WordBits(arch))
    ensures c.Rallocx? && c.ptr == ptr && c.size == size
    ensures c.flags == Allocate(size, align, arch).flags
    ensures align <= Guaranteed(c.flags, arch)
  {
    FlagsRequestAlignment(align, arch);
    Rallocx(ptr, size, AlignToFlags(align, arch))
  }

  /** `reallocate_inplace`: je_xallocx(ptr, size, 0, flags), asking for no extra bytes. */
  function ReallocateInplace(ptr: nat, oldSize: nat, size: nat, align: nat, arch: Arch): (c: JeCall)
    requires IsPowerOfTwo(align) && align < Pow2(WordBits(arch))
    ensures c.Xallocx? && c.ptr == ptr && c.size == size && c.extra == 0
    ensures c.flags == Allocate(size, align, arch).flags
    ensures align <= Guaranteed(c.flags, arch)
  {
    FlagsRequestAlignment(align, arch);
    Xallocx(ptr, size, 0, AlignToFlags(align, arch))
  }

  /** `deallocate`: je_sdallocx(ptr, old_size, flags), the sized free. */
  function Deallocate(ptr: nat, oldSize: nat, align: nat, arch: Arch): (c: JeCall)
    requires IsPowerOfTwo(align) && align < Pow2(WordBits(arch))
    ensures c.Sdallocx? && c.ptr == ptr && c.size == oldSize
    ensures c.flags == Allocate(oldSize, align, arch).flags
    ensures align <= Guaranteed(c.flags, arch)
  {
    FlagsRequestAlignment(align, arch);
    Sdallocx(ptr, oldSize, AlignToFlags(align, arch))
  }

  /** `usable_size`: je_nallocx(size, flags), which allocates nothing. */
  function UsableSize(size: nat, align: nat, arch: Arch): (c: JeCall)
    requires IsPowerOfTwo(align) && align < Pow2(WordBits(arch))
    ensures c.Nallocx? && c.size == size
    ensures c.flags == Allocate(size, align, arch).flags
    ensures align <= Guaranteed(c.flags, arch)
  {
    FlagsRequestAlignment(align, arch);
    Nallocx(size, AlignToFlags(align, arch))
  }

  /** The flags word is determined by the alignment alone: a block is
      resized, queried and freed with the flags it was allocated with, and
      two different slow-path alignments are never confused. */
  lemma FlagsDetermineAlignment(size: nat, a: nat, b: nat, arch: Arch)
    requires IsPowerOfTwo(a) && a < Pow2(WordBits(arch))
    requires IsPowerOfTwo(b) && b < Pow2(WordBits(arch))
    ensures Allocate(size, a, arch).flags == Allocate(size, b, arch).flags
            <==> a == b || (FastPath(a, arch) && FastPath(b, arch))
  {
    AlignToFlagsZeroIffFastPath(a, arch);
    AlignToFlagsZeroIffFastPath(b, arch);
    if !FastPath(a, arch) && !FastPath(b, arch)
       && Allocate(size, a, arch).flags == Allocate(size, b, arch).flags {
      AlignToFlagsInjective(a, b, arch);
    }
  }
}
