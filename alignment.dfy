// Alignment policy of the allocator: the architecture's minimum alignment,
// powers of two, the trailing-zero count that encodes an alignment for
// jemalloc's MALLOCX_ALIGN flag, and the fast-path test `align <= MIN_ALIGN`.
module Alignment {

  /** The target architectures the allocator distinguishes when it fixes MIN_ALIGN. */
  datatype Arch = Arm | Mips | Mipsel | X86 | X86_64

  /** MIN_ALIGN: the alignment every plain `malloc` result already has. */
  function MinAlign(arch: Arch): (m: nat)
    ensures m == 8 || m == 16
    ensures m == 16 <==> arch == X86 || arch == X86_64
  {
    match arch
    case Arm | Mips | Mipsel => 8
    case X86 | X86_64 => 16
  }

  /** Width in bits of the machine word `uint` on the architecture. */
  function WordBits(arch: Arch): (w: nat)
    ensures w == 32 || w == 64
  {
    if arch == X86_64 then 64 else 32
  }

  /** 2^k. */
  function Pow2(k: nat): (r: nat)
    ensures r >= 1
  {
    if k == 0 then 1 else 2 * Pow2(k - 1)
  }

  /** `a` is 1, 2, 4, 8, ... */
  predicate IsPowerOfTwo(a: nat)
    decreases a
  {
    a == 1 || (a > 1 && a % 2 == 0 && IsPowerOfTwo(a / 2))
  }

  /** `p` is a multiple of the power of two `a`, stated by halving both. */
  predicate Aligned(p: nat, a: nat)
    decreases a
  {
    a <= 1 || (p % 2 == 0 && Aligned(p / 2, a / 2))
  }

  /** Fast path: the alignment is already guaranteed by the plain allocator. */
  predicate FastPath(align: nat, arch: Arch)
  {
    align <= MinAlign(arch)
  }

  /** `a.trailing_zeros()` for a `bits`-wide unsigned word: the number of
      zero bits below the lowest set bit, and `bits` when the word is 0. */
  function TrailingZeros(a: nat, bits: nat): (r: nat)
    ensures r <= bits
    ensures a == 0 ==> r == bits
    decreases bits
  {
    if bits == 0 || a % 2 == 1 then 0 else 1 + TrailingZeros(a / 2, bits - 1)
  }

  /** The MALLOCX_ALIGN(a) macro: the alignment as its base-2 logarithm. */
  function MallocxAlign(a: nat, arch: Arch): (lg: nat)
    ensures lg <= WordBits(arch)
  {
    TrailingZeros(a, WordBits(arch))
  }

  /** jemalloc flags for an alignment: 0 on the fast path, else MALLOCX_ALIGN. */
  function AlignToFlags(align: nat, arch: Arch): (flags: nat)
    ensures FastPath(align, arch) ==> flags == 0
  {
    if align <= MinAlign(arch) then 0 else MallocxAlign(align, arch)
  }

  // ---------------------------------------------------------------------
  // Powers of two

  lemma {:induction false} Pow2IsPowerOfTwo(k: nat)
    ensures IsPowerOfTwo(Pow2(k))
    ensures k > 0 ==> Pow2(k) % 2 == 0 && Pow2(k) / 2 == Pow2(k - 1)
  {
    if k > 0 {
      Pow2IsPowerOfTwo(k - 1);
    }
  }

  /** A power of two that is at most `b`'s size divides every multiple of `b`. */
  lemma {:induction false} AlignedWeaken(p: nat, a: nat, b: nat)
    requires IsPowerOfTwo(a) && IsPowerOfTwo(b) && a <= b
    requires Aligned(p, b)
    ensures Aligned(p, a)
    decreases a
  {
    if a > 1 {
      AlignedWeaken(p / 2, a / 2, b / 2);
    }
  }

  /** Every multiple of 2^k is aligned to 2^k. */
  lemma {:induction false} MultipleIsAligned(q: nat, k: nat)
    ensures Aligned(q * Pow2(k), Pow2(k))
    decreases k
  {
    if k > 0 {
      MultipleIsAligned(q, k - 1);
      Pow2IsPowerOfTwo(k);
      assert q * Pow2(k) == 2 * (q * Pow2(k - 1));
    }
  }

  /** Every address aligned to 2^k is a multiple of 2^k. */
  lemma {:induction false} AlignedIsMultiple(p: nat, k: nat)
    requires Aligned(p, Pow2(k))
    ensures exists q: nat :: p == q * Pow2(k)
    decreases k
  {
    if k == 0 {
      assert p == p * Pow2(0);
    } else {
      Pow2IsPowerOfTwo(k);
      AlignedIsMultiple(p / 2, k - 1);
      var q: nat :| p / 2 == q * Pow2(k - 1);
      assert p == q * Pow2(k);
    }
  }

  /** `k` shifted left until it is a multiple of the power of two `a`. */
  function Scale(k: nat, a: nat): (r: nat)
    decreases a
  {
    if a <= 1 then k else 2 * Scale(k, a / 2)
  }

  /** Every scaled number is aligned and no smaller than what was scaled. */
  lemma {:induction false} ScaleAligned(k: nat, a: nat)
    ensures Aligned(Scale(k, a), a) && Scale(k, a) >= k
    decreases a
  {
    if a > 1 {
      ScaleAligned(k, a / 2);
    }
  }

  /** For every alignment there is a non-zero aligned address above `bound`. */
  lemma AlignedAbove(bound: nat, a: nat)
    ensures exists p: nat {:trigger Aligned(p, a)} :: p > bound && Aligned(p, a)
  {
    ScaleAligned(bound + 1, a);
    var w := Scale(bound + 1, a);
    assert w > bound && Aligned(w, a);
  }

  // ---------------------------------------------------------------------
  // Trailing zeros as the inverse of Pow2

  /** trailing_zeros(2^k) == k for every k the word can hold. */
  lemma {:induction false} TrailingZerosOfPow2(k: nat, bits: nat)
    requires k < bits
    ensures TrailingZeros(Pow2(k), bits) == k
    decreases k
  {
    Pow2IsPowerOfTwo(k);
    if k > 0 {
      TrailingZerosOfPow2(k - 1, bits - 1);
    }
  }

  /** 2^trailing_zeros(a) == a for every power of two the word can hold. */
  lemma {:induction false} Pow2OfTrailingZeros(a: nat, bits: nat)
    requires IsPowerOfTwo(a) && a < Pow2(bits)
    ensures Pow2(TrailingZeros(a, bits)) == a
    decreases a
  {
    if a > 1 {
      assert bits > 0;
      Pow2OfTrailingZeros(a / 2, bits - 1);
    }
  }

  /** The lowest set bit of `a` sits at position trailing_zeros(a): `a` is a
      multiple of 2^r and the next bit up is set. */
  lemma {:induction false} TrailingZerosLowestBit(a: nat, bits: nat)
    requires 0 < a < Pow2(bits)
    ensures var r := TrailingZeros(a, bits);
            r < bits && Aligned(a, Pow2(r)) && !Aligned(a, Pow2(r + 1))
    decreases bits
  {
    assert bits > 0;
    Pow2IsPowerOfTwo(1);
    if a % 2 == 0 {
      TrailingZerosLowestBit(a / 2, bits - 1);
      var r := TrailingZeros(a / 2, bits - 1);
      Pow2IsPowerOfTwo(r + 1);
      Pow2IsPowerOfTwo(r + 2);
    }
  }

  // ---------------------------------------------------------------------
  // The flags computed for jemalloc

  /** MALLOCX_ALIGN is the base-2 logarithm of a power-of-two alignment. */
  lemma MallocxAlignIsLog2(k: nat, arch: Arch)
    requires k < WordBits(arch)
    ensures MallocxAlign(Pow2(k), arch) == k
  {
    TrailingZerosOfPow2(k, WordBits(arch));
  }

  /** Above MIN_ALIGN the flag is the alignment's logarithm: 2^flags == align. */
  lemma AlignToFlagsSlowPath(align: nat, arch: Arch)
    requires IsPowerOfTwo(align) && align < Pow2(WordBits(arch))
    requires !FastPath(align, arch)
    ensures Pow2(AlignToFlags(align, arch)) == align
  {
    Pow2OfTrailingZeros(align, WordBits(arch));
  }

  /** For a power-of-two alignment the flag is 0 exactly on the fast path, so
      flag 0 never stands for an alignment above MIN_ALIGN. */
  lemma AlignToFlagsZeroIffFastPath(align: nat, arch: Arch)
    requires IsPowerOfTwo(align) && align < Pow2(WordBits(arch))
    ensures AlignToFlags(align, arch) == 0 <==> FastPath(align, arch)
  {
    if !FastPath(align, arch) {
      AlignToFlagsSlowPath(align, arch);
    }
  }

  /** Two alignments that take the slow path get the same flag only if they are equal. */
  lemma AlignToFlagsInjective(a: nat, b: nat, arch: Arch)
    requires IsPowerOfTwo(a) && a < Pow2(WordBits(arch)) && !FastPath(a, arch)
    requires IsPowerOfTwo(b) && b < Pow2(WordBits(arch)) && !FastPath(b, arch)
    requires AlignToFlags(a, arch) == AlignToFlags(b, arch)
    ensures a == b
  {
    AlignToFlagsSlowPath(a, arch);
    AlignToFlagsSlowPath(b, arch);
  }

  /** MIN_ALIGN is itself a power of two. */
  lemma MinAlignIsPowerOfTwo(arch: Arch)
    ensures IsPowerOfTwo(MinAlign(arch))
  {
  }

  /** On the fast path, memory aligned to MIN_ALIGN is aligned to `align` too. */
  lemma FastPathAligned(p: nat, align: nat, arch: Arch)
    requires IsPowerOfTwo(align) && FastPath(align, arch)
    requires Aligned(p, MinAlign(arch))
    ensures Aligned(p, align)
  {
    MinAlignIsPowerOfTwo(arch);
    AlignedWeaken(p, align, MinAlign(arch));
  }
}
