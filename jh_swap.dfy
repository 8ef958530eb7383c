// The pure one-lane macros of the bitslice JH code: the shift aliases jhSHRk / jhSHLk
// and the swap layers jhSWAPk, with the bit permutation each swap performs.
module JhSwap {
  import opened Sse2

  // jhSHRk / jhSHLk, by the intrinsic each one expands to: for k = 8, 16, 32 and 64 the
  // "SHR" alias is a left shift and the "SHL" alias a right shift.
  function ShR1(x: Lane): Lane { Srli16(x, 1) }
  function ShR2(x: Lane): Lane { Srli16(x, 2) }
  function ShR4(x: Lane): Lane { Srli16(x, 4) }
  function ShR8(x: Lane): Lane { Slli16(x, 8) }
  function ShR16(x: Lane): Lane { Slli32(x, 16) }
  function ShR32(x: Lane): Lane { Slli64(x, 32) }
  function ShR64(x: Lane): Lane { SlliSi128(x, 8) }
  function ShL1(x: Lane): Lane { Slli16(x, 1) }
  function ShL2(x: Lane): Lane { Slli16(x, 2) }
  function ShL4(x: Lane): Lane { Slli16(x, 4) }
  function ShL8(x: Lane): Lane { Srli16(x, 8) }
  function ShL16(x: Lane): Lane { Srli32(x, 16) }
  function ShL32(x: Lane): Lane { Srli64(x, 32) }
  function ShL64(x: Lane): Lane { SrliSi128(x, 8) }

  // jhSWAPk, as the macros compose the intrinsics.
  function Swap1(x: Lane): Lane { Or(ShR1(And(x, Set1Epi8(0xaa))), ShL1(And(x, Set1Epi8(0x55)))) }
  function Swap2(x: Lane): Lane { Or(ShR2(And(x, Set1Epi8(0xcc))), ShL2(And(x, Set1Epi8(0x33)))) }
  function Swap4(x: Lane): Lane { Or(ShR4(And(x, Set1Epi8(0xf0))), ShL4(And(x, Set1Epi8(0x0f)))) }
  function Swap8(x: Lane): Lane { Or(ShR8(x), ShL8(x)) }
  function Swap16(x: Lane): Lane { Or(ShR16(x), ShL16(x)) }
  function Swap32(x: Lane): Lane { ShuffleEpi32(x, MmShuffle(2, 3, 0, 1)) }
  function Swap64(x: Lane): Lane { ShuffleEpi32(x, MmShuffle(1, 0, 3, 2)) }

  /** The bit that bit i trades places with when the swap of round shape `shape`
      exchanges adjacent groups of 2^shape bits: the group partner of i. */
  function Partner(i: nat, shape: nat): (p: nat)
    requires i < 128 && shape < 7
    ensures p < 128
  {
    match shape
    case 0 => if i % 2 < 1 then i + 1 else i - 1
    case 1 => if i % 4 < 2 then i + 2 else i - 2
    case 2 => if i % 8 < 4 then i + 4 else i - 4
    case 3 => if i % 16 < 8 then i + 8 else i - 8
    case 4 => if i % 32 < 16 then i + 16 else i - 16
    case 5 => if i % 64 < 32 then i + 32 else i - 32
    case 6 => if i < 64 then i + 64 else i - 64
  }

  /** The swap layer of round shape `shape`: every even group of 2^shape bits exchanged
      with the odd group above it. */
  function SwapGroups(x: Lane, shape: nat): Lane
    requires shape < 7
  {
    seq(128, i requires 0 <= i < 128 => x[Partner(i, shape)])
  }

  /** The bits of the masks the swap macros build with jhCONSTANT. */
  lemma MaskBits(n: nat)
    requires n < 8
    ensures ByteBit(0xaa, n) == (n % 2 == 1) && ByteBit(0x55, n) == (n % 2 == 0)
    ensures ByteBit(0xcc, n) == (n % 4 >= 2) && ByteBit(0x33, n) == (n % 4 < 2)
    ensures ByteBit(0xf0, n) == (n >= 4) && ByteBit(0x0f, n) == (n < 4)
  {
    match n
    case 0 => case 1 => case 2 => case 3 => case 4 => case 5 => case 6 => case 7 =>
  }

  /** The lanes the swap macros build with jhCONSTANT: bit i of the high mask of
      jhSWAPk is set when i lies in the upper half of its 2k-bit group. */
  lemma MaskLanes(i: nat)
    requires i < 128
    ensures Set1Epi8(0xaa)[i] == (i % 2 >= 1) && Set1Epi8(0x55)[i] == (i % 2 < 1)
    ensures Set1Epi8(0xcc)[i] == (i % 4 >= 2) && Set1Epi8(0x33)[i] == (i % 4 < 2)
    ensures Set1Epi8(0xf0)[i] == (i % 8 >= 4) && Set1Epi8(0x0f)[i] == (i % 8 < 4)
  {
    MaskBits(i % 8);
    assert i % 8 % 2 == i % 2 && i % 8 % 4 == i % 4;
  }

  // The index arithmetic of the swaps: where bit i sits in its group of 2k bits decides
  // whether it moves up or down by k, and whether the 16-bit element shift keeps it.

  lemma GroupArith1(i: nat)
    ensures i % 2 < 1 ==> i % 16 + 1 < 16 && (i + 1) % 2 >= 1
    ensures i % 2 < 1 && i >= 1 ==> (i - 1) % 2 >= 1
    ensures i % 2 >= 1 ==> i % 16 >= 1 && (i - 1) % 2 < 1 && (i + 1) % 2 < 1
  {
    assert i % 16 % 2 == i % 2;
    assert (i + 1) % 2 == (i % 2 + 1) % 2;
    assert i >= 1 ==> (i - 1) % 2 == (i % 2 + 1) % 2;
  }

  lemma GroupArith2(i: nat)
    ensures i % 4 < 2 ==> i % 16 + 2 < 16 && (i + 2) % 4 >= 2
    ensures i % 4 < 2 && i >= 2 ==> (i - 2) % 4 >= 2
    ensures i % 4 >= 2 ==> i % 16 >= 2 && (i - 2) % 4 < 2 && (i + 2) % 4 < 2
  {
    assert i % 16 % 4 == i % 4;
    assert (i + 2) % 4 == (i % 4 + 2) % 4;
    assert i >= 2 ==> (i - 2) % 4 == (i % 4 + 2) % 4;
  }

  lemma GroupArith4(i: nat)
    ensures i % 8 < 4 ==> i % 16 + 4 < 16 && (i + 4) % 8 >= 4
    ensures i % 8 < 4 && i >= 4 ==> (i - 4) % 8 >= 4
    ensures i % 8 >= 4 ==> i % 16 >= 4 && (i - 4) % 8 < 4 && (i + 4) % 8 < 4
  {
    assert i % 16 % 8 == i % 8;
    assert (i + 4) % 8 == (i % 8 + 4) % 8;
    assert i >= 4 ==> (i - 4) % 8 == (i % 8 + 4) % 8;
  }

  lemma GroupArith8(i: nat)
    ensures i % 16 < 8 ==> (i + 8) % 16 >= 8
    ensures i % 16 >= 8 ==> (i - 8) % 16 < 8
  {
    assert (i + 8) % 16 == (i % 16 + 8) % 16;
    assert i >= 8 ==> (i - 8) % 16 == (i % 16 + 8) % 16;
  }

  lemma GroupArith16(i: nat)
    ensures i % 32 < 16 ==> (i + 16) % 32 >= 16
    ensures i % 32 >= 16 ==> (i - 16) % 32 < 16
  {
    assert (i + 16) % 32 == (i % 32 + 16) % 32;
    assert i >= 16 ==> (i - 16) % 32 == (i % 32 + 16) % 32;
  }

  lemma GroupArith32(i: nat)
    ensures i % 64 < 32 ==> (i + 32) % 64 >= 32
    ensures i % 64 >= 32 ==> (i - 32) % 64 < 32
  {
    assert (i + 32) % 64 == (i % 64 + 32) % 64;
    assert i >= 32 ==> (i - 32) % 64 == (i % 64 + 32) % 64;
  }

  // Each jhSWAPk macro moves every bit to its group partner: the swap of its round shape.

  lemma Swap1At(x: Lane, i: nat)
    requires i < 128
    ensures Swap1(x)[i] == x[Partner(i, 0)]
  {
    var hi := And(x, Set1Epi8(0xaa));
    var lo := And(x, Set1Epi8(0x55));
    assert Swap1(x)[i] == (ShR1(hi)[i] || ShL1(lo)[i]);
    GroupArith1(i);
    if i + 1 < 128 { MaskLanes(i + 1); }
    if i >= 1 { MaskLanes(i - 1); }
  }

  lemma Swap1Groups(x: Lane)
    ensures Swap1(x) == SwapGroups(x, 0)
  {
    forall i | 0 <= i < 128 ensures Swap1(x)[i] == SwapGroups(x, 0)[i] {
      Swap1At(x, i);
    }
  }

  lemma Swap2At(x: Lane, i: nat)
    requires i < 128
    ensures Swap2(x)[i] == x[Partner(i, 1)]
  {
    var hi := And(x, Set1Epi8(0xcc));
    var lo := And(x, Set1Epi8(0x33));
    assert Swap2(x)[i] == (ShR2(hi)[i] || ShL2(lo)[i]);
    GroupArith2(i);
    if i + 2 < 128 { MaskLanes(i + 2); }
    if i >= 2 { MaskLanes(i - 2); }
  }

  lemma Swap2Groups(x: Lane)
    ensures Swap2(x) == SwapGroups(x, 1)
  {
    forall i | 0 <= i < 128 ensures Swap2(x)[i] == SwapGroups(x, 1)[i] {
      Swap2At(x, i);
    }
  }

  lemma Swap4At(x: Lane, i: nat)
    requires i < 128
    ensures Swap4(x)[i] == x[Partner(i, 2)]
  {
    var hi := And(x, Set1Epi8(0xf0));
    var lo := And(x, Set1Epi8(0x0f));
    assert Swap4(x)[i] == (ShR4(hi)[i] || ShL4(lo)[i]);
    GroupArith4(i);
    if i + 4 < 128 { MaskLanes(i + 4); }
    if i >= 4 { MaskLanes(i - 4); }
  }

  lemma Swap4Groups(x: Lane)
    ensures Swap4(x) == SwapGroups(x, 2)
  {
    forall i | 0 <= i < 128 ensures Swap4(x)[i] == SwapGroups(x, 2)[i] {
      Swap4At(x, i);
    }
  }

  lemma Swap8Groups(x: Lane)
    ensures Swap8(x) == SwapGroups(x, 3)
  {
  }

  lemma Swap16Groups(x: Lane)
    ensures Swap16(x) == SwapGroups(x, 4)
  {
  }

  lemma Swap32Groups(x: Lane)
    ensures Swap32(x) == SwapGroups(x, 5)
  {
  }

  lemma Swap64Groups(x: Lane)
    ensures Swap64(x) == SwapGroups(x, 6)
  {
  }

  /** Exchanging the same groups twice puts every bit back. */
  lemma PartnerInvolution(i: nat, shape: nat)
    requires i < 128 && shape < 7
    ensures Partner(Partner(i, shape), shape) == i
  {
    match shape
    case 0 => GroupArith1(i);
    case 1 => GroupArith2(i);
    case 2 => GroupArith4(i);
    case 3 => GroupArith8(i);
    case 4 => GroupArith16(i);
    case 5 => GroupArith32(i);
    case 6 =>
  }

  lemma SwapGroupsInvolution(x: Lane, shape: nat)
    requires shape < 7
    ensures SwapGroups(SwapGroups(x, shape), shape) == x
  {
    forall i | 0 <= i < 128 ensures SwapGroups(SwapGroups(x, shape), shape)[i] == x[i] {
      PartnerInvolution(i, shape);
    }
  }
  /** The swap layer the linear transform of round shape `shape` applies: jhSWAP1 for
      shape 0 through jhSWAP64 for shape 6. */
  function SwapMacro(x: Lane, shape: nat): Lane
    requires shape < 7
  {
    match shape
    case 0 => Swap1(x)
    case 1 => Swap2(x)
    case 2 => Swap4(x)
    case 3 => Swap8(x)
    case 4 => Swap16(x)
    case 5 => Swap32(x)
    case 6 => Swap64(x)
  }

  /** Each swap macro exchanges the adjacent groups of 2^shape bits. */
  lemma SwapMacroGroups(x: Lane, shape: nat)
    requires shape < 7
    ensures SwapMacro(x, shape) == SwapGroups(x, shape)
  {
    match shape
    case 0 => Swap1Groups(x);
    case 1 => Swap2Groups(x);
    case 2 => Swap4Groups(x);
    case 3 => Swap8Groups(x);
    case 4 => Swap16Groups(x);
    case 5 => Swap32Groups(x);
    case 6 => Swap64Groups(x);
  }

  /** Every jhSWAPk is an involution: applying it twice gives back the lane. */
  lemma SwapMacroInvolution(x: Lane, shape: nat)
    requires shape < 7
    ensures SwapMacro(SwapMacro(x, shape), shape) == x
  {
    SwapMacroGroups(x, shape);
    SwapMacroGroups(SwapMacro(x, shape), shape);
    SwapGroupsInvolution(x, shape);
  }
}
