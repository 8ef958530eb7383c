// The SSE2 operations the bitslice JH code is written in, defined by their element-wise
// semantics on the 128 bits of a register.
module Sse2 {
  import opened Bytes

  /** A 128-bit SSE2 register (`word128`) as its bits: bit i is bit i % 8 of byte i / 8 of
      the register's 16-byte memory image (the x86 byte order). */
  type Lane = s: seq<bool> | |s| == 128 witness seq(128, _ => false)

  /** Bit `n` of a byte. */
  predicate ByteBit(b: Byte, n: nat)
    requires n < 8
  {
    (b >> n) & 1 == 1
  }

  /** `_mm_load_si128`: the register holding the 16 bytes at p. */
  function Load(b: seq<Byte>): (x: Lane)
    requires |b| == 16
  {
    seq(128, i requires 0 <= i < 128 => ByteBit(b[i / 8], i % 8))
  }

  /** Byte `k` of the memory image of a lane. */
  function ByteOf(x: Lane, k: nat): Byte
    requires k < 16
  {
    (if x[8 * k] then 0x01 else 0) | (if x[8 * k + 1] then 0x02 else 0) |
    (if x[8 * k + 2] then 0x04 else 0) | (if x[8 * k + 3] then 0x08 else 0) |
    (if x[8 * k + 4] then 0x10 else 0) | (if x[8 * k + 5] then 0x20 else 0) |
    (if x[8 * k + 6] then 0x40 else 0) | (if x[8 * k + 7] then 0x80 else 0)
  }

  /** `_mm_store_si128`: the 16 bytes a lane is stored as. */
  function Store(x: Lane): (b: seq<Byte>)
    ensures |b| == 16
  {
    seq(16, k requires 0 <= k < 16 => ByteOf(x, k))
  }

  /** A byte is the sum of its bits. */
  lemma ByteFromBits(b: Byte)
    ensures b == (if ByteBit(b, 0) then 0x01 else 0) | (if ByteBit(b, 1) then 0x02 else 0) |
                 (if ByteBit(b, 2) then 0x04 else 0) | (if ByteBit(b, 3) then 0x08 else 0) |
                 (if ByteBit(b, 4) then 0x10 else 0) | (if ByteBit(b, 5) then 0x20 else 0) |
                 (if ByteBit(b, 6) then 0x40 else 0) | (if ByteBit(b, 7) then 0x80 else 0)
  {
  }

  lemma ByteOfLoad(b: seq<Byte>, k: nat)
    requires |b| == 16 && k < 16
    ensures ByteOf(Load(b), k) == b[k]
  {
    var x := Load(b);
    forall n | 0 <= n < 8 ensures x[8 * k + n] == ByteBit(b[k], n) {
      assert (8 * k + n) / 8 == k && (8 * k + n) % 8 == n;
    }
    ByteFromBits(b[k]);
  }

  /** Storing a loaded register gives back the 16 bytes. */
  lemma StoreLoad(b: seq<Byte>)
    requires |b| == 16
    ensures Store(Load(b)) == b
  {
    forall k | 0 <= k < 16 ensures Store(Load(b))[k] == b[k] {
      ByteOfLoad(b, k);
    }
  }

  lemma LoadByteOf(x: Lane, i: nat)
    requires i < 128
    ensures ByteBit(ByteOf(x, i / 8), i % 8) == x[i]
  {
    var k := i / 8;
    assert i == 8 * k + i % 8;
  }

  /** Loading a stored register gives back the register. */
  lemma LoadStore(x: Lane)
    ensures Load(Store(x)) == x
  {
    forall i | 0 <= i < 128 ensures Load(Store(x))[i] == x[i] {
      LoadByteOf(x, i);
    }
  }

  // _mm_xor_si128, _mm_and_si128, _mm_or_si128 and _mm_andnot_si128, bit by bit.

  function Xor(a: Lane, b: Lane): Lane { seq(128, i requires 0 <= i < 128 => a[i] != b[i]) }
  function And(a: Lane, b: Lane): Lane { seq(128, i requires 0 <= i < 128 => a[i] && b[i]) }
  function Or(a: Lane, b: Lane): Lane { seq(128, i requires 0 <= i < 128 => a[i] || b[i]) }
  /** `_mm_andnot_si128(a, b)` = (NOT a) AND b. */
  function AndNot(a: Lane, b: Lane): Lane { seq(128, i requires 0 <= i < 128 => !a[i] && b[i]) }

  /** `_mm_set1_epi8(b)`: every byte of the register set to `b`. */
  function Set1Epi8(b: Byte): Lane
  {
    seq(128, i requires 0 <= i < 128 => ByteBit(b, i % 8))
  }

  /** Shift every `width`-bit element left by `imm` bits, zeros shifted in; a count above
      `width` - 1 clears the register (the rule of _mm_slli_epi16/32/64). */
  function ShiftLeftIn(x: Lane, width: nat, imm: nat): Lane
    requires width in {16, 32, 64, 128}
  {
    seq(128, i requires 0 <= i < 128 => imm < width && i % width >= imm && x[i - imm])
  }

  /** Shift every `width`-bit element right (logically) by `imm` bits. */
  function ShiftRightIn(x: Lane, width: nat, imm: nat): Lane
    requires width in {16, 32, 64, 128}
  {
    seq(128, i requires 0 <= i < 128 => imm < width && i % width + imm < width && x[i + imm])
  }

  function Slli16(x: Lane, imm: nat): Lane { ShiftLeftIn(x, 16, imm) }
  function Srli16(x: Lane, imm: nat): Lane { ShiftRightIn(x, 16, imm) }
  function Slli32(x: Lane, imm: nat): Lane { ShiftLeftIn(x, 32, imm) }
  function Srli32(x: Lane, imm: nat): Lane { ShiftRightIn(x, 32, imm) }
  function Slli64(x: Lane, imm: nat): Lane { ShiftLeftIn(x, 64, imm) }
  function Srli64(x: Lane, imm: nat): Lane { ShiftRightIn(x, 64, imm) }

  /** `_mm_slli_si128(x, imm)`: the whole register shifted left by `imm` bytes; a count
      above 15 clears it. */
  function SlliSi128(x: Lane, imm: nat): Lane { ShiftLeftIn(x, 128, 8 * imm) }
  /** `_mm_srli_si128(x, imm)`: the whole register shifted right by `imm` bytes. */
  function SrliSi128(x: Lane, imm: nat): Lane { ShiftRightIn(x, 128, 8 * imm) }

  /** `_MM_SHUFFLE(z, y, x, w)`: the shuffle immediate that picks source element w for
      element 0, x for element 1, y for element 2 and z for element 3. */
  function MmShuffle(z: nat, y: nat, x: nat, w: nat): nat
    requires z < 4 && y < 4 && x < 4 && w < 4
  {
    64 * z + 16 * y + 4 * x + w
  }

  /** The source element a shuffle immediate selects for 32-bit element `e`. */
  function Selector(imm: nat, e: nat): nat
    requires e < 4
  {
    match e
    case 0 => imm % 4
    case 1 => imm / 4 % 4
    case 2 => imm / 16 % 4
    case 3 => imm / 64 % 4
  }

  /** `_mm_shuffle_epi32(x, imm)`: 32-bit element e of the result is element
      Selector(imm, e) of x. */
  function ShuffleEpi32(x: Lane, imm: nat): Lane
  {
    seq(128, i requires 0 <= i < 128 => x[32 * Selector(imm, i / 32) + i % 32])
  }
}
