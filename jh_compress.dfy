// The bijection E8, the compression function F8, the padding rule and JH-512 of the JH
// design over the bitslice state, and the code that runs them: the E8 round macro, jhF8I
// and JH_H over the lane variables jhSx0..jhSx7 and the 64-byte jhSbuffer.
module JhCompress {
  import opened Bytes
  import opened Sse2
  import opened JhConstants
  import opened JhLayers

  // ---------------------------------------------------------------------------------
  // E8 and F8

  /** The first n rounds of E8: round r with constant r and linear shape r mod 7. */
  function E8Rounds(x: Lanes, n: nat): Lanes
    requires n <= 42
  {
    if n == 0 then x else E8Round(E8Rounds(x, n - 1), n - 1)
  }

  /** The first n rounds of E8 undone, last round first. */
  function E8InverseRounds(y: Lanes, n: nat): Lanes
    requires n <= 42
    decreases n
  {
    if n == 0 then y else E8InverseRounds(RoundInverse(y, n - 1, (n - 1) % 7), n - 1)
  }

  /** One more round of E8, when n is k more than a multiple of 7. */
  lemma E8Step(x: Lanes, n: nat, k: nat)
    requires n < 42 && n % 7 == k
    ensures E8Rounds(x, n + 1) == RoundFn(E8Rounds(x, n), n, k)
  {
  }

  /** The round numbers one pass of the source loop covers: from a multiple of 7 below 42,
      the next seven rounds have linear shapes 0 to 6 and the pass ends on a multiple of 7. */
  lemma SevenRounds(i: nat)
    requires i < 42 && i % 7 == 0
    ensures i + 7 <= 42 && (i + 7) % 7 == 0
    ensures (i + 1) % 7 == 1 && (i + 2) % 7 == 2 && (i + 3) % 7 == 3
    ensures (i + 4) % 7 == 4 && (i + 5) % 7 == 5 && (i + 6) % 7 == 6
  {
    var j := i / 7;
    assert i == 7 * j;
  }

  /** Every prefix of E8 is undone by the inverse rounds taken in reverse order. */
  lemma {:induction false} E8InverseAfter(x: Lanes, n: nat)
    requires n <= 42
    ensures E8InverseRounds(E8Rounds(x, n), n) == x
    decreases n
  {
    if n > 0 {
      RoundInverts(E8Rounds(x, n - 1), n - 1, (n - 1) % 7);
      E8InverseAfter(x, n - 1);
    }
  }

  /** The inverse rounds followed by the rounds give back the state. */
  lemma {:induction false} E8InverseBefore(x: Lanes, n: nat)
    requires n <= 42
    ensures E8Rounds(E8InverseRounds(x, n), n) == x
    decreases n
  {
    if n > 0 {
      var y := RoundInverse(x, n - 1, (n - 1) % 7);
      E8InverseBefore(y, n - 1);
      RoundInverts(x, n - 1, (n - 1) % 7);
    }
  }

  /** E8 and every prefix of it are bijections on the 1024-bit state. */
  lemma E8Inverts(x: Lanes, n: nat)
    requires n <= 42
    ensures E8InverseRounds(E8Rounds(x, n), n) == x
    ensures E8Rounds(E8InverseRounds(x, n), n) == x
  {
    E8InverseAfter(x, n);
    E8InverseBefore(x, n);
  }

  /** The 64-byte message block as four lanes: `jhLOAD(jhSbuffer + 16k)`. */
  function BlockQuad(block: seq<Byte>): Quad
    requires |block| == 64
  {
    Quad(Load(block[0..16]), Load(block[16..32]), Load(block[32..48]), Load(block[48..64]))
  }

  /** The message block XORed into x0..x3. */
  function XorLow(x: Lanes, m: Quad): Lanes
  {
    Lanes(Xor(x.m0, m.q0), Xor(x.m1, m.q1), Xor(x.m2, m.q2), Xor(x.m3, m.q3), x.m4, x.m5, x.m6, x.m7)
  }

  /** The message block XORed into x4..x7. */
  function XorHigh(x: Lanes, m: Quad): Lanes
  {
    Lanes(x.m0, x.m1, x.m2, x.m3, Xor(x.m4, m.q0), Xor(x.m5, m.q1), Xor(x.m6, m.q2), Xor(x.m7, m.q3))
  }

  /** The compression function F8: the block XORed into the first half of the state,
      the 42 rounds of E8, the block XORed into the second half. */
  function F8(x: Lanes, m: Quad): Lanes
  {
    XorHigh(E8Rounds(XorLow(x, m), 42), m)
  }

  /** F8 undone for a known block. */
  function F8Inverse(y: Lanes, m: Quad): Lanes
  {
    XorLow(E8InverseRounds(XorHigh(y, m), 42), m)
  }

  /** XORing the same lane twice cancels. */
  lemma XorCancel(a: Lane, b: Lane)
    ensures Xor(Xor(a, b), b) == a
  {
    assert forall i | 0 <= i < 128 :: Xor(Xor(a, b), b)[i] == a[i];
  }

  lemma XorLowCancel(x: Lanes, m: Quad)
    ensures XorLow(XorLow(x, m), m) == x
  {
    XorCancel(x.m0, m.q0);
    XorCancel(x.m1, m.q1);
    XorCancel(x.m2, m.q2);
    XorCancel(x.m3, m.q3);
  }

  lemma XorHighCancel(x: Lanes, m: Quad)
    ensures XorHigh(XorHigh(x, m), m) == x
  {
    XorCancel(x.m4, m.q0);
    XorCancel(x.m5, m.q1);
    XorCancel(x.m6, m.q2);
    XorCancel(x.m7, m.q3);
  }

  /** For a fixed block, F8 is a bijection on the chaining state. */
  lemma F8Inverts(x: Lanes, m: Quad)
    ensures F8Inverse(F8(x, m), m) == x
    ensures F8(F8Inverse(x, m), m) == x
  {
    XorHighCancel(E8Rounds(XorLow(x, m), 42), m);
    E8Inverts(XorLow(x, m), 42);
    XorLowCancel(x, m);
    var y := E8InverseRounds(XorHigh(x, m), 42);
    XorLowCancel(y, m);
    E8Inverts(XorHigh(x, m), 42);
    XorHighCancel(x, m);
  }

  /** Two chaining states that compress a block to the same state are equal. */
  lemma F8Injective(x: Lanes, y: Lanes, m: Quad)
    requires F8(x, m) == F8(y, m)
    ensures x == y
  {
    F8Inverts(x, m);
    F8Inverts(y, m);
  }

  // ---------------------------------------------------------------------------------
  // Padding and JH-512

  /** A number below the divisor has quotient 0. */
  lemma QuotientZero(a: nat, p: nat)
    requires a < p
    ensures a / p == 0
  {
  }

  lemma {:induction false} Pow256AtLeast(k: nat)
    requires k >= 2
    ensures Pow256(k) >= 65536
  {
    if k > 2 {
      Pow256AtLeast(k - 1);
    }
  }

  /** The padding of the JH design for a message of n bytes: the bit 1 (byte 0x80), then
      383 + (-8n mod 512) zero bits, then the message length in bits as a 128-bit
      big-endian number. */
  function JhPadding(n: nat): (p: seq<Byte>)
    ensures (n + |p|) % 64 == 0 && 64 <= |p| < 128
  {
    [0x80] + Zeros(47 + (64 - n % 64) % 64) + BigEndian(8 * n, 16)
  }

  /** The padding block JH_H writes for its 64-byte message: byte 0 is 0x80, byte 62 is
      0x02 (512 = 0x200 big-endian in the last bytes) and every other byte is 0. */
  function PaddingBlock(): (p: seq<Byte>)
    ensures |p| == 64
  {
    [0x80] + Zeros(61) + [0x02, 0x00]
  }

  /** The block JH_H hard-codes is the padding rule applied to a 64-byte message. */
  lemma PaddingBlockIsPadding()
    ensures JhPadding(64) == PaddingBlock()
  {
    LengthField();
    assert JhPadding(64) == [0x80] + Zeros(47) + BigEndian(512, 16);
    assert Zeros(47) + Zeros(14) == Zeros(61);
  }

  /** 512 bits as a 128-bit big-endian length: fourteen zero bytes, then 0x02 0x00. */
  lemma LengthField()
    ensures BigEndian(512, 16) == Zeros(14) + [0x02, 0x00]
  {
    LengthFieldHigh();
    LengthFieldLow();
  }

  /** Bytes 0..13 of the length field: 512 is below every power of 256 from 256^2 up. */
  lemma LengthFieldHigh()
    ensures forall i | 0 <= i < 14 :: BigEndian(512, 16)[i] == 0
  {
    forall i | 0 <= i < 14
      ensures BigEndian(512, 16)[i] == 0
    {
      Pow256AtLeast(15 - i);
      QuotientZero(512, Pow256(15 - i));
    }
  }

  /** Bytes 14 and 15 of the length field: 512 = 2 * 256 + 0. */
  lemma LengthFieldLow()
    ensures BigEndian(512, 16)[14] == 0x02 && BigEndian(512, 16)[15] == 0x00
  {
    assert Pow256(1) == 256 && Pow256(0) == 1;
    assert 512 / Pow256(1) == 2 && 512 / Pow256(0) == 512;
  }

  /** H(0) of JH-512 as the eight lanes `jhLOAD(JH512_H0 + 16k)`. */
  function H0State(): Lanes
  {
    Lanes(H0Lane(0), H0Lane(1), H0Lane(2), H0Lane(3), H0Lane(4), H0Lane(5), H0Lane(6), H0Lane(7))
  }

  /** The chaining state after compressing a padded message block by block. */
  function Absorb(x: Lanes, m: seq<Byte>): Lanes
    requires |m| % 64 == 0
    decreases |m|
  {
    if |m| == 0 then x else Absorb(F8(x, BlockQuad(m[..64])), m[64..])
  }

  /** The digest: the second half of the final state, x4 || x5 || x6 || x7. */
  function Digest(x: Lanes): (d: seq<Byte>)
    ensures |d| == 64
  {
    Store(x.m4) + Store(x.m5) + Store(x.m6) + Store(x.m7)
  }

  /** JH-512 of a byte string: pad, compress every block starting from H(0), output
      the last 512 bits of the state. */
  function Jh512(msg: seq<Byte>): (d: seq<Byte>)
    ensures |d| == 64
  {
    Digest(Absorb(H0State(), msg + JhPadding(|msg|)))
  }

  /** Absorbing a 64-byte block and then the rest is absorbing the whole. */
  lemma AbsorbBlock(x: Lanes, block: seq<Byte>, rest: seq<Byte>)
    requires |block| == 64 && |rest| % 64 == 0
    ensures Absorb(x, block + rest) == Absorb(F8(x, BlockQuad(block)), rest)
  {
    var m := block + rest;
    assert m[..64] == block && m[64..] == rest;
  }

  /** For a 64-byte message JH-512 is two compressions: the message, then the
      padding block. */
  lemma Jh512OneBlock(msg: seq<Byte>)
    requires |msg| == 64
    ensures Jh512(msg) == Digest(F8(F8(H0State(), BlockQuad(msg)), BlockQuad(PaddingBlock())))
  {
    PaddingBlockIsPadding();
    var y := F8(H0State(), BlockQuad(msg));
    AbsorbBlock(H0State(), msg, PaddingBlock());
    AbsorbBlock(y, PaddingBlock(), []);
    assert PaddingBlock() + [] == PaddingBlock();
  }

  // ---------------------------------------------------------------------------------
  // The code

  /** The variables JH_H works on: the lanes jhSx0..jhSx7 and the 64-byte jhSbuffer. */
  class JhContext {
    var x0: Lane
    var x1: Lane
    var x2: Lane
    var x3: Lane
    var x4: Lane
    var x5: Lane
    var x6: Lane
    var x7: Lane
    const buffer: array<Byte>

    constructor ()
      ensures buffer.Length == 64 && fresh(buffer)
    {
      buffer := new Byte[64](_ => 0);
    }

    /** The 1024-bit state held in x0..x7. */
    function State(): Lanes
      reads this
    {
      Lanes(x0, x1, x2, x3, x4, x5, x6, x7)
    }

    /** jhround_functionI(nn, r): jhSS on (x0, x2, x4, x6 | x1, x3, x5, x7) under the two
        halves of round constant r, then linear transform nn on the same arguments. */
    method RoundI(nn: nat, r: nat)
      requires r < 42 && nn < 7
      modifies this
      ensures State() == RoundFn(old(State()), r, nn)
    {
      ghost var x := State();
      var c0, c1 := RoundConstantLane(r, 0), RoundConstantLane(r, 1);
      var g := Lanes(x0, x2, x4, x6, x1, x3, x5, x7);
      assert g == Regroup(x);
      var t := ApplySS(g, c0, c1);
      assert t == SboxPair(g, c0, c1);
      var u := LinearTransform(t, nn);
      x0, x2, x4, x6, x1, x3, x5, x7 := u.m0, u.m1, u.m2, u.m3, u.m4, u.m5, u.m6, u.m7;
      assert State() == Ungroup(u);
    }

    /** One pass of jhF8I's loop: the round macros with shapes 0..6 on rounds i..i + 6,
        which carries the first i rounds of E8 from `start` to the first i + 7. */
    method RoundsI(i: nat, ghost start: Lanes)
      requires i < 42 && i % 7 == 0
      requires State() == E8Rounds(start, i)
      modifies this
      ensures State() == E8Rounds(start, i + 7)
    {
      SevenRounds(i);
      RoundI(0, i);
      E8Step(start, i, 0);
      RoundI(1, i + 1);
      E8Step(start, i + 1, 1);
      RoundI(2, i + 2);
      E8Step(start, i + 2, 2);
      RoundI(3, i + 3);
      E8Step(start, i + 3, 3);
      RoundI(4, i + 4);
      E8Step(start, i + 4, 4);
      RoundI(5, i + 5);
      E8Step(start, i + 5, 5);
      RoundI(6, i + 6);
      E8Step(start, i + 6, 6);
    }

    /** jhF8I: the buffer XORed into x0..x3, the 42 rounds seven at a time, the buffer
        XORed into x4..x7. The buffer is only read. */
    method F8I()
      requires buffer.Length == 64
      modifies this
      ensures State() == F8(old(State()), BlockQuad(buffer[..]))
    {
      var m := BlockQuad(buffer[..]);
      x0, x1, x2, x3 := Xor(x0, m.q0), Xor(x1, m.q1), Xor(x2, m.q2), Xor(x3, m.q3);
      ghost var start := State();
      assert start == XorLow(old(State()), m);
      var i := 0;
      while i < 42
        invariant 0 <= i <= 42 && i % 7 == 0
        invariant State() == E8Rounds(start, i)
      {
        SevenRounds(i);
        RoundsI(i, start);
        i := i + 7;
      }
      x4, x5, x6, x7 := Xor(x4, m.q0), Xor(x5, m.q1), Xor(x6, m.q2), Xor(x7, m.q3);
    }

    /** JH_H: JH-512 of the 64 bytes at `hash`, written back over them. The state starts
        at H(0); the first pass of the break-flag loop compresses the copied message and
        writes the padding block into the buffer, the second compresses the padding block
        and leaves. */
    method Hash(hash: array<Byte>)
      requires buffer.Length == 64 && hash.Length >= 64 && hash != buffer
      modifies this, buffer, hash
      ensures State() == F8(F8(H0State(), BlockQuad(old(hash[..64]))), BlockQuad(PaddingBlock()))
      ensures hash[..64] == Jh512(old(hash[..64]))
      ensures hash[64..] == old(hash[64..])
      ensures buffer[..] == PaddingBlock()
    {
      ghost var msg := hash[..64];
      x0, x1, x2, x3 := H0Lane(0), H0Lane(1), H0Lane(2), H0Lane(3);
      x4, x5, x6, x7 := H0Lane(4), H0Lane(5), H0Lane(6), H0Lane(7);
      var b := false;
      forall k | 0 <= k < 64 {
        buffer[k] := hash[k];
      }
      assert buffer[..] == msg;
      while true
        invariant hash[..] == old(hash[..])
        invariant !b ==> State() == H0State() && buffer[..] == msg
        invariant b ==> State() == F8(H0State(), BlockQuad(msg)) && buffer[..] == PaddingBlock()
        decreases if b then 0 else 1
      {
        F8I();
        if b {
          break;
        }
        WritePadding();
        b := true;
      }
      ghost var last := State();
      StoreDigest(hash);
      Jh512OneBlock(msg);
    }

    /** The bytes JH_H writes at 56..63: the message length 64 * 8 = 0x200 shifted right
        by 56, 48, .., 0 and masked to a byte, which is 0x200 as eight big-endian bytes. */
    static lemma LengthBytes()
      ensures (((64 * 8) as bv64 >> 56) & 0xff) as Byte == 0 && (((64 * 8) as bv64 >> 48) & 0xff) as Byte == 0
      ensures (((64 * 8) as bv64 >> 40) & 0xff) as Byte == 0 && (((64 * 8) as bv64 >> 32) & 0xff) as Byte == 0
      ensures (((64 * 8) as bv64 >> 24) & 0xff) as Byte == 0 && (((64 * 8) as bv64 >> 16) & 0xff) as Byte == 0
      ensures (((64 * 8) as bv64 >> 8) & 0xff) as Byte == 0x02 && ((64 * 8) as bv64 & 0xff) as Byte == 0
    {
    }

    /** The padding writes of JH_H: the head of the block, then the length field. */
    method WritePadding()
      requires buffer.Length == 64
      modifies buffer
      ensures buffer[..] == PaddingBlock()
    {
      ClearHead();
      WriteLength();
      assert buffer[..] == buffer[..48] + buffer[48..];
      assert PaddingBlock() == ([0x80] + Zeros(47)) + (Zeros(14) + [0x02, 0x00]);
    }

    /** `memset(jhSbuffer, 0, 48)` and byte 0 set to 0x80; bytes 48..63 stay. */
    method ClearHead()
      requires buffer.Length == 64
      modifies buffer
      ensures buffer[..48] == [0x80] + Zeros(47)
      ensures buffer[48..] == old(buffer[48..])
    {
      forall k | 0 <= k < 48 {
        buffer[k] := 0;
      }
      buffer[0] := 0x80;
    }

    /** Bytes 48..55 cleared and the message length 64 * 8 written as a 64-bit big-endian
        number in bytes 56..63; bytes 0..47 stay. */
    method WriteLength()
      requires buffer.Length == 64
      modifies buffer
      ensures buffer[48..] == Zeros(14) + [0x02, 0x00]
      ensures buffer[..48] == old(buffer[..48])
    {
      buffer[48], buffer[49], buffer[50], buffer[51] := 0x00, 0x00, 0x00, 0x00;
      buffer[52], buffer[53], buffer[54], buffer[55] := 0x00, 0x00, 0x00, 0x00;
      LengthBytes();
      buffer[56] := (((64 * 8) as bv64 >> 56) & 0xff) as Byte;
      buffer[57] := (((64 * 8) as bv64 >> 48) & 0xff) as Byte;
      buffer[58] := (((64 * 8) as bv64 >> 40) & 0xff) as Byte;
      buffer[59] := (((64 * 8) as bv64 >> 32) & 0xff) as Byte;
      buffer[60] := (((64 * 8) as bv64 >> 24) & 0xff) as Byte;
      buffer[61] := (((64 * 8) as bv64 >> 16) & 0xff) as Byte;
      buffer[62] := (((64 * 8) as bv64 >> 8) & 0xff) as Byte;
      buffer[63] := ((64 * 8) as bv64 & 0xff) as Byte;
    }

    /** The end of JH_H: jhSTORE of x4, x5, x6, x7 at hash, hash + 16, hash + 32 and
        hash + 48, which is the digest of the state; the bytes after them stay. */
    method StoreDigest(hash: array<Byte>)
      requires hash.Length >= 64
      modifies hash
      ensures hash[..64] == Digest(State())
      ensures hash[64..] == old(hash[64..])
    {
      StoreLane(hash, 0, x4);
      StoreLane(hash, 16, x5);
      StoreLane(hash, 32, x6);
      StoreLane(hash, 48, x7);
      assert hash[..64] == hash[0..16] + hash[16..32] + hash[32..48] + hash[48..64];
    }
  }

  /** jhSTORE: the 16 bytes of lane `v` written at `offset`; every other byte stays. */
  method StoreLane(dst: array<Byte>, offset: nat, v: Lane)
    requires offset + 16 <= dst.Length
    modifies dst
    ensures dst[offset..offset + 16] == Store(v)
    ensures forall k | 0 <= k < dst.Length && !(offset <= k < offset + 16) :: dst[k] == old(dst[k])
  {
    var s := Store(v);
    forall k | offset <= k < offset + 16 {
      dst[k] := s[k - offset];
    }
  }
}
