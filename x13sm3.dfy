// x13sm3_hash: thirteen primitives in a fixed order, each writing its digest into a fresh
// pair of 32-byte slots of `uint256 hash[34]` and the next reading that pair. SM3's
// 32-byte digest lands in slot 12 after slots 12 and 13 have been cleared, so CubeHash
// absorbs it zero-extended to 64 bytes.
module X13Sm3 {
  import opened Bytes
  import opened HashPrimitives

  /** `sizeof(uint256)`: the width of one slot of `hash`. */
  const SlotSize: nat := 32

  /** `uint256 hash[34]`: 34 slots of 32 bytes. */
  const HashBytes: nat := 34 * SlotSize

  /** The stages in the order the code runs them; stage k writes slots 2k and 2k + 1. */
  const StageAlgos: seq<Algo> :=
    [Blake, Bmw, Groestl, Skein, Jh, Keccak, Sm3, CubeHash, Shavite, Simd, Echo, Hamsi, Fugue]

  /** The SM3 stage. */
  const Sm3Stage: nat := 6

  // ---------------------------------------------------------------------------------
  // The chain as values

  /** The 64 bytes of slot pair 2k once stage k has run: Blake of the message for k = 0;
      for later stages the stage's primitive on the previous pair, SM3's 32-byte digest
      followed by the 32 zero bytes of the cleared slot 13. */
  function Slot(h: Suite, msg: seq<Byte>, k: nat): (d: seq<Byte>)
    requires k < 13
    ensures |d| == 64
  {
    if k == 0 then h(Blake, msg)
    else if k == Sm3Stage then h(Sm3, Slot(h, msg, k - 1)) + Zeros(32)
    else h(StageAlgos[k], Slot(h, msg, k - 1))
  }

  /** The first 64n bytes of `hash` once stages 0..n-1 have run: their slot pairs in order. */
  function Slots(h: Suite, msg: seq<Byte>, n: nat): (s: seq<Byte>)
    requires n <= 13
    ensures |s| == 64 * n
  {
    if n == 0 then [] else Slots(h, msg, n - 1) + Slot(h, msg, n - 1)
  }

  /** A later stage never overwrites an earlier slot: the bytes after n stages are a
      prefix of the bytes after m >= n stages. */
  lemma {:induction false} SlotsPrefix(h: Suite, msg: seq<Byte>, n: nat, m: nat)
    requires n <= m <= 13
    ensures Slots(h, msg, m)[..64 * n] == Slots(h, msg, n)
    decreases m
  {
    if n < m {
      SlotsPrefix(h, msg, n, m - 1);
      assert Slots(h, msg, m)[..64 * (m - 1)] == Slots(h, msg, m - 1);
    }
  }

  /** Slot pair 2k of the finished buffer is the digest of stage k. */
  lemma SlotAt(h: Suite, msg: seq<Byte>, k: nat)
    requires k < 13
    ensures Slots(h, msg, 13)[64 * k..64 * k + 64] == Slot(h, msg, k)
  {
    SlotsPrefix(h, msg, k + 1, 13);
    assert Slots(h, msg, 13)[64 * k..64 * k + 64] == Slots(h, msg, k + 1)[64 * k..];
  }

  /** Each stage after the first reads the 64 bytes at slot pair 2(k - 1) of the finished
      buffer and its digest is what slot pair 2k holds: the stage order is Blake, BMW,
      Groestl, Skein, JH, Keccak, SM3, CubeHash, SHAvite, SIMD, Echo, Hamsi, Fugue. */
  lemma StageReadsPrevious(h: Suite, msg: seq<Byte>, k: nat)
    requires 1 <= k < 13
    ensures var s := Slots(h, msg, 13);
      var digest := h(StageAlgos[k], s[64 * (k - 1)..64 * k]);
      s[64 * k..64 * k + 64] == if k == Sm3Stage then digest + Zeros(32) else digest
  {
    SlotAt(h, msg, k);
    SlotAt(h, msg, k - 1);
  }

  /** CubeHash absorbs SM3's 32-byte digest of the Keccak digest followed by 32 zero
      bytes. */
  lemma CubeHashInput(h: Suite, msg: seq<Byte>)
    ensures Slots(h, msg, 13)[384..448] == h(Sm3, Slots(h, msg, 13)[320..384]) + Zeros(32)
    ensures Slots(h, msg, 13)[448..512] == h(CubeHash, h(Sm3, Slot(h, msg, 5)) + Zeros(32))
  {
    StageReadsPrevious(h, msg, 6);
    SlotAt(h, msg, 7);
  }

  /** x13sm3_hash as written: `memcpy(output, hash, 24)` copies the first 24 bytes of slot
      0, which hold Blake's digest of the message. */
  function X13Sm3Hash(h: Suite, msg: seq<Byte>): (r: seq<Byte>)
    ensures |r| == 24
  {
    Slots(h, msg, 13)[..24]
  }

  /** As written, the output is the head of Blake's digest and no later stage affects it. */
  lemma OutputIsBlakeDigest(h: Suite, msg: seq<Byte>)
    ensures |h(Blake, msg)| == 64 && X13Sm3Hash(h, msg) == h(Blake, msg)[..24]
  {
    SlotAt(h, msg, 0);
    assert Slot(h, msg, 0) == h(Blake, msg);
    assert X13Sm3Hash(h, msg) == Slots(h, msg, 13)[0..64][..24];
  }

  /** A suite whose Blake digest is all zeros and whose other digests are all ones. */
  function ZeroBlakeSuite(): Suite
  {
    (a: Algo, m: seq<Byte>) => seq(DigestLength(a), _ => if a == Blake then 0 else 0xff)
  }

  /** With that suite the as-written output differs from the head of the Fugue digest. */
  lemma OutputMissesFugue(msg: seq<Byte>)
    ensures X13Sm3Hash(ZeroBlakeSuite(), msg) != X13Sm3Intended(ZeroBlakeSuite(), msg)[..24]
  {
    var h := ZeroBlakeSuite();
    OutputIsBlakeDigest(h, msg);
    FugueOutput(h, msg);
    assert X13Sm3Hash(h, msg)[0] == 0;
    assert X13Sm3Intended(h, msg)[0] == 0xff;
  }

  /** The evidently intended x13sm3 hash: the first 32 bytes of the Fugue digest in slot 24,
      as `memcpy(output, hash[24], 32)` would copy them. */
  function X13Sm3Intended(h: Suite, msg: seq<Byte>): (r: seq<Byte>)
    ensures |r| == 32
  {
    Slots(h, msg, 13)[768..800]
  }

  /** The intended output is the head of the last stage's digest, Fugue of the Hamsi
      digest. */
  lemma FugueOutput(h: Suite, msg: seq<Byte>)
    ensures |h(Fugue, Slot(h, msg, 11))| == 64
    ensures X13Sm3Intended(h, msg) == h(Fugue, Slot(h, msg, 11))[..32]
  {
    SlotAt(h, msg, 12);
    assert Slot(h, msg, 12) == h(Fugue, Slot(h, msg, 11));
    assert X13Sm3Intended(h, msg) == Slots(h, msg, 13)[768..832][..32];
  }

  // ---------------------------------------------------------------------------------
  // The code

  /** One 64-byte stage after the first: `sph_X(ctx, hash[2(k - 1)], 64)` and
      `sph_X_close(ctx, hash[2k])`. */
  method Advance(h: Suite, ghost msg: seq<Byte>, a: Algo, k: nat, hash: array<Byte>)
    requires 1 <= k < 13 && k != Sm3Stage && StageAlgos[k] == a
    requires hash.Length == HashBytes && hash[..64 * k] == Slots(h, msg, k)
    modifies hash
    ensures hash[..64 * (k + 1)] == Slots(h, msg, k + 1)
    ensures forall i | 64 * (k + 1) <= i < hash.Length :: hash[i] == old(hash[i])
  {
    ghost var before := hash[..];
    SlotsPrefix(h, msg, k - 1, k);
    assert hash[64 * (k - 1)..64 * k] == Slot(h, msg, k - 1);
    HashInto(h, a, hash[64 * (k - 1)..64 * k], hash, 64 * k);
    assert hash[..64 * k] == before[..64 * k];
    assert hash[..64 * (k + 1)] == hash[..64 * k] + hash[64 * k..64 * (k + 1)];
  }

  /** `hash[slot].SetNull()`: the 32 bytes of the slot become zero. */
  method SetNull(hash: array<Byte>, slot: nat)
    requires SlotSize * (slot + 1) <= hash.Length
    modifies hash
    ensures hash[SlotSize * slot..SlotSize * (slot + 1)] == Zeros(SlotSize)
    ensures forall i | 0 <= i < hash.Length && !(SlotSize * slot <= i < SlotSize * (slot + 1)) ::
              hash[i] == old(hash[i])
  {
    forall i | SlotSize * slot <= i < SlotSize * (slot + 1) {
      hash[i] := 0;
    }
  }

  /** Slots 12 and 13 cleared, then SM3 of the 64 bytes at slot pair 10 into slot 12. */
  method Sm3Into(h: Suite, ghost msg: seq<Byte>, hash: array<Byte>)
    requires hash.Length == HashBytes && hash[..384] == Slots(h, msg, 6)
    modifies hash
    ensures hash[..448] == Slots(h, msg, 7)
    ensures forall i | 448 <= i < hash.Length :: hash[i] == old(hash[i])
  {
    SlotsPrefix(h, msg, 5, 6);
    assert hash[320..384] == Slot(h, msg, 5);
    ghost var s0 := hash[..];
    SetNull(hash, 12);
    SetNull(hash, 13);
    assert hash[416..448] == Zeros(32);
    HashInto(h, Sm3, hash[320..384], hash, 384);
    assert hash[..384] == s0[..384];
    assert hash[416..448] == hash[416..][..32] == Zeros(32);
    assert hash[..448] == hash[..384] + hash[384..416] + hash[416..448];
  }

  /** The thirteen stages of x13sm3_hash on the `hash` buffer, whatever it held before:
      slot pairs 0, 2, .., 24 get the chain's digests and slots 26..33 are never touched. */
  method Stages(h: Suite, msg: seq<Byte>, hash: array<Byte>)
    requires hash.Length == HashBytes
    modifies hash
    ensures hash[..832] == Slots(h, msg, 13)
    ensures hash[832..] == old(hash[832..])
  {
    FirstStages(h, msg, hash);
    LastStages(h, msg, hash);
  }

  /** Blake of the message into slot 0, then BMW, Groestl, Skein, JH and Keccak. */
  method FirstStages(h: Suite, msg: seq<Byte>, hash: array<Byte>)
    requires hash.Length == HashBytes
    modifies hash
    ensures hash[..384] == Slots(h, msg, 6)
    ensures forall i | 384 <= i < hash.Length :: hash[i] == old(hash[i])
  {
    BlakeInto(h, msg, hash);
    Advance(h, msg, Bmw, 1, hash);
    Advance(h, msg, Groestl, 2, hash);
    Advance(h, msg, Skein, 3, hash);
    Advance(h, msg, Jh, 4, hash);
    Advance(h, msg, Keccak, 5, hash);
  }

  /** `sph_blake512(ctx, input, len)` and `sph_blake512_close(ctx, hash[0])`. */
  method BlakeInto(h: Suite, msg: seq<Byte>, hash: array<Byte>)
    requires hash.Length == HashBytes
    modifies hash
    ensures hash[..64] == Slots(h, msg, 1)
    ensures forall i | 64 <= i < hash.Length :: hash[i] == old(hash[i])
  {
    HashInto(h, Blake, msg, hash, 0);
  }

  /** SM3, then CubeHash, SHAvite, SIMD, Echo, Hamsi and Fugue. */
  method LastStages(h: Suite, ghost msg: seq<Byte>, hash: array<Byte>)
    requires hash.Length == HashBytes && hash[..384] == Slots(h, msg, 6)
    modifies hash
    ensures hash[..832] == Slots(h, msg, 13)
    ensures forall i | 832 <= i < hash.Length :: hash[i] == old(hash[i])
  {
    Sm3Into(h, msg, hash);
    Advance(h, msg, CubeHash, 7, hash);
    Advance(h, msg, Shavite, 8, hash);
    Advance(h, msg, Simd, 9, hash);
    Advance(h, msg, Echo, 10, hash);
    Advance(h, msg, Hamsi, 11, hash);
    Advance(h, msg, Fugue, 12, hash);
  }

  /** x13sm3_hash as written: Blake absorbs the first `len` input bytes, the chain runs, and
      `memcpy(output, hash, 24)` copies 24 bytes from the start of `hash`. */
  method Hash(h: Suite, input: seq<Byte>, output: array<Byte>, len: nat)
    requires len <= |input| && output.Length >= 24
    modifies output
    ensures output[..24] == X13Sm3Hash(h, input[..len])
    ensures output[24..] == old(output[24..])
  {
    var hash := new Byte[HashBytes];
    Stages(h, input[..len], hash);
    forall j | 0 <= j < 24 {
      output[j] := hash[j];
    }
    assert output[..24] == hash[..24] == hash[..832][..24];
  }

  /** x13sm3_hash with the output copy corrected to `memcpy(output, hash[24], 32)`: the
      first 32 bytes of the Fugue digest. */
  method HashIntended(h: Suite, input: seq<Byte>, output: array<Byte>, len: nat)
    requires len <= |input| && output.Length >= 32
    modifies output
    ensures output[..32] == X13Sm3Intended(h, input[..len])
    ensures output[32..] == old(output[32..])
  {
    var hash := new Byte[HashBytes];
    Stages(h, input[..len], hash);
    forall j | 0 <= j < 32 {
      output[j] := hash[768 + j];
    }
    assert output[..32] == hash[768..800] == hash[..832][768..800];
  }
}
