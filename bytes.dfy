// Byte strings shared by the JH core and the hash-chain executors.
module Bytes {

  type Byte = bv8

  /** `n` zero bytes (what `memset(p, 0, n)` leaves behind). */
  function Zeros(n: nat): (z: seq<Byte>)
    ensures |z| == n
    ensures forall i :: 0 <= i < n ==> z[i] == 0
  {
    seq(n, _ => 0)
  }

  /** The unsigned 32-bit word at word index `k` of a byte string on a little-endian
      host, that is `((uint32_t *)s)[k]`, as a number in [0, 2^32). */
  function Word32LE(s: seq<Byte>, k: nat): (w: nat)
    requires 4 * k + 4 <= |s|
    ensures w < 0x1_0000_0000
    ensures w % 256 == s[4 * k] as nat
    ensures w / 0x100_0000 == s[4 * k + 3] as nat
  {
    s[4 * k] as nat + 0x100 * s[4 * k + 1] as nat + 0x1_0000 * s[4 * k + 2] as nat
      + 0x100_0000 * s[4 * k + 3] as nat
  }

  /** 256 to the power k. */
  function Pow256(k: nat): (p: nat)
    ensures p > 0
  {
    if k == 0 then 1 else 256 * Pow256(k - 1)
  }

  /** The unsigned value v as w bytes, most significant first (truncated to w bytes):
      byte i is digit w - 1 - i of v in base 256. */
  function BigEndian(v: nat, w: nat): (b: seq<Byte>)
    ensures |b| == w
  {
    seq(w, i requires 0 <= i < w => ((v / Pow256(w - 1 - i)) % 256) as Byte)
  }
}
