// tribus_hash: JH-512 of the 80-byte block header, then Keccak-512 and Echo-512 of the
// running 64-byte digest, each overwriting it in place; the first 32 bytes are the hash.
module Tribus {
  import opened Bytes
  import opened HashPrimitives

  /** The 64-byte digest the chain leaves in `hash`: JH of input bytes 0..79, Keccak of
      that, Echo of that. */
  function Chain(h: Suite, input: seq<Byte>): (d: seq<Byte>)
    requires |input| >= 80
    ensures |d| == 64
  {
    h(Echo, h(Keccak, h(Jh, input[..80])))
  }

  /** The tribus hash: the first 32 bytes of the chain's digest. */
  function TribusHash(h: Suite, input: seq<Byte>): (r: seq<Byte>)
    requires |input| >= 80
    ensures |r| == 32
  {
    Chain(h, input)[..32]
  }

  /** Only the 80-byte header is hashed: inputs that agree on it hash alike, whatever
      follows and whatever `len` says. */
  lemma HeaderOnly(h: Suite, a: seq<Byte>, b: seq<Byte>)
    requires |a| >= 80 && |b| >= 80 && a[..80] == b[..80]
    ensures TribusHash(h, a) == TribusHash(h, b)
  {
  }

  /** The three stages on the 256-byte `hash` buffer (`uint32_t hash[64]`): each writes its
      digest over bytes 0..63 and the next reads them; bytes 64..255 are never touched. */
  method Stages(h: Suite, input: seq<Byte>, hash: array<Byte>)
    requires |input| >= 80 && hash.Length == 256
    modifies hash
    ensures hash[..64] == Chain(h, input)
    ensures hash[64..] == old(hash[64..])
  {
    HashInto(h, Jh, input[..80], hash, 0);
    HashInto(h, Keccak, hash[..64], hash, 0);
    HashInto(h, Echo, hash[..64], hash, 0);
  }

  /** tribus_hash: the chain on a local buffer, then `memcpy(output, hash, 32)`. `len` is
      not used. */
  method Hash(h: Suite, input: seq<Byte>, output: array<Byte>, len: nat)
    requires |input| >= 80 && output.Length >= 32
    modifies output
    ensures output[..32] == TribusHash(h, input)
    ensures output[32..] == old(output[32..])
  {
    var hash := new Byte[256];
    Stages(h, input, hash);
    forall k | 0 <= k < 32 {
      output[k] := hash[k];
    }
  }
}
