// The hash primitives the chain executors call, taken as given: each is a function from
// the bytes it absorbs to its digest, 64 bytes long except SM3's 32. Their internals are
// not part of this model; a chain only depends on which primitive runs on which bytes.
module HashPrimitives {
  import opened Bytes

  datatype Option<T> = None | Some(value: T)

  /** The primitives the chains use (sph_blake512, sph_bmw512, .., sph_fugue512, sm3). */
  datatype Algo =
    | Blake | Bmw | Groestl | Skein | Jh | Keccak | Luffa | CubeHash | Shavite | Simd
    | Echo | Hamsi | Fugue | Sm3

  /** The digest length of a primitive in bytes: 512 bits, except SM3's 256 bits. */
  function DigestLength(a: Algo): nat
  {
    if a == Sm3 then 32 else 64
  }

  /** One choice of primitives: `init`, absorb the message, `close` gives the digest. */
  type Suite = s: (Algo, seq<Byte>) -> seq<Byte>
    | forall a: Algo, m: seq<Byte> :: |s(a, m)| == DigestLength(a)
    witness (a: Algo, m: seq<Byte>) => Zeros(DigestLength(a))

  /** `sph_X_init`, `sph_X(ctx, data, |data|)` and `sph_X_close(ctx, out + offset)`: the
      digest of `data` written at `offset`, every other byte of `out` left as it was. */
  method HashInto(h: Suite, a: Algo, data: seq<Byte>, out: array<Byte>, offset: nat)
    requires offset + DigestLength(a) <= out.Length
    modifies out
    ensures out[offset..offset + DigestLength(a)] == h(a, data)
    ensures out[..offset] == old(out[..offset])
    ensures out[offset + DigestLength(a)..] == old(out[offset + DigestLength(a)..])
  {
    var d := h(a, data);
    forall k | offset <= k < offset + DigestLength(a) {
      out[k] := d[k - offset];
    }
  }
}
