# JH-512 (bitslice SSE2) and three hash chains, in Dafny

This project models two parts of the node-multi-hashing repository.

**JH-512 over one 64-byte message** (`algo/jh/sse2/jh_sse2_opt64.h`). The state is eight
128-bit registers. Each register is modelled as its 128 bits (a `Lane`), loaded from and
stored to 16 bytes in x86 byte order.

- The SSE2 intrinsics behind the `jh*` macros are modelled by their element semantics
  (module `Sse2`).
- The seven swap macros are proved to exchange adjacent groups of 1..64 bits (`JhSwap`).
- The S-box network `jhSS` is proved to compute the S-boxes S0/S1 of the JH design at every
  bit position. The MDS code `jhL` is given in closed form, each output lane an XOR of input lanes. Each linear
  transform and each round gets an inverse (`JhLayers`).
- E8 (42 rounds), the compression function F8, the padding rule and JH-512 itself are
  written as functions. The code that runs them is a class `JhContext` whose fields are the
  lane variables `jhSx0..jhSx7` and the 64-byte `jhSbuffer`. Its methods are the round
  macro, `jhF8I` with its 42-round loop, and `JH_H` with its break-flag loop. Each method is
  proved against those functions (`JhCompress`).
- The constants `JH512_H0` and `jhE8_bitslice_roundconstant` are kept byte for byte
  (`JhConstants`).

**Three hash chains** (`timetravel10.c`, `x13sm3.c`, `tribus.c`). Every `sph_*`/`sm3`
primitive is a parameter `h: Suite`. A `Suite` is any total function from an algorithm name
and a message to a digest of that algorithm's length: 64 bytes, or 32 for SM3
(`HashPrimitives`). Each chain is specified as a function of the suite and the input, and its
code is a method over the `hash` array, proved to leave exactly that function's value there.

- **timetravel10:** the time word, the wrapped table index, the eight nibble selectors and
  their dispatch, and the 32-byte output.
- **x13sm3:** the 13 slot-to-slot stages, the SM3 zero-extension and the output copy.
- **tribus:** JH, then Keccak, then Echo.

## Model

| member | source | states |
|---|---|---|
| Sse2.StoreLoad | algo/jh/sse2/jh_sse2_opt64.h:137-138 | storing a register loaded from 16 bytes gives those 16 bytes back |
| Sse2.LoadStore | algo/jh/sse2/jh_sse2_opt64.h:137-138 | loading the 16 bytes a register is stored as gives the register back |
| JhSwap.Swap1Groups | algo/jh/sse2/jh_sse2_opt64.h:130 | jhSWAP1, built from shifts and the 0xaa/0x55 masks, exchanges bit 2i with bit 2i+1 |
| JhSwap.Swap2Groups | algo/jh/sse2/jh_sse2_opt64.h:131 | jhSWAP2 exchanges each adjacent pair of 2-bit groups |
| JhSwap.Swap4Groups | algo/jh/sse2/jh_sse2_opt64.h:132 | jhSWAP4 exchanges each adjacent pair of 4-bit groups |
| JhSwap.Swap8Groups | algo/jh/sse2/jh_sse2_opt64.h:133 | jhSWAP8 (a 16-bit left shift OR a 16-bit right shift) exchanges adjacent bytes |
| JhSwap.Swap16Groups | algo/jh/sse2/jh_sse2_opt64.h:134 | jhSWAP16 exchanges adjacent 16-bit groups |
| JhSwap.Swap32Groups | algo/jh/sse2/jh_sse2_opt64.h:135 | the shuffle of jhSWAP32 exchanges adjacent 32-bit groups |
| JhSwap.Swap64Groups | algo/jh/sse2/jh_sse2_opt64.h:136 | the shuffle of jhSWAP64 exchanges the two 64-bit halves |
| JhSwap.SwapMacroGroups | algo/jh/sse2/jh_sse2_opt64.h:130-136 | each jhSWAPk equals the exchange of adjacent groups of k bits |
| JhSwap.PartnerInvolution | algo/jh/sse2/jh_sse2_opt64.h:130-136 | the bit a swap moves a bit to is moved back by the same swap |
| JhSwap.SwapMacroInvolution | algo/jh/sse2/jh_sse2_opt64.h:130-136 | every jhSWAPk applied twice gives back the lane |
| JhLayers.NetworkTable | algo/jh/sse2/jh_sse2_opt64.h:153-175 | at one bit position the jhSS network computes S-box S0 of the JH design when the constant bit is 0 and S1 when it is 1 |
| JhLayers.NetworkIsSboxLayer | algo/jh/sse2/jh_sse2_opt64.h:107-112 | lanes whose every bit is the network's output on the same bit of the inputs and constant are the S-box layer |
| JhLayers.ApplySS | algo/jh/sse2/jh_sse2_opt64.h:153-175 | jhSS's step-by-step updates give the S-box layer of m0..m3 under constant0 and, separately, of m4..m7 under constant1 |
| JhLayers.SboxLayerInverts | algo/jh/sse2/jh_sse2_opt64.h:153-175 | the S-box layer is a bijection for every constant |
| JhLayers.ApplyL | algo/jh/sse2/jh_sse2_opt64.h:141-149 | jhL's eight in-place XOR updates give the MDS closed form |
| JhLayers.MdsNibbles | algo/jh/sse2/jh_sse2_opt64.h:141-149 | per nibble, jhL is the L map of the JH design: D = B xor 2A, C = A xor 2D over GF(2^4) |
| JhLayers.MdsLinear | algo/jh/sse2/jh_sse2_opt64.h:141-149 | jhL is XOR-linear: L(a xor b) = L(a) xor L(b) |
| JhLayers.MdsInverts | algo/jh/sse2/jh_sse2_opt64.h:141-149 | jhL is injective: an explicit inverse undoes it on both sides |
| JhLayers.LinearTransform | algo/jh/sse2/jh_sse2_opt64.h:178-224 | jhlineartransform_R0n is jhL then the swap of shape n on m4..m7; m0..m3 come out as jhL left them |
| JhLayers.LinearLayerInverts | algo/jh/sse2/jh_sse2_opt64.h:178-224 | every linear transform is a bijection |
| JhLayers.RoundInverts | algo/jh/sse2/jh_sse2_opt64.h:227-234 | every round is a bijection of the 1024-bit state |
| JhCompress.E8Step | algo/jh/sse2/jh_sse2_opt64.h:296-304 | the unfolding RoundsI relies on: E8 up to round n + 1 is E8 up to round n followed by the round with constant n and linear shape n mod 7 |
| JhCompress.E8Inverts | algo/jh/sse2/jh_sse2_opt64.h:296-304 | E8 (any number of its rounds) is a bijection: the rounds undone last-first invert it |
| JhCompress.F8Inverts | algo/jh/sse2/jh_sse2_opt64.h:288-309 | for a known block, F8 is a bijection of the state |
| JhCompress.F8Injective | algo/jh/sse2/jh_sse2_opt64.h:288-309 | two states that compress to the same state under one block are equal |
| JhCompress.JhPadding | algo/jh/sse2/jh_sse2_opt64.h:332-349 | the JH padding brings the message to a multiple of 64 bytes and adds between 64 and 127 bytes |
| JhCompress.PaddingBlockIsPadding | algo/jh/sse2/jh_sse2_opt64.h:332-349 | the block JH_H hard-codes (0x80, 61 zeros, 0x02, 0x00) is the JH padding of a 64-byte message |
| JhCompress.LengthField | algo/jh/sse2/jh_sse2_opt64.h:334-349 | 512 as a 128-bit big-endian length is 14 zero bytes, then 0x02, 0x00 |
| JhCompress.AbsorbBlock | algo/jh/sse2/jh_sse2_opt64.h:329-351 | the unfolding Jh512OneBlock relies on: absorbing a 64-byte block and then the rest is absorbing the whole |
| JhCompress.Jh512OneBlock | algo/jh/sse2/jh_sse2_opt64.h:315-355 | JH-512 of a 64-byte message is F8 on the message, then F8 on the padding block, from H(0), then the last 512 bits |
| JhCompress.JhContext.RoundI | algo/jh/sse2/jh_sse2_opt64.h:232-234 | jhround_functionI(nn, r) on the lane variables is round r with shape nn, even lanes under bytes 0..15 of constant r and odd lanes under bytes 16..31 |
| JhCompress.JhContext.RoundsI | algo/jh/sse2/jh_sse2_opt64.h:296-304 | one pass of the loop carries the first i rounds of E8 to the first i + 7 |
| JhCompress.JhContext.F8I | algo/jh/sse2/jh_sse2_opt64.h:288-309 | jhF8I leaves F8 of the old state and the buffer's block; it can change only the lanes, never the buffer |
| JhCompress.JhContext.WritePadding | algo/jh/sse2/jh_sse2_opt64.h:332-349 | the padding writes leave exactly the padding block in the buffer |
| JhCompress.JhContext.LengthBytes | algo/jh/sse2/jh_sse2_opt64.h:342-349 | the eight shifted-and-masked bytes of 64*8 are 0, 0, 0, 0, 0, 0, 0x02, 0x00 |
| JhCompress.JhContext.StoreDigest | algo/jh/sse2/jh_sse2_opt64.h:352-355 | the four stores write x4, x5, x6, x7 into hash[0..64] and nothing else |
| JhCompress.JhContext.Hash | algo/jh/sse2/jh_sse2_opt64.h:315-355 | JH_H starts at H(0), compresses the 64 input bytes and then the padding block, and replaces the 64 bytes with their JH-512 digest; the buffer is left holding the padding block |
| HashPrimitives.HashInto | timetravel10.c:44-50 | a primitive's init/update/close writes its digest at the output offset and nothing else |
| TimeTravel10.TimeWord | timetravel10.c:28 | the time is a 32-bit value |
| TimeTravel10.TimeBytesOnly | timetravel10.c:28 | the time depends only on input bytes 68..71 (word 17, little-endian) |
| TimeTravel10.TableIndex | timetravel10.c:19-29 | the table index is always below 40320 |
| TimeTravel10.TableIndexWraps | timetravel10.c:29 | the index is (time − 1492973331) mod 40320 from the genesis time on; before it the uint32 subtraction wraps, giving (time + 2^32 − 1492973331) mod 40320 |
| TimeTravel10.Nibble | timetravel10.c:53 | a selector is a 4-bit value |
| TimeTravel10.NibblesRoundTrip | timetravel10.c:52-53 | the eight selectors, least significant nibble first, determine the table entry, and any eight nibbles are the selectors of the entry they pack to |
| TimeTravel10.StageOf | timetravel10.c:53-95 | a selector names a stage exactly when it is below 8, and every such stage is a 64-byte primitive |
| TimeTravel10.StageOfInjective | timetravel10.c:55-94 | different selectors 0..7 run different primitives |
| TimeTravel10.IdentityStages | timetravel10.c:55-94 | selectors 0..7 run Groestl, Skein, JH, Keccak, Luffa, CubeHash, SHAvite, SIMD in that order |
| TimeTravel10.PermutationRunsEachOnce | timetravel10.c:52-95 | a table entry whose nibbles are a permutation of 0..7 runs each of the eight primitives exactly once |
| TimeTravel10.PermutedRunsStages | timetravel10.c:52-95 | the first n permuted stages run, in order, the stages the entry's first n nibbles decode to, least significant nibble first |
| TimeTravel10.PermutedRunsEachOnce | timetravel10.c:52-95 | for a permutation entry, the eight permuted stages run in order a stage list holding each of the eight primitives exactly once |
| TimeTravel10.Step | timetravel10.c:53-95 | a stage keeps `hash` 64 bytes long, and a selector 8..15 leaves it unchanged |
| TimeTravel10.HeaderOnly | timetravel10.c:44-46 | the output depends only on the first 80 input bytes, whatever `len` is |
| TimeTravel10.Start | timetravel10.c:42-50 | the buffer holds BMW-512 of Blake-512 of the 80-byte header |
| TimeTravel10.RunStage | timetravel10.c:53-95 | one pass of the switch replaces `hash` with the stage's digest |
| TimeTravel10.RunStages | timetravel10.c:52-96 | the loop runs exactly eight stages, stage k chosen by nibble k of the entry |
| TimeTravel10.Hash | timetravel10.c:25-99 | the output is the first 32 bytes of the chain selected by the table entry at the time's index; the rest of the output is untouched |
| X13Sm3.SlotsPrefix | x13sm3.c:46-94 | a later stage never changes an earlier slot pair |
| X13Sm3.SlotAt | x13sm3.c:42-94 | slot pair k of the final buffer is the digest of stage k |
| X13Sm3.StageReadsPrevious | x13sm3.c:46-94 | stage k reads slot pair k − 1 and writes slot pair k, in the fixed order Blake, BMW, Groestl, Skein, JH, Keccak, SM3, CubeHash, SHAvite, SIMD, Echo, Hamsi, Fugue |
| X13Sm3.CubeHashInput | x13sm3.c:66-74 | CubeHash absorbs SM3's 32-byte digest followed by 32 zero bytes |
| X13Sm3.SetNull | x13sm3.c:66-67 | SetNull zeroes one 32-byte slot and nothing else |
| X13Sm3.Sm3Into | x13sm3.c:66-70 | the SM3 stage leaves its digest in slot 12 and zeros in slot 13 |
| X13Sm3.Advance | x13sm3.c:46-94 | a 64-byte stage fills the next slot pair from the previous one and touches no earlier or later slot |
| X13Sm3.Stages | x13sm3.c:42-94 | the 13 stages fill slots 0..25 with the chain and leave slots 26..33 untouched |
| X13Sm3.OutputIsBlakeDigest | x13sm3.c:96 | as written, the output is the first 24 bytes of the Blake digest of the input |
| X13Sm3.OutputMissesFugue | x13sm3.c:96 | there are primitives for which the written output differs from the Fugue digest's first 24 bytes |
| X13Sm3.FugueOutput | x13sm3.c:92-94 | the corrected output is the first 32 bytes of Fugue's digest of the Hamsi slot |
| X13Sm3.Hash | x13sm3.c:24-98 | as written, the output receives 24 bytes from the start of the slot buffer (Blake of the first `len` input bytes) |
| X13Sm3.HashIntended | x13sm3.c:92-96 | the corrected output receives the 32 bytes of slot 24, the Fugue digest |
| Tribus.HeaderOnly | tribus.c:22 | the output depends only on the first 80 input bytes, whatever `len` is |
| Tribus.Stages | tribus.c:19-31 | the buffer's first 64 bytes hold Echo of Keccak of JH of the header; the other 192 bytes are never written |
| Tribus.Hash | tribus.c:12-35 | the output is the first 32 bytes of the Echo digest; the rest of the output is untouched |

## Left out

- The `sph_*` and SM3 primitives are not part of this model. They are the parameter `h`. The only property used is that each returns 64 bytes (32 for SM3).
- The `permutations[]` table of timetravel10 is not part of this model. It is a parameter of 40320 32-bit entries. The multiset property holds for any entry whose nibbles are a permutation of 0..7.
- The chains' `sph_jh512` is a separate streaming implementation that is not part of this model, so it is not equated with `JH_H`. tribus also feeds it 80 bytes, which `JH_H`, fixed at one 64-byte message, cannot take.
- The commented-out `jhF8` (lines 236-285) is dead code and is not modelled.
- The `jhState` and `jhReturn` types are not modelled. They are unused. The variables `DECL_JH` declares (`jhSx0`..`jhSx7` and `jhSbuffer`) are the fields of `JhCompress.JhContext`.
- `DATA_ALIGN16`, register allocation and performance are not modelled. Lanes are bit sequences, not registers.
- Host byte order is taken to be little-endian. This affects `jhLOAD`/`jhSTORE` and the uint32 casts of timetravel10.
- No JH-512 known-answer vectors are proved. Evaluating 42 rounds in the verifier is too costly.
- JhCompress.JhContext.LengthBytes: `(64*8) >> 56` (and the shifts by 48, 40 and 32) on a C `int` shift by at least the type's width, which C leaves undefined. The model computes them on 64 bits, giving the zero bytes of the 64-bit length field.
- The JH padding follows the code's 128-bit big-endian length field (bytes 48..63). For a 64-byte message this gives the same bytes as a 64-bit field.
- The `hash[34]` array in x13sm3.c starts as whatever the default constructor of `uint256` leaves; `uint256.h` is not part of this model. X13Sm3.Stages accepts any starting contents, so the result does not depend on them.
- The `len` argument is ignored by timetravel10 and tribus, and by the model. x13sm3 hashes `input[..len]`.
- Stage-selection schemes other than the table lookup are not modelled, because the code has none: no lexicographic next-permutation generator and no splitting of the input tail.
- Avalanche and other statistical properties are not modelled.

## Findings

| source | as written | input that shows it | evidently intended | confidence | as-written member | corrected member |
|---|---|---|---|---|---|---|
| x13sm3.c:96 | `memcpy(output, hash, 24)` copies 24 bytes from the start of the slot buffer: the Blake digest of the input, with the other twelve stages discarded | any message, with a suite whose Blake digest is all zero bytes and whose other digests are all 0xff: the output is 24 zero bytes, the Fugue digest starts with 0xff | the 32-byte Fugue digest in slot 24 | not executed | X13Sm3.OutputMissesFugue | X13Sm3.HashIntended |
