// timetravel10_hash: Blake-512 of the 80-byte header, BMW-512 of that, then eight stages
// whose primitives are chosen by the nibbles of an entry of an external permutation table;
// the entry is picked by the header's time word. The first 32 bytes are the hash.
module TimeTravel10 {
  import opened Bytes
  import opened HashPrimitives

  /** HASH_FUNC_BASE_TIMESTAMP: the time the table index counts from. */
  const BaseTimestamp: nat := 1492973331

  /** HASH_FUNC_COUNT: the two fixed stages plus the eight permuted ones. */
  const FuncCount: nat := 10

  /** HASH_FUNC_COUNT_PERMUTATIONS: 8!, the number of entries of the permutation table. */
  const PermutationCount: nat := 40320

  // ---------------------------------------------------------------------------------
  // Choosing the table entry

  /** The time word: `((uint32_t *)input)[17]`, input bytes 68..71 little-endian. */
  function TimeWord(input: seq<Byte>): (t: nat)
    requires |input| >= 72
    ensures t < 0x1_0000_0000
  {
    Word32LE(input, 17)
  }

  /** The table index: `(time - HASH_FUNC_BASE_TIMESTAMP) % HASH_FUNC_COUNT_PERMUTATIONS`
      with the subtraction wrapping modulo 2^32 as unsigned 32-bit arithmetic does. */
  function TableIndex(time: nat): (j: nat)
    requires time < 0x1_0000_0000
    ensures j < PermutationCount
  {
    ((time - BaseTimestamp) % 0x1_0000_0000) % PermutationCount
  }

  /** The index counts seconds since the base time modulo 8!, and a time before the base
      wraps around through 2^32. */
  lemma TableIndexWraps(time: nat)
    requires time < 0x1_0000_0000
    ensures time >= BaseTimestamp ==> TableIndex(time) == (time - BaseTimestamp) % PermutationCount
    ensures time < BaseTimestamp ==>
              TableIndex(time) == (time + 0x1_0000_0000 - BaseTimestamp) % PermutationCount
  {
    if time < BaseTimestamp {
      var d := time - BaseTimestamp;
      assert d + 0x1_0000_0000 >= 0 && d + 0x1_0000_0000 < 0x1_0000_0000;
      assert d % 0x1_0000_0000 == d + 0x1_0000_0000;
    }
  }

  /** Only the time bytes 68..71 choose the table entry. */
  lemma TimeBytesOnly(a: seq<Byte>, b: seq<Byte>)
    requires |a| >= 72 && |b| >= 72 && a[68..72] == b[68..72]
    ensures TimeWord(a) == TimeWord(b)
  {
    assert a[68] == b[68] && a[69] == b[69] && a[70] == b[70] && a[71] == b[71];
  }

  // ---------------------------------------------------------------------------------
  // Stage selectors

  /** The loop's shift `i` before stage k: 4k, for i = 0, 4, .., 28, and 32 once the
      eight stages are done. */
  function NibbleShift(k: nat): (i: bv32)
    requires k <= 8
    ensures k < 8 ==> i <= 28
  {
    [0, 4, 8, 12, 16, 20, 24, 28, 32][k]
  }

  /** The nibble of an entry at shift i: `(permutation >> i) & 0xf`. */
  function Nibble(p: bv32, i: bv32): (n: bv32)
    requires i < 32
    ensures n < 16
  {
    (p >> i) & 0xf
  }

  /** Selector k of a table entry: the nibble at shift 4k, nibble k counting from the least
      significant. */
  function Selector(p: bv32, k: nat): bv32
    requires k < 8
  {
    Nibble(p, NibbleShift(k))
  }

  /** The eight selectors of an entry, stage 0 first. */
  function Nibbles(p: bv32): (s: seq<bv32>)
    ensures |s| == 8
  {
    seq(8, k requires 0 <= k < 8 => Selector(p, k))
  }

  /** The entry with nibbles `s`, nibble 0 least significant. */
  function FromNibbles(s: seq<bv32>): bv32
    requires |s| == 8
  {
    s[0] | (s[1] << 4) | (s[2] << 8) | (s[3] << 12) | (s[4] << 16) | (s[5] << 20) | (s[6] << 24) | (s[7] << 28)
  }

  /** The eight selectors are exactly the eight nibbles of the entry, least significant
      first: the entry is rebuilt from them, and nibbles below 16 come back unchanged. */
  lemma NibblesRoundTrip(p: bv32, s: seq<bv32>)
    requires |s| == 8 && forall k | 0 <= k < 8 :: s[k] < 16
    ensures FromNibbles(Nibbles(p)) == p
    ensures Nibbles(FromNibbles(s)) == s
  {
    RebuildEntry(p);
    NibblesOfEntry(s);
  }

  /** Reading the eight nibbles and packing them back gives the entry. */
  lemma RebuildEntry(p: bv32)
    ensures FromNibbles(Nibbles(p)) == p
  {
    NibblesAre(p);
    UnpackPack(p);
  }

  /** Packing eight nibbles and reading them back gives the nibbles. */
  lemma NibblesOfEntry(s: seq<bv32>)
    requires |s| == 8 && forall k | 0 <= k < 8 :: s[k] < 16
    ensures Nibbles(FromNibbles(s)) == s
  {
    var q := FromNibbles(s);
    SelectorsOfEntry(s);
    var n := Nibbles(q);
    assert n[0] == Selector(q, 0) && n[1] == Selector(q, 1) && n[2] == Selector(q, 2) && n[3] == Selector(q, 3);
    assert n[4] == Selector(q, 4) && n[5] == Selector(q, 5) && n[6] == Selector(q, 6) && n[7] == Selector(q, 7);
    SameEight(n, s);
  }

  /** Each selector of a packed entry is the nibble packed at its place. */
  lemma SelectorsOfEntry(s: seq<bv32>)
    requires |s| == 8 && forall k | 0 <= k < 8 :: s[k] < 16
    ensures Selector(FromNibbles(s), 0) == s[0] && Selector(FromNibbles(s), 1) == s[1]
    ensures Selector(FromNibbles(s), 2) == s[2] && Selector(FromNibbles(s), 3) == s[3]
    ensures Selector(FromNibbles(s), 4) == s[4] && Selector(FromNibbles(s), 5) == s[5]
    ensures Selector(FromNibbles(s), 6) == s[6] && Selector(FromNibbles(s), 7) == s[7]
  {
    SelectorValues(FromNibbles(s));
    PackUnpack(s[0], s[1], s[2], s[3], s[4], s[5], s[6], s[7]);
  }

  /** The shifts of the eight stages. */
  lemma NibbleShiftValues()
    ensures NibbleShift(0) == 0 && NibbleShift(1) == 4 && NibbleShift(2) == 8 && NibbleShift(3) == 12
    ensures NibbleShift(4) == 16 && NibbleShift(5) == 20 && NibbleShift(6) == 24 && NibbleShift(7) == 28
  {
  }

  /** The eight selectors with their shifts written out. */
  lemma SelectorValues(p: bv32)
    ensures Selector(p, 0) == p & 0xf && Selector(p, 1) == (p >> 4) & 0xf
    ensures Selector(p, 2) == (p >> 8) & 0xf && Selector(p, 3) == (p >> 12) & 0xf
    ensures Selector(p, 4) == (p >> 16) & 0xf && Selector(p, 5) == (p >> 20) & 0xf
    ensures Selector(p, 6) == (p >> 24) & 0xf && Selector(p, 7) == (p >> 28) & 0xf
  {
    NibbleShiftValues();
  }

  /** Two sequences of length 8 that agree at each index are equal. */
  lemma SameEight<T>(n: seq<T>, s: seq<T>)
    requires |n| == 8 && |s| == 8
    requires n[0] == s[0] && n[1] == s[1] && n[2] == s[2] && n[3] == s[3]
    requires n[4] == s[4] && n[5] == s[5] && n[6] == s[6] && n[7] == s[7]
    ensures n == s
  {
    assert forall k | 0 <= k < 8 :: n[k] == s[k] by {
      forall k | 0 <= k < 8 ensures n[k] == s[k] {
        if k < 4 {
          assert k == 0 || k == 1 || k == 2 || k == 3;
        } else {
          assert k == 4 || k == 5 || k == 6 || k == 7;
        }
      }
    }
  }

  /** The selectors of an entry with their shifts written out. */
  lemma NibblesAre(p: bv32)
    ensures Nibbles(p) == [p & 0xf, (p >> 4) & 0xf, (p >> 8) & 0xf, (p >> 12) & 0xf,
     (p >> 16) & 0xf, (p >> 20) & 0xf, (p >> 24) & 0xf, (p >> 28) & 0xf]
  {
    SelectorValues(p);
    var n := Nibbles(p);
    var d := [p & 0xf, (p >> 4) & 0xf, (p >> 8) & 0xf, (p >> 12) & 0xf,
     (p >> 16) & 0xf, (p >> 20) & 0xf, (p >> 24) & 0xf, (p >> 28) & 0xf];
    SameEight(n, d);
  }

  /** On bit-vectors alone: an entry is the OR of its eight nibbles shifted into place. */
  lemma UnpackPack(p: bv32)
    ensures (p & 0xf) | (((p >> 4) & 0xf) << 4) | (((p >> 8) & 0xf) << 8) | (((p >> 12) & 0xf) << 12)
      | (((p >> 16) & 0xf) << 16) | (((p >> 20) & 0xf) << 20) | (((p >> 24) & 0xf) << 24)
      | (((p >> 28) & 0xf) << 28) == p
  {
  }

  /** On bit-vectors alone: eight nibbles shifted into place and OR-ed together read back
      as themselves. */
  lemma PackUnpack(a: bv32, b: bv32, c: bv32, d: bv32, e: bv32, f: bv32, g: bv32, h: bv32)
    requires a < 16 && b < 16 && c < 16 && d < 16 && e < 16 && f < 16 && g < 16 && h < 16
    ensures var q := a | (b << 4) | (c << 8) | (d << 12) | (e << 16) | (f << 20) | (g << 24) | (h << 28);
      q & 0xf == a && (q >> 4) & 0xf == b && (q >> 8) & 0xf == c && (q >> 12) & 0xf == d
      && (q >> 16) & 0xf == e && (q >> 20) & 0xf == f && (q >> 24) & 0xf == g && (q >> 28) & 0xf == h
  {
  }

  /** The `switch` cases: selectors 0..7 choose Groestl, Skein, JH, Keccak, Luffa,
      CubeHash, SHAvite and SIMD; 8..15 match no case. */
  function StageOf(sel: bv32): (a: Option<Algo>)
    ensures a.Some? <==> sel < 8
    ensures a.Some? ==> DigestLength(a.value) == 64
  {
    if sel == 0 then Some(Groestl)
    else if sel == 1 then Some(Skein)
    else if sel == 2 then Some(Jh)
    else if sel == 3 then Some(Keccak)
    else if sel == 4 then Some(Luffa)
    else if sel == 5 then Some(CubeHash)
    else if sel == 6 then Some(Shavite)
    else if sel == 7 then Some(Simd)
    else None
  }

  /** The primitives of the permuted stages, in the order of selectors 0..7. */
  const PermutedAlgos: seq<Option<Algo>> :=
    [Some(Groestl), Some(Skein), Some(Jh), Some(Keccak), Some(Luffa), Some(CubeHash),
     Some(Shavite), Some(Simd)]

  /** Selectors 0..7 name eight different primitives. */
  lemma StageOfInjective(x: bv32, y: bv32)
    requires x < 8 && y < 8 && StageOf(x) == StageOf(y)
    ensures x == y
  {
  }

  /** `f` applied to every element of `s`. */
  function Map<T, U>(f: T -> U, s: seq<T>): (r: seq<U>)
    ensures |r| == |s|
  {
    seq(|s|, k requires 0 <= k < |s| => f(s[k]))
  }

  /** The primitives chosen by a sequence of selectors. */
  function StageSeq(s: seq<bv32>): (r: seq<Option<Algo>>)
    ensures |r| == |s|
  {
    Map(StageOf, s)
  }

  /** Mapping distributes over concatenation. */
  lemma MapAppend<T, U>(f: T -> U, s: seq<T>, t: seq<T>)
    ensures Map(f, s + t) == Map(f, s) + Map(f, t)
  {
    assert forall k | 0 <= k < |s + t| :: Map(f, s + t)[k] == (Map(f, s) + Map(f, t))[k];
  }

  /** Taking out the element at i leaves the rest of the multiset. */
  lemma MultisetRemove<T>(t: seq<T>, i: nat)
    requires i < |t|
    ensures multiset(t[..i] + t[i + 1..]) == multiset(t) - multiset{t[i]}
  {
    assert t == t[..i] + [t[i]] + t[i + 1..];
  }

  /** Taking out the element at i takes its image out of the mapped multiset. */
  lemma MapRemove<T, U>(f: T -> U, t: seq<T>, i: nat)
    requires i < |t|
    ensures multiset(Map(f, t)) == multiset(Map(f, t[..i] + t[i + 1..])) + multiset{f(t[i])}
  {
    assert t == t[..i] + [t[i]] + t[i + 1..];
    MapAppend(f, t[..i] + [t[i]], t[i + 1..]);
    MapAppend(f, t[..i], [t[i]]);
    MapAppend(f, t[..i], t[i + 1..]);
    assert Map(f, [t[i]]) == [f(t[i])];
  }

  /** The image of the head comes out of the mapped multiset. */
  lemma MapHead<T, U>(f: T -> U, s: seq<T>)
    requires |s| > 0
    ensures multiset(Map(f, s)) == multiset(Map(f, s[1..])) + multiset{f(s[0])}
  {
    MapRemove(f, s, 0);
    assert s[..0] + s[1..] == s[1..];
  }

  /** Rearranging a sequence rearranges its image: sequences with the same multiset map
      to the same multiset. */
  lemma {:induction false} MapMultiset<T, U>(f: T -> U, s: seq<T>, t: seq<T>)
    requires multiset(s) == multiset(t)
    ensures multiset(Map(f, s)) == multiset(Map(f, t))
    decreases |s|
  {
    if |s| == 0 {
      assert |t| == |multiset(t)| == 0;
    } else {
      var i := FindIn(t, s[0]);
      var rest := t[..i] + t[i + 1..];
      MultisetRemove(s, 0);
      assert s[..0] + s[1..] == s[1..];
      MapMultiset(f, s[1..], rest);
      MapHead(f, s);
      MapRemove(f, t, i);
    }
  }

  /** An element of the multiset of `t` sits at some index of `t`, and taking it out there
      leaves the rest of the multiset. */
  lemma FindIn<T>(t: seq<T>, x: T) returns (i: nat)
    requires x in multiset(t)
    ensures i < |t| && t[i] == x
    ensures multiset(t[..i] + t[i + 1..]) == multiset(t) - multiset{x}
  {
    i :| 0 <= i < |t| && t[i] == x;
    MultisetRemove(t, i);
  }

  /** Selectors 0..7 in order choose the permuted primitives in order. */
  lemma IdentityStages()
    ensures StageSeq([0, 1, 2, 3, 4, 5, 6, 7]) == PermutedAlgos
  {
    var id: seq<bv32> := [0, 1, 2, 3, 4, 5, 6, 7];
    var r := StageSeq(id);
    assert r[0] == StageOf(id[0]) && r[1] == StageOf(id[1]) && r[2] == StageOf(id[2]) && r[3] == StageOf(id[3]);
    assert r[4] == StageOf(id[4]) && r[5] == StageOf(id[5]) && r[6] == StageOf(id[6]) && r[7] == StageOf(id[7]);
    StageValues();
    SameEight(r, PermutedAlgos);
  }

  lemma StageValues()
    ensures StageOf(0) == Some(Groestl) && StageOf(1) == Some(Skein) && StageOf(2) == Some(Jh)
    ensures StageOf(3) == Some(Keccak) && StageOf(4) == Some(Luffa) && StageOf(5) == Some(CubeHash)
    ensures StageOf(6) == Some(Shavite) && StageOf(7) == Some(Simd)
  {
  }

  /** A nibble of an entry whose nibbles are a permutation of 0..7 is below 8. */
  lemma PermutationNibble(p: bv32, k: nat)
    requires multiset(Nibbles(p)) == multiset{0, 1, 2, 3, 4, 5, 6, 7}
    requires k < 8
    ensures Selector(p, k) < 8
  {
    var v := Nibbles(p)[k];
    assert v in multiset(Nibbles(p));
    assert v in multiset{0, 1, 2, 3, 4, 5, 6, 7};
  }

  /** An entry whose eight nibbles are a permutation of 0..7 runs each of the eight
      primitives exactly once and skips no stage. */
  lemma PermutationRunsEachOnce(p: bv32)
    requires multiset(Nibbles(p)) == multiset{0, 1, 2, 3, 4, 5, 6, 7}
    ensures multiset(StageSeq(Nibbles(p))) == multiset(PermutedAlgos)
    ensures forall k | 0 <= k < 8 :: Selector(p, k) < 8
  {
    var identity: seq<bv32> := [0, 1, 2, 3, 4, 5, 6, 7];
    MapMultiset(StageOf, Nibbles(p), identity);
    IdentityStages();
    forall k | 0 <= k < 8
      ensures Selector(p, k) < 8
    {
      PermutationNibble(p, k);
    }
  }

  // ---------------------------------------------------------------------------------
  // The chain

  /** One permuted stage: the chosen primitive on the 64-byte running hash, or nothing. */
  function Step(h: Suite, sel: bv32, x: seq<Byte>): (y: seq<Byte>)
    ensures |x| == 64 ==> |y| == 64
    ensures sel >= 8 ==> y == x
  {
    match StageOf(sel)
    case Some(a) => h(a, x)
    case None => x
  }

  /** The running hash after the first n permuted stages of entry p. */
  function Permuted(h: Suite, p: bv32, x: seq<Byte>, n: nat): (y: seq<Byte>)
    requires n <= 8
    ensures |x| == 64 ==> |y| == 64
  {
    if n == 0 then x else Step(h, Selector(p, n - 1), Permuted(h, p, x, n - 1))
  }

  /** A stage of a stage list: the named primitive on the running hash, or nothing. */
  function RunStageOf(h: Suite, stage: Option<Algo>, x: seq<Byte>): seq<Byte>
  {
    match stage
    case Some(a) => h(a, x)
    case None => x
  }

  /** The running hash after a list of stages, run first to last. */
  function RunStageList(h: Suite, stages: seq<Option<Algo>>, x: seq<Byte>): seq<Byte>
    decreases |stages|
  {
    if |stages| == 0 then x
    else RunStageOf(h, stages[|stages| - 1], RunStageList(h, stages[..|stages| - 1], x))
  }

  /** The first n permuted stages of entry p run, in order, the stages its first n
      selectors decode to. */
  lemma {:induction false} PermutedRunsStages(h: Suite, p: bv32, x: seq<Byte>, n: nat)
    requires n <= 8
    ensures Permuted(h, p, x, n) == RunStageList(h, StageSeq(Nibbles(p))[..n], x)
  {
    var stages := StageSeq(Nibbles(p))[..n];
    if n > 0 {
      PermutedRunsStages(h, p, x, n - 1);
      assert stages[..n - 1] == StageSeq(Nibbles(p))[..n - 1];
      assert stages[n - 1] == StageOf(Selector(p, n - 1));
    }
  }

  /** For an entry whose nibbles are a permutation of 0..7, the chain's eight permuted
      stages run a list of stages holding each of the eight primitives exactly once. */
  lemma PermutedRunsEachOnce(h: Suite, p: bv32, x: seq<Byte>)
    requires multiset(Nibbles(p)) == multiset{0, 1, 2, 3, 4, 5, 6, 7}
    ensures Permuted(h, p, x, 8) == RunStageList(h, StageSeq(Nibbles(p)), x)
    ensures multiset(StageSeq(Nibbles(p))) == multiset(PermutedAlgos)
  {
    PermutedRunsStages(h, p, x, 8);
    assert StageSeq(Nibbles(p))[..8] == StageSeq(Nibbles(p));
    PermutationRunsEachOnce(p);
  }

  /** timetravel10_hash as a function of the primitives, the permutation table and the
      input: the first 32 bytes after Blake(80 bytes), BMW and the eight permuted stages. */
  function TimeTravel10Hash(h: Suite, permutations: seq<bv32>, input: seq<Byte>): (r: seq<Byte>)
    requires |permutations| == PermutationCount && |input| >= 80
    ensures |r| == 32
  {
    var p := permutations[TableIndex(TimeWord(input))];
    var x := h(Bmw, h(Blake, input[..80]));
    assert |x| == DigestLength(Bmw);
    Permuted(h, p, x, 8)[..32]
  }

  /** Blake absorbs exactly the 80-byte header: inputs that agree on their first 80 bytes
      hash alike, whatever follows and whatever `len` says. */
  lemma HeaderOnly(h: Suite, permutations: seq<bv32>, a: seq<Byte>, b: seq<Byte>)
    requires |permutations| == PermutationCount && |a| >= 80 && |b| >= 80
    requires a[..80] == b[..80]
    ensures TimeTravel10Hash(h, permutations, a) == TimeTravel10Hash(h, permutations, b)
  {
    assert a[68..72] == a[..80][68..72] == b[..80][68..72] == b[68..72];
    TimeBytesOnly(a, b);
  }

  // ---------------------------------------------------------------------------------
  // The code

  /** timetravel10_hash: the time word picks `permutation`; `hash` (16 32-bit words) is
      cleared, gets Blake of 80 input bytes, then BMW of itself; the loop runs i = 0, 4,
      .., 28 and dispatches on `(permutation >> i) & 0xf`, each case hashing the 64 bytes
      in place; `memcpy(output, hash, 32)`. `len` is not used. */
  method Hash(h: Suite, permutations: seq<bv32>, input: seq<Byte>, output: array<Byte>, len: nat)
    requires |permutations| == PermutationCount && |input| >= 80 && output.Length >= 32
    modifies output
    ensures output[..32] == TimeTravel10Hash(h, permutations, input)
    ensures output[32..] == old(output[32..])
  {
    var time := Word32LE(input, 17);
    var permutation := permutations[((time - BaseTimestamp) % 0x1_0000_0000) % PermutationCount];
    assert permutation == permutations[TableIndex(TimeWord(input))];
    var hash := new Byte[64];
    Start(h, input, hash);
    RunStages(h, permutation, hash);
    assert hash[..32] == TimeTravel10Hash(h, permutations, input);
    forall j | 0 <= j < 32 {
      output[j] := hash[j];
    }
    assert output[..32] == hash[..32];
  }

  /** The loop: i = 0, 4, .., 28, each round dispatching on `(permutation >> i) & 0xf`. */
  method RunStages(h: Suite, permutation: bv32, hash: array<Byte>)
    requires hash.Length == 64
    modifies hash
    ensures hash[..] == Permuted(h, permutation, old(hash[..]), 8)
  {
    ghost var start := hash[..];
    var i: bv32 := 0;
    ghost var k: nat := 0;
    while i < 4 * (FuncCount - 2) as bv32
      invariant k <= 8 && i == NibbleShift(k)
      invariant hash[..] == Permuted(h, permutation, start, k)
      decreases 8 - k
    {
      var sel := (permutation >> i) & 0xf;
      assert sel == Nibble(permutation, i);
      SelectorAt(permutation, i, k);
      RunStage(h, sel, hash);
      NextShift(k);
      i, k := i + 4, k + 1;
    }
  }

  /** The `memset` of `hash`, then Blake of the 80-byte header into it and BMW of it in
      place. */
  method Start(h: Suite, input: seq<Byte>, hash: array<Byte>)
    requires |input| >= 80 && hash.Length == 64
    modifies hash
    ensures hash[..] == h(Bmw, h(Blake, input[..80]))
  {
    forall k | 0 <= k < 64 {
      hash[k] := 0;
    }
    HashInto(h, Blake, input[..80], hash, 0);
    assert hash[..] == hash[0..64];
    HashInto(h, Bmw, hash[..], hash, 0);
    assert hash[..] == hash[0..64];
  }

  /** At shift i = 4k the loop's `(permutation >> i) & 0xf` is selector k. */
  lemma SelectorAt(p: bv32, i: bv32, k: nat)
    requires k < 8 && i == NibbleShift(k)
    ensures Nibble(p, i) == Selector(p, k)
  {
  }

  /** The loop's `i += 4` moves from the shift of stage k to that of stage k + 1. */
  lemma NextShift(k: nat)
    requires k < 8
    ensures NibbleShift(k + 1) == NibbleShift(k) + 4
  {
  }

  /** The loop body's `switch`: selectors 0..7 hash the 64-byte `hash` in place with their
      primitive, any other selector leaves it as it is. */
  method RunStage(h: Suite, sel: bv32, hash: array<Byte>)
    requires hash.Length == 64
    modifies hash
    ensures hash[..] == Step(h, sel, old(hash[..]))
  {
    var x := hash[..];
    if sel == 0 {
      HashInto(h, Groestl, x, hash, 0);
      assert hash[..] == hash[0..64];
    } else if sel == 1 {
      HashInto(h, Skein, x, hash, 0);
      assert hash[..] == hash[0..64];
    } else if sel == 2 {
      HashInto(h, Jh, x, hash, 0);
      assert hash[..] == hash[0..64];
    } else if sel == 3 {
      HashInto(h, Keccak, x, hash, 0);
      assert hash[..] == hash[0..64];
    } else if sel == 4 {
      HashInto(h, Luffa, x, hash, 0);
      assert hash[..] == hash[0..64];
    } else if sel == 5 {
      HashInto(h, CubeHash, x, hash, 0);
      assert hash[..] == hash[0..64];
    } else if sel == 6 {
      HashInto(h, Shavite, x, hash, 0);
      assert hash[..] == hash[0..64];
    } else if sel == 7 {
      HashInto(h, Simd, x, hash, 0);
      assert hash[..] == hash[0..64];
    }
  }
}
