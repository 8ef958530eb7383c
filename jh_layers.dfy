// The round layers of bitslice JH: the S-box network jhSS, the MDS code jhL, the seven
// linear transforms and the E8 round built from them, each specified by the layer of the
// JH design it implements (S-boxes S0/S1, the L map over GF(2^4), the group swaps) and
// each given an inverse.
module JhLayers {
  import opened Bytes
  import opened Sse2
  import opened JhSwap
  import opened JhConstants

  /** Four lanes processed together: one bit position across them is one 4-bit S-box
      input, q0 being its most significant bit. */
  datatype Quad = Quad(q0: Lane, q1: Lane, q2: Lane, q3: Lane)

  /** The eight lane arguments m0..m7 of jhL, jhSS and the linear transforms; also the
      E8 state x0..x7. */
  datatype Lanes = Lanes(m0: Lane, m1: Lane, m2: Lane, m3: Lane, m4: Lane, m5: Lane, m6: Lane, m7: Lane)

  function Low(s: Lanes): Quad { Quad(s.m0, s.m1, s.m2, s.m3) }
  function High(s: Lanes): Quad { Quad(s.m4, s.m5, s.m6, s.m7) }
  function Join(lo: Quad, hi: Quad): Lanes { Lanes(lo.q0, lo.q1, lo.q2, lo.q3, hi.q0, hi.q1, hi.q2, hi.q3) }

  /** Lane-wise XOR of two states. */
  function LanesXor(a: Lanes, b: Lanes): Lanes
  {
    Lanes(Xor(a.m0, b.m0), Xor(a.m1, b.m1), Xor(a.m2, b.m2), Xor(a.m3, b.m3),
          Xor(a.m4, b.m4), Xor(a.m5, b.m5), Xor(a.m6, b.m6), Xor(a.m7, b.m7))
  }

  // ---------------------------------------------------------------------------------
  // The S-box layer

  /** The 4-bit value formed by four bits, the first being the most significant. */
  function Nibble(b0: bool, b1: bool, b2: bool, b3: bool): bv4
  {
    (if b0 then 8 else 0) | (if b1 then 4 else 0) | (if b2 then 2 else 0) | (if b3 then 1 else 0)
  }

  /** Bit k of a 4-bit value, counted from the most significant (k = 0). */
  function NibbleBit(v: bv4, k: nat): bool
    requires k < 4
  {
    (v >> (3 - k) as bv4) & 1 == 1
  }

  /** The nibble at bit position i of a quad. */
  function NibbleAt(q: Quad, i: nat): bv4
    requires i < 128
  {
    Nibble(q.q0[i], q.q1[i], q.q2[i], q.q3[i])
  }

  /** The S-boxes S0 and S1 of the JH design, and their inverses. */
  const S0: seq<bv4> := [9, 0, 4, 11, 13, 12, 3, 15, 1, 10, 2, 6, 7, 5, 8, 14]
  const S1: seq<bv4> := [3, 12, 6, 13, 5, 7, 1, 9, 15, 2, 0, 4, 11, 10, 14, 8]
  const InvS0: seq<bv4> := [1, 8, 10, 6, 2, 13, 11, 12, 14, 0, 9, 3, 5, 4, 15, 7]
  const InvS1: seq<bv4> := [10, 6, 9, 0, 11, 4, 2, 5, 15, 7, 13, 12, 1, 3, 14, 8]

  /** The S-box a round-constant bit selects: S0 for 0, S1 for 1. */
  function Sbox(c: bool, v: bv4): bv4 { if c then S1[v] else S0[v] }
  function InvSbox(c: bool, v: bv4): bv4 { if c then InvS1[v] else InvS0[v] }

  /** A quad whose nibble at every bit position i is f(i). */
  function QuadOf(f: nat --> bv4): Quad
    requires forall i :: 0 <= i < 128 ==> f.requires(i)
  {
    Quad(seq(128, i requires 0 <= i < 128 => NibbleBit(f(i), 0)),
         seq(128, i requires 0 <= i < 128 => NibbleBit(f(i), 1)),
         seq(128, i requires 0 <= i < 128 => NibbleBit(f(i), 2)),
         seq(128, i requires 0 <= i < 128 => NibbleBit(f(i), 3)))
  }

  /** The S-box layer of the JH design on 128 nibbles: the nibble at position i passes
      through S0 or S1 as bit i of the round constant says. */
  function SboxLayer(q: Quad, c: Lane): Quad
  {
    QuadOf(i requires 0 <= i < 128 => Sbox(c[i], NibbleAt(q, i)))
  }

  /** The inverse S-box layer. */
  function InvSboxLayer(q: Quad, c: Lane): Quad
  {
    QuadOf(i requires 0 <= i < 128 => InvSbox(c[i], NibbleAt(q, i)))
  }

  /** The network of jhSS at one bit position, on the bits (b0, b1, b2, b3) of one group
      and the constant bit c. */
  function NetworkBits(b0: bool, b1: bool, b2: bool, b3: bool, c: bool): (bool, bool, bool, bool)
  {
    var n3 := !b3;
    var n0 := b0 != (!b2 && c);
    var a := c != (n0 && b1);
    var n0 := n0 != (n3 && b2);
    var n3 := n3 != (!b1 && b2);
    var n1 := b1 != (n0 && b2);
    var n2 := b2 != (!n3 && n0);
    var n0 := n0 != (n1 || n3);
    var n3 := n3 != (n1 && n2);
    var n2 := n2 != a;
    var n1 := n1 != (a && n0);
    (n0, n1, n2, n3)
  }

  /** At every bit position the network computes S0 when the constant bit is 0 and S1
      when it is 1. */
  lemma NetworkTable(b0: bool, b1: bool, b2: bool, b3: bool, c: bool)
    ensures var r := NetworkBits(b0, b1, b2, b3, c);
      Nibble(r.0, r.1, r.2, r.3) == Sbox(c, Nibble(b0, b1, b2, b3))
  {
  }

  /** A quad whose every bit position holds the network's output is the S-box layer. */
  lemma NetworkIsSboxLayer(q: Quad, c: Lane, t: Quad)
    requires forall i | 0 <= i < 128 ::
      NetworkBits(q.q0[i], q.q1[i], q.q2[i], q.q3[i], c[i]) == (t.q0[i], t.q1[i], t.q2[i], t.q3[i])
    ensures t == SboxLayer(q, c)
  {
    var s := SboxLayer(q, c);
    forall i | 0 <= i < 128
      ensures t.q0[i] == s.q0[i] && t.q1[i] == s.q1[i] && t.q2[i] == s.q2[i] && t.q3[i] == s.q3[i]
    {
      NetworkTable(q.q0[i], q.q1[i], q.q2[i], q.q3[i], c[i]);
      NibbleBits(NibbleAt(t, i));
    }
  }

  /** A 4-bit value is the nibble of its own bits. */
  lemma NibbleBits(v: bv4)
    ensures Nibble(NibbleBit(v, 0), NibbleBit(v, 1), NibbleBit(v, 2), NibbleBit(v, 3)) == v
  {
  }

  /** jhSS: the two S-box networks run interleaved, m0..m3 under constant0 and m4..m7
      under constant1, with the temporaries a0 and a1. Each group's outputs depend only
      on that group's inputs and constant, and are the S-box layer of the JH design. */
  method ApplySS(s: Lanes, constant0: Lane, constant1: Lane) returns (t: Lanes)
    ensures Low(t) == SboxLayer(Low(s), constant0)
    ensures High(t) == SboxLayer(High(s), constant1)
  {
    var m0, m1, m2, m3, m4, m5, m6, m7 := s.m0, s.m1, s.m2, s.m3, s.m4, s.m5, s.m6, s.m7;
    m3 := Xor(m3, Set1Epi8(0xff));
    m7 := Xor(m7, Set1Epi8(0xff));
    m0 := Xor(m0, AndNot(m2, constant0));
    m4 := Xor(m4, AndNot(m6, constant1));
    var a0 := Xor(constant0, And(m0, m1));
    var a1 := Xor(constant1, And(m4, m5));
    m0 := Xor(m0, And(m3, m2));
    m4 := Xor(m4, And(m7, m6));
    m3 := Xor(m3, AndNot(m1, m2));
    m7 := Xor(m7, AndNot(m5, m6));
    m1 := Xor(m1, And(m0, m2));
    m5 := Xor(m5, And(m4, m6));
    m2 := Xor(m2, AndNot(m3, m0));
    m6 := Xor(m6, AndNot(m7, m4));
    m0 := Xor(m0, Or(m1, m3));
    m4 := Xor(m4, Or(m5, m7));
    m3 := Xor(m3, And(m1, m2));
    m7 := Xor(m7, And(m5, m6));
    m2 := Xor(m2, a0);
    m6 := Xor(m6, a1);
    m1 := Xor(m1, And(a0, m0));
    m5 := Xor(m5, And(a1, m4));
    t := Lanes(m0, m1, m2, m3, m4, m5, m6, m7);
    forall i | 0 <= i < 128
      ensures NetworkBits(s.m0[i], s.m1[i], s.m2[i], s.m3[i], constant0[i]) == (m0[i], m1[i], m2[i], m3[i])
      ensures NetworkBits(s.m4[i], s.m5[i], s.m6[i], s.m7[i], constant1[i]) == (m4[i], m5[i], m6[i], m7[i])
    {
      assert ByteBit(0xff, i % 8);
    }
    NetworkIsSboxLayer(Low(s), constant0, Low(t));
    NetworkIsSboxLayer(High(s), constant1, High(t));
  }

  /** The inverse tables undo the S-boxes, and the S-boxes undo the inverse tables. */
  lemma SboxTablesInvert(c: bool, v: bv4)
    ensures InvSbox(c, Sbox(c, v)) == v && Sbox(c, InvSbox(c, v)) == v
  {
  }

  /** The nibble at position i of a quad built by QuadOf is f(i). */
  lemma NibbleAtQuadOf(f: nat --> bv4, i: nat)
    requires forall j :: 0 <= j < 128 ==> f.requires(j)
    requires i < 128
    ensures NibbleAt(QuadOf(f), i) == f(i)
  {
    NibbleBits(f(i));
  }

  /** Two quads with the same nibble at every position are equal. */
  lemma QuadExtensional(p: Quad, q: Quad)
    requires forall i | 0 <= i < 128 :: NibbleAt(p, i) == NibbleAt(q, i)
    ensures p == q
  {
    forall i | 0 <= i < 128
      ensures p.q0[i] == q.q0[i] && p.q1[i] == q.q1[i] && p.q2[i] == q.q2[i] && p.q3[i] == q.q3[i]
    {
      assert NibbleAt(p, i) == NibbleAt(q, i);
    }
  }

  /** The S-box layer is a bijection: the inverse layer undoes it both ways. */
  lemma SboxLayerInverts(q: Quad, c: Lane)
    ensures InvSboxLayer(SboxLayer(q, c), c) == q
    ensures SboxLayer(InvSboxLayer(q, c), c) == q
  {
    forall i | 0 <= i < 128
      ensures NibbleAt(InvSboxLayer(SboxLayer(q, c), c), i) == NibbleAt(q, i)
      ensures NibbleAt(SboxLayer(InvSboxLayer(q, c), c), i) == NibbleAt(q, i)
    {
      NibbleAtQuadOf(j requires 0 <= j < 128 => Sbox(c[j], NibbleAt(q, j)), i);
      NibbleAtQuadOf(j requires 0 <= j < 128 => InvSbox(c[j], NibbleAt(q, j)), i);
      NibbleAtQuadOf(j requires 0 <= j < 128 => InvSbox(c[j], NibbleAt(SboxLayer(q, c), j)), i);
      NibbleAtQuadOf(j requires 0 <= j < 128 => Sbox(c[j], NibbleAt(InvSboxLayer(q, c), j)), i);
      SboxTablesInvert(c[i], NibbleAt(q, i));
    }
    QuadExtensional(InvSboxLayer(SboxLayer(q, c), c), q);
    QuadExtensional(SboxLayer(InvSboxLayer(q, c), c), q);
  }
  // ---------------------------------------------------------------------------------
  // The MDS layer

  /** The MDS code in closed form: each output lane as the XOR of input lanes. */
  function Mds(s: Lanes): Lanes
  {
    Lanes(Xor(Xor(s.m0, s.m2), s.m5),
          Xor(Xor(Xor(s.m0, s.m1), s.m3), s.m6),
          Xor(Xor(Xor(Xor(s.m0, s.m1), s.m2), s.m4), s.m7),
          Xor(Xor(s.m1, s.m3), s.m4),
          Xor(s.m1, s.m4),
          Xor(s.m2, s.m5),
          Xor(Xor(s.m0, s.m3), s.m6),
          Xor(s.m0, s.m7))
  }

  /** jhL: eight in-place XOR updates of the lanes. */
  method ApplyL(s: Lanes) returns (t: Lanes)
    ensures t == Mds(s)
  {
    var m0, m1, m2, m3, m4, m5, m6, m7 := s.m0, s.m1, s.m2, s.m3, s.m4, s.m5, s.m6, s.m7;
    m4 := Xor(m4, m1);
    m5 := Xor(m5, m2);
    m6 := Xor(Xor(m6, m3), m0);
    m7 := Xor(m7, m0);
    m0 := Xor(m0, m5);
    m1 := Xor(m1, m6);
    m2 := Xor(Xor(m2, m7), m4);
    m3 := Xor(m3, m4);
    t := Lanes(m0, m1, m2, m3, m4, m5, m6, m7);
    var n := Mds(s);
    forall i | 0 <= i < 128
      ensures m0[i] == n.m0[i] && m1[i] == n.m1[i] && m2[i] == n.m2[i] && m3[i] == n.m3[i]
    {
    }
  }

  /** The inverse of the MDS code: the updates of jhL undone in reverse order. */
  function MdsInverse(t: Lanes): Lanes
  {
    Lanes(Xor(t.m0, t.m5),
          Xor(t.m1, t.m6),
          Xor(Xor(t.m2, t.m4), t.m7),
          Xor(t.m3, t.m4),
          Xor(Xor(t.m1, t.m4), t.m6),
          Xor(Xor(Xor(t.m2, t.m4), t.m5), t.m7),
          Xor(Xor(Xor(Xor(t.m0, t.m3), t.m4), t.m5), t.m6),
          Xor(Xor(t.m0, t.m5), t.m7))
  }

  /** Bit i of every lane of Mds(s), as the XOR of the input bits. */
  lemma MdsAt(s: Lanes, i: nat)
    requires i < 128
    ensures var n := Mds(s);
      && n.m0[i] == ((s.m0[i] != s.m2[i]) != s.m5[i])
      && n.m1[i] == (((s.m0[i] != s.m1[i]) != s.m3[i]) != s.m6[i])
      && n.m2[i] == ((((s.m0[i] != s.m1[i]) != s.m2[i]) != s.m4[i]) != s.m7[i])
      && n.m3[i] == ((s.m1[i] != s.m3[i]) != s.m4[i])
      && n.m4[i] == (s.m1[i] != s.m4[i])
      && n.m5[i] == (s.m2[i] != s.m5[i])
      && n.m6[i] == ((s.m0[i] != s.m3[i]) != s.m6[i])
      && n.m7[i] == (s.m0[i] != s.m7[i])
  {
  }

  /** Bit i of every lane of MdsInverse(t). */
  lemma MdsInverseAt(t: Lanes, i: nat)
    requires i < 128
    ensures var n := MdsInverse(t);
      && n.m0[i] == (t.m0[i] != t.m5[i])
      && n.m1[i] == (t.m1[i] != t.m6[i])
      && n.m2[i] == ((t.m2[i] != t.m4[i]) != t.m7[i])
      && n.m3[i] == (t.m3[i] != t.m4[i])
      && n.m4[i] == ((t.m1[i] != t.m4[i]) != t.m6[i])
      && n.m5[i] == (((t.m2[i] != t.m4[i]) != t.m5[i]) != t.m7[i])
      && n.m6[i] == ((((t.m0[i] != t.m3[i]) != t.m4[i]) != t.m5[i]) != t.m6[i])
      && n.m7[i] == ((t.m0[i] != t.m5[i]) != t.m7[i])
  {
  }

  /** Two states that agree on every bit of every lane are equal. */
  lemma LanesExtensional(a: Lanes, b: Lanes)
    requires forall i | 0 <= i < 128 :: a.m0[i] == b.m0[i] && a.m1[i] == b.m1[i] && a.m2[i] == b.m2[i] && a.m3[i] == b.m3[i]
    requires forall i | 0 <= i < 128 :: a.m4[i] == b.m4[i] && a.m5[i] == b.m5[i] && a.m6[i] == b.m6[i] && a.m7[i] == b.m7[i]
    ensures a == b
  {
    assert a.m0 == b.m0 && a.m1 == b.m1 && a.m2 == b.m2 && a.m3 == b.m3;
    assert a.m4 == b.m4 && a.m5 == b.m5 && a.m6 == b.m6 && a.m7 == b.m7;
  }

  /** jhL is a bijection on the eight lanes: MdsInverse undoes it both ways. */
  lemma MdsInverts(s: Lanes)
    ensures MdsInverse(Mds(s)) == s
    ensures Mds(MdsInverse(s)) == s
  {
    var a, b := MdsInverse(Mds(s)), Mds(MdsInverse(s));
    forall i | 0 <= i < 128
      ensures a.m0[i] == s.m0[i] && a.m1[i] == s.m1[i] && a.m2[i] == s.m2[i] && a.m3[i] == s.m3[i]
      ensures a.m4[i] == s.m4[i] && a.m5[i] == s.m5[i] && a.m6[i] == s.m6[i] && a.m7[i] == s.m7[i]
      ensures b.m0[i] == s.m0[i] && b.m1[i] == s.m1[i] && b.m2[i] == s.m2[i] && b.m3[i] == s.m3[i]
      ensures b.m4[i] == s.m4[i] && b.m5[i] == s.m5[i] && b.m6[i] == s.m6[i] && b.m7[i] == s.m7[i]
    {
      MdsAt(s, i);
      MdsInverseAt(Mds(s), i);
      MdsInverseAt(s, i);
      MdsAt(MdsInverse(s), i);
    }
    LanesExtensional(a, s);
    LanesExtensional(b, s);
  }

  /** XOR of two pairs regrouped: (p + q) + (r + s) = (p + r) + (q + s). */
  lemma XorShuffle(p: Lane, q: Lane, r: Lane, s: Lane)
    ensures Xor(Xor(p, q), Xor(r, s)) == Xor(Xor(p, r), Xor(q, s))
  {
    assert forall i | 0 <= i < 128 :: Xor(Xor(p, q), Xor(r, s))[i] == Xor(Xor(p, r), Xor(q, s))[i];
  }

  /** jhL is XOR-linear: L(a XOR b) = L(a) XOR L(b). Each output lane is an XOR of input
      lanes, so the XOR of the pairs regroups lane by lane. */
  lemma MdsLinear(a: Lanes, b: Lanes)
    ensures Mds(LanesXor(a, b)) == LanesXor(Mds(a), Mds(b))
  {
    XorShuffle(a.m0, b.m0, a.m2, b.m2);
    XorShuffle(Xor(a.m0, a.m2), Xor(b.m0, b.m2), a.m5, b.m5);
    XorShuffle(a.m0, b.m0, a.m1, b.m1);
    XorShuffle(Xor(a.m0, a.m1), Xor(b.m0, b.m1), a.m3, b.m3);
    XorShuffle(Xor(Xor(a.m0, a.m1), a.m3), Xor(Xor(b.m0, b.m1), b.m3), a.m6, b.m6);
    XorShuffle(Xor(a.m0, a.m1), Xor(b.m0, b.m1), a.m2, b.m2);
    XorShuffle(Xor(Xor(a.m0, a.m1), a.m2), Xor(Xor(b.m0, b.m1), b.m2), a.m4, b.m4);
    XorShuffle(Xor(Xor(Xor(a.m0, a.m1), a.m2), a.m4), Xor(Xor(Xor(b.m0, b.m1), b.m2), b.m4), a.m7, b.m7);
    XorShuffle(a.m1, b.m1, a.m3, b.m3);
    XorShuffle(Xor(a.m1, a.m3), Xor(b.m1, b.m3), a.m4, b.m4);
    XorShuffle(a.m1, b.m1, a.m4, b.m4);
    XorShuffle(a.m2, b.m2, a.m5, b.m5);
    XorShuffle(a.m0, b.m0, a.m3, b.m3);
    XorShuffle(Xor(a.m0, a.m3), Xor(b.m0, b.m3), a.m6, b.m6);
    XorShuffle(a.m0, b.m0, a.m7, b.m7);
  }

  /** Multiplication by 2 in GF(2^4) with the polynomial x^4 + x + 1. */
  function Times2(a: bv4): bv4
  {
    if a & 8 == 0 then a << 1 else (a << 1) ^ 3
  }

  /** jhL at every bit position is the L map of the JH design on the nibbles A (from
      m0..m3) and B (from m4..m7): D = B + 2A goes to m4..m7 and C = A + 2D to m0..m3. */
  lemma MdsNibbles(s: Lanes, i: nat)
    requires i < 128
    ensures NibbleAt(High(Mds(s)), i) == NibbleAt(High(s), i) ^ Times2(NibbleAt(Low(s), i))
    ensures NibbleAt(Low(Mds(s)), i) == NibbleAt(Low(s), i) ^ Times2(NibbleAt(High(Mds(s)), i))
  {
    MdsAt(s, i);
    MdsNibbleBits(s.m0[i], s.m1[i], s.m2[i], s.m3[i], s.m4[i], s.m5[i], s.m6[i], s.m7[i]);
  }

  /** The nibble form of the bit equations of jhL. */
  lemma MdsNibbleBits(a0: bool, a1: bool, a2: bool, a3: bool, b0: bool, b1: bool, b2: bool, b3: bool)
    ensures var d := Nibble(b0 != a1, b1 != a2, b2 != (a3 != a0), b3 != a0);
      d == Nibble(b0, b1, b2, b3) ^ Times2(Nibble(a0, a1, a2, a3))
    ensures Nibble(a0 != (b1 != a2), a1 != (b2 != (a3 != a0)), a2 != ((b3 != a0) != (b0 != a1)), a3 != (b0 != a1))
      == Nibble(a0, a1, a2, a3) ^ Times2(Nibble(b0 != a1, b1 != a2, b2 != (a3 != a0), b3 != a0))
  {
  }
  // ---------------------------------------------------------------------------------
  // The linear transforms and the round

  /** The linear transform of round shape `shape` (0..6): the MDS code, then the swap of
      adjacent groups of 2^shape bits in m4..m7 only. */
  function LinearLayer(s: Lanes, shape: nat): Lanes
    requires shape < 7
  {
    var n := Mds(s);
    Lanes(n.m0, n.m1, n.m2, n.m3,
          SwapGroups(n.m4, shape), SwapGroups(n.m5, shape), SwapGroups(n.m6, shape), SwapGroups(n.m7, shape))
  }

  /** jhlineartransform_R00 .. jhlineartransform_R06, selected by `nn`: jhL, then the swap
      macro of that round shape on m4..m7. m0..m3 come out exactly as jhL left them. */
  method LinearTransform(s: Lanes, nn: nat) returns (t: Lanes)
    requires nn < 7
    ensures t == LinearLayer(s, nn)
    ensures Low(t) == Low(Mds(s))
  {
    t := ApplyL(s);
    SwapMacroGroups(t.m4, nn);
    SwapMacroGroups(t.m5, nn);
    SwapMacroGroups(t.m6, nn);
    SwapMacroGroups(t.m7, nn);
    t := t.(m4 := SwapMacro(t.m4, nn), m5 := SwapMacro(t.m5, nn),
            m6 := SwapMacro(t.m6, nn), m7 := SwapMacro(t.m7, nn));
  }

  /** The inverse of a linear transform: swap m4..m7 back, then undo the MDS code. */
  function LinearLayerInverse(t: Lanes, shape: nat): Lanes
    requires shape < 7
  {
    MdsInverse(Lanes(t.m0, t.m1, t.m2, t.m3,
                     SwapGroups(t.m4, shape), SwapGroups(t.m5, shape), SwapGroups(t.m6, shape), SwapGroups(t.m7, shape)))
  }

  /** Every linear transform is a bijection. */
  lemma LinearLayerInverts(s: Lanes, shape: nat)
    requires shape < 7
    ensures LinearLayerInverse(LinearLayer(s, shape), shape) == s
    ensures LinearLayer(LinearLayerInverse(s, shape), shape) == s
  {
    var n := Mds(s);
    SwapGroupsInvolution(n.m4, shape);
    SwapGroupsInvolution(n.m5, shape);
    SwapGroupsInvolution(n.m6, shape);
    SwapGroupsInvolution(n.m7, shape);
    MdsInverts(s);
    SwapGroupsInvolution(s.m4, shape);
    SwapGroupsInvolution(s.m5, shape);
    SwapGroupsInvolution(s.m6, shape);
    SwapGroupsInvolution(s.m7, shape);
    MdsInverts(Lanes(s.m0, s.m1, s.m2, s.m3,
                     SwapGroups(s.m4, shape), SwapGroups(s.m5, shape), SwapGroups(s.m6, shape), SwapGroups(s.m7, shape)));
  }

  /** The argument order of the round macros: the even lanes x0, x2, x4, x6 become
      m0..m3 and the odd lanes x1, x3, x5, x7 become m4..m7. */
  function Regroup(x: Lanes): Lanes
  {
    Lanes(x.m0, x.m2, x.m4, x.m6, x.m1, x.m3, x.m5, x.m7)
  }

  /** The lanes x0..x7 back from the round macros' argument order. */
  function Ungroup(t: Lanes): Lanes
  {
    Lanes(t.m0, t.m4, t.m1, t.m5, t.m2, t.m6, t.m3, t.m7)
  }

  /** The S-box layers of one round: m0..m3 under constant0, m4..m7 under constant1. */
  function SboxPair(s: Lanes, constant0: Lane, constant1: Lane): Lanes
  {
    Join(SboxLayer(Low(s), constant0), SboxLayer(High(s), constant1))
  }

  function InvSboxPair(s: Lanes, constant0: Lane, constant1: Lane): Lanes
  {
    Join(InvSboxLayer(Low(s), constant0), InvSboxLayer(High(s), constant1))
  }

  /** One round of E8 with round constant `r` and linear shape `shape`: the S-boxes on the
      even lanes under bytes 0..15 of constant r and on the odd lanes under bytes 16..31,
      then the linear transform of that shape. */
  function RoundFn(x: Lanes, r: nat, shape: nat): Lanes
    requires r < 42 && shape < 7
  {
    Ungroup(LinearLayer(SboxPair(Regroup(x), RoundConstantLane(r, 0), RoundConstantLane(r, 1)), shape))
  }

  /** Round r of E8 uses round constant r and linear shape r mod 7. */
  function E8Round(x: Lanes, r: nat): Lanes
    requires r < 42
  {
    RoundFn(x, r, r % 7)
  }

  /** The inverse of a round: undo the linear transform, then the S-boxes. */
  function RoundInverse(y: Lanes, r: nat, shape: nat): Lanes
    requires r < 42 && shape < 7
  {
    Ungroup(InvSboxPair(LinearLayerInverse(Regroup(y), shape), RoundConstantLane(r, 0), RoundConstantLane(r, 1)))
  }

  /** Every round is a bijection on the 1024-bit state. */
  lemma RoundInverts(x: Lanes, r: nat, shape: nat)
    requires r < 42 && shape < 7
    ensures RoundInverse(RoundFn(x, r, shape), r, shape) == x
    ensures RoundFn(RoundInverse(x, r, shape), r, shape) == x
  {
    var c0, c1 := RoundConstantLane(r, 0), RoundConstantLane(r, 1);
    var g := Regroup(x);
    SboxLayerInverts(Low(g), c0);
    SboxLayerInverts(High(g), c1);
    LinearLayerInverts(SboxPair(g, c0, c1), shape);
    var h := LinearLayerInverse(g, shape);
    LinearLayerInverts(g, shape);
    SboxLayerInverts(Low(h), c0);
    SboxLayerInverts(High(h), c1);
  }
}
