/** The 26-bit limb arithmetic of _poly1305_block and poly1305_done.

    Every function named as a step of the C code uses the machine operators of
    `Words`, so a product, sum or cast that did not fit its word would be cut
    off. The functions ending in `Exact` are the same steps over the integers. */
module Poly1305Arithmetic {
  import opened Words
  import opened LittleEndian

  const B: nat := 0x400_0000                                  // 2^26
  const B2: nat := 0x10_0000_0000_0000                        // 2^52
  const B3: nat := 0x4000_0000_0000_0000_0000                 // 2^78
  const B4: nat := 0x100_0000_0000_0000_0000_0000_0000        // 2^104
  const TWO_128: nat := 0x1_0000_0000_0000_0000_0000_0000_0000_0000
  const P: nat := 0x3_ffff_ffff_ffff_ffff_ffff_ffff_ffff_fffb // 2^130 - 5

  datatype Limbs = Limbs(l0: nat, l1: nat, l2: nat, l3: nat, l4: nat)

  const ZERO := Limbs(0, 0, 0, 0, 0)

  function Value(h: Limbs): nat
  {
    h.l0 + B * h.l1 + B2 * h.l2 + B3 * h.l3 + B4 * h.l4
  }

  /** `x & 0x3ffffff` */
  function Mask26(x: nat): nat
  {
    x % B
  }

  lemma {:induction false} Mask26IsAnd(x: nat)
    ensures Mask26(x) == And(x, 0x3ff_ffff)
  {
    Pow2Literals();
    AndMask(26, x);
  }

  // --- One block ----------------------------------------------------------

  /** What the loop keeps between blocks: only the second limb may exceed
      26 bits, and only slightly. */
  predicate Carried(h: Limbs)
  {
    h.l0 < B && h.l1 < B + 64 && h.l2 < B && h.l3 < B && h.l4 < B
  }

  /** The shape poly1305_init leaves `r` in. */
  predicate Clamped(r: Limbs)
  {
    r.l0 < B && r.l1 < B && r.l2 < B && r.l3 < B && r.l4 < 0x10_0000
  }

  /** The five limbs read from a block; `hibit` is 1 << 24 or 0. */
  function BlockLimbs(m: seq<Byte>, hibit: nat): Limbs
    requires |m| == 16
  {
    Limbs(Mask26(Load32(m, 0)), Mask26(Load32(m, 3) / 4), Mask26(Load32(m, 6) / 16),
          Mask26(Load32(m, 9) / 64), Or(Load32(m, 12) / 256, hibit))
  }

  function AddLimbs(h: Limbs, m: Limbs): Limbs
  {
    Limbs(Add32(h.l0, m.l0), Add32(h.l1, m.l1), Add32(h.l2, m.l2), Add32(h.l3, m.l3), Add32(h.l4, m.l4))
  }

  function Sum5(a: nat, b: nat, c: nat, d: nat, e: nat): nat
  {
    Add64(Add64(Add64(Add64(a, b), c), d), e)
  }

  /** h *= r, with the 2^130 wrap folded in as a factor 5. */
  function Multiply(h: Limbs, r: Limbs): Limbs
  {
    var s1, s2, s3, s4 := Mul32(r.l1, 5), Mul32(r.l2, 5), Mul32(r.l3, 5), Mul32(r.l4, 5);
    Limbs(
      Sum5(Mul64(h.l0, r.l0), Mul64(h.l1, s4), Mul64(h.l2, s3), Mul64(h.l3, s2), Mul64(h.l4, s1)),
      Sum5(Mul64(h.l0, r.l1), Mul64(h.l1, r.l0), Mul64(h.l2, s4), Mul64(h.l3, s3), Mul64(h.l4, s2)),
      Sum5(Mul64(h.l0, r.l2), Mul64(h.l1, r.l1), Mul64(h.l2, r.l0), Mul64(h.l3, s4), Mul64(h.l4, s3)),
      Sum5(Mul64(h.l0, r.l3), Mul64(h.l1, r.l2), Mul64(h.l2, r.l1), Mul64(h.l3, r.l0), Mul64(h.l4, s4)),
      Sum5(Mul64(h.l0, r.l4), Mul64(h.l1, r.l3), Mul64(h.l2, r.l2), Mul64(h.l3, r.l1), Mul64(h.l4, r.l0)))
  }

  datatype Link = Link(limb: nat, carry: nat)

  /** `d += c; c = (ulong32)(d >> 26); h = (ulong32)d & 0x3ffffff` */
  function CarryLink(d: nat, c: nat): Link
  {
    var s := Add64(d, c);
    Link(Mask26(s % W32), s / B % W32)
  }

  /** (partial) h %= p: `d` are 64-bit sums, the carries are 32-bit. */
  function Carry(d: Limbs): Limbs
  {
    var k0 := CarryLink(d.l0, 0);
    var k1 := CarryLink(d.l1, k0.carry);
    var k2 := CarryLink(d.l2, k1.carry);
    var k3 := CarryLink(d.l3, k2.carry);
    var k4 := CarryLink(d.l4, k3.carry);
    Fold(k0.limb, k1.limb, k2.limb, k3.limb, k4.limb, k4.carry)
  }

  /** `h0 += c * 5; c = h0 >> 26; h0 &= 0x3ffffff; h1 += c` */
  function Fold(h0: nat, h1: nat, h2: nat, h3: nat, h4: nat, c: nat): Limbs
  {
    var s := Add32(h0, Mul32(c, 5));
    Limbs(Mask26(s), Add32(h1, s / B), h2, h3, h4)
  }

  function BlockStep(h: Limbs, r: Limbs, m: seq<Byte>, hibit: nat): Limbs
    requires |m| == 16
  {
    Carry(Multiply(AddLimbs(h, BlockLimbs(m, hibit)), r))
  }

  // --- The same steps over the integers -----------------------------------

  function AddExact(h: Limbs, m: Limbs): Limbs
  {
    Limbs(h.l0 + m.l0, h.l1 + m.l1, h.l2 + m.l2, h.l3 + m.l3, h.l4 + m.l4)
  }

  function MultiplyExact(h: Limbs, r: Limbs): Limbs
  {
    Limbs(
      h.l0 * r.l0 + 5 * (h.l1 * r.l4 + h.l2 * r.l3 + h.l3 * r.l2 + h.l4 * r.l1),
      h.l0 * r.l1 + h.l1 * r.l0 + 5 * (h.l2 * r.l4 + h.l3 * r.l3 + h.l4 * r.l2),
      h.l0 * r.l2 + h.l1 * r.l1 + h.l2 * r.l0 + 5 * (h.l3 * r.l4 + h.l4 * r.l3),
      h.l0 * r.l3 + h.l1 * r.l2 + h.l2 * r.l1 + h.l3 * r.l0 + 5 * (h.l4 * r.l4),
      h.l0 * r.l4 + h.l1 * r.l3 + h.l2 * r.l2 + h.l3 * r.l1 + h.l4 * r.l0)
  }

  function LinkExact(d: nat, c: nat): Link
  {
    Link((d + c) % B, (d + c) / B)
  }

  function CarryExact(d: Limbs): Limbs
  {
    var k0 := LinkExact(d.l0, 0);
    var k1 := LinkExact(d.l1, k0.carry);
    var k2 := LinkExact(d.l2, k1.carry);
    var k3 := LinkExact(d.l3, k2.carry);
    var k4 := LinkExact(d.l4, k3.carry);
    FoldExact(k0.limb, k1.limb, k2.limb, k3.limb, k4.limb, k4.carry)
  }

  function FoldExact(h0: nat, h1: nat, h2: nat, h3: nat, h4: nat, c: nat): Limbs
  {
    Limbs((h0 + 5 * c) % B, h1 + (h0 + 5 * c) / B, h2, h3, h4)
  }

  /** The carry out of the top limb. */
  function TopCarry(d: Limbs): nat
  {
    LinkExact(d.l4, LinkExact(d.l3, LinkExact(d.l2, LinkExact(d.l1, LinkExact(d.l0, 0).carry).carry).carry).carry).carry
  }

  // --- Reading a block -----------------------------------------------------

  /** The four unaligned loads and shifts cut the 128-bit block into limbs. */
  lemma {:induction false} BlockLimbsValue(m: seq<Byte>, hibit: nat)
    requires |m| == 16 && (hibit == 0 || hibit == 0x100_0000)
    ensures Value(BlockLimbs(m, hibit)) == LE(m) + hibit * B4
    ensures var b := BlockLimbs(m, hibit);
            b.l0 < B && b.l1 < B && b.l2 < B && b.l3 < B && b.l4 < 0x200_0000
  {
    Pow2Literals();
    LE16(m);
    LE4(m[..4]); LE4(m[4..8]); LE4(m[8..12]); LE4(m[12..]);
    TopLimb(m, hibit);
    Regroup(m[0], m[1], m[2], m[3], m[4], m[5], m[6], m[7],
            m[8], m[9], m[10], m[11], m[12], m[13], m[14], m[15]);
  }

  lemma {:induction false} TopLimb(m: seq<Byte>, hibit: nat)
    requires |m| == 16 && (hibit == 0 || hibit == 0x100_0000)
    ensures Or(Load32(m, 12) / 256, hibit) == m[13] as nat + 0x100 * m[14] as nat + 0x1_0000 * m[15] as nat + hibit
  {
    Pow2Literals();
    var top := Load32(m, 12) / 256;
    if hibit == 0 {
      BitwiseZero(OrOp, top);
    } else {
      OrDisjoint(24, top, 1);
    }
  }

  lemma {:induction false} Regroup(b0: nat, b1: nat, b2: nat, b3: nat, b4: nat, b5: nat, b6: nat, b7: nat,
                b8: nat, b9: nat, b10: nat, b11: nat, b12: nat, b13: nat, b14: nat, b15: nat)
    requires b0 < 256 && b1 < 256 && b2 < 256 && b3 < 256 && b4 < 256 && b5 < 256 && b6 < 256 && b7 < 256
    requires b8 < 256 && b9 < 256 && b10 < 256 && b11 < 256 && b12 < 256
    ensures Quad(b0, b1, b2, b3) % B + B * (Quad(b3, b4, b5, b6) / 4 % B) + B2 * (Quad(b6, b7, b8, b9) / 16 % B)
          + B3 * (Quad(b9, b10, b11, b12) / 64 % B) + B4 * (b13 + 0x100 * b14 + 0x1_0000 * b15)
         == Quad(b0, b1, b2, b3) + W32 * Quad(b4, b5, b6, b7)
          + W64 * Quad(b8, b9, b10, b11) + W64 * W32 * Quad(b12, b13, b14, b15)
  {
    Limb0(b0, b1, b2, b3);
    Limb1(b3, b4, b5, b6);
    Limb2(b6, b7, b8, b9);
    Limb3(b9, b10, b11, b12);
    assert b3 == 4 * (b3 / 4) + b3 % 4;
    assert b6 == 16 * (b6 / 16) + b6 % 16;
    assert b9 == 64 * (b9 / 64) + b9 % 64;
  }

  lemma {:induction false} Limb0(b0: nat, b1: nat, b2: nat, b3: nat)
    requires b0 < 256 && b1 < 256 && b2 < 256
    ensures Quad(b0, b1, b2, b3) % B == b0 + 0x100 * b1 + 0x1_0000 * b2 + 0x100_0000 * (b3 % 4)
  {
    QuotientIs(Quad(b0, b1, b2, b3), B, b3 / 4, b0 + 0x100 * b1 + 0x1_0000 * b2 + 0x100_0000 * (b3 % 4));
  }

  lemma {:induction false} Limb1(b3: nat, b4: nat, b5: nat, b6: nat)
    requires b3 < 256 && b4 < 256 && b5 < 256
    ensures Quad(b3, b4, b5, b6) / 4 % B == b3 / 4 + 0x40 * b4 + 0x4000 * b5 + 0x40_0000 * (b6 % 16)
  {
    var x := b3 / 4 + 0x40 * b4 + 0x4000 * b5 + 0x40_0000 * b6;
    QuotientIs(Quad(b3, b4, b5, b6), 4, x, b3 % 4);
    QuotientIs(x, B, b6 / 16, b3 / 4 + 0x40 * b4 + 0x4000 * b5 + 0x40_0000 * (b6 % 16));
  }

  lemma {:induction false} Limb2(b6: nat, b7: nat, b8: nat, b9: nat)
    requires b6 < 256 && b7 < 256 && b8 < 256
    ensures Quad(b6, b7, b8, b9) / 16 % B == b6 / 16 + 0x10 * b7 + 0x1000 * b8 + 0x10_0000 * (b9 % 64)
  {
    var x := b6 / 16 + 0x10 * b7 + 0x1000 * b8 + 0x10_0000 * b9;
    QuotientIs(Quad(b6, b7, b8, b9), 16, x, b6 % 16);
    QuotientIs(x, B, b9 / 64, b6 / 16 + 0x10 * b7 + 0x1000 * b8 + 0x10_0000 * (b9 % 64));
  }

  lemma {:induction false} Limb3(b9: nat, b10: nat, b11: nat, b12: nat)
    requires b9 < 256 && b10 < 256 && b11 < 256 && b12 < 256
    ensures Quad(b9, b10, b11, b12) / 64 % B == b9 / 64 + 0x4 * b10 + 0x400 * b11 + 0x4_0000 * b12
  {
    var x := b9 / 64 + 0x4 * b10 + 0x400 * b11 + 0x4_0000 * b12;
    QuotientIs(Quad(b9, b10, b11, b12), 64, x, b9 % 64);
    QuotientIs(x, B, 0, x);
  }

  // --- No intermediate is cut off ------------------------------------------

  predicate Bounded(h: Limbs)
  {
    h.l0 <= 2 * B && h.l1 <= 2 * B + 64 && h.l2 <= 2 * B && h.l3 <= 2 * B && 2 * h.l4 <= 3 * B
  }

  lemma {:induction false} AddLimbsExact(h: Limbs, m: Limbs)
    requires Carried(h)
    requires m.l0 < B && m.l1 < B && m.l2 < B && m.l3 < B && m.l4 < 0x200_0000
    ensures AddLimbs(h, m) == AddExact(h, m) && Bounded(AddExact(h, m))
    ensures Value(AddExact(h, m)) == Value(h) + Value(m)
  {
  }

  lemma {:induction false} ProductBound(a: nat, A: nat, b: nat, C: nat)
    requires a <= A && b <= C
    ensures a * b <= A * C
  {
  }

  const TERM: nat := 0x20_0002_0000_0000   // at least (2 * 2^26 + 64) * 2^26

  /** A product of a limb of `h` and a limb of `r`, and five times it. */
  lemma {:induction false} Term(a: nat, b: nat)
    requires a <= 2 * B + 64 && b < B
    ensures a * b <= TERM
    ensures Mul32(b, 5) == 5 * b
    ensures Mul64(a, b) == a * b && Mul64(a, 5 * b) == 5 * (a * b)
  {
    ProductBound(a, 2 * B + 64, b, B);
    assert a * (5 * b) == 5 * (a * b);
  }

  lemma {:induction false} SumFits(a: nat, b: nat, c: nat, d: nat, e: nat)
    requires a <= 5 * TERM && b <= 5 * TERM && c <= 5 * TERM && d <= 5 * TERM && e <= 5 * TERM
    ensures Sum5(a, b, c, d, e) == a + b + c + d + e
  {
    SmallMod(a + b, W64);
    SmallMod(a + b + c, W64);
    SmallMod(a + b + c + d, W64);
    SmallMod(a + b + c + d + e, W64);
  }

  /** The first, middle and last column of the product, each with its bound. */
  lemma {:induction false} Column0(h: Limbs, r: Limbs)
    requires Bounded(h) && Clamped(r)
    ensures Multiply(h, r).l0 == MultiplyExact(h, r).l0 <= 21 * TERM
  {
    Term(h.l0, r.l0); Term(h.l1, r.l4); Term(h.l2, r.l3); Term(h.l3, r.l2); Term(h.l4, r.l1);
    SumFits(h.l0 * r.l0, 5 * (h.l1 * r.l4), 5 * (h.l2 * r.l3), 5 * (h.l3 * r.l2), 5 * (h.l4 * r.l1));
  }

  lemma {:induction false} Column1(h: Limbs, r: Limbs)
    requires Bounded(h) && Clamped(r)
    ensures Multiply(h, r).l1 == MultiplyExact(h, r).l1 <= 17 * TERM
  {
    Term(h.l0, r.l1); Term(h.l1, r.l0); Term(h.l2, r.l4); Term(h.l3, r.l3); Term(h.l4, r.l2);
    SumFits(h.l0 * r.l1, h.l1 * r.l0, 5 * (h.l2 * r.l4), 5 * (h.l3 * r.l3), 5 * (h.l4 * r.l2));
  }

  lemma {:induction false} Column2(h: Limbs, r: Limbs)
    requires Bounded(h) && Clamped(r)
    ensures Multiply(h, r).l2 == MultiplyExact(h, r).l2 <= 13 * TERM
  {
    Term(h.l0, r.l2); Term(h.l1, r.l1); Term(h.l2, r.l0); Term(h.l3, r.l4); Term(h.l4, r.l3);
    SumFits(h.l0 * r.l2, h.l1 * r.l1, h.l2 * r.l0, 5 * (h.l3 * r.l4), 5 * (h.l4 * r.l3));
  }

  lemma {:induction false} Column3(h: Limbs, r: Limbs)
    requires Bounded(h) && Clamped(r)
    ensures Multiply(h, r).l3 == MultiplyExact(h, r).l3 <= 9 * TERM
  {
    Term(h.l0, r.l3); Term(h.l1, r.l2); Term(h.l2, r.l1); Term(h.l3, r.l0); Term(h.l4, r.l4);
    SumFits(h.l0 * r.l3, h.l1 * r.l2, h.l2 * r.l1, h.l3 * r.l0, 5 * (h.l4 * r.l4));
  }

  lemma {:induction false} Column4(h: Limbs, r: Limbs)
    requires Bounded(h) && Clamped(r)
    ensures Multiply(h, r).l4 == MultiplyExact(h, r).l4 <= 5 * TERM
  {
    Term(h.l0, r.l4); Term(h.l1, r.l3); Term(h.l2, r.l2); Term(h.l3, r.l1); Term(h.l4, r.l0);
    SumFits(h.l0 * r.l4, h.l1 * r.l3, h.l2 * r.l2, h.l3 * r.l1, h.l4 * r.l0);
  }

  predicate Columns(d: Limbs)
  {
    d.l0 <= 21 * TERM && d.l1 <= 17 * TERM && d.l2 <= 13 * TERM && d.l3 <= 9 * TERM && d.l4 <= 5 * TERM
  }

  lemma {:induction false} MultiplyFits(h: Limbs, r: Limbs)
    requires Bounded(h) && Clamped(r)
    ensures Multiply(h, r) == MultiplyExact(h, r)
    ensures Columns(MultiplyExact(h, r))
  {
    Column0(h, r); Column1(h, r); Column2(h, r); Column3(h, r); Column4(h, r);
  }

  /** One link of the carry chain: the sum fits 64 bits and the quotient 32,
      so neither cast loses anything. */
  lemma {:induction false} LinkFits(d: nat, t: nat, c: nat)
    requires d <= t * TERM && t <= 21 && c < W32
    ensures CarryLink(d, c) == LinkExact(d, c)
    ensures LinkExact(d, c).limb < B && LinkExact(d, c).carry <= t * 0x800_0800 + 64
  {
    var x := d + c;
    SmallMod(x, W64);
    LowLimb(x);
    LinkBound(x, t);
    SmallMod(x / B, W32);
  }

  lemma {:induction false} SmallMod(x: nat, m: nat)
    requires x < m
    ensures x % m == x && x / m == 0
  {
    QuotientIs(x, m, 0, x);
  }

  lemma {:induction false} LowLimb(x: nat)
    ensures x % W32 % B == x % B < B
  {
    var a, b := x / W32, x % W32;
    var c, e := b / B, b % B;
    assert x == W32 * a + b && b == B * c + e;
    QuotientIs(x, B, 64 * a + c, e);
  }

  lemma {:induction false} LinkBound(x: nat, t: nat)
    requires x <= t * TERM + W32 && t <= 21
    ensures x / B <= t * 0x800_0800 + 64
  {
    assert x == B * (x / B) + x % B;
  }

  lemma {:induction false} FoldFits(h0: nat, h1: nat, h2: nat, h3: nat, h4: nat, c: nat)
    requires h0 < B && h1 < B && h2 < B && h3 < B && h4 < B && c <= 5 * 0x800_0800 + 64
    ensures Fold(h0, h1, h2, h3, h4, c) == FoldExact(h0, h1, h2, h3, h4, c)
    ensures Carried(FoldExact(h0, h1, h2, h3, h4, c))
  {
    var s := h0 + 5 * c;
    SmallMod(5 * c, W32);
    SmallMod(s, W32);
    assert s == B * (s / B) + s % B && 0 <= s % B < B;
    assert s / B < 64;
    SmallMod(h1 + s / B, W32);
  }

  lemma {:induction false} CarryFits(d: Limbs)
    requires Columns(d)
    ensures Carry(d) == CarryExact(d) && Carried(CarryExact(d))
  {
    LinkFits(d.l0, 21, 0);
    var k0 := LinkExact(d.l0, 0);
    LinkFits(d.l1, 17, k0.carry);
    var k1 := LinkExact(d.l1, k0.carry);
    LinkFits(d.l2, 13, k1.carry);
    var k2 := LinkExact(d.l2, k1.carry);
    LinkFits(d.l3, 9, k2.carry);
    var k3 := LinkExact(d.l3, k2.carry);
    LinkFits(d.l4, 5, k3.carry);
    var k4 := LinkExact(d.l4, k3.carry);
    FoldFits(k0.limb, k1.limb, k2.limb, k3.limb, k4.limb, k4.carry);
  }

  // --- The value modulo 2^130 - 5 -------------------------------------------

  lemma {:induction false} LinkValue(d: nat, c: nat)
    ensures d + c == B * LinkExact(d, c).carry + LinkExact(d, c).limb
  {
  }

  lemma {:induction false} FoldValue(h0: nat, h1: nat, h2: nat, h3: nat, h4: nat, c: nat)
    ensures Value(FoldExact(h0, h1, h2, h3, h4, c)) == Value(Limbs(h0, h1, h2, h3, h4)) + 5 * c
  {
    var s := h0 + 5 * c;
    assert s == B * (s / B) + s % B;
  }

  lemma {:induction false} CarryValue(d: Limbs)
    ensures Value(CarryExact(d)) + P * TopCarry(d) == Value(d)
  {
    var k0 := LinkExact(d.l0, 0);
    var k1 := LinkExact(d.l1, k0.carry);
    var k2 := LinkExact(d.l2, k1.carry);
    var k3 := LinkExact(d.l3, k2.carry);
    var k4 := LinkExact(d.l4, k3.carry);
    FoldValue(k0.limb, k1.limb, k2.limb, k3.limb, k4.limb, k4.carry);
    LinkValue(d.l0, 0);
    LinkValue(d.l1, k0.carry);
    LinkValue(d.l2, k1.carry);
    LinkValue(d.l3, k2.carry);
    LinkValue(d.l4, k3.carry);
  }

  /** Multiplying a limb polynomial by a number. */
  lemma {:induction false} Distribute(h: Limbs, x: nat)
    ensures Value(h) * x == h.l0 * x + B * (h.l1 * x) + B2 * (h.l2 * x) + B3 * (h.l3 * x) + B4 * (h.l4 * x)
  {
  }

  /** The wrapped-around part of the product, which 2^130 multiplies. */
  function Wrap(h: Limbs, r: Limbs): nat
  {
    h.l1 * r.l4 + h.l2 * r.l3 + h.l3 * r.l2 + h.l4 * r.l1
    + B * (h.l2 * r.l4 + h.l3 * r.l3 + h.l4 * r.l2)
    + B2 * (h.l3 * r.l4 + h.l4 * r.l3)
    + B3 * (h.l4 * r.l4)
  }

  lemma {:induction false} MultiplyValue(h: Limbs, r: Limbs)
    ensures Value(h) * Value(r) == Value(MultiplyExact(h, r)) + P * Wrap(h, r)
  {
    Distribute(r, Value(h));
    Distribute(h, r.l0);
    Distribute(h, r.l1);
    Distribute(h, r.l2);
    Distribute(h, r.l3);
    Distribute(h, r.l4);
  }

  /** Section 2.5.1 of RFC 8439: one block takes the accumulator `a` to
      (a + block) * r modulo 2^130 - 5, and nothing is cut off on the way. */
  lemma {:induction false} BlockStepCorrect(h: Limbs, r: Limbs, m: seq<Byte>, hibit: nat)
    requires |m| == 16 && (hibit == 0 || hibit == 0x100_0000)
    requires Carried(h) && Clamped(r)
    ensures BlockStep(h, r, m, hibit) == CarryExact(MultiplyExact(AddExact(h, BlockLimbs(m, hibit)), r))
    ensures Carried(BlockStep(h, r, m, hibit))
    ensures Value(BlockStep(h, r, m, hibit)) % P == ((Value(h) % P + (LE(m) + hibit * B4)) * Value(r)) % P
  {
    hide Carry, Multiply, AddLimbs, BlockLimbs, CarryExact, MultiplyExact, AddExact, LE, Value, Carried, Clamped;
    BlockLimbsValue(m, hibit);
    StepFits(h, BlockLimbs(m, hibit), r);
    BlockValue(h, BlockLimbs(m, hibit), r, LE(m) + hibit * B4);
  }

  lemma {:induction false} BlockValue(h: Limbs, b: Limbs, r: Limbs, n: nat)
    requires Value(b) == n
    ensures Value(CarryExact(MultiplyExact(AddExact(h, b), r))) % P == ((Value(h) % P + n) * Value(r)) % P
  {
    assert Value(AddExact(h, b)) == Value(h) + n;
    hide Value, AddExact, MultiplyExact, CarryExact;
    StepValue(AddExact(h, b), r);
    ReduceFirst(Value(h), n, Value(r));
  }

  lemma {:induction false} StepFits(h: Limbs, b: Limbs, r: Limbs)
    requires Carried(h) && Clamped(r)
    requires b.l0 < B && b.l1 < B && b.l2 < B && b.l3 < B && b.l4 < 0x200_0000
    ensures Carry(Multiply(AddLimbs(h, b), r)) == CarryExact(MultiplyExact(AddExact(h, b), r))
    ensures Carried(CarryExact(MultiplyExact(AddExact(h, b), r)))
  {
    AddLimbsExact(h, b);
    MultiplyFits(AddExact(h, b), r);
    CarryFits(MultiplyExact(AddExact(h, b), r));
  }

  lemma {:induction false} StepValue(a: Limbs, r: Limbs)
    ensures Value(CarryExact(MultiplyExact(a, r))) % P == (Value(a) * Value(r)) % P
  {
    var d := MultiplyExact(a, r);
    MultiplyValue(a, r);
    CarryValue(d);
    var k := TopCarry(d) + Wrap(a, r);
    assert Value(a) * Value(r) == Value(CarryExact(d)) + P * k;
    ModP(Value(CarryExact(d)), k);
  }

  lemma {:induction false} ModP(x: nat, k: nat)
    ensures (x + P * k) % P == x % P
  {
    QuotientIs(x + P * k, P, x / P + k, x % P);
  }

  lemma {:induction false} ReduceFirst(x: nat, n: nat, r: nat)
    ensures ((x % P + n) * r) % P == ((x + n) * r) % P
  {
    var q, v := x / P, x % P;
    assert x == v + P * q;
    assert (x + n) * r == (v + n) * r + P * (q * r);
    ModP((v + n) * r, q * r);
  }
}
