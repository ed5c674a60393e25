/** The arithmetic of poly1305_done: full carry, masked subtraction of the
    modulus, repacking into 32-bit words and addition of the pad. */
module Poly1305Final {
  import opened Words
  import opened LittleEndian
  import opened Poly1305Arithmetic

  /** `h += c; c = h >> 26; h &= 0x3ffffff` on 32-bit words. */
  function Link32(d: nat, c: nat): Link
  {
    Link(Mask26(Add32(d, c)), Add32(d, c) / B)
  }

  /** "fully carry h", starting at the second limb. */
  function FullCarry(h: Limbs): Limbs
  {
    var k1 := Link32(h.l1, 0);
    var k2 := Link32(h.l2, k1.carry);
    var k3 := Link32(h.l3, k2.carry);
    var k4 := Link32(h.l4, k3.carry);
    Fold(h.l0, k1.limb, k2.limb, k3.limb, k4.limb, k4.carry)
  }

  /** "compute h + -p": adds 5 and drops 2^130; the top limb wraps when h < p. */
  function MinusP(h: Limbs): Limbs
  {
    var k0 := Link32(h.l0, 5);
    var k1 := Link32(h.l1, k0.carry);
    var k2 := Link32(h.l2, k1.carry);
    var k3 := Link32(h.l3, k2.carry);
    Limbs(k0.limb, k1.limb, k2.limb, k3.limb, (h.l4 + k3.carry + (W32 - B)) % W32)
  }

  /** `(h & ~mask) | (g & mask)` */
  function Select(h: nat, g: nat, mask: Word32): nat
  {
    Or(And(h, W32 - 1 - mask), And(g, mask))
  }

  /** "select h if h < p, or h + -p if h >= p" */
  function Freeze(h: Limbs): Limbs
  {
    var c := FullCarry(h);
    var g := MinusP(c);
    var mask := Add32(g.l4 / 0x8000_0000, W32 - 1);
    Limbs(Select(c.l0, g.l0, mask), Select(c.l1, g.l1, mask), Select(c.l2, g.l2, mask),
          Select(c.l3, g.l3, mask), Select(c.l4, g.l4, mask))
  }

  predicate Reduced(h: Limbs)
  {
    h.l0 < B && h.l1 < B && h.l2 < B && h.l3 < B && h.l4 < B
  }

  lemma {:induction false} Link32Fits(d: nat, c: nat)
    requires d < B + 64 && c <= 5
    ensures Link32(d, c) == LinkExact(d, c) && LinkExact(d, c).carry <= 1
    ensures d + c == B * LinkExact(d, c).carry + LinkExact(d, c).limb && LinkExact(d, c).limb < B
  {
  }

  /** One pass is enough: if the top limb carries out, the second limb has
      already been emptied, so the last `h1 += c` cannot reach 2^26. */
  lemma {:induction false} FullCarryCorrect(h: Limbs)
    requires Carried(h)
    ensures Reduced(FullCarry(h))
    ensures Value(FullCarry(h)) % P == Value(h) % P
  {
    var k1 := LinkExact(h.l1, 0);
    Link32Fits(h.l1, 0);
    var k2 := LinkExact(h.l2, k1.carry);
    Link32Fits(h.l2, k1.carry);
    var k3 := LinkExact(h.l3, k2.carry);
    Link32Fits(h.l3, k2.carry);
    var k4 := LinkExact(h.l4, k3.carry);
    Link32Fits(h.l4, k3.carry);
    hide Link32, LinkExact;
    assert k4.carry == 1 ==> k3.carry == 1 && k2.carry == 1 && k1.carry == 1;
    assert k4.carry == 1 ==> k1.limb < 64;
    FoldFits(h.l0, k1.limb, k2.limb, k3.limb, k4.limb, k4.carry);
    FoldValue(h.l0, k1.limb, k2.limb, k3.limb, k4.limb, k4.carry);
    assert Value(FullCarry(h)) + P * k4.carry == Value(h);
    ModP(Value(FullCarry(h)), k4.carry);
  }

  lemma {:induction false} MinusPCorrect(h: Limbs)
    requires Reduced(h)
    ensures var g := MinusP(h);
            g.l0 < B && g.l1 < B && g.l2 < B && g.l3 < B && g.l4 < W32
    ensures Value(h) < P <==> MinusP(h).l4 >= 0x8000_0000
    ensures Value(h) >= P ==> MinusP(h).l4 < B && Value(MinusP(h)) + P == Value(h)
  {
    var k0 := LinkExact(h.l0, 5);
    Link32Fits(h.l0, 5);
    var k1 := LinkExact(h.l1, k0.carry);
    Link32Fits(h.l1, k0.carry);
    var k2 := LinkExact(h.l2, k1.carry);
    Link32Fits(h.l2, k1.carry);
    var k3 := LinkExact(h.l3, k2.carry);
    Link32Fits(h.l3, k2.carry);
    hide Link32, LinkExact;
    var top := h.l4 + k3.carry;
    var low := k0.limb + B * k1.limb + B2 * k2.limb + B3 * k3.limb;
    assert low < B4;
    assert Value(h) + 5 == low + B4 * top;
    TopLimb(top);
  }

  /** Subtracting 2^26 from the top limb in 32 bits sets the sign bit exactly when it was below. */
  lemma {:induction false} TopLimb(top: nat)
    requires top <= B
    ensures (top + (W32 - B)) % W32 == if top >= B then top - B else top + (W32 - B)
  {
    if top >= B {
      QuotientIs(top + (W32 - B), W32, 1, top - B);
    } else {
      SmallMod(top + (W32 - B), W32);
    }
  }

  lemma {:induction false} SelectOne(h: nat, g: nat, mask: Word32)
    requires h < W32 && g < W32 && (mask == 0 || mask == W32 - 1)
    ensures Select(h, g, mask) == if mask == 0 then h else g
  {
    Pow2Literals();
    AndOnes(32, h);
    AndOnes(32, g);
    BitwiseZero(AndOp, h);
    BitwiseZero(AndOp, g);
    BitwiseZero(OrOp, h);
    BitwiseZero(OrOp, g);
  }

  lemma {:induction false} ReducedBelow2P(h: Limbs)
    requires Reduced(h)
    ensures Value(h) < P + P
    ensures Value(h) % P == if Value(h) < P then Value(h) else Value(h) - P
  {
  }

  /** From any state the block loop can leave, the result is the one
      representative below 2^130 - 5, with no limb above 26 bits. */
  lemma {:induction false} FreezeCorrect(h: Limbs)
    requires Carried(h)
    ensures Reduced(Freeze(h))
    ensures Value(Freeze(h)) == Value(h) % P
  {
    hide Select, FullCarry, MinusP, Value;
    var c := FullCarry(h);
    FullCarryCorrect(h);
    var g := MinusP(c);
    MinusPCorrect(c);
    ReducedBelow2P(c);
    var mask := Add32(g.l4 / 0x8000_0000, W32 - 1);
    MaskOfSign(g.l4);
    SelectOne(c.l0, g.l0, mask);
    SelectOne(c.l1, g.l1, mask);
    SelectOne(c.l2, g.l2, mask);
    SelectOne(c.l3, g.l3, mask);
    SelectOne(c.l4, g.l4, mask);
    assert Freeze(h) == if Value(c) < P then c else g;
  }

  lemma {:induction false} MaskOfSign(g: nat)
    requires g < W32
    ensures Add32(g / 0x8000_0000, W32 - 1) == if g >= 0x8000_0000 then 0 else W32 - 1
  {
  }

  // --- 32-bit words ---------------------------------------------------------

  datatype Words4 = Words4(w0: nat, w1: nat, w2: nat, w3: nat)

  function Value128(w: Words4): nat
  {
    w.w0 + W32 * w.w1 + W64 * w.w2 + W64 * W32 * w.w3
  }

  predicate Fits(w: Words4)
  {
    w.w0 < W32 && w.w1 < W32 && w.w2 < W32 && w.w3 < W32
  }

  /** "h = h % (2^128)": adjacent limbs are or-ed into 32-bit words. */
  function Pack(f: Limbs): Words4
  {
    Words4(Or(f.l0, f.l1 * 0x400_0000 % W32), Or(f.l1 / 0x40, f.l2 * 0x10_0000 % W32),
           Or(f.l2 / 0x1000, f.l3 * 0x4000 % W32), Or(f.l3 / 0x4_0000, f.l4 * 0x100 % W32))
  }

  /** The two halves of a packed word never share a bit. */
  lemma {:induction false} PackWord(low: nat, high: nat, k: nat, k': nat)
    requires k + k' == 32 && low < Pow2(k)
    ensures Or(low, high * Pow2(k) % W32) == low + Pow2(k) * (high % Pow2(k')) < W32
  {
    Pow2Literals();
    Pow2Add(k, k');
    ShiftOut(high, Pow2(k), Pow2(k'));
    OrDisjoint(k, low, high % Pow2(k'));
  }

  /** `high << k` in a 32-bit word keeps the low 32 - k bits of `high`. */
  lemma {:induction false} ShiftOut(high: nat, p: nat, p': nat)
    requires p > 0 && p' > 0 && p * p' == W32
    ensures high * p % W32 == p * (high % p')
    ensures p * (high % p') + p <= W32
  {
    var q, r := high / p', high % p';
    assert high * p == W32 * q + p * r by {
      assert high == p' * q + r;
      assert (p' * q) * p == (p * p') * q;
    }
    ProductBound(p, p, r + 1, p');
    assert p * (r + 1) == p * r + p;
    QuotientIs(high * p, W32, q, p * r);
  }

  lemma {:induction false} PackCorrect(f: Limbs)
    requires Reduced(f)
    ensures Fits(Pack(f))
    ensures Value128(Pack(f)) == Value(f) % TWO_128
  {
    Pow2Literals();
    assert Pow2(6) == 0x40 && Pow2(20) == 0x10_0000 && Pow2(12) == 0x1000
        && Pow2(14) == 0x4000 && Pow2(18) == 0x4_0000;
    PackWord(f.l0, f.l1, 26, 6);
    PackWord(f.l1 / 0x40, f.l2, 20, 12);
    PackWord(f.l2 / 0x1000, f.l3, 14, 18);
    PackWord(f.l3 / 0x4_0000, f.l4, 8, 24);
    PackSum(f);
  }

  lemma {:induction false} PackSum(f: Limbs)
    requires Reduced(f)
    ensures Value128(Words4(f.l0 + 0x400_0000 * (f.l1 % 0x40), f.l1 / 0x40 + 0x10_0000 * (f.l2 % 0x1000),
                            f.l2 / 0x1000 + 0x4000 * (f.l3 % 0x4_0000), f.l3 / 0x4_0000 + 0x100 * (f.l4 % 0x100_0000)))
         == Value(f) % TWO_128
  {
    hide Value, Value128;
    Split(f.l1, 0x40); Split(f.l2, 0x1000); Split(f.l3, 0x4_0000); Split(f.l4, 0x100_0000);
    PackChain(f, f.l1 / 0x40, f.l1 % 0x40, f.l2 / 0x1000, f.l2 % 0x1000, f.l3 / 0x4_0000, f.l3 % 0x4_0000,
              f.l4 / 0x100_0000, f.l4 % 0x100_0000);
  }

  lemma {:induction false} Split(x: nat, m: nat)
    requires m > 0
    ensures x == m * (x / m) + x % m && x % m < m
  {
  }

  lemma {:induction false} PackChain(f: Limbs, q1: nat, r1: nat, q2: nat, r2: nat, q3: nat, r3: nat, q4: nat, r4: nat)
    requires Reduced(f) && f.l1 == 0x40 * q1 + r1 && f.l2 == 0x1000 * q2 + r2 && f.l3 == 0x4_0000 * q3 + r3
    requires f.l4 == 0x100_0000 * q4 + r4 && r1 < 0x40 && r2 < 0x1000 && r3 < 0x4_0000 && r4 < 0x100_0000
    ensures Value128(Words4(f.l0 + 0x400_0000 * r1, q1 + 0x10_0000 * r2, q2 + 0x4000 * r3, q3 + 0x100 * r4))
         == Value(f) % TWO_128
  {
    var w := Words4(f.l0 + 0x400_0000 * r1, q1 + 0x10_0000 * r2, q2 + 0x4000 * r3, q3 + 0x100 * r4);
    assert Value(f) == TWO_128 * q4 + Value128(w);
    QuotientIs(Value(f), TWO_128, q4, Value128(w));
  }

  /** "mac = (h + pad) % (2^128)": a 32-bit add-with-carry chain. */
  function AddPad(w: Words4, pad: Words4): Words4
  {
    var f0 := w.w0 + pad.w0;
    var f1 := w.w1 + pad.w1 + f0 / W32;
    var f2 := w.w2 + pad.w2 + f1 / W32;
    var f3 := w.w3 + pad.w3 + f2 / W32;
    Words4(f0 % W32, f1 % W32, f2 % W32, f3 % W32)
  }

  lemma {:induction false} AddPadCorrect(w: Words4, pad: Words4)
    requires Fits(w) && Fits(pad)
    ensures Fits(AddPad(w, pad))
    ensures Value128(AddPad(w, pad)) == (Value128(w) + Value128(pad)) % TWO_128
  {
    hide Value128;
    var f0 := w.w0 + pad.w0;
    var f1 := w.w1 + pad.w1 + f0 / W32;
    var f2 := w.w2 + pad.w2 + f1 / W32;
    var f3 := w.w3 + pad.w3 + f2 / W32;
    Split(f0, W32); Split(f1, W32); Split(f2, W32); Split(f3, W32);
    var s := AddPad(w, pad);
    assert s == Words4(f0 % W32, f1 % W32, f2 % W32, f3 % W32);
    AddChain(w, pad, s, f0 / W32, f1 / W32, f2 / W32, f3 / W32);
    QuotientIs(Value128(w) + Value128(pad), TWO_128, f3 / W32, Value128(s));
  }

  lemma {:induction false} AddChain(w: Words4, pad: Words4, s: Words4, c0: nat, c1: nat, c2: nat, c3: nat)
    requires w.w0 + pad.w0 == W32 * c0 + s.w0 && w.w1 + pad.w1 + c0 == W32 * c1 + s.w1
    requires w.w2 + pad.w2 + c1 == W32 * c2 + s.w2 && w.w3 + pad.w3 + c2 == W32 * c3 + s.w3 && Fits(s)
    ensures Value128(w) + Value128(pad) == TWO_128 * c3 + Value128(s) && Value128(s) < TWO_128
  {
  }

  function StoreAll(w: Words4): (b: seq<Byte>)
    requires Fits(w)
    ensures |b| == 16
  {
    Store32(w.w0) + Store32(w.w1) + Store32(w.w2) + Store32(w.w3)
  }

  lemma {:induction false} StoreAllCorrect(w: Words4)
    requires Fits(w)
    ensures LE(StoreAll(w)) == Value128(w)
  {
    hide LE, Store32, Load32;
    var b := StoreAll(w);
    LE16(b);
    assert b[..4] == Store32(w.w0) && b[4..8] == Store32(w.w1) && b[8..12] == Store32(w.w2) && b[12..] == Store32(w.w3);
    LE4(b[..4]); LE4(b[4..8]); LE4(b[8..12]); LE4(b[12..]);
  }

  /** The 16 bytes poly1305_done writes for accumulator limbs `h`. */
  function TagBytes(h: Limbs, pad: Words4): seq<Byte>
    requires Carried(h) && Fits(pad)
  {
    FreezeCorrect(h);
    PackCorrect(Freeze(h));
    AddPadCorrect(Pack(Freeze(h)), pad);
    StoreAll(AddPad(Pack(Freeze(h)), pad))
  }

  /** The tag is the little-endian form of ((h mod 2^130 - 5) + pad) mod 2^128. */
  lemma {:induction false} TagBytesCorrect(h: Limbs, pad: Words4)
    requires Carried(h) && Fits(pad)
    ensures TagBytes(h, pad) == Bytes((Value(h) % P + Value128(pad)) % TWO_128, 16)
  {
    hide Freeze, Pack, AddPad, StoreAll, LE, Bytes, Value, Value128, Carried, Reduced, Fits;
    FreezeCorrect(h);
    PackCorrect(Freeze(h));
    AddPadCorrect(Pack(Freeze(h)), pad);
    StoreAllCorrect(AddPad(Pack(Freeze(h)), pad));
    BytesLE(TagBytes(h, pad));
    assert ((Value(h) % P) % TWO_128 + Value128(pad)) % TWO_128 == (Value(h) % P + Value128(pad)) % TWO_128;
  }
}
