/** What the bit operations of DES_encrypt1 do: the initial permutation of FIPS 46-3 is a permutation of the six bits of
    a position, and each table of the round function sees six neighbouring bits of a half. */
module DesBits {
  import opened Des
  import opened Feistel

  // --- The bits of a word ------------------------------------------------------------------------------

  /** The bit of `x` whose number is written i4 i3 i2 i1 i0 in binary. */
  function BitOf(x: bv64, i4: bool, i3: bool, i2: bool, i1: bool, i0: bool): bool
  {
    var x4 := if i4 then x >> 16 else x;
    var x3 := if i3 then x4 >> 8 else x4;
    var x2 := if i2 then x3 >> 4 else x3;
    var x1 := if i1 then x2 >> 2 else x2;
    var x0 := if i0 then x1 >> 1 else x1;
    x0 & 1 == 1
  }

  /** The same bit of one word of a pair. */
  function At(s: Pair<bv64>, right: bool, i4: bool, i3: bool, i2: bool, i1: bool, i0: bool): bool
  {
    if right then BitOf(s.r, i4, i3, i2, i1, i0) else BitOf(s.l, i4, i3, i2, i1, i0)
  }

  lemma {:induction false} XorBits(x: bv64, y: bv64, i4: bool, i3: bool, i2: bool, i1: bool, i0: bool)
    ensures BitOf(x ^ y, i4, i3, i2, i1, i0) == (BitOf(x, i4, i3, i2, i1, i0) != BitOf(y, i4, i3, i2, i1, i0))
  {
  }

  lemma {:induction false} XorBit(x: bv64, y: bv64, i4: bool, i3: bool, i2: bool, i1: bool, i0: bool)
    ensures BitOf(Xor64(x, y), i4, i3, i2, i1, i0) == (BitOf(x, i4, i3, i2, i1, i0) != BitOf(y, i4, i3, i2, i1, i0))
  {
    hide BitOf;
    calc {
      BitOf(Xor64(x, y), i4, i3, i2, i1, i0);
      BitOf(x ^ y, i4, i3, i2, i1, i0);
      { XorBits(x, y, i4, i3, i2, i1, i0); }
      BitOf(x, i4, i3, i2, i1, i0) != BitOf(y, i4, i3, i2, i1, i0);
    }
  }

  // --- The exchanges ------------------------------------------------------------------------------------

  lemma {:induction false} Bits4(x: bv64, y: bv64, i4: bool, i3: bool, i2: bool, i1: bool, i0: bool)
    ensures BitOf(x & 0x0f0f_0f0f, i4, i3, i2, i1, i0) == (!i2 && BitOf(x, i4, i3, i2, i1, i0))
    ensures !i2 ==> BitOf(y >> 4, i4, i3, i2, i1, i0) == BitOf(y, i4, i3, true, i1, i0)
    ensures BitOf((x & 0x0f0f_0f0f) << 4, i4, i3, i2, i1, i0) == (i2 && BitOf(x, i4, i3, false, i1, i0))
  {
  }

  lemma {:induction false} Named4(x: bv64, y: bv64, i4: bool, i3: bool, i2: bool, i1: bool, i0: bool)
    ensures BitOf(Masked(By4, x), i4, i3, i2, i1, i0) == (!i2 && BitOf(x, i4, i3, i2, i1, i0))
    ensures !i2 ==> BitOf(Shr(By4, y), i4, i3, i2, i1, i0) == BitOf(y, i4, i3, true, i1, i0)
    ensures BitOf(Shl(By4, Masked(By4, x)), i4, i3, i2, i1, i0) == (i2 && BitOf(x, i4, i3, false, i1, i0))
  {
    hide BitOf;
    assert Mask4(x) == x & 0x0f0f_0f0f && Shr4(y) == y >> 4 && Shl4(x & 0x0f0f_0f0f) == (x & 0x0f0f_0f0f) << 4;
    hide Mask4, Shr4, Shl4;
    Bits4(x, y, i4, i3, i2, i1, i0);
  }

  lemma {:induction false} Perm4(a: bv64, b: bv64, i4: bool, i3: bool, i2: bool, i1: bool, i0: bool)
    ensures var q := PermOp(By4, a, b);
      && BitOf(q.l, i4, i3, i2, i1, i0) == (if i2 then BitOf(b, i4, i3, false, i1, i0) else BitOf(a, i4, i3, i2, i1, i0))
      && BitOf(q.r, i4, i3, i2, i1, i0) == (if i2 then BitOf(b, i4, i3, i2, i1, i0) else BitOf(a, i4, i3, true, i1, i0))
  {
    hide BitOf, Xor64, Shr, Shl, Masked;
    var d := Xor64(Shr(By4, a), b);
    Named4(d, a, i4, i3, i2, i1, i0);
    Named4(d, a, i4, i3, false, i1, i0);
    XorBit(Shr(By4, a), b, i4, i3, false, i1, i0);
    XorBit(a, Shl(By4, Masked(By4, d)), i4, i3, i2, i1, i0);
    XorBit(b, Masked(By4, d), i4, i3, i2, i1, i0);
  }

  lemma {:induction false} Turn4(s: Pair<bv64>, right: bool, i4: bool, i3: bool, i2: bool, i1: bool, i0: bool)
    ensures At(Turn(By4, true, s), right, i4, i3, i2, i1, i0) == At(s, !i2, i4, i3, !right, i1, i0)
  {
    hide PermOp, BitOf;
    Perm4(s.r, s.l, i4, i3, i2, i1, i0);
  }

  lemma {:induction false} Bits16(x: bv64, y: bv64, i4: bool, i3: bool, i2: bool, i1: bool, i0: bool)
    ensures BitOf(x & 0x0000_ffff, i4, i3, i2, i1, i0) == (!i4 && BitOf(x, i4, i3, i2, i1, i0))
    ensures !i4 ==> BitOf(y >> 16, i4, i3, i2, i1, i0) == BitOf(y, true, i3, i2, i1, i0)
    ensures BitOf((x & 0x0000_ffff) << 16, i4, i3, i2, i1, i0) == (i4 && BitOf(x, false, i3, i2, i1, i0))
  {
  }

  lemma {:induction false} Named16(x: bv64, y: bv64, i4: bool, i3: bool, i2: bool, i1: bool, i0: bool)
    ensures BitOf(Masked(By16, x), i4, i3, i2, i1, i0) == (!i4 && BitOf(x, i4, i3, i2, i1, i0))
    ensures !i4 ==> BitOf(Shr(By16, y), i4, i3, i2, i1, i0) == BitOf(y, true, i3, i2, i1, i0)
    ensures BitOf(Shl(By16, Masked(By16, x)), i4, i3, i2, i1, i0) == (i4 && BitOf(x, false, i3, i2, i1, i0))
  {
    hide BitOf;
    assert Mask16(x) == x & 0x0000_ffff && Shr16(y) == y >> 16 && Shl16(x & 0x0000_ffff) == (x & 0x0000_ffff) << 16;
    hide Mask16, Shr16, Shl16;
    Bits16(x, y, i4, i3, i2, i1, i0);
  }

  lemma {:induction false} Perm16(a: bv64, b: bv64, i4: bool, i3: bool, i2: bool, i1: bool, i0: bool)
    ensures var q := PermOp(By16, a, b);
      && BitOf(q.l, i4, i3, i2, i1, i0) == (if i4 then BitOf(b, false, i3, i2, i1, i0) else BitOf(a, i4, i3, i2, i1, i0))
      && BitOf(q.r, i4, i3, i2, i1, i0) == (if i4 then BitOf(b, i4, i3, i2, i1, i0) else BitOf(a, true, i3, i2, i1, i0))
  {
    hide BitOf, Xor64, Shr, Shl, Masked;
    var d := Xor64(Shr(By16, a), b);
    Named16(d, a, i4, i3, i2, i1, i0);
    Named16(d, a, false, i3, i2, i1, i0);
    XorBit(Shr(By16, a), b, false, i3, i2, i1, i0);
    XorBit(a, Shl(By16, Masked(By16, d)), i4, i3, i2, i1, i0);
    XorBit(b, Masked(By16, d), i4, i3, i2, i1, i0);
  }

  lemma {:induction false} Turn16(s: Pair<bv64>, right: bool, i4: bool, i3: bool, i2: bool, i1: bool, i0: bool)
    ensures At(Turn(By16, false, s), right, i4, i3, i2, i1, i0) == At(s, i4, right, i3, i2, i1, i0)
  {
    hide PermOp, BitOf;
    Perm16(s.l, s.r, i4, i3, i2, i1, i0);
  }

  lemma {:induction false} Bits2(x: bv64, y: bv64, i4: bool, i3: bool, i2: bool, i1: bool, i0: bool)
    ensures BitOf(x & 0x3333_3333, i4, i3, i2, i1, i0) == (!i1 && BitOf(x, i4, i3, i2, i1, i0))
    ensures !i1 ==> BitOf(y >> 2, i4, i3, i2, i1, i0) == BitOf(y, i4, i3, i2, true, i0)
    ensures BitOf((x & 0x3333_3333) << 2, i4, i3, i2, i1, i0) == (i1 && BitOf(x, i4, i3, i2, false, i0))
  {
  }

  lemma {:induction false} Named2(x: bv64, y: bv64, i4: bool, i3: bool, i2: bool, i1: bool, i0: bool)
    ensures BitOf(Masked(By2, x), i4, i3, i2, i1, i0) == (!i1 && BitOf(x, i4, i3, i2, i1, i0))
    ensures !i1 ==> BitOf(Shr(By2, y), i4, i3, i2, i1, i0) == BitOf(y, i4, i3, i2, true, i0)
    ensures BitOf(Shl(By2, Masked(By2, x)), i4, i3, i2, i1, i0) == (i1 && BitOf(x, i4, i3, i2, false, i0))
  {
    hide BitOf;
    assert Mask2(x) == x & 0x3333_3333 && Shr2(y) == y >> 2 && Shl2(x & 0x3333_3333) == (x & 0x3333_3333) << 2;
    hide Mask2, Shr2, Shl2;
    Bits2(x, y, i4, i3, i2, i1, i0);
  }

  lemma {:induction false} Perm2(a: bv64, b: bv64, i4: bool, i3: bool, i2: bool, i1: bool, i0: bool)
    ensures var q := PermOp(By2, a, b);
      && BitOf(q.l, i4, i3, i2, i1, i0) == (if i1 then BitOf(b, i4, i3, i2, false, i0) else BitOf(a, i4, i3, i2, i1, i0))
      && BitOf(q.r, i4, i3, i2, i1, i0) == (if i1 then BitOf(b, i4, i3, i2, i1, i0) else BitOf(a, i4, i3, i2, true, i0))
  {
    hide BitOf, Xor64, Shr, Shl, Masked;
    var d := Xor64(Shr(By2, a), b);
    Named2(d, a, i4, i3, i2, i1, i0);
    Named2(d, a, i4, i3, i2, false, i0);
    XorBit(Shr(By2, a), b, i4, i3, i2, false, i0);
    XorBit(a, Shl(By2, Masked(By2, d)), i4, i3, i2, i1, i0);
    XorBit(b, Masked(By2, d), i4, i3, i2, i1, i0);
  }

  lemma {:induction false} Turn2(s: Pair<bv64>, right: bool, i4: bool, i3: bool, i2: bool, i1: bool, i0: bool)
    ensures At(Turn(By2, true, s), right, i4, i3, i2, i1, i0) == At(s, !i1, i4, i3, i2, !right, i0)
  {
    hide PermOp, BitOf;
    Perm2(s.r, s.l, i4, i3, i2, i1, i0);
  }

  lemma {:induction false} Bits8(x: bv64, y: bv64, i4: bool, i3: bool, i2: bool, i1: bool, i0: bool)
    ensures BitOf(x & 0x00ff_00ff, i4, i3, i2, i1, i0) == (!i3 && BitOf(x, i4, i3, i2, i1, i0))
    ensures !i3 ==> BitOf(y >> 8, i4, i3, i2, i1, i0) == BitOf(y, i4, true, i2, i1, i0)
    ensures BitOf((x & 0x00ff_00ff) << 8, i4, i3, i2, i1, i0) == (i3 && BitOf(x, i4, false, i2, i1, i0))
  {
  }

  lemma {:induction false} Named8(x: bv64, y: bv64, i4: bool, i3: bool, i2: bool, i1: bool, i0: bool)
    ensures BitOf(Masked(By8, x), i4, i3, i2, i1, i0) == (!i3 && BitOf(x, i4, i3, i2, i1, i0))
    ensures !i3 ==> BitOf(Shr(By8, y), i4, i3, i2, i1, i0) == BitOf(y, i4, true, i2, i1, i0)
    ensures BitOf(Shl(By8, Masked(By8, x)), i4, i3, i2, i1, i0) == (i3 && BitOf(x, i4, false, i2, i1, i0))
  {
    hide BitOf;
    assert Mask8(x) == x & 0x00ff_00ff && Shr8(y) == y >> 8 && Shl8(x & 0x00ff_00ff) == (x & 0x00ff_00ff) << 8;
    hide Mask8, Shr8, Shl8;
    Bits8(x, y, i4, i3, i2, i1, i0);
  }

  lemma {:induction false} Perm8(a: bv64, b: bv64, i4: bool, i3: bool, i2: bool, i1: bool, i0: bool)
    ensures var q := PermOp(By8, a, b);
      && BitOf(q.l, i4, i3, i2, i1, i0) == (if i3 then BitOf(b, i4, false, i2, i1, i0) else BitOf(a, i4, i3, i2, i1, i0))
      && BitOf(q.r, i4, i3, i2, i1, i0) == (if i3 then BitOf(b, i4, i3, i2, i1, i0) else BitOf(a, i4, true, i2, i1, i0))
  {
    hide BitOf, Xor64, Shr, Shl, Masked;
    var d := Xor64(Shr(By8, a), b);
    Named8(d, a, i4, i3, i2, i1, i0);
    Named8(d, a, i4, false, i2, i1, i0);
    XorBit(Shr(By8, a), b, i4, false, i2, i1, i0);
    XorBit(a, Shl(By8, Masked(By8, d)), i4, i3, i2, i1, i0);
    XorBit(b, Masked(By8, d), i4, i3, i2, i1, i0);
  }

  lemma {:induction false} Turn8(s: Pair<bv64>, right: bool, i4: bool, i3: bool, i2: bool, i1: bool, i0: bool)
    ensures At(Turn(By8, false, s), right, i4, i3, i2, i1, i0) == At(s, i3, i4, right, i2, i1, i0)
  {
    hide PermOp, BitOf;
    Perm8(s.l, s.r, i4, i3, i2, i1, i0);
  }

  lemma {:induction false} Bits1(x: bv64, y: bv64, i4: bool, i3: bool, i2: bool, i1: bool, i0: bool)
    ensures BitOf(x & 0x5555_5555, i4, i3, i2, i1, i0) == (!i0 && BitOf(x, i4, i3, i2, i1, i0))
    ensures !i0 ==> BitOf(y >> 1, i4, i3, i2, i1, i0) == BitOf(y, i4, i3, i2, i1, true)
    ensures BitOf((x & 0x5555_5555) << 1, i4, i3, i2, i1, i0) == (i0 && BitOf(x, i4, i3, i2, i1, false))
  {
  }

  lemma {:induction false} Named1(x: bv64, y: bv64, i4: bool, i3: bool, i2: bool, i1: bool, i0: bool)
    ensures BitOf(Masked(By1, x), i4, i3, i2, i1, i0) == (!i0 && BitOf(x, i4, i3, i2, i1, i0))
    ensures !i0 ==> BitOf(Shr(By1, y), i4, i3, i2, i1, i0) == BitOf(y, i4, i3, i2, i1, true)
    ensures BitOf(Shl(By1, Masked(By1, x)), i4, i3, i2, i1, i0) == (i0 && BitOf(x, i4, i3, i2, i1, false))
  {
    hide BitOf;
    assert Mask1(x) == x & 0x5555_5555 && Shr1(y) == y >> 1 && Shl1(x & 0x5555_5555) == (x & 0x5555_5555) << 1;
    hide Mask1, Shr1, Shl1;
    Bits1(x, y, i4, i3, i2, i1, i0);
  }

  lemma {:induction false} Perm1(a: bv64, b: bv64, i4: bool, i3: bool, i2: bool, i1: bool, i0: bool)
    ensures var q := PermOp(By1, a, b);
      && BitOf(q.l, i4, i3, i2, i1, i0) == (if i0 then BitOf(b, i4, i3, i2, i1, false) else BitOf(a, i4, i3, i2, i1, i0))
      && BitOf(q.r, i4, i3, i2, i1, i0) == (if i0 then BitOf(b, i4, i3, i2, i1, i0) else BitOf(a, i4, i3, i2, i1, true))
  {
    hide BitOf, Xor64, Shr, Shl, Masked;
    var d := Xor64(Shr(By1, a), b);
    Named1(d, a, i4, i3, i2, i1, i0);
    Named1(d, a, i4, i3, i2, i1, false);
    XorBit(Shr(By1, a), b, i4, i3, i2, i1, false);
    XorBit(a, Shl(By1, Masked(By1, d)), i4, i3, i2, i1, i0);
    XorBit(b, Masked(By1, d), i4, i3, i2, i1, i0);
  }

  lemma {:induction false} Turn1(s: Pair<bv64>, right: bool, i4: bool, i3: bool, i2: bool, i1: bool, i0: bool)
    ensures At(Turn(By1, true, s), right, i4, i3, i2, i1, i0) == At(s, !i0, i4, i3, i2, i1, !right)
  {
    hide PermOp, BitOf;
    Perm1(s.r, s.l, i4, i3, i2, i1, i0);
  }

  /** The initial permutation: bit 8 j + i of the left word is bit 7 - 2 j of byte 7 - i of the block, and of the right
      word bit 6 - 2 j. */
  lemma {:induction false} IpMoves(s: Pair<bv64>, right: bool, i4: bool, i3: bool, i2: bool, i1: bool, i0: bool)
    ensures At(Ip(s), right, i4, i3, i2, i1, i0) == At(s, !i2, !i1, !i0, !i4, !i3, !right)
  {
    hide Turn, At;
    var s1 := Turn(By4, true, s);
    var s2 := Turn(By16, false, s1);
    var s3 := Turn(By2, true, s2);
    var s4 := Turn(By8, false, s3);
    Turn1(s4, right, i4, i3, i2, i1, i0);
    Turn8(s3, !i0, i4, i3, i2, i1, !right);
    Turn2(s2, i3, i4, !i0, i2, i1, !right);
    Turn16(s1, !i1, i4, !i0, i2, !i3, !right);
    Turn4(s, i4, !i1, !i0, i2, !i3, !right);
  }

  // --- The expansion -----------------------------------------------------------------------------------

  /** The tables see six bits each, four apart, of the half that came out of the permutation: from bit 31 around to bit 4,
      from bit 3, and so on. */
  lemma {:induction false} EvenWindows(x: bv64)
    requires Low(x)
    ensures var y := Rot29(x);
      && Index0(y) == ((x >> 31) | (x << 1)) & 0x3f && Index1(y) == (x >> 7) & 0x3f
      && Index2(y) == (x >> 15) & 0x3f && Index3(y) == (x >> 23) & 0x3f
  {
  }

  lemma {:induction false} OddWindows(x: bv64)
    requires Low(x)
    ensures var t := Rotate4(Rot29(x));
      && Index0(t) == (x >> 3) & 0x3f && Index1(t) == (x >> 11) & 0x3f
      && Index2(t) == (x >> 19) & 0x3f && Index3(t) == ((x >> 27) | (x << 5)) & 0x3f
  {
  }

  // --- The function of the rounds ----------------------------------------------------------------------

  /** The six bits of the second key word for the tables 1, 3, 5 and 7. */
  function Odd0(k: bv64): bv64 { (k >> 6) & 0x3f }
  function Odd1(k: bv64): bv64 { (k >> 14) & 0x3f }
  function Odd2(k: bv64): bv64 { (k >> 22) & 0x3f }
  function Odd3(k: bv64): bv64 { ((k >> 30) | (k << 2)) & 0x3f }

  /** f(R, K) of FIPS 46-3 with the tables after their permutation: table n sees six neighbouring bits of the half, from
      bit 4 n - 1 up and around the ends of the word, to which six bits of the key are added. */
  function F(sp: Boxes, k0: bv64, k1: bv64, x: bv64): bv64
  {
    Eight(sp(0, Xor64(((x >> 31) | (x << 1)) & 0x3f, Index0(k0))), sp(1, Xor64((x >> 3) & 0x3f, Odd0(k1))),
          sp(2, Xor64((x >> 7) & 0x3f, Index1(k0))), sp(3, Xor64((x >> 11) & 0x3f, Odd1(k1))),
          sp(4, Xor64((x >> 15) & 0x3f, Index2(k0))), sp(5, Xor64((x >> 19) & 0x3f, Odd2(k1))),
          sp(6, Xor64((x >> 23) & 0x3f, Index3(k0))), sp(7, Xor64(((x >> 27) | (x << 5)) & 0x3f, Odd3(k1))))
  }

  lemma {:induction false} IndexXor0(a: bv64, b: bv64)
    ensures Index0(Xor64(a, b)) == Xor64(Index0(a), Index0(b))
  {
    calc {
      Index0(Xor64(a, b));
      Index0(a ^ b);
      ((a ^ b) >> 2) & 0x3f;
      ((a >> 2) & 0x3f) ^ ((b >> 2) & 0x3f);
      Xor64((a >> 2) & 0x3f, (b >> 2) & 0x3f);
      Xor64(Index0(a), Index0(b));
    }
  }

  lemma {:induction false} IndexXor1(a: bv64, b: bv64)
    ensures Index1(Xor64(a, b)) == Xor64(Index1(a), Index1(b))
  {
    calc {
      Index1(Xor64(a, b));
      Index1(a ^ b);
      ((a ^ b) >> 10) & 0x3f;
      ((a >> 10) & 0x3f) ^ ((b >> 10) & 0x3f);
      Xor64((a >> 10) & 0x3f, (b >> 10) & 0x3f);
      Xor64(Index1(a), Index1(b));
    }
  }

  lemma {:induction false} IndexXor2(a: bv64, b: bv64)
    ensures Index2(Xor64(a, b)) == Xor64(Index2(a), Index2(b))
  {
    calc {
      Index2(Xor64(a, b));
      Index2(a ^ b);
      ((a ^ b) >> 18) & 0x3f;
      ((a >> 18) & 0x3f) ^ ((b >> 18) & 0x3f);
      Xor64((a >> 18) & 0x3f, (b >> 18) & 0x3f);
      Xor64(Index2(a), Index2(b));
    }
  }

  lemma {:induction false} IndexXor3(a: bv64, b: bv64)
    ensures Index3(Xor64(a, b)) == Xor64(Index3(a), Index3(b))
  {
    calc {
      Index3(Xor64(a, b));
      Index3(a ^ b);
      ((a ^ b) >> 26) & 0x3f;
      ((a >> 26) & 0x3f) ^ ((b >> 26) & 0x3f);
      Xor64((a >> 26) & 0x3f, (b >> 26) & 0x3f);
      Xor64(Index3(a), Index3(b));
    }
  }

  lemma {:induction false} OddIndexes(t: bv64)
    requires Low(t)
    ensures Index0(Rotate4(t)) == Odd0(t) && Index1(Rotate4(t)) == Odd1(t)
    ensures Index2(Rotate4(t)) == Odd2(t) && Index3(Rotate4(t)) == Odd3(t)
  {
  }

  lemma {:induction false} OddXor0(a: bv64, b: bv64)
    ensures Odd0(Xor64(a, b)) == Xor64(Odd0(a), Odd0(b))
  {
    calc {
      Odd0(Xor64(a, b));
      Odd0(a ^ b);
      ((a ^ b) >> 6) & 0x3f;
      ((a >> 6) & 0x3f) ^ ((b >> 6) & 0x3f);
      Xor64((a >> 6) & 0x3f, (b >> 6) & 0x3f);
      Xor64(Odd0(a), Odd0(b));
    }
  }

  lemma {:induction false} OddXor1(a: bv64, b: bv64)
    ensures Odd1(Xor64(a, b)) == Xor64(Odd1(a), Odd1(b))
  {
    calc {
      Odd1(Xor64(a, b));
      Odd1(a ^ b);
      ((a ^ b) >> 14) & 0x3f;
      ((a >> 14) & 0x3f) ^ ((b >> 14) & 0x3f);
      Xor64((a >> 14) & 0x3f, (b >> 14) & 0x3f);
      Xor64(Odd1(a), Odd1(b));
    }
  }

  lemma {:induction false} OddXor2(a: bv64, b: bv64)
    ensures Odd2(Xor64(a, b)) == Xor64(Odd2(a), Odd2(b))
  {
    calc {
      Odd2(Xor64(a, b));
      Odd2(a ^ b);
      ((a ^ b) >> 22) & 0x3f;
      ((a >> 22) & 0x3f) ^ ((b >> 22) & 0x3f);
      Xor64((a >> 22) & 0x3f, (b >> 22) & 0x3f);
      Xor64(Odd2(a), Odd2(b));
    }
  }

  lemma {:induction false} OddXor3(a: bv64, b: bv64)
    requires Low(a) && Low(b)
    ensures Odd3(Xor64(a, b)) == Xor64(Odd3(a), Odd3(b))
  {
    calc {
      Odd3(Xor64(a, b));
      Odd3(a ^ b);
      (((a ^ b) >> 30) | ((a ^ b) << 2)) & 0x3f;
      { assert a & 0xffff_ffff_0000_0000 == 0 && b & 0xffff_ffff_0000_0000 == 0; }
      (((a >> 30) | (a << 2)) & 0x3f) ^ (((b >> 30) | (b << 2)) & 0x3f);
      Xor64(((a >> 30) | (a << 2)) & 0x3f, ((b >> 30) | (b << 2)) & 0x3f);
      Xor64(Odd3(a), Odd3(b));
    }
  }

  lemma {:induction false} Later(x: bv64, y: bv64, z: bv64)
    ensures Xor64(Xor64(x, y), z) == Xor64(Xor64(x, z), y)
  {
    calc {
      Xor64(Xor64(x, y), z);
      Xor64(x ^ y, z);
      (x ^ y) ^ z;
      (x ^ z) ^ y;
      Xor64(x ^ z, y);
      Xor64(Xor64(x, z), y);
    }
  }

  lemma {:induction false} Interleaved(a: bv64, b: bv64, c: bv64, d: bv64, e: bv64, f: bv64, g: bv64, h: bv64)
    ensures Eight(a, b, c, d, e, f, g, h) == Eight(a, e, b, f, c, g, d, h)
  {
    hide Xor64;
    var ab := Xor64(a, b);
    Later(Xor64(ab, c), d, e);
    Later(ab, c, e);
    Later(a, b, e);
    var aeb := Xor64(Xor64(a, e), b);
    Later(Xor64(aeb, c), d, f);
    Later(aeb, c, f);
    Later(Xor64(Xor64(aeb, f), c), d, g);
  }

  /** What D_ENCRYPT adds to one half is f of the other half, which is held rotated, and of the round's two key words. */
  lemma {:induction false} MixedIsF(sp: Boxes, k0: bv64, k1: bv64, x: bv64)
    requires Low(x) && Low(k1)
    ensures Mixed(sp, k0, k1, Rot29(x)) == F(sp, k0, k1, x)
  {
    var y := Rot29(x);
    RotateBack(x);
    XorLow(y, k1);
    var u, v := Xor64(y, k0), Xor64(y, k1);
    EvenWindows(x);
    OddWindows(x);
    hide Low, Rot29, Rotate4, Xor64, Index0, Index1, Index2, Index3, Odd0, Odd1, Odd2, Odd3, Eight;
    IndexXor0(y, k0); IndexXor1(y, k0); IndexXor2(y, k0); IndexXor3(y, k0);
    OddIndexes(y);
    OddIndexes(v);
    OddXor0(y, k1); OddXor1(y, k1); OddXor2(y, k1); OddXor3(y, k1);
    var t := Rotate4(v);
    Interleaved(sp(0, Index0(u)), sp(2, Index1(u)), sp(4, Index2(u)), sp(6, Index3(u)),
                sp(1, Index0(t)), sp(3, Index1(t)), sp(5, Index2(t)), sp(7, Index3(t)));
  }
}
