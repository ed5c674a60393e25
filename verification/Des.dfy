/** DES_encrypt1 of des.c on 64-bit words: the bit permutations made of exchanges, the rotations
    around the rounds, and sixteen Feistel rounds. The tables DES_SPtrans are a parameter. */
module Des {
  import opened Feistel

  function Xor64(a: bv64, b: bv64): bv64 { a ^ b }

  lemma {:induction false} XorTwice(x: bv64, t: bv64)
    ensures Xor64(Xor64(x, t), t) == x
  {
    calc {
      Xor64(Xor64(x, t), t);
      Xor64(x ^ t, t);
      (x ^ t) ^ t;
      x;
    }
  }

  lemma {:induction false} XorCancels()
    ensures Cancels(Xor64)
  {
    forall a, b
      ensures Xor64(Xor64(a, b), b) == a
    {
      XorTwice(a, b);
    }
  }

  /** A value that fits in 32 bits. */
  predicate Low(x: bv64) { x & 0xffff_ffff_0000_0000 == 0 }

  predicate BothLow(s: Pair<bv64>) { Low(s.l) && Low(s.r) }

  // --- The permutations -----------------------------------------------------------------------------

  datatype Step = By4 | By16 | By2 | By8 | By1

  function Shr4(x: bv64): bv64 { x >> 4 }
  function Shr16(x: bv64): bv64 { x >> 16 }
  function Shr2(x: bv64): bv64 { x >> 2 }
  function Shr8(x: bv64): bv64 { x >> 8 }
  function Shr1(x: bv64): bv64 { x >> 1 }
  function Shl4(x: bv64): bv64 { x << 4 }
  function Shl16(x: bv64): bv64 { x << 16 }
  function Shl2(x: bv64): bv64 { x << 2 }
  function Shl8(x: bv64): bv64 { x << 8 }
  function Shl1(x: bv64): bv64 { x << 1 }
  function Mask4(x: bv64): bv64 { x & 0x0f0f_0f0f }
  function Mask16(x: bv64): bv64 { x & 0x0000_ffff }
  function Mask2(x: bv64): bv64 { x & 0x3333_3333 }
  function Mask8(x: bv64): bv64 { x & 0x00ff_00ff }
  function Mask1(x: bv64): bv64 { x & 0x5555_5555 }

  function Shr(k: Step, x: bv64): bv64
  {
    match k
    case By4 => Shr4(x)
    case By16 => Shr16(x)
    case By2 => Shr2(x)
    case By8 => Shr8(x)
    case By1 => Shr1(x)
  }

  function Shl(k: Step, x: bv64): bv64
  {
    match k
    case By4 => Shl4(x)
    case By16 => Shl16(x)
    case By2 => Shl2(x)
    case By8 => Shl8(x)
    case By1 => Shl1(x)
  }

  function Masked(k: Step, x: bv64): bv64
  {
    match k
    case By4 => Mask4(x)
    case By16 => Mask16(x)
    case By2 => Mask2(x)
    case By8 => Mask8(x)
    case By1 => Mask1(x)
  }

  /** PERM_OP(a, b, t, n, m) */
  function PermOp(k: Step, a: bv64, b: bv64): Pair<bv64>
  {
    var t := Masked(k, Xor64(Shr(k, a), b));
    Pair(Xor64(a, Shl(k, t)), Xor64(b, t))
  }

  lemma {:induction false} Shift4(x: bv64, y: bv64)
    ensures Shr4(Xor64(x, y)) == Xor64(Shr4(x), Shr4(y))
  {
    calc {
      Shr4(Xor64(x, y));
      Shr4(x ^ y);
      (x ^ y) >> 4;
      (x >> 4) ^ (y >> 4);
      Xor64(x >> 4, y >> 4);
      Xor64(Shr4(x), Shr4(y));
    }
  }

  lemma {:induction false} Return4(x: bv64)
    ensures Shr4(Shl4(Mask4(x))) == Mask4(x)
  {
    calc {
      Shr4(Shl4(Mask4(x)));
      Shr4(Shl4(x & 0x0f0f_0f0f));
      Shr4((x & 0x0f0f_0f0f) << 4);
      ((x & 0x0f0f_0f0f) << 4) >> 4;
      x & 0x0f0f_0f0f;
      Mask4(x);
    }
  }

  lemma {:induction false} Low4(x: bv64)
    ensures Low(Mask4(x)) && Low(Shl4(Mask4(x)))
  {
    assert Mask4(x) == x & 0x0f0f_0f0f;
    assert Shl4(Mask4(x)) == (x & 0x0f0f_0f0f) << 4;
    assert Low(x & 0x0f0f_0f0f) && Low((x & 0x0f0f_0f0f) << 4);
  }

  lemma {:induction false} Shift16(x: bv64, y: bv64)
    ensures Shr16(Xor64(x, y)) == Xor64(Shr16(x), Shr16(y))
  {
    calc {
      Shr16(Xor64(x, y));
      Shr16(x ^ y);
      (x ^ y) >> 16;
      (x >> 16) ^ (y >> 16);
      Xor64(x >> 16, y >> 16);
      Xor64(Shr16(x), Shr16(y));
    }
  }

  lemma {:induction false} Return16(x: bv64)
    ensures Shr16(Shl16(Mask16(x))) == Mask16(x)
  {
    calc {
      Shr16(Shl16(Mask16(x)));
      Shr16(Shl16(x & 0x0000_ffff));
      Shr16((x & 0x0000_ffff) << 16);
      ((x & 0x0000_ffff) << 16) >> 16;
      x & 0x0000_ffff;
      Mask16(x);
    }
  }

  lemma {:induction false} Low16(x: bv64)
    ensures Low(Mask16(x)) && Low(Shl16(Mask16(x)))
  {
    assert Mask16(x) == x & 0x0000_ffff;
    assert Shl16(Mask16(x)) == (x & 0x0000_ffff) << 16;
    assert Low(x & 0x0000_ffff) && Low((x & 0x0000_ffff) << 16);
  }

  lemma {:induction false} Shift2(x: bv64, y: bv64)
    ensures Shr2(Xor64(x, y)) == Xor64(Shr2(x), Shr2(y))
  {
    calc {
      Shr2(Xor64(x, y));
      Shr2(x ^ y);
      (x ^ y) >> 2;
      (x >> 2) ^ (y >> 2);
      Xor64(x >> 2, y >> 2);
      Xor64(Shr2(x), Shr2(y));
    }
  }

  lemma {:induction false} Return2(x: bv64)
    ensures Shr2(Shl2(Mask2(x))) == Mask2(x)
  {
    calc {
      Shr2(Shl2(Mask2(x)));
      Shr2(Shl2(x & 0x3333_3333));
      Shr2((x & 0x3333_3333) << 2);
      ((x & 0x3333_3333) << 2) >> 2;
      x & 0x3333_3333;
      Mask2(x);
    }
  }

  lemma {:induction false} Low2(x: bv64)
    ensures Low(Mask2(x)) && Low(Shl2(Mask2(x)))
  {
    assert Mask2(x) == x & 0x3333_3333;
    assert Shl2(Mask2(x)) == (x & 0x3333_3333) << 2;
    assert Low(x & 0x3333_3333) && Low((x & 0x3333_3333) << 2);
  }

  lemma {:induction false} Shift8(x: bv64, y: bv64)
    ensures Shr8(Xor64(x, y)) == Xor64(Shr8(x), Shr8(y))
  {
    calc {
      Shr8(Xor64(x, y));
      Shr8(x ^ y);
      (x ^ y) >> 8;
      (x >> 8) ^ (y >> 8);
      Xor64(x >> 8, y >> 8);
      Xor64(Shr8(x), Shr8(y));
    }
  }

  lemma {:induction false} Return8(x: bv64)
    ensures Shr8(Shl8(Mask8(x))) == Mask8(x)
  {
    calc {
      Shr8(Shl8(Mask8(x)));
      Shr8(Shl8(x & 0x00ff_00ff));
      Shr8((x & 0x00ff_00ff) << 8);
      ((x & 0x00ff_00ff) << 8) >> 8;
      x & 0x00ff_00ff;
      Mask8(x);
    }
  }

  lemma {:induction false} Low8(x: bv64)
    ensures Low(Mask8(x)) && Low(Shl8(Mask8(x)))
  {
    assert Mask8(x) == x & 0x00ff_00ff;
    assert Shl8(Mask8(x)) == (x & 0x00ff_00ff) << 8;
    assert Low(x & 0x00ff_00ff) && Low((x & 0x00ff_00ff) << 8);
  }

  lemma {:induction false} Shift1(x: bv64, y: bv64)
    ensures Shr1(Xor64(x, y)) == Xor64(Shr1(x), Shr1(y))
  {
    calc {
      Shr1(Xor64(x, y));
      Shr1(x ^ y);
      (x ^ y) >> 1;
      (x >> 1) ^ (y >> 1);
      Xor64(x >> 1, y >> 1);
      Xor64(Shr1(x), Shr1(y));
    }
  }

  lemma {:induction false} Return1(x: bv64)
    ensures Shr1(Shl1(Mask1(x))) == Mask1(x)
  {
    calc {
      Shr1(Shl1(Mask1(x)));
      Shr1(Shl1(x & 0x5555_5555));
      Shr1((x & 0x5555_5555) << 1);
      ((x & 0x5555_5555) << 1) >> 1;
      x & 0x5555_5555;
      Mask1(x);
    }
  }

  lemma {:induction false} Low1(x: bv64)
    ensures Low(Mask1(x)) && Low(Shl1(Mask1(x)))
  {
    assert Mask1(x) == x & 0x5555_5555;
    assert Shl1(Mask1(x)) == (x & 0x5555_5555) << 1;
    assert Low(x & 0x5555_5555) && Low((x & 0x5555_5555) << 1);
  }

  lemma {:induction false} ShiftLaws(k: Step, x: bv64, y: bv64)
    ensures Shr(k, Xor64(x, y)) == Xor64(Shr(k, x), Shr(k, y))
    ensures Shr(k, Shl(k, Masked(k, x))) == Masked(k, x) && Low(Masked(k, x)) && Low(Shl(k, Masked(k, x)))
  {
    hide Xor64, Low, Shr4, Shr16, Shr2, Shr8, Shr1, Shl4, Shl16, Shl2, Shl8, Shl1, Mask4, Mask16, Mask2, Mask8, Mask1;
    match k
    case By4 => Shift4(x, y); Return4(x); Low4(x);
    case By16 => Shift16(x, y); Return16(x); Low16(x);
    case By2 => Shift2(x, y); Return2(x); Low2(x);
    case By8 => Shift8(x, y); Return8(x); Low8(x);
    case By1 => Shift1(x, y); Return1(x); Low1(x);
  }

  lemma {:induction false} XorAssoc(x: bv64, y: bv64, z: bv64)
    ensures Xor64(Xor64(x, y), z) == Xor64(x, Xor64(y, z))
  {
    calc {
      Xor64(Xor64(x, y), z);
      Xor64(x ^ y, z);
      (x ^ y) ^ z;
      x ^ (y ^ z);
      Xor64(x, y ^ z);
      Xor64(x, Xor64(y, z));
    }
  }

  lemma {:induction false} XorComm(x: bv64, y: bv64)
    ensures Xor64(x, y) == Xor64(y, x)
  {
  }

  lemma {:induction false} XorMeet(x: bv64, y: bv64, t: bv64)
    ensures Xor64(Xor64(x, t), Xor64(y, t)) == Xor64(x, y)
  {
    hide Xor64;
    XorComm(y, t);
    XorAssoc(Xor64(x, t), t, y);
    XorTwice(x, t);
  }

  lemma {:induction false} XorLow(x: bv64, y: bv64)
    requires Low(x) && Low(y)
    ensures Low(Xor64(x, y))
  {
  }

  /** Every exchange is its own inverse and keeps both words below 2^32. */
  lemma {:induction false} PermTwice(k: Step, a: bv64, b: bv64)
    ensures var q := PermOp(k, a, b); PermOp(k, q.l, q.r) == Pair(a, b)
    ensures Low(a) && Low(b) ==> BothLow(PermOp(k, a, b))
  {
    hide Shr, Shl, Masked, Xor64, Low;
    var x := Xor64(Shr(k, a), b);
    var t := Masked(k, x);
    ShiftLaws(k, a, Shl(k, t));
    ShiftLaws(k, x, x);
    XorMeet(Shr(k, a), b, t);
    XorTwice(a, Shl(k, t));
    XorTwice(b, t);
    if Low(a) && Low(b) {
      XorLow(a, Shl(k, t));
      XorLow(b, t);
    }
  }

  /** PERM_OP on the words in order, or on the two exchanged. */
  function Turn(k: Step, exchanged: bool, s: Pair<bv64>): Pair<bv64>
  {
    if exchanged then Swap(PermOp(k, s.r, s.l)) else PermOp(k, s.l, s.r)
  }

  /** IP(l, r) */
  function Ip(s: Pair<bv64>): Pair<bv64>
  {
    Turn(By1, true, Turn(By8, false, Turn(By2, true, Turn(By16, false, Turn(By4, true, s)))))
  }

  /** FP(l, r) */
  function Fp(s: Pair<bv64>): Pair<bv64>
  {
    Turn(By4, false, Turn(By16, true, Turn(By2, false, Turn(By8, true, Turn(By1, false, s)))))
  }

  lemma {:induction false} TurnTwice(k: Step, exchanged: bool, s: Pair<bv64>)
    ensures Turn(k, !exchanged, Swap(Turn(k, exchanged, s))) == Swap(s)
    ensures BothLow(s) ==> BothLow(Turn(k, exchanged, s))
  {
    hide PermOp, Low;
    if exchanged {
      PermTwice(k, s.r, s.l);
    } else {
      PermTwice(k, s.l, s.r);
    }
  }

  /** FP undoes IP and IP undoes FP, the words exchanged between. */
  lemma {:induction false} PermutationsInverse(s: Pair<bv64>)
    ensures Fp(Swap(Ip(s))) == Swap(s) && Ip(Swap(Fp(s))) == Swap(s)
    ensures BothLow(s) ==> BothLow(Ip(s)) && BothLow(Fp(s))
  {
    hide Turn, Swap, BothLow;
    var i1 := Turn(By4, true, s);
    var i2 := Turn(By16, false, i1);
    var i3 := Turn(By2, true, i2);
    var i4 := Turn(By8, false, i3);
    TurnTwice(By4, true, s); TurnTwice(By16, false, i1); TurnTwice(By2, true, i2); TurnTwice(By8, false, i3);
    TurnTwice(By1, true, i4);
    var f1 := Turn(By1, false, s);
    var f2 := Turn(By8, true, f1);
    var f3 := Turn(By2, false, f2);
    var f4 := Turn(By16, true, f3);
    TurnTwice(By1, false, s); TurnTwice(By8, true, f1); TurnTwice(By2, false, f2); TurnTwice(By16, true, f3);
    TurnTwice(By4, false, f4);
  }

  // --- The rotations ------------------------------------------------------------------------------------

  /** ROTATE(x, 29) and ROTATE(x, 3), with the top bits cleared. */
  function Rot29(x: bv64): bv64 { ((x >> 29) + (x << 3)) & 0xffff_ffff }
  function Rot3(x: bv64): bv64 { ((x >> 3) + (x << 29)) & 0xffff_ffff }

  function In(s: Pair<bv64>): Pair<bv64> { Pair(Rot29(s.l), Rot29(s.r)) }
  function Out(s: Pair<bv64>): Pair<bv64> { Pair(Rot3(s.l), Rot3(s.r)) }

  lemma {:induction false} RotateBack(x: bv64)
    ensures Low(x) ==> Rot3(Rot29(x)) == x && Rot29(Rot3(x)) == x
    ensures Low(Rot29(x)) && Low(Rot3(x))
  {
  }

  lemma {:induction false} RotationsInverse(s: Pair<bv64>)
    ensures BothLow(s) ==> Out(In(s)) == s && In(Out(s)) == s
    ensures BothLow(In(s)) && BothLow(Out(s))
  {
    hide Rot29, Rot3, Low;
    RotateBack(s.l);
    RotateBack(s.r);
  }

  // --- The rounds ---------------------------------------------------------------------------------------

  type Boxes = (nat, bv64) -> bv64

  ghost predicate LowBoxes(sp: Boxes)
  {
    forall i, x :: Low(sp(i, x))
  }

  function Index0(w: bv64): bv64 { (w >> 2) & 0x3f }
  function Index1(w: bv64): bv64 { (w >> 10) & 0x3f }
  function Index2(w: bv64): bv64 { (w >> 18) & 0x3f }
  function Index3(w: bv64): bv64 { (w >> 26) & 0x3f }
  function Rotate4(t: bv64): bv64 { (t >> 4) + (t << 28) }

  /** What D_ENCRYPT(LL, R, S) adds to LL, with the key words at S and S + 1. */
  function Mixed(sp: Boxes, k0: bv64, k1: bv64, x: bv64): bv64
  {
    var u, t := Xor64(x, k0), Rotate4(Xor64(x, k1));
    Eight(sp(0, Index0(u)), sp(2, Index1(u)), sp(4, Index2(u)), sp(6, Index3(u)),
          sp(1, Index0(t)), sp(3, Index1(t)), sp(5, Index2(t)), sp(7, Index3(t)))
  }

  function Eight(a: bv64, b: bv64, c: bv64, d: bv64, e: bv64, f: bv64, g: bv64, h: bv64): bv64
  {
    Xor64(Xor64(Xor64(Xor64(Xor64(Xor64(Xor64(a, b), c), d), e), f), g), h)
  }

  function Rounds(sp: Boxes, ks: seq<bv64>): (nat, bv64) -> bv64
  {
    (i: nat, x: bv64) => if 2 * i + 1 < |ks| then Mixed(sp, ks[2 * i], ks[2 * i + 1], x) else 0
  }

  lemma {:induction false} EightLow(a: bv64, b: bv64, c: bv64, d: bv64, e: bv64, f: bv64, g: bv64, h: bv64)
    requires Low(a) && Low(b) && Low(c) && Low(d) && Low(e) && Low(f) && Low(g) && Low(h)
    ensures Low(Eight(a, b, c, d, e, f, g, h))
  {
    hide Low, Xor64;
    XorLow(a, b);
    var x := Xor64(a, b); XorLow(x, c);
    x := Xor64(x, c); XorLow(x, d);
    x := Xor64(x, d); XorLow(x, e);
    x := Xor64(x, e); XorLow(x, f);
    x := Xor64(x, f); XorLow(x, g);
    x := Xor64(x, g); XorLow(x, h);
  }

  lemma {:induction false} RoundsLow(sp: Boxes, ks: seq<bv64>, i: nat, x: bv64)
    requires LowBoxes(sp)
    ensures Low(Rounds(sp, ks)(i, x))
  {
    if 2 * i + 1 < |ks| {
      MixedLow(sp, ks[2 * i], ks[2 * i + 1], x);
    } else {
      assert Low(0);
    }
  }

  lemma {:induction false} MixedLow(sp: Boxes, k0: bv64, k1: bv64, x: bv64)
    requires LowBoxes(sp)
    ensures Low(Mixed(sp, k0, k1, x))
  {
    hide Low, Xor64, Eight, Index0, Index1, Index2, Index3, Rotate4;
    var u, t := Xor64(x, k0), Rotate4(Xor64(x, k1));
    EightLow(sp(0, Index0(u)), sp(2, Index1(u)), sp(4, Index2(u)), sp(6, Index3(u)),
             sp(1, Index0(t)), sp(3, Index1(t)), sp(5, Index2(t)), sp(7, Index3(t)));
  }

  /** Both words stay below 2^32 through any number of rounds. */
  lemma {:induction false} RunLow(sp: Boxes, ks: seq<bv64>, n: nat, s: Pair<bv64>)
    requires LowBoxes(sp) && BothLow(s)
    ensures BothLow(Run(Xor64, Rounds(sp, ks), n, s))
  {
    hide Low, Rounds;
    if n > 0 {
      RunLow(sp, ks, n - 1, s);
      var p, f := Run(Xor64, Rounds(sp, ks), n - 1, s), Rounds(sp, ks);
      RoundsLow(sp, ks, n - 1, p.l);
      RoundsLow(sp, ks, n - 1, p.r);
      XorLow(p.l, f(n - 1, p.r));
      XorLow(p.r, f(n - 1, p.l));
    }
  }

  // --- The whole function ---------------------------------------------------------------------------------

  /** data[0] and data[1] after DES_encrypt1. */
  function Crypt(sp: Boxes, ks: seq<bv64>, enc: bool, data: Pair<bv64>): Pair<bv64>
  {
    var s := In(Swap(Ip(data)));
    var f := Rounds(sp, ks);
    Swap(Fp(Swap(Out(if enc then Run(Xor64, f, 16, s) else RunBack(Xor64, f, 16, 16, s)))))
  }

  /** Whatever goes in, what comes out fits in 32 bits. */
  lemma {:induction false} CryptLow(sp: Boxes, ks: seq<bv64>, enc: bool, data: Pair<bv64>)
    ensures BothLow(Crypt(sp, ks, enc, data))
  {
    hide Low, Rot3, Run, RunBack, Fp, Rounds;
    var s := In(Swap(Ip(data)));
    var f := Rounds(sp, ks);
    var z := if enc then Run(Xor64, f, 16, s) else RunBack(Xor64, f, 16, 16, s);
    RotationsInverse(z);
    PermutationsInverse(Swap(Out(z)));
  }

  /** Decryption undoes encryption for all tables and key schedules, exactly when both words are
      below 2^32. */
  lemma {:induction false} RoundTrip(sp: Boxes, ks: seq<bv64>, data: Pair<bv64>)
    requires LowBoxes(sp)
    ensures Crypt(sp, ks, false, Crypt(sp, ks, true, data)) == data <==> BothLow(data)
  {
    var ct := Crypt(sp, ks, true, data);
    CryptLow(sp, ks, false, ct);
    if BothLow(data) {
      hide Low, In, Out, Ip, Fp, Rounds, Run, RunBack;
      var f := Rounds(sp, ks);
      var s := In(Swap(Ip(data)));
      var z := Run(Xor64, f, 16, s);
      PermutationsInverse(data);
      RotationsInverse(Swap(Ip(data)));
      RunLow(sp, ks, 16, s);
      RotationsInverse(z);
      RotationsInverse(Swap(Out(z)));
      PermutationsInverse(Swap(Out(z)));
      InSwap(Out(z)); OutSwap(s);
      XorCancels();
      Retrace(Xor64, f, 16, 16, s);
      RunNone(Xor64, f, 16, s);
    }
  }

  lemma {:induction false} InSwap(s: Pair<bv64>)
    ensures In(Swap(s)) == Swap(In(s))
  {
  }

  lemma {:induction false} OutSwap(s: Pair<bv64>)
    ensures Out(Swap(s)) == Swap(Out(s))
  {
  }

  /** D_ENCRYPT */
  method DEncrypt(sp: Boxes, ks: seq<bv64>, s: Pair<bv64>, left: bool, at: nat) returns (c: Pair<bv64>)
    requires |ks| == 32 && at % 2 == 0 && at < 32
    ensures c == Round(Xor64, Rounds(sp, ks), left, at / 2, s)
  {
    hide Xor64, Mixed;
    var y := Mixed(sp, ks[at], ks[at + 1], if left then s.r else s.l);
    c := if left then s.(l := Xor64(s.l, y)) else s.(r := Xor64(s.r, y));
  }

  method Forward(sp: Boxes, ks: seq<bv64>, s0: Pair<bv64>) returns (s: Pair<bv64>)
    requires |ks| == 32
    ensures s == Run(Xor64, Rounds(sp, ks), 16, s0)
  {
    hide Rounds, Run, Round, Xor64;
    ghost var f := Rounds(sp, ks);
    RunNone(Xor64, f, 16, s0);
    s := s0;
    var i := 0;
    while i < 32
      invariant 0 <= i <= 32 && i % 8 == 0 && s == Run(Xor64, f, i / 2, s0)
    {
      RunTwo(f, i / 2, s0); RunTwo(f, i / 2 + 2, s0);
      s := DEncrypt(sp, ks, s, true, i);
      s := DEncrypt(sp, ks, s, false, i + 2);
      s := DEncrypt(sp, ks, s, true, i + 4);
      s := DEncrypt(sp, ks, s, false, i + 6);
      i := i + 8;
    }
  }

  method Backward(sp: Boxes, ks: seq<bv64>, s0: Pair<bv64>) returns (s: Pair<bv64>)
    requires |ks| == 32
    ensures s == RunBack(Xor64, Rounds(sp, ks), 16, 16, s0)
  {
    hide Rounds, RunBack, Round, Xor64;
    ghost var f := Rounds(sp, ks);
    RunNone(Xor64, f, 16, s0);
    s := s0;
    var i := 30;
    while i > 0
      invariant -2 <= i <= 30 && (i + 2) % 8 == 0 && s == RunBack(Xor64, f, 16, 15 - i / 2, s0)
    {
      RunBackTwo(f, 15 - i / 2, s0); RunBackTwo(f, 17 - i / 2, s0);
      s := DEncrypt(sp, ks, s, true, i);
      s := DEncrypt(sp, ks, s, false, i - 2);
      s := DEncrypt(sp, ks, s, true, i - 4);
      s := DEncrypt(sp, ks, s, false, i - 6);
      i := i - 8;
    }
  }

  /** DES_encrypt1 */
  method Encrypt1(sp: Boxes, ks: seq<bv64>, data: array<bv64>, enc: bool)
    requires |ks| == 32 && data.Length == 2
    modifies data
    ensures Pair(data[0], data[1]) == Crypt(sp, ks, enc, Pair(old(data[0]), old(data[1])))
  {
    hide Ip, Fp, Rot29, Rot3, Rounds, Run, RunBack, Xor64;
    var q := Ip(Pair(data[0], data[1]));
    var s := Pair(Rot29(q.r), Rot29(q.l));
    if enc {
      s := Forward(sp, ks, s);
    } else {
      s := Backward(sp, ks, s);
    }
    q := Fp(Pair(Rot3(s.r), Rot3(s.l)));
    data[0], data[1] := q.r, q.l;
  }

  lemma {:induction false} RunTwo(f: (nat, bv64) -> bv64, n: nat, s: Pair<bv64>)
    requires n % 2 == 0
    ensures Run(Xor64, f, n + 2, s) == Round(Xor64, f, false, n + 1, Round(Xor64, f, true, n, Run(Xor64, f, n, s)))
  {
    hide Run, Round, Xor64;
    RunNext(Xor64, f, n, s); RunNext(Xor64, f, n + 1, s);
  }

  lemma {:induction false} RunBackTwo(f: (nat, bv64) -> bv64, n: nat, s: Pair<bv64>)
    requires n % 2 == 0 && n < 16
    ensures RunBack(Xor64, f, 16, n + 2, s)
         == Round(Xor64, f, false, 14 - n, Round(Xor64, f, true, 15 - n, RunBack(Xor64, f, 16, n, s)))
  {
    hide RunBack, Round, Xor64;
    RunBackNext(Xor64, f, 16, n, s); RunBackNext(Xor64, f, 16, n + 1, s);
  }

  /** Encryption and decryption of two words in place. */
  method EncryptThenDecrypt(sp: Boxes, ks: seq<bv64>, block: Pair<bv64>) returns (ct: Pair<bv64>, pt: Pair<bv64>)
    requires |ks| == 32
    ensures ct == Crypt(sp, ks, true, block) && BothLow(ct) && BothLow(pt)
    ensures LowBoxes(sp) ==> (pt == block <==> BothLow(block))
  {
    hide Crypt, Low;
    var data := new bv64[2];
    data[0], data[1] := block.l, block.r;
    Encrypt1(sp, ks, data, true);
    ct := Pair(data[0], data[1]);
    Encrypt1(sp, ks, data, false);
    pt := Pair(data[0], data[1]);
    CryptLow(sp, ks, true, block);
    CryptLow(sp, ks, false, ct);
    if LowBoxes(sp) {
      RoundTrip(sp, ks, block);
    }
  }
}
