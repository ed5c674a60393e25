/** The example of section 2.1.1 of RFC 8439, worked digit by digit. */
module ChaChaExample {
  import opened Words
  import opened ChaChaBlock

  /** A rotation by its two parts. */
  lemma {:induction false} RolBy(x: Word32, k: nat, p: nat, q: nat, high: nat, low: nat)
    requires 0 < k < 32 && p == Pow2(k) && q == Pow2(32 - k) && x == q * high + low && low < q
    ensures Rol(x, k) == p * low + high
  {
    hide Pow2, Rol;
    Pow2Literals();
    Pow2Add(k, 32 - k);
    RolRotates(x, k);
    QuotientIs(x, q, high, low);
    Parts(x, p, q);
  }

  lemma {:induction false} Pow2Of(k: nat, p: nat, q: nat)
    requires (k, p, q) in {(16, 0x10000, 0x10000), (12, 0x1000, 0x100000), (8, 0x100, 0x1000000), (7, 0x80, 0x2000000)}
    ensures p == Pow2(k) && q == Pow2(32 - k)
  {
    Pow2Literals();
    assert Pow2(7) == 0x80;
    Pow2Add(7, 5);
    Pow2Add(16, 4);
    Pow2Add(16, 9);
    Pow2Add(8, 1);
  }

  lemma {:induction false} XorNone()
    ensures Xor(0, 0) == 0
  {
  }

  lemma {:induction false} FirstDigits()
    ensures XorDigit(0x0, 0x1) == 0x1 && XorDigit(0x1, 0x2) == 0x3 && XorDigit(0x2, 0x1) == 0x3 && XorDigit(0x3, 0x3) == 0x0
    ensures XorDigit(0x4, 0x1) == 0x5 && XorDigit(0x5, 0x4) == 0x1 && XorDigit(0x6, 0x1) == 0x7 && XorDigit(0x7, 0x5) == 0x2
  {
  }

  lemma {:induction false} FirstXor()
    ensures Xor(0x01234567, 0x12131415) == 0x13305172
  {
    hide Xor, XorDigit;
    FirstDigits();
    XorNone();
    XorHex(0x0, 0x1, 0x1, 0x0, 0x0, 0x0, 0x0, 0x1, 0x1);
    XorHex(0x1, 0x12, 0x13, 0x0, 0x1, 0x1, 0x1, 0x2, 0x3);
    XorHex(0x12, 0x121, 0x133, 0x1, 0x12, 0x13, 0x2, 0x1, 0x3);
    XorHex(0x123, 0x1213, 0x1330, 0x12, 0x121, 0x133, 0x3, 0x3, 0x0);
    XorHex(0x1234, 0x12131, 0x13305, 0x123, 0x1213, 0x1330, 0x4, 0x1, 0x5);
    XorHex(0x12345, 0x121314, 0x133051, 0x1234, 0x12131, 0x13305, 0x5, 0x4, 0x1);
    XorHex(0x123456, 0x1213141, 0x1330517, 0x12345, 0x121314, 0x133051, 0x6, 0x1, 0x7);
    XorHex(0x1234567, 0x12131415, 0x13305172, 0x123456, 0x1213141, 0x1330517, 0x7, 0x5, 0x2);
  }

  lemma {:induction false} FirstRol()
    ensures Rol(0x13305172, 16) == 0x51721330
  {
    hide Pow2, Rol;
    Pow2Of(16, 0x10000, 0x10000);
    RolBy(0x13305172, 16, 0x10000, 0x10000, 0x1330, 0x5172);
  }

  lemma {:induction false} SecondDigits()
    ensures XorDigit(0x0, 0x7) == 0x7 && XorDigit(0x0, 0x8) == 0x8 && XorDigit(0x0, 0xe) == 0xe && XorDigit(0x0, 0xf) == 0xf
    ensures XorDigit(0x1, 0xc) == 0xd && XorDigit(0x2, 0xf) == 0xd && XorDigit(0x3, 0x2) == 0x1 && XorDigit(0x4, 0x3) == 0x7
  {
  }

  lemma {:induction false} SecondXor()
    ensures Xor(0x01020304, 0xecff8273) == 0xedfd8177
  {
    hide Xor, XorDigit;
    SecondDigits();
    XorNone();
    XorHex(0x0, 0xe, 0xe, 0x0, 0x0, 0x0, 0x0, 0xe, 0xe);
    XorHex(0x1, 0xec, 0xed, 0x0, 0xe, 0xe, 0x1, 0xc, 0xd);
    XorHex(0x10, 0xecf, 0xedf, 0x1, 0xec, 0xed, 0x0, 0xf, 0xf);
    XorHex(0x102, 0xecff, 0xedfd, 0x10, 0xecf, 0xedf, 0x2, 0xf, 0xd);
    XorHex(0x1020, 0xecff8, 0xedfd8, 0x102, 0xecff, 0xedfd, 0x0, 0x8, 0x8);
    XorHex(0x10203, 0xecff82, 0xedfd81, 0x1020, 0xecff8, 0xedfd8, 0x3, 0x2, 0x1);
    XorHex(0x102030, 0xecff827, 0xedfd817, 0x10203, 0xecff82, 0xedfd81, 0x0, 0x7, 0x7);
    XorHex(0x1020304, 0xecff8273, 0xedfd8177, 0x102030, 0xecff827, 0xedfd817, 0x4, 0x3, 0x7);
  }

  lemma {:induction false} SecondRol()
    ensures Rol(0xedfd8177, 12) == 0xd8177edf
  {
    hide Pow2, Rol;
    Pow2Of(12, 0x1000, 0x100000);
    RolBy(0xedfd8177, 12, 0x1000, 0x100000, 0xedf, 0xd8177);
  }

  lemma {:induction false} ThirdDigits()
    ensures XorDigit(0x0, 0x4) == 0x4 && XorDigit(0x1, 0x9) == 0x8 && XorDigit(0x1, 0xa) == 0xb && XorDigit(0x2, 0xa) == 0x8
    ensures XorDigit(0x3, 0x2) == 0x1 && XorDigit(0x3, 0xf) == 0xc && XorDigit(0x5, 0xe) == 0xb && XorDigit(0x7, 0x2) == 0x5
  {
  }

  lemma {:induction false} ThirdXor()
    ensures Xor(0x51721330, 0xea2a92f4) == 0xbb5881c4
  {
    hide Xor, XorDigit;
    ThirdDigits();
    XorNone();
    XorHex(0x5, 0xe, 0xb, 0x0, 0x0, 0x0, 0x5, 0xe, 0xb);
    XorHex(0x51, 0xea, 0xbb, 0x5, 0xe, 0xb, 0x1, 0xa, 0xb);
    XorHex(0x517, 0xea2, 0xbb5, 0x51, 0xea, 0xbb, 0x7, 0x2, 0x5);
    XorHex(0x5172, 0xea2a, 0xbb58, 0x517, 0xea2, 0xbb5, 0x2, 0xa, 0x8);
    XorHex(0x51721, 0xea2a9, 0xbb588, 0x5172, 0xea2a, 0xbb58, 0x1, 0x9, 0x8);
    XorHex(0x517213, 0xea2a92, 0xbb5881, 0x51721, 0xea2a9, 0xbb588, 0x3, 0x2, 0x1);
    XorHex(0x5172133, 0xea2a92f, 0xbb5881c, 0x517213, 0xea2a92, 0xbb5881, 0x3, 0xf, 0xc);
    XorHex(0x51721330, 0xea2a92f4, 0xbb5881c4, 0x5172133, 0xea2a92f, 0xbb5881c, 0x0, 0x4, 0x4);
  }

  lemma {:induction false} ThirdRol()
    ensures Rol(0xbb5881c4, 8) == 0x5881c4bb
  {
    hide Pow2, Rol;
    Pow2Of(8, 0x100, 0x1000000);
    RolBy(0xbb5881c4, 8, 0x100, 0x1000000, 0xbb, 0x5881c4);
  }

  lemma {:induction false} FourthDigits()
    ensures XorDigit(0x1, 0x8) == 0x9 && XorDigit(0x7, 0x1) == 0x6 && XorDigit(0x7, 0x4) == 0x3 && XorDigit(0x8, 0x5) == 0xd
    ensures XorDigit(0xd, 0x2) == 0xf && XorDigit(0xd, 0x4) == 0x9 && XorDigit(0xe, 0x7) == 0x9 && XorDigit(0xf, 0xe) == 0x1
  {
  }

  lemma {:induction false} FourthXor()
    ensures Xor(0xd8177edf, 0x4581472e) == 0x9d9639f1
  {
    hide Xor, XorDigit;
    FourthDigits();
    XorNone();
    XorHex(0xd, 0x4, 0x9, 0x0, 0x0, 0x0, 0xd, 0x4, 0x9);
    XorHex(0xd8, 0x45, 0x9d, 0xd, 0x4, 0x9, 0x8, 0x5, 0xd);
    XorHex(0xd81, 0x458, 0x9d9, 0xd8, 0x45, 0x9d, 0x1, 0x8, 0x9);
    XorHex(0xd817, 0x4581, 0x9d96, 0xd81, 0x458, 0x9d9, 0x7, 0x1, 0x6);
    XorHex(0xd8177, 0x45814, 0x9d963, 0xd817, 0x4581, 0x9d96, 0x7, 0x4, 0x3);
    XorHex(0xd8177e, 0x458147, 0x9d9639, 0xd8177, 0x45814, 0x9d963, 0xe, 0x7, 0x9);
    XorHex(0xd8177ed, 0x4581472, 0x9d9639f, 0xd8177e, 0x458147, 0x9d9639, 0xd, 0x2, 0xf);
    XorHex(0xd8177edf, 0x4581472e, 0x9d9639f1, 0xd8177ed, 0x4581472, 0x9d9639f, 0xf, 0xe, 0x1);
  }

  lemma {:induction false} FourthRol()
    ensures Rol(0x9d9639f1, 7) == 0xcb1cf8ce
  {
    hide Pow2, Rol;
    Pow2Of(7, 0x80, 0x2000000);
    RolBy(0x9d9639f1, 7, 0x80, 0x2000000, 0x4e, 0x19639f1);
  }

  /** The quarter round on the words of the example. */
  lemma {:induction false} QuarterExample()
    ensures Quarter(Quad4(0x11111111, 0x01020304, 0x9b8d6f43, 0x01234567))
         == Quad4(0xea2a92f4, 0xcb1cf8ce, 0x4581472e, 0x5881c4bb)
  {
    hide Xor, Rol;
    FirstXor(); FirstRol();
    SecondXor(); SecondRol();
    ThirdXor(); ThirdRol();
    FourthXor(); FourthRol();
  }
}
