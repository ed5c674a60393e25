/** The byte and column operations behind the AES tables (header comment of aes.c):
    multiplication in GF(2^8) and the two column mixes, on 32-bit columns whose
    most significant byte is row 0. */
module AesColumns {

  import opened ByteColumns
  import opened Xor

  // --- Multiplication in GF(2^8) ----------------------------------------------------------

  /** Multiplication by x modulo x^8 + x^4 + x^3 + x + 1. */
  function Double(a: bv8): bv8
  {
    (a << 1) ^ ((a >> 7) * 0x1b)
  }

  function Times3(a: bv8): bv8 { X8(Double(a), a) }
  function Times8(a: bv8): bv8 { Double(Double(Double(a))) }
  function Times9(a: bv8): bv8 { X8(Times8(a), a) }
  function Times11(a: bv8): bv8 { X8(X8(Times8(a), Double(a)), a) }
  function Times13(a: bv8): bv8 { X8(X8(Times8(a), Double(Double(a))), a) }
  function Times14(a: bv8): bv8 { X8(X8(Times8(a), Double(Double(a))), Double(a)) }

  lemma {:induction false} DoubleXor(a: bv8, b: bv8)
    ensures Double(X8(a, b)) == X8(Double(a), Double(b))
  {
  }

  /** Every multiple distributes over exclusive or. */
  lemma {:induction false} TimesXor(a: bv8, b: bv8)
    ensures Times9(X8(a, b)) == X8(Times9(a), Times9(b)) && Times11(X8(a, b)) == X8(Times11(a), Times11(b))
    ensures Times13(X8(a, b)) == X8(Times13(a), Times13(b)) && Times14(X8(a, b)) == X8(Times14(a), Times14(b))
  {
    hide Double, X8;
    var a1, a2, a3, b1, b2, b3 := Double(a), Double(Double(a)), Times8(a), Double(b), Double(Double(b)), Times8(b);
    DoubleXor(a, b);
    DoubleXor(a1, b1);
    DoubleXor(a2, b2);
    Swap8(a3, b3, a, b);
    Swap8(a3, b3, a1, b1);
    Swap8(X8(a3, a1), X8(b3, b1), a, b);
    Swap8(a3, b3, a2, b2);
    Swap8(X8(a3, a2), X8(b3, b2), a, b);
    Swap8(X8(a3, a2), X8(b3, b2), a1, b1);
  }

  // --- The column mixes ---------------------------------------------------------------------

  /** The multiples [02, 01, 01, 03] of a byte, as in Te0, and its rotations. */
  function E0(a: bv8): bv32 { Column(Double(a), a, a, Times3(a)) }
  function E1(a: bv8): bv32 { Column(Times3(a), Double(a), a, a) }
  function E2(a: bv8): bv32 { Column(a, Times3(a), Double(a), a) }
  function E3(a: bv8): bv32 { Column(a, a, Times3(a), Double(a)) }

  /** The multiples [0e, 09, 0d, 0b] of a byte, as in Td0, and its rotations. */
  function D0(a: bv8): bv32 { Column(Times14(a), Times9(a), Times13(a), Times11(a)) }
  function D1(a: bv8): bv32 { Column(Times11(a), Times14(a), Times9(a), Times13(a)) }
  function D2(a: bv8): bv32 { Column(Times13(a), Times11(a), Times14(a), Times9(a)) }
  function D3(a: bv8): bv32 { Column(Times9(a), Times13(a), Times11(a), Times14(a)) }

  /** MixColumns and InvMixColumns on one column. */
  function Mix(x: bv32): bv32 { Sum32(E0(Row0(x)), E1(Row1(x)), E2(Row2(x)), E3(Row3(x))) }
  function Unmix(x: bv32): bv32 { Sum32(D0(Row0(x)), D1(Row1(x)), D2(Row2(x)), D3(Row3(x))) }

  lemma {:induction false} DXor(a: bv8, b: bv8)
    ensures D0(X8(a, b)) == X32(D0(a), D0(b)) && D1(X8(a, b)) == X32(D1(a), D1(b))
    ensures D2(X8(a, b)) == X32(D2(a), D2(b)) && D3(X8(a, b)) == X32(D3(a), D3(b))
  {
    hide Times9, Times11, Times13, Times14, Column, X8, X32;
    TimesXor(a, b);
    ColumnXor(Times14(a), Times9(a), Times13(a), Times11(a), Times14(b), Times9(b), Times13(b), Times11(b));
    ColumnXor(Times11(a), Times14(a), Times9(a), Times13(a), Times11(b), Times14(b), Times9(b), Times13(b));
    ColumnXor(Times13(a), Times11(a), Times14(a), Times9(a), Times13(b), Times11(b), Times14(b), Times9(b));
    ColumnXor(Times9(a), Times13(a), Times11(a), Times14(a), Times9(b), Times13(b), Times11(b), Times14(b));
  }

  lemma {:induction false} UnmixXor(x: bv32, y: bv32)
    ensures Unmix(X32(x, y)) == X32(Unmix(x), Unmix(y))
  {
    hide D0, D1, D2, D3, Row0, Row1, Row2, Row3, X8, X32, Sum32;
    RowXor(x, y);
    DXor(Row0(x), Row0(y)); DXor(Row1(x), Row1(y)); DXor(Row2(x), Row2(y)); DXor(Row3(x), Row3(y));
    Regroup32(D0(Row0(x)), D1(Row1(x)), D2(Row2(x)), D3(Row3(x)), D0(Row0(y)), D1(Row1(y)), D2(Row2(y)), D3(Row3(y)));
  }

  // --- Sums of the multiples a, 02 a, 04 a, 08 a and 10 a ---------------------------------------

  datatype Powers = Powers(a: bv8, b: bv8, c: bv8, d: bv8, e: bv8)

  function PowersOf(a: bv8): Powers
  {
    Powers(a, Double(a), Double(Double(a)), Times8(a), Double(Times8(a)))
  }

  datatype Flag = No | Yes
  datatype Mask = Mask(a: Flag, b: Flag, c: Flag, d: Flag, e: Flag)

  function Differ(f: Flag, g: Flag): Flag { if f == g then No else Yes }
  function Pick(f: Flag, x: bv8): bv8 { if f == Yes then x else 0 }
  function Sum5(a: bv8, b: bv8, c: bv8, d: bv8, e: bv8): bv8 { X8(X8(X8(X8(a, b), c), d), e) }

  function Comb(m: Mask, v: Powers): bv8
  {
    Sum5(Pick(m.a, v.a), Pick(m.b, v.b), Pick(m.c, v.c), Pick(m.d, v.d), Pick(m.e, v.e))
  }

  function MaskXor(m: Mask, n: Mask): Mask
  {
    Mask(Differ(m.a, n.a), Differ(m.b, n.b), Differ(m.c, n.c), Differ(m.d, n.d), Differ(m.e, n.e))
  }

  lemma {:induction false} PickXor(f: Flag, g: Flag, x: bv8)
    ensures X8(Pick(f, x), Pick(g, x)) == Pick(Differ(f, g), x)
  {
  }

  lemma {:induction false} CombXor(m: Mask, n: Mask, v: Powers)
    ensures X8(Comb(m, v), Comb(n, v)) == Comb(MaskXor(m, n), v)
  {
    hide X8, Pick, Differ, Sum5;
    PickXor(m.a, n.a, v.a); PickXor(m.b, n.b, v.b); PickXor(m.c, n.c, v.c); PickXor(m.d, n.d, v.d); PickXor(m.e, n.e, v.e);
    Regroup5(Pick(m.a, v.a), Pick(m.b, v.b), Pick(m.c, v.c), Pick(m.d, v.d), Pick(m.e, v.e),
             Pick(n.a, v.a), Pick(n.b, v.b), Pick(n.c, v.c), Pick(n.d, v.d), Pick(n.e, v.e));
  }

  lemma {:induction false} Regroup5(a: bv8, b: bv8, c: bv8, d: bv8, e: bv8, a': bv8, b': bv8, c': bv8, d': bv8, e': bv8)
    ensures X8(Sum5(a, b, c, d, e), Sum5(a', b', c', d', e')) == Sum5(X8(a, a'), X8(b, b'), X8(c, c'), X8(d, d'), X8(e, e'))
  {
    hide X8;
    var p1, q1 := X8(a, b), X8(a', b');
    var p2, q2 := X8(p1, c), X8(q1, c');
    var p3, q3 := X8(p2, d), X8(q2, d');
    Swap8(a, b, a', b');
    Swap8(p1, c, q1, c');
    Swap8(p2, d, q2, d');
    Swap8(p3, e, q3, e');
  }

  const A: Mask := Mask(Yes, No, No, No, No)
  const B: Mask := Mask(No, Yes, No, No, No)
  const C: Mask := Mask(No, No, Yes, No, No)
  const D: Mask := Mask(No, No, No, Yes, No)
  const E: Mask := Mask(No, No, No, No, Yes)

  lemma {:induction false} ZeroRight8(x: bv8)
    ensures X8(x, 0) == x && X8(0, x) == x
  {
  }

  lemma {:induction false} Singles(v: Powers)
    ensures Comb(A, v) == v.a && Comb(B, v) == v.b && Comb(C, v) == v.c && Comb(D, v) == v.d && Comb(E, v) == v.e
    ensures Comb(Mask(No, No, No, No, No), v) == 0
  {
    hide X8;
    ZeroRight8(0); ZeroRight8(v.a); ZeroRight8(v.b); ZeroRight8(v.c); ZeroRight8(v.d); ZeroRight8(v.e);
  }

  /** The multiples of a byte and of its double as such sums. */
  lemma {:induction false} TimesComb(a: bv8)
    ensures var v := PowersOf(a);
      && Times9(a) == Comb(Mask(Yes, No, No, Yes, No), v) && Times11(a) == Comb(Mask(Yes, Yes, No, Yes, No), v)
      && Times13(a) == Comb(Mask(Yes, No, Yes, Yes, No), v) && Times14(a) == Comb(Mask(No, Yes, Yes, Yes, No), v)
  {
    hide X8, Comb, Double;
    var v := PowersOf(a);
    Singles(v);
    CombXor(D, A, v);
    CombXor(D, B, v);
    CombXor(MaskXor(D, B), A, v);
    CombXor(D, C, v);
    CombXor(MaskXor(D, C), A, v);
    CombXor(MaskXor(D, C), B, v);
  }

  lemma {:induction false} TimesDoubleComb(a: bv8)
    ensures var v := PowersOf(a);
      && Times9(Double(a)) == Comb(Mask(No, Yes, No, No, Yes), v) && Times11(Double(a)) == Comb(Mask(No, Yes, Yes, No, Yes), v)
      && Times13(Double(a)) == Comb(Mask(No, Yes, No, Yes, Yes), v) && Times14(Double(a)) == Comb(Mask(No, No, Yes, Yes, Yes), v)
  {
    hide X8, Comb, Double;
    var v := PowersOf(a);
    Singles(v);
    CombXor(E, B, v);
    CombXor(E, C, v);
    CombXor(MaskXor(E, C), B, v);
    CombXor(E, D, v);
    CombXor(MaskXor(E, D), B, v);
    CombXor(MaskXor(E, D), C, v);
  }

  /** The sum of four multiples of a byte, its double and, last, its triple. */
  lemma {:induction false} FourCombs(p: Mask, q: Mask, r: Mask, s: Mask, s': Mask, v: Powers)
    ensures Sum8(Comb(p, v), Comb(q, v), Comb(r, v), X8(Comb(s, v), Comb(s', v)))
         == Comb(MaskXor(MaskXor(MaskXor(p, q), r), MaskXor(s, s')), v)
  {
    hide X8, Comb, MaskXor;
    CombXor(p, q, v);
    CombXor(MaskXor(p, q), r, v);
    CombXor(s, s', v);
    CombXor(MaskXor(MaskXor(p, q), r), MaskXor(s, s'), v);
  }

  /** The four distinct entries of the product of the two mixing matrices. */
  lemma {:induction false} Diagonal(a: bv8)
    ensures Sum8(Times14(Double(a)), Times11(a), Times13(a), Times9(Times3(a))) == a
    ensures Sum8(Times9(Double(a)), Times14(a), Times11(a), Times13(Times3(a))) == 0
    ensures Sum8(Times13(Double(a)), Times9(a), Times14(a), Times11(Times3(a))) == 0
    ensures Sum8(Times11(Double(a)), Times13(a), Times9(a), Times14(Times3(a))) == 0
  {
    TimesXor(Double(a), a);
    TimesComb(a);
    TimesDoubleComb(a);
    hide X8, Comb, Double, Times9, Times11, Times13, Times14, Sum8;
    var v := PowersOf(a);
    Singles(v);
    FourCombs(Mask(No, No, Yes, Yes, Yes), Mask(Yes, Yes, No, Yes, No), Mask(Yes, No, Yes, Yes, No),
              Mask(No, Yes, No, No, Yes), Mask(Yes, No, No, Yes, No), v);
    FourCombs(Mask(No, Yes, No, No, Yes), Mask(No, Yes, Yes, Yes, No), Mask(Yes, Yes, No, Yes, No),
              Mask(No, Yes, No, Yes, Yes), Mask(Yes, No, Yes, Yes, No), v);
    FourCombs(Mask(No, Yes, No, Yes, Yes), Mask(Yes, No, No, Yes, No), Mask(No, Yes, Yes, Yes, No),
              Mask(No, Yes, Yes, No, Yes), Mask(Yes, Yes, No, Yes, No), v);
    FourCombs(Mask(No, Yes, Yes, No, Yes), Mask(Yes, No, Yes, Yes, No), Mask(Yes, No, No, Yes, No),
              Mask(No, No, Yes, Yes, Yes), Mask(No, Yes, Yes, Yes, No), v);
  }

  lemma {:induction false} UnmixRows(p: bv8, q: bv8, r: bv8, s: bv8)
    ensures Unmix(Column(p, q, r, s))
         == Column(Sum8(Times14(p), Times11(q), Times13(r), Times9(s)), Sum8(Times9(p), Times14(q), Times11(r), Times13(s)),
                   Sum8(Times13(p), Times9(q), Times14(r), Times11(s)), Sum8(Times11(p), Times13(q), Times9(r), Times14(s)))
  {
    hide Times9, Times11, Times13, Times14, Column, Row0, Row1, Row2, Row3, Sum32, Sum8;
    ColumnRows(p, q, r, s);
    SumRows(Times14(p), Times9(p), Times13(p), Times11(p), Times11(q), Times14(q), Times9(q), Times13(q),
            Times13(r), Times11(r), Times14(r), Times9(r), Times9(s), Times13(s), Times11(s), Times14(s));
  }

  /** Unmixing the mix of a column with one non-zero byte gives that byte back. */
  lemma {:induction false} UnmixE(a: bv8)
    ensures Unmix(E0(a)) == Column(a, 0, 0, 0) && Unmix(E1(a)) == Column(0, a, 0, 0)
    ensures Unmix(E2(a)) == Column(0, 0, a, 0) && Unmix(E3(a)) == Column(0, 0, 0, a)
  {
    hide Times9, Times11, Times13, Times14, Times3, Double, Column, Unmix, Sum8;
    var d, t := Double(a), Times3(a);
    Diagonal(a);
    UnmixRows(d, a, a, t); UnmixRows(t, d, a, a); UnmixRows(a, t, d, a); UnmixRows(a, a, t, d);
    Turns(Times14(d), Times11(a), Times13(a), Times9(t));
    Turns(Times9(d), Times14(a), Times11(a), Times13(t));
    Turns(Times13(d), Times9(a), Times14(a), Times11(t));
    Turns(Times11(d), Times13(a), Times9(a), Times14(t));
  }

  lemma {:induction false} Turns(a: bv8, b: bv8, c: bv8, d: bv8)
    ensures Sum8(a, b, c, d) == Sum8(b, c, d, a) == Sum8(c, d, a, b) == Sum8(d, a, b, c)
  {
    hide Sum8;
    Rotate8(a, b, c, d); Rotate8(b, c, d, a); Rotate8(c, d, a, b);
  }

  /** InvMixColumns undoes MixColumns on every column. */
  lemma {:induction false} UnmixMix(x: bv32)
    ensures Unmix(Mix(x)) == x
  {
    hide E0, E1, E2, E3, Column, Unmix, X32, Row0, Row1, Row2, Row3, Sum8;
    var a, b, c, d := Row0(x), Row1(x), Row2(x), Row3(x);
    UnmixXor(E0(a), E1(b));
    UnmixXor(X32(E0(a), E1(b)), E2(c));
    UnmixXor(X32(X32(E0(a), E1(b)), E2(c)), E3(d));
    UnmixE(a); UnmixE(b); UnmixE(c); UnmixE(d);
    SumRows(a, 0, 0, 0, 0, b, 0, 0, 0, 0, c, 0, 0, 0, 0, d);
    Zero8(a); Zero8(b); Zero8(c); Zero8(d);
    RowsColumn(x);
  }
}
