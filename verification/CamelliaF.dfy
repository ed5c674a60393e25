/** The F-function of section 2.4.1 of RFC 3713, byte by byte, and the table look-ups that compute it. */
module CamelliaF {
  import opened ByteColumns
  import opened CamelliaHalves
  import opened CamelliaRound
  import opened Xor

  datatype Boxes = Boxes(s1: bv8 -> bv8, s2: bv8 -> bv8, s3: bv8 -> bv8, s4: bv8 -> bv8)

  function Sum5(a: bv8, b: bv8, c: bv8, d: bv8, e: bv8): bv8 { X8(Sum8(a, b, c, d), e) }
  function Sum6(a: bv8, b: bv8, c: bv8, d: bv8, e: bv8, f: bv8): bv8 { X8(X8(Sum8(a, b, c, d), e), f) }

  /** The eight bytes of the input go through the S-boxes and are mixed. */
  function F(b: Boxes, x: Half): Half
  {
    var t1, t2, t3, t4 := b.s1(Row0(x.l)), b.s2(Row1(x.l)), b.s3(Row2(x.l)), b.s4(Row3(x.l));
    var t5, t6, t7, t8 := b.s2(Row0(x.r)), b.s3(Row1(x.r)), b.s4(Row2(x.r)), b.s1(Row3(x.r));
    var y1, y2 := Sum6(t1, t3, t4, t6, t7, t8), Sum6(t1, t2, t4, t5, t7, t8);
    var y3, y4 := Sum6(t1, t2, t3, t5, t6, t8), Sum6(t2, t3, t4, t5, t6, t7);
    var y5, y6 := Sum5(t1, t2, t6, t7, t8), Sum5(t2, t3, t5, t7, t8);
    var y7, y8 := Sum5(t3, t4, t5, t6, t8), Sum5(t1, t4, t5, t6, t7);
    Half(Column(y1, y2, y3, y4), Column(y5, y6, y7, y8))
  }

  /** Each table holds an S-box in three of its four bytes. */
  ghost predicate Made(t: Tables, b: Boxes)
  {
    && (forall v :: t.sp1110(v) == Column(b.s1(v), b.s1(v), b.s1(v), 0))
    && (forall v :: t.sp0222(v) == Column(0, b.s2(v), b.s2(v), b.s2(v)))
    && (forall v :: t.sp3033(v) == Column(b.s3(v), 0, b.s3(v), b.s3(v)))
    && (forall v :: t.sp4404(v) == Column(b.s4(v), b.s4(v), 0, b.s4(v)))
  }

  /** The sum of one entry of each table. */
  lemma {:induction false} Entries(p: bv8, q: bv8, r: bv8, s: bv8)
    ensures Sum32(Column(p, p, p, 0), Column(0, q, q, q), Column(r, 0, r, r), Column(s, s, 0, s))
         == Column(X8(X8(p, r), s), X8(X8(p, q), s), X8(X8(p, q), r), X8(X8(q, r), s))
  {
    hide Column, X32, X8;
    SumRows(p, p, p, 0, 0, q, q, q, r, 0, r, r, s, s, 0, s);
    NoZero(p); NoZero(q); NoZero(X8(p, q)); NoZero(X8(X8(p, q), r));
  }

  lemma {:induction false} NoZero(a: bv8)
    ensures X8(a, 0) == a && X8(0, a) == a
  {
  }

  /** The upper half: both table sums. */
  lemma {:induction false} Upper(t1: bv8, t2: bv8, t3: bv8, t4: bv8, t5: bv8, t6: bv8, t7: bv8, t8: bv8)
    ensures X8(X8(X8(t8, t6), t7), X8(X8(t1, t3), t4)) == Sum6(t1, t3, t4, t6, t7, t8)
    ensures X8(X8(X8(t8, t5), t7), X8(X8(t1, t2), t4)) == Sum6(t1, t2, t4, t5, t7, t8)
    ensures X8(X8(X8(t8, t5), t6), X8(X8(t1, t2), t3)) == Sum6(t1, t2, t3, t5, t6, t8)
    ensures X8(X8(X8(t5, t6), t7), X8(X8(t2, t3), t4)) == Sum6(t2, t3, t4, t5, t6, t7)
  {
    hide X8;
    Gather(t8, t6, t7, t1, t3, t4);
    Gather(t8, t5, t7, t1, t2, t4);
    Gather(t8, t5, t6, t1, t2, t3);
    Gather(t5, t6, t7, t2, t3, t4);
    Last(X8(X8(t2, t3), t4), t5, t6, t7);
  }

  /** Three terms put behind three others, the first of them last. */
  lemma {:induction false} Gather(a: bv8, b: bv8, c: bv8, d: bv8, e: bv8, f: bv8)
    ensures X8(X8(X8(a, b), c), X8(X8(d, e), f)) == Sum6(d, e, f, b, c, a)
  {
    hide X8;
    var p := X8(X8(d, e), f);
    Comm8(X8(X8(a, b), c), p);
    Assoc8(a, b, c);
    Comm8(a, X8(b, c));
    Assoc8(p, X8(b, c), a);
    Assoc8(p, b, c);
  }

  lemma {:induction false} Last(p: bv8, a: bv8, b: bv8, c: bv8)
    ensures X8(X8(X8(p, b), c), a) == X8(X8(X8(p, a), b), c)
  {
    hide X8;
    Assoc8(X8(p, b), c, a);
    Comm8(c, a);
    Assoc8(X8(p, b), a, c);
    Assoc8(p, b, a);
    Comm8(b, a);
    Assoc8(p, a, b);
  }

  // What the rotated sum adds to the first three terms of the upper half.

  lemma {:induction false} Drops(a: bv8, b: bv8, s: bv8)
    ensures X8(X8(a, s), X8(b, s)) == X8(a, b) == X8(b, a)
  {
    calc {
      X8(X8(a, s), X8(b, s));
      X8(a ^ s, b ^ s);
      (a ^ s) ^ (b ^ s);
      a ^ b;
      X8(a, b);
    }
    Comm8(a, b);
  }

  lemma {:induction false} Fifth(t1: bv8, t2: bv8, t3: bv8, t4: bv8)
    ensures X8(X8(X8(t2, t3), t4), X8(X8(t1, t3), t4)) == X8(t1, t2)
  {
    hide X8;
    Assoc8(t2, t3, t4);
    Assoc8(t1, t3, t4);
    Drops(t2, t1, X8(t3, t4));
  }

  lemma {:induction false} Sixth(t1: bv8, t2: bv8, t3: bv8, t4: bv8)
    ensures X8(X8(X8(t1, t3), t4), X8(X8(t1, t2), t4)) == X8(t2, t3)
  {
    hide X8;
    Drops(X8(t1, t3), X8(t1, t2), t4);
    Comm8(t1, t3);
    Comm8(t1, t2);
    Drops(t3, t2, t1);
  }

  lemma {:induction false} Seventh(t1: bv8, t2: bv8, t3: bv8, t4: bv8)
    ensures X8(X8(X8(t1, t2), t4), X8(X8(t1, t2), t3)) == X8(t3, t4)
  {
    hide X8;
    Comm8(X8(t1, t2), t4);
    Comm8(X8(t1, t2), t3);
    Drops(t4, t3, X8(t1, t2));
  }

  lemma {:induction false} Eighth(t1: bv8, t2: bv8, t3: bv8, t4: bv8)
    ensures X8(X8(X8(t1, t2), t3), X8(X8(t2, t3), t4)) == X8(t1, t4)
  {
    hide X8;
    Assoc8(t1, t2, t3);
    Comm8(X8(t2, t3), t4);
    Drops(t1, t4, X8(t2, t3));
  }

  lemma {:induction false} Onto(i: bv8, u: bv8, d: bv8, e: bv8, f: bv8)
    ensures X8(i, X8(X8(X8(u, d), e), f)) == X8(X8(X8(X8(i, u), d), e), f)
  {
    hide X8;
    Assoc8(i, X8(X8(u, d), e), f);
    Assoc8(i, X8(u, d), e);
    Assoc8(i, u, d);
  }

  lemma {:induction false} Lower(t1: bv8, t2: bv8, t3: bv8, t4: bv8, t5: bv8, t6: bv8, t7: bv8, t8: bv8)
    ensures X8(X8(X8(t2, t3), t4), Sum6(t1, t3, t4, t6, t7, t8)) == Sum5(t1, t2, t6, t7, t8)
    ensures X8(X8(X8(t1, t3), t4), Sum6(t1, t2, t4, t5, t7, t8)) == Sum5(t2, t3, t5, t7, t8)
    ensures X8(X8(X8(t1, t2), t4), Sum6(t1, t2, t3, t5, t6, t8)) == Sum5(t3, t4, t5, t6, t8)
    ensures X8(X8(X8(t1, t2), t3), Sum6(t2, t3, t4, t5, t6, t7)) == Sum5(t1, t4, t5, t6, t7)
  {
    hide X8;
    Onto(X8(X8(t2, t3), t4), X8(X8(t1, t3), t4), t6, t7, t8);
    Onto(X8(X8(t1, t3), t4), X8(X8(t1, t2), t4), t5, t7, t8);
    Onto(X8(X8(t1, t2), t4), X8(X8(t1, t2), t3), t5, t6, t8);
    Onto(X8(X8(t1, t2), t3), X8(X8(t2, t3), t4), t5, t6, t7);
    Fifth(t1, t2, t3, t4);
    Sixth(t1, t2, t3, t4);
    Seventh(t1, t2, t3, t4);
    Eighth(t1, t2, t3, t4);
  }

  /** With such tables and a proper rotation the look-ups compute F. */
  lemma {:induction false} ProperIsF(t: Tables, b: Boxes, x: Half)
    requires Made(t, b)
    ensures Proper(t, x) == F(b, x)
  {
    hide Column, X32, X8, Ror8, Row0, Row1, Row2, Row3, Sum5, Sum6;
    var t1, t2, t3, t4 := b.s1(Row0(x.l)), b.s2(Row1(x.l)), b.s3(Row2(x.l)), b.s4(Row3(x.l));
    var t5, t6, t7, t8 := b.s2(Row0(x.r)), b.s3(Row1(x.r)), b.s4(Row2(x.r)), b.s1(Row3(x.r));
    Entries(t1, t2, t3, t4);
    Entries(t8, t5, t6, t7);
    var i0, i1, i2, i3 := X8(X8(t1, t3), t4), X8(X8(t1, t2), t4), X8(X8(t1, t2), t3), X8(X8(t2, t3), t4);
    var y1, y2 := Sum6(t1, t3, t4, t6, t7, t8), Sum6(t1, t2, t4, t5, t7, t8);
    var y3, y4 := Sum6(t1, t2, t3, t5, t6, t8), Sum6(t2, t3, t4, t5, t6, t7);
    ColumnXor(X8(X8(t8, t6), t7), X8(X8(t8, t5), t7), X8(X8(t8, t5), t6), X8(X8(t5, t6), t7), i0, i1, i2, i3);
    Upper(t1, t2, t3, t4, t5, t6, t7, t8);
    RorColumn(i0, i1, i2, i3);
    ColumnXor(i3, i0, i1, i2, y1, y2, y3, y4);
    Lower(t1, t2, t3, t4, t5, t6, t7, t8);
  }

  /** So where the input is clean, CAMELLIA_ROUNDSM adds F of it. */
  lemma {:induction false} MixedIsF(t: Tables, b: Boxes, x: Half)
    requires Made(t, b)
    ensures Mixed(t, x) == F(b, x) <==> Clean(t, x)
  {
    hide Mixed, Proper, F, Clean, Made;
    ProperIsF(t, b, x);
    RoundExact(t, x);
  }
}
