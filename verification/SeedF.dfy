/** The F-function and the function G of section 2 of RFC 4269, byte by byte, and the table look-ups that compute them. */
module SeedF {
  import opened ByteColumns
  import opened CamelliaHalves
  import opened Seed
  import opened Xor

  datatype Boxes = Boxes(s1: bv8 -> bv8, s2: bv8 -> bv8)

  /** A byte under the masks m0 to m3. */
  function M0(v: bv8): bv8 { v & 0xfc }
  function M1(v: bv8): bv8 { v & 0xf3 }
  function M2(v: bv8): bv8 { v & 0xcf }
  function M3(v: bv8): bv8 { v & 0x3f }

  function G(b: Boxes, x: bv32): bv32
  {
    var y0, y1, y2, y3 := b.s1(Row3(x)), b.s2(Row2(x)), b.s1(Row1(x)), b.s2(Row0(x));
    var z0 := Sum8(M0(y0), M1(y1), M2(y2), M3(y3));
    var z1 := Sum8(M1(y0), M2(y1), M3(y2), M0(y3));
    var z2 := Sum8(M2(y0), M3(y1), M0(y2), M1(y3));
    var z3 := Sum8(M3(y0), M0(y1), M1(y2), M2(y3));
    Column(z3, z2, z1, z0)
  }

  /** Both words of F for the words `c` and `d`. */
  function F(b: Boxes, k0: bv32, k1: bv32, c: bv32, d: bv32): Half
  {
    var first := G(b, X32(X32(c, k0), X32(d, k1)));
    var second := G(b, Plus(first, X32(c, k0)));
    Half(Plus(G(b, Plus(second, first)), second), G(b, Plus(second, first)))
  }

  /** Each table holds an S-box under the four masks. */
  ghost predicate Made(t: Tables, b: Boxes)
  {
    && (forall v :: t.ss0(v) == Column(M3(b.s1(v)), M2(b.s1(v)), M1(b.s1(v)), M0(b.s1(v))))
    && (forall v :: t.ss1(v) == Column(M0(b.s2(v)), M3(b.s2(v)), M2(b.s2(v)), M1(b.s2(v))))
    && (forall v :: t.ss2(v) == Column(M1(b.s1(v)), M0(b.s1(v)), M3(b.s1(v)), M2(b.s1(v))))
    && (forall v :: t.ss3(v) == Column(M2(b.s2(v)), M1(b.s2(v)), M0(b.s2(v)), M3(b.s2(v))))
  }

  /** Where an S-box gives 255 its tables hold the masks themselves. */
  lemma {:induction false} MaskEntries(t: Tables, b: Boxes)
    requires Made(t, b) && b.s1(176) == 0xff && b.s2(96) == 0xff
    ensures t.ss0(176) == 0x3fcf_f3fc && t.ss2(176) == 0xf3fc_3fcf
    ensures t.ss1(96) == 0xfc3f_cff3 && t.ss3(96) == 0xcff3_fc3f
  {
    assert M0(0xff) == 0xfc && M1(0xff) == 0xf3 && M2(0xff) == 0xcf && M3(0xff) == 0x3f;
    hide M0, M1, M2, M3;
  }

  lemma {:induction false} LookIsG(t: Tables, b: Boxes, x: bv32)
    requires Made(t, b)
    ensures Look(t, x) == G(b, x)
  {
    hide Column, Row0, Row1, Row2, Row3, Sum32, Sum8, M0, M1, M2, M3;
    var y0, y1, y2, y3 := b.s1(Row3(x)), b.s2(Row2(x)), b.s1(Row1(x)), b.s2(Row0(x));
    SumRows(M3(y0), M2(y0), M1(y0), M0(y0), M0(y1), M3(y1), M2(y1), M1(y1),
            M1(y2), M0(y2), M3(y2), M2(y2), M2(y3), M1(y3), M0(y3), M3(y3));
  }

  /** With such tables OP adds F of the other half. */
  lemma {:induction false} MixedIsF(t: Tables, b: Boxes, k0: bv32, k1: bv32, x: Half)
    requires Made(t, b)
    ensures Mixed(t, k0, k1, x) == F(b, k0, k1, x.l, x.r)
  {
    hide Look, G, Made, X32, Plus;
    var t0 := X32(x.l, k0);
    XComm(t0, X32(x.r, k1));
    var u := X32(X32(x.r, k1), t0);
    LookIsG(t, b, u);
    var t1 := Look(t, u);
    PlusSwaps(t0, t1);
    LookIsG(t, b, Plus(t0, t1));
    var t0' := Look(t, Plus(t0, t1));
    PlusSwaps(t1, t0');
    LookIsG(t, b, Plus(t1, t0'));
    PlusSwaps(t0', Look(t, Plus(t1, t0')));
  }

  lemma {:induction false} PlusSwaps(a: bv32, b: bv32)
    ensures Plus(a, b) == Plus(b, a) == b + a
  {
  }
}
