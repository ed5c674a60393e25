/** 32-bit words as columns of four bytes, the most significant first. */
module ByteColumns {
  import opened Xor

  /** `byte(x, 3)` down to `byte(x, 0)` */
  function Row0(x: bv32): bv8 { ((x >> 24) & 0xff) as bv8 }
  function Row1(x: bv32): bv8 { ((x >> 16) & 0xff) as bv8 }
  function Row2(x: bv32): bv8 { ((x >> 8) & 0xff) as bv8 }
  function Row3(x: bv32): bv8 { (x & 0xff) as bv8 }

  function Column(a: bv8, b: bv8, c: bv8, d: bv8): bv32
  {
    ((a as bv32) << 24) | ((b as bv32) << 16) | ((c as bv32) << 8) | (d as bv32)
  }

  lemma {:induction false} ColumnRows(a: bv8, b: bv8, c: bv8, d: bv8)
    ensures var x := Column(a, b, c, d); Row0(x) == a && Row1(x) == b && Row2(x) == c && Row3(x) == d
  {
  }

  lemma {:induction false} RowsColumn(x: bv32)
    ensures Column(Row0(x), Row1(x), Row2(x), Row3(x)) == x
  {
  }

  lemma {:induction false} ColumnXor(a: bv8, b: bv8, c: bv8, d: bv8, a': bv8, b': bv8, c': bv8, d': bv8)
    ensures Column(X8(a, a'), X8(b, b'), X8(c, c'), X8(d, d')) == X32(Column(a, b, c, d), Column(a', b', c', d'))
  {
  }

  lemma {:induction false} RowXor(x: bv32, y: bv32)
    ensures Row0(X32(x, y)) == X8(Row0(x), Row0(y)) && Row1(X32(x, y)) == X8(Row1(x), Row1(y))
    ensures Row2(X32(x, y)) == X8(Row2(x), Row2(y)) && Row3(X32(x, y)) == X8(Row3(x), Row3(y))
  {
    RowsColumn(x);
    RowsColumn(y);
    hide Row0, Row1, Row2, Row3, Column, X8, X32;
    ColumnXor(Row0(x), Row1(x), Row2(x), Row3(x), Row0(y), Row1(y), Row2(y), Row3(y));
    ColumnRows(X8(Row0(x), Row0(y)), X8(Row1(x), Row1(y)), X8(Row2(x), Row2(y)), X8(Row3(x), Row3(y)));
  }

  lemma {:induction false} SumRows(a0: bv8, a1: bv8, a2: bv8, a3: bv8, b0: bv8, b1: bv8, b2: bv8, b3: bv8,
                                   c0: bv8, c1: bv8, c2: bv8, c3: bv8, d0: bv8, d1: bv8, d2: bv8, d3: bv8)
    ensures Sum32(Column(a0, a1, a2, a3), Column(b0, b1, b2, b3), Column(c0, c1, c2, c3), Column(d0, d1, d2, d3))
         == Column(Sum8(a0, b0, c0, d0), Sum8(a1, b1, c1, d1), Sum8(a2, b2, c2, d2), Sum8(a3, b3, c3, d3))
  {
    hide Column, X8, X32;
    ColumnXor(a0, a1, a2, a3, b0, b1, b2, b3);
    ColumnXor(X8(a0, b0), X8(a1, b1), X8(a2, b2), X8(a3, b3), c0, c1, c2, c3);
    ColumnXor(X8(X8(a0, b0), c0), X8(X8(a1, b1), c1), X8(X8(a2, b2), c2), X8(X8(a3, b3), c3), d0, d1, d2, d3);
  }

  lemma {:induction false} RorColumn(a: bv8, b: bv8, c: bv8, d: bv8)
    ensures Ror8(Column(a, b, c, d)) == Column(d, a, b, c)
  {
  }

  /** The rows are the bytes from the most significant down. */
  lemma {:induction false} RowsFromTop(x: bv32)
    ensures Row0(x) as bv32 == x >> 24 && Row1(x) as bv32 == (x >> 16) & 0xff
    ensures Row2(x) as bv32 == (x >> 8) & 0xff && Row3(x) as bv32 == x & 0xff
  {
  }
}
