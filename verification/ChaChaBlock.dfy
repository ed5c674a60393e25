/** The ChaCha block function of chacha20poly1305_memory.c. */
module ChaChaBlock {
  import opened Words
  import opened LittleEndian

  type Matrix = x: seq<Word32> | |x| == 16 witness seq(16, _ => 0)

  /** ROL: `(x << k) | (x >> (32 - k))`, cut to 32 bits. */
  function Rol(x: Word32, k: nat): Word32
    requires 0 < k < 32
  {
    Or32(x * Pow2(k) % W32, x / Pow2(32 - k) % W32)
  }

  function Or32(x: Word32, y: Word32): Word32
  {
    Pow2Literals();
    BitwiseBound(OrOp, 32, x, y);
    Or(x, y)
  }

  function Xor32(x: Word32, y: Word32): Word32
  {
    Pow2Literals();
    BitwiseBound(XorOp, 32, x, y);
    Xor(x, y)
  }

  datatype Quad4 = Quad4(a: Word32, b: Word32, c: Word32, d: Word32)

  /** QUARTERROUND on four words. */
  function Quarter(q: Quad4): Quad4
  {
    var a1 := Add32(q.a, q.b);
    var d1 := Rol(Xor32(q.d, a1), 16);
    var c1 := Add32(q.c, d1);
    var b1 := Rol(Xor32(q.b, c1), 12);
    var a2 := Add32(a1, b1);
    var d2 := Rol(Xor32(d1, a2), 8);
    var c2 := Add32(c1, d2);
    var b2 := Rol(Xor32(b1, c2), 7);
    Quad4(a2, b2, c2, d2)
  }

  /** QUARTERROUND(a, b, c, d) on the matrix. */
  function QuarterRound(x: Matrix, a: nat, b: nat, c: nat, d: nat): Matrix
    requires a < 16 && b < 16 && c < 16 && d < 16
  {
    var q := Quarter(Quad4(x[a], x[b], x[c], x[d]));
    x[a := q.a][b := q.b][c := q.c][d := q.d]
  }

  /** The loop body of _chacha_block, in the order of its statements. */
  function DoubleRound(x0: Matrix): Matrix
  {
    var x1 := QuarterRound(x0, 0, 4, 8, 12);
    var x2 := QuarterRound(x1, 1, 5, 9, 13);
    var x3 := QuarterRound(x2, 2, 6, 10, 14);
    var x4 := QuarterRound(x3, 3, 7, 11, 15);
    var x5 := QuarterRound(x4, 0, 5, 10, 15);
    var x6 := QuarterRound(x5, 1, 6, 11, 12);
    var x7 := QuarterRound(x6, 2, 7, 8, 13);
    QuarterRound(x7, 3, 4, 9, 14)
  }

  function Rounds(x: Matrix, n: int): Matrix
    decreases n
  {
    if n <= 0 then x else Rounds(DoubleRound(x), n - 2)
  }

  function Serialize(x: seq<Word32>): (b: seq<Byte>)
    ensures |b| == 4 * |x|
  {
    if x == [] then [] else Serialize(x[..|x| - 1]) + Store32(x[|x| - 1])
  }

  /** The 64 bytes of keystream for one input matrix. */
  function BlockBytes(input: Matrix, rounds: int): (b: seq<Byte>)
    ensures |b| == 64
  {
    Serialize(seq(16, i requires 0 <= i < 16 => Add32(Rounds(input, rounds)[i], input[i])))
  }

  // --- The code as it updates its array ------------------------------------------

  method QuarterInPlace(x: array<Word32>, a: nat, b: nat, c: nat, d: nat)
    requires x.Length == 16 && a < 16 && b < 16 && c < 16 && d < 16
    requires a != b && a != c && a != d && b != c && b != d && c != d
    modifies x
    ensures x[..] == QuarterRound(old(x[..]), a, b, c, d)
  {
    hide Rol, Xor32, Add32;
    x[a] := Add32(x[a], x[b]); x[d] := Rol(Xor32(x[d], x[a]), 16);
    x[c] := Add32(x[c], x[d]); x[b] := Rol(Xor32(x[b], x[c]), 12);
    x[a] := Add32(x[a], x[b]); x[d] := Rol(Xor32(x[d], x[a]), 8);
    x[c] := Add32(x[c], x[d]); x[b] := Rol(Xor32(x[b], x[c]), 7);
  }

  /** _chacha_block */
  method Block(input: Matrix, rounds: int) returns (output: seq<Byte>)
    ensures output == BlockBytes(input, rounds)
  {
    hide QuarterRound, Add32, Store32;
    var x := new Word32[16](i requires 0 <= i < 16 => input[i]);
    assert x[..] == input;
    var i := rounds;
    while i > 0
      invariant Rounds(x[..], i) == Rounds(input, rounds)
    {
      QuarterInPlace(x, 0, 4, 8, 12);
      QuarterInPlace(x, 1, 5, 9, 13);
      QuarterInPlace(x, 2, 6, 10, 14);
      QuarterInPlace(x, 3, 7, 11, 15);
      QuarterInPlace(x, 0, 5, 10, 15);
      QuarterInPlace(x, 1, 6, 11, 12);
      QuarterInPlace(x, 2, 7, 8, 13);
      QuarterInPlace(x, 3, 4, 9, 14);
      i := i - 2;
    }
    output := Output(x[..], input);
  }

  /** The final loop of _chacha_block: add the input and store each word. */
  method Output(x: Matrix, input: Matrix) returns (output: seq<Byte>)
    ensures output == Serialize(seq(16, i requires 0 <= i < 16 => Add32(x[i], input[i])))
  {
    hide Add32, Store32;
    var y := seq(16, i requires 0 <= i < 16 => Add32(x[i], input[i]));
    output := [];
    for i := 0 to 16
      invariant output == Serialize(y[..i])
    {
      output := output + Store32(Add32(x[i], input[i]));
      assert y[..i + 1][..i] == y[..i] && y[..i + 1][i] == Add32(x[i], input[i]);
    }
    assert y[..16] == y;
  }

  // --- Section 2.3 of RFC 8439 ------------------------------------------------------

  /** The quarter round applied to each column of the 4 by 4 matrix. */
  function ColumnRound(x: Matrix): Matrix
  {
    FromColumns(Quarter(Quad4(x[0], x[4], x[8], x[12])), Quarter(Quad4(x[1], x[5], x[9], x[13])),
                Quarter(Quad4(x[2], x[6], x[10], x[14])), Quarter(Quad4(x[3], x[7], x[11], x[15])))
  }

  function FromColumns(q0: Quad4, q1: Quad4, q2: Quad4, q3: Quad4): Matrix
  {
    [q0.a, q1.a, q2.a, q3.a, q0.b, q1.b, q2.b, q3.b, q0.c, q1.c, q2.c, q3.c, q0.d, q1.d, q2.d, q3.d]
  }

  /** Row i rotated left by i * n, so that for n = 1 diagonals become columns. */
  function ShiftRows(x: Matrix, n: nat): Matrix
  {
    seq(16, i requires 0 <= i < 16 => x[4 * (i / 4) + (i + n * (i / 4)) % 4])
  }

  /** The body alternates column rounds and diagonal rounds. */
  lemma {:induction false} DoubleRoundCorrect(x: Matrix)
    ensures DoubleRound(x) == ShiftRows(ColumnRound(ShiftRows(ColumnRound(x), 1)), 3)
  {
    hide QuarterRound, ColumnRound, ShiftRows, Quarter;
    Columns(x);
    var y := ColumnRound(x);
    Diagonals(y);
  }

  lemma {:induction false} Columns(x: Matrix)
    ensures QuarterRound(QuarterRound(QuarterRound(QuarterRound(x, 0, 4, 8, 12), 1, 5, 9, 13), 2, 6, 10, 14), 3, 7, 11, 15)
         == ColumnRound(x)
  {
    hide Quarter;
  }

  lemma {:induction false} Diagonals(x: Matrix)
    ensures QuarterRound(QuarterRound(QuarterRound(QuarterRound(x, 0, 5, 10, 15), 1, 6, 11, 12), 2, 7, 8, 13), 3, 4, 9, 14)
         == ShiftRows(ColumnRound(ShiftRows(x, 1)), 3)
  {
    hide Quarter;
  }

  // --- The words of the standard -------------------------------------------------------------

  /** Rotation to the left is multiplication by 2^k modulo 2^32 - 1. */
  lemma {:induction false} RolRotates(x: Word32, k: nat)
    requires 0 < k < 32
    ensures Rol(x, k) == x * Pow2(k) - x / Pow2(32 - k) * (W32 - 1)
  {
    hide Pow2, Or;
    var p, q := Pow2(k), Pow2(32 - k);
    Pow2Literals();
    Pow2Add(k, 32 - k);
    Parts(x, p, q);
    var h, l := x / q, x % q;
    OrDisjoint(k, h, l);
  }

  lemma {:induction false} Parts(x: Word32, p: nat, q: nat)
    requires p > 0 && q > 0 && p * q == W32
    ensures x * p % W32 == p * (x % q) && x / q < p && x / q % W32 == x / q
    ensures p * (x % q) + x / q == x * p - x / q * (W32 - 1)
  {
    var h, l := x / q, x % q;
    assert x == q * h + l;
    assert x * p == W32 * h + p * l by {
      assert (q * h) * p == (p * q) * h;
    }
    assert p * l < W32 by {
      assert p * l <= p * (q - 1);
      assert p * (q - 1) == p * q - p;
    }
    QuotientIs(x * p, W32, h, p * l);
    assert h < p by { DivBelow(x, p, q); }
    QuotientIs(h, W32, 0, h);
  }

  lemma {:induction false} DivBelow(x: nat, p: nat, q: nat)
    requires q > 0 && x < p * q
    ensures x / q < p
  {
    if x / q >= p {
      assert false;
    }
  }

  /** The bytes of a block are the words of the last state plus the input, little-endian. */
  lemma {:induction false} BlockWord(input: Matrix, rounds: int, i: nat)
    requires i < 16
    ensures LE(BlockBytes(input, rounds)[4 * i..4 * i + 4]) == (Rounds(input, rounds)[i] + input[i]) % W32
  {
    hide Rounds, LE, Store32, Load32, Add32;
    var y := seq(16, i requires 0 <= i < 16 => Add32(Rounds(input, rounds)[i], input[i]));
    SerializeAt(y, i);
    var b := Store32(y[i]);
    LE4(b);
    assert Load32(b, 0) == y[i] == Add32(Rounds(input, rounds)[i], input[i]);
    AddIs(Rounds(input, rounds)[i], input[i]);
  }

  lemma {:induction false} AddIs(a: Word32, b: Word32)
    ensures Add32(a, b) == (a + b) % W32
  {
  }

  lemma {:induction false} SerializeAt(x: seq<Word32>, i: nat)
    requires i < |x|
    ensures Serialize(x)[4 * i..4 * i + 4] == Store32(x[i])
  {
    hide Store32;
    if i < |x| - 1 {
      SerializeAt(x[..|x| - 1], i);
    }
  }

  /** Twenty rounds are ten double rounds. */
  function Repeated(x: Matrix, n: nat): Matrix
  {
    if n == 0 then x else DoubleRound(Repeated(x, n - 1))
  }

  lemma {:induction false} RoundsRepeat(x: Matrix, n: nat)
    ensures Rounds(x, 2 * n) == Repeated(x, n)
    decreases n
  {
    hide DoubleRound;
    if n > 0 {
      RoundsRepeat(DoubleRound(x), n - 1);
      RepeatedFirst(x, n - 1);
    }
  }

  lemma {:induction false} RepeatedFirst(x: Matrix, n: nat)
    ensures Repeated(DoubleRound(x), n) == Repeated(x, n + 1)
  {
    hide DoubleRound;
    if n > 0 {
      RepeatedFirst(x, n - 1);
    }
  }
}
