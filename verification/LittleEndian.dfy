/** Little-endian byte strings and the 32-bit loads and stores of
    chacha20poly1305_memory.c. */
module LittleEndian {
  import opened Words

  /** The number a byte string denotes, least significant byte first. */
  function LE(b: seq<Byte>): nat
  {
    if b == [] then 0 else b[0] + 0x100 * LE(b[1..])
  }

  /** The `n` low bytes of `x`, least significant first. */
  function Bytes(x: nat, n: nat): (b: seq<Byte>)
    ensures |b| == n
  {
    if n == 0 then [] else [x % 0x100] + Bytes(x / 0x100, n - 1)
  }

  lemma {:induction false} LEBytes(x: nat, n: nat)
    requires x < Pow2(8 * n)
    ensures LE(Bytes(x, n)) == x
  {
    if n > 0 {
      Pow2Step(n);
      LEBytes(x / 0x100, n - 1);
      assert Bytes(x, n)[1..] == Bytes(x / 0x100, n - 1);
    }
  }

  lemma {:induction false} BytesLE(b: seq<Byte>)
    ensures Bytes(LE(b), |b|) == b
  {
    if b != [] {
      BytesLE(b[1..]);
      QuotientIs(LE(b), 0x100, LE(b[1..]), b[0]);
    }
  }

  lemma {:induction false} Pow2Step(n: nat)
    requires n > 0
    ensures Pow2(8 * n) == 0x100 * Pow2(8 * (n - 1))
  {
    Pow2Add(8, 8 * (n - 1));
    Pow2Literals();
  }

  lemma {:induction false} LEBound(b: seq<Byte>)
    ensures LE(b) < Pow2(8 * |b|)
  {
    if b != [] {
      LEBound(b[1..]);
      Pow2Step(|b|);
    }
  }

  lemma {:induction false} LEConcat(a: seq<Byte>, b: seq<Byte>)
    ensures LE(a + b) == LE(a) + Pow2(8 * |a|) * LE(b)
  {
    if a == [] {
      assert a + b == b;
    } else {
      assert (a + b)[1..] == a[1..] + b;
      LEConcat(a[1..], b);
      Pow2Step(|a|);
      MulAssoc(0x100, Pow2(8 * (|a| - 1)), LE(b));
    }
  }

  lemma {:induction false} LEZeros(n: nat)
    ensures LE(seq(n, _ => 0)) == 0
  {
    if n > 0 {
      assert seq(n, _ => 0)[1..] == seq(n - 1, _ => 0);
      LEZeros(n - 1);
    }
  }

  /** The number of four bytes, least significant first. */
  function Quad(b0: nat, b1: nat, b2: nat, b3: nat): nat
  {
    b0 + 0x100 * b1 + 0x1_0000 * b2 + 0x100_0000 * b3
  }

  /** Four bytes joined with shifts and ors. */
  function Join(b0: nat, b1: nat, b2: nat, b3: nat): nat
  {
    Or(Or(Or(0x100_0000 * b3, 0x1_0000 * b2), 0x100 * b1), b0)
  }

  lemma {:induction false} JoinIsQuad(b0: nat, b1: nat, b2: nat, b3: nat)
    requires b0 < 0x100 && b1 < 0x100 && b2 < 0x100 && b3 < 0x100
    ensures Join(b0, b1, b2, b3) == Quad(b0, b1, b2, b3)
  {
    hide Or, Pow2;
    Pow2Literals();
    OrDisjoint(24, 0x1_0000 * b2, b3);
    OrDisjoint(16, 0x100 * b1, b2 + 0x100 * b3);
    OrDisjoint(8, b0, b1 + 0x100 * b2 + 0x1_0000 * b3);
  }

  /** LOAD32L */
  function Load32(m: seq<Byte>, i: nat): (w: Word32)
    requires i + 4 <= |m|
    ensures w == Quad(m[i], m[i + 1], m[i + 2], m[i + 3])
  {
    JoinIsQuad(m[i], m[i + 1], m[i + 2], m[i + 3]);
    Join(m[i], m[i + 1], m[i + 2], m[i + 3])
  }

  /** STORE32L: four shifts, each masked with 255. */
  function Store32(x: Word32): (b: seq<Byte>)
    ensures |b| == 4 && Load32(b, 0) == x
  {
    Low8IsAnd(x); Low8IsAnd(x / 0x100); Low8IsAnd(x / 0x1_0000); Low8IsAnd(x / 0x100_0000);
    Digits(x);
    [And(x, 255), And(x / 0x100, 255), And(x / 0x1_0000, 255), And(x / 0x100_0000, 255)]
  }

  lemma {:induction false} Low8IsAnd(x: nat)
    ensures And(x, 255) == x % 0x100
  {
    Pow2Literals();
    AndMask(8, x);
  }

  lemma {:induction false} Digits(x: Word32)
    ensures Quad(x % 0x100, x / 0x100 % 0x100, x / 0x1_0000 % 0x100, x / 0x100_0000 % 0x100) == x
  {
    var y, z := x / 0x100, x / 0x1_0000;
    assert z == y / 0x100 && x / 0x100_0000 == z / 0x100;
  }

  lemma {:induction false} LE4(b: seq<Byte>)
    requires |b| == 4
    ensures LE(b) == Quad(b[0], b[1], b[2], b[3])
  {
    var b1, b2, b3 := b[1..], b[2..], b[3..];
    assert b1[1..] == b2 && b2[1..] == b3 && b3[1..] == [];
    assert LE(b3) == b[3];
    assert LE(b2) == b[2] + 0x100 * LE(b3);
    assert LE(b1) == b[1] + 0x100 * LE(b2);
  }

  lemma {:induction false} LESplit(b: seq<Byte>, n: nat)
    requires n <= |b|
    ensures LE(b) == LE(b[..n]) + Pow2(8 * n) * LE(b[n..])
  {
    LEConcat(b[..n], b[n..]);
    assert b == b[..n] + b[n..];
  }

  lemma {:induction false} LESplit4(b: seq<Byte>)
    requires |b| >= 4
    ensures LE(b) == LE(b[..4]) + W32 * LE(b[4..])
  {
    LESplit(b, 4);
    Pow2Literals();
  }

  /** A 16-byte string as four 32-bit words. */
  lemma {:induction false} LE16(b: seq<Byte>)
    requires |b| == 16
    ensures LE(b) == LE(b[..4]) + W32 * LE(b[4..8]) + W64 * LE(b[8..12]) + W64 * W32 * LE(b[12..])
  {
    LESplit4(b);
    LESplit4(b[4..]);
    LESplit4(b[8..]);
    assert b[4..][..4] == b[4..8] && b[4..][4..] == b[8..];
    assert b[8..][..4] == b[8..12] && b[8..][4..] == b[12..];
  }

  /** The concatenation of a sequence of byte strings. */
  function Flatten(chunks: seq<seq<Byte>>): seq<Byte>
  {
    if chunks == [] then [] else Flatten(chunks[..|chunks| - 1]) + chunks[|chunks| - 1]
  }

  lemma {:induction false} FlattenPrefix(chunks: seq<seq<Byte>>, i: nat)
    requires i <= |chunks|
    ensures |Flatten(chunks[..i])| <= |Flatten(chunks)|
    decreases |chunks|
  {
    if i < |chunks| {
      FlattenPrefix(chunks[..|chunks| - 1], i);
      assert chunks[..|chunks| - 1][..i] == chunks[..i];
    } else {
      assert chunks[..i] == chunks;
    }
  }
}
