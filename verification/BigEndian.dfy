/** Byte strings as big-endian numbers: concatenation, exclusive or and shifts by a few bits. */
module BigEndian {
  import opened Words

  function BE(s: seq<Byte>): nat
  {
    if |s| == 0 then 0 else 256 * BE(s[..|s| - 1]) + s[|s| - 1]
  }

  lemma {:induction false} Pow2Byte(n: nat)
    ensures Pow2(8 * (n + 1)) == 256 * Pow2(8 * n)
  {
    Pow2Literals();
    Pow2Add(8, 8 * n);
  }

  lemma {:induction false} BESnoc(s: seq<Byte>, b: Byte)
    ensures BE(s + [b]) == 256 * BE(s) + b
  {
    assert (s + [b])[..|s|] == s;
  }

  lemma {:induction false} BEBound(s: seq<Byte>)
    ensures BE(s) < Pow2(8 * |s|)
  {
    if |s| > 0 {
      BEBound(s[..|s| - 1]);
      Pow2Byte(|s| - 1);
    }
  }

  lemma {:induction false} BEConcat(a: seq<Byte>, b: seq<Byte>)
    ensures BE(a + b) == BE(a) * Pow2(8 * |b|) + BE(b)
  {
    if |b| == 0 {
      assert a + b == a;
    } else {
      var b', x := b[..|b| - 1], b[|b| - 1];
      assert a + b == (a + b') + [x] && b == b' + [x];
      BESnoc(a + b', x);
      BESnoc(b', x);
      BEConcat(a, b');
      Pow2Byte(|b'|);
      Distribute(BE(a), Pow2(8 * |b'|), BE(b'));
    }
  }

  lemma {:induction false} Distribute(a: nat, p: nat, b: nat)
    ensures 256 * (a * p + b) == a * (256 * p) + 256 * b
  {
  }

  // --- Exclusive or ----------------------------------------------------------------------------

  function XorBytes(a: seq<Byte>, b: seq<Byte>): (r: seq<Byte>)
    requires |a| == |b|
    ensures |r| == |a|
  {
    seq(|a|, i requires 0 <= i < |a| => XorByte(a[i], b[i]))
  }

  /** Exclusive or byte by byte is exclusive or of the numbers. */
  lemma {:induction false} XorValue(a: seq<Byte>, b: seq<Byte>)
    requires |a| == |b|
    ensures BE(XorBytes(a, b)) == Xor(BE(a), BE(b))
  {
    hide Bitwise;
    if |a| == 0 {
      BitwiseZero(XorOp, 0);
    } else {
      var n := |a| - 1;
      XorValue(a[..n], b[..n]);
      assert XorBytes(a, b)[..n] == XorBytes(a[..n], b[..n]);
      Pow2Literals();
      BitwiseSplit(XorOp, 8, a[n], b[n], BE(a[..n]), BE(b[..n]));
    }
  }

  // --- Shifts ------------------------------------------------------------------------------------

  lemma {:induction false} Halves(k: nat)
    requires k < 8
    ensures Pow2(k) * Pow2(8 - k) == 256
  {
    Pow2Literals();
    Pow2Add(k, 8 - k);
  }

  lemma {:induction false} Parts(a: nat, p: nat, q: nat)
    requires a < 256 && p * q == 256 && p > 0 && q > 0
    ensures 0 <= a / q < p && 0 <= p * (a % q) <= 256 - p && p * a == 256 * (a / q) + p * (a % q)
  {
    var d, r := a / q, a % q;
    assert a == q * d + r;
    MulAssoc(p, q, d);
    assert p * a == p * (q * d) + p * r;
    Scale(p, r, q - 1);
    Below(q, d, p, r);
  }

  lemma {:induction false} Below(q: int, d: int, p: int, r: int)
    requires 0 <= q * d + r < q * p && 0 <= r < q
    ensures 0 <= d < p
  {
  }

  lemma {:induction false} Scale(m: nat, a: int, b: int)
    requires a <= b
    ensures m * a <= m * b
  {
  }

  /** The byte that starts `k` bits into `a` and ends in `b`. */
  function Joined(a: Byte, b: Byte, k: nat): Byte
    requires k < 8
  {
    var p, q := Pow2(k), Pow2(8 - k);
    Halves(k);
    Parts(a, p, q);
    Parts(b, p, q);
    p * (a % q) + b / q
  }

  /** The bytes of `s` moved `k` bits to the left, with bits of `c` moved in. */
  function Shifted(s: seq<Byte>, k: nat, c: Byte): (r: seq<Byte>)
    requires k < 8
    ensures |r| == |s|
  {
    seq(|s|, i requires 0 <= i < |s| => Joined(s[i], if i + 1 < |s| then s[i + 1] else c, k))
  }

  /** The bits moved out. */
  function MovedOut(s: seq<Byte>, k: nat, c: Byte): nat
    requires k < 8
  {
    Shr(if |s| == 0 then c else s[0], 8 - k)
  }

  /** Moving a string to the left multiplies its number, less what is moved out and more what is moved in. */
  lemma {:induction false} ShiftedValue(s: seq<Byte>, k: nat, c: Byte)
    requires k < 8
    ensures BE(Shifted(s, k, c)) + MovedOut(s, k, c) * Pow2(8 * |s|) == Pow2(k) * BE(s) + Shr(c, 8 - k)
  {
    hide Pow2, Joined;
    if |s| == 0 {
      Pow2Zero();
    } else {
      var n := |s| - 1;
      var s', b := s[..n], s[n];
      ShiftedValue(s', k, b);
      assert Shifted(s, k, c) == Shifted(s', k, b) + [Joined(b, c, k)];
      BESnoc(Shifted(s', k, b), Joined(b, c, k));
      Pow2Byte(n);
      JoinedIs(b, c, k);
      ShiftedStep(BE(Shifted(s', k, b)), MovedOut(s, k, c), Pow2(8 * n), Pow2(k), BE(s'), b, Shr(b, 8 - k),
                  Joined(b, c, k), Shr(c, 8 - k));
    }
  }

  lemma {:induction false} Pow2Zero()
    ensures Pow2(0) == 1
  {
  }

  lemma {:induction false} JoinedIs(a: Byte, b: Byte, k: nat)
    requires k < 8
    ensures Joined(a, b, k) + 256 * Shr(a, 8 - k) == Pow2(k) * a + Shr(b, 8 - k)
  {
    hide Pow2;
    Halves(k);
    Parts(a, Pow2(k), Pow2(8 - k));
  }

  lemma {:induction false} ShiftedStep(x: int, out: int, w: int, p: int, v: int, b: int, hi: int, j: int, c: int)
    requires x + out * w == p * v + hi && j + 256 * hi == p * b + c
    ensures 256 * x + j + out * (256 * w) == p * (256 * v + b) + c
  {
    assert out * (256 * w) == 256 * (out * w);
    assert p * (256 * v + b) == 256 * (p * v) + p * b;
  }
}
