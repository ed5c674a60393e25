/** The set-up of OCB3 in ocb3_init.c for blocks of 16 bytes: the table L_*, L_$, L_0 .. L_31 and the
    first offset, against sections 2 and 4.2 of RFC 7253. L_* and Ktop, which the block cipher would
    give, are inputs. */
module Ocb3 {
  import opened BigEndian
  import opened Words

  datatype Status = Ok | InvalidArg | InvalidCipher

  // --- Doubling ----------------------------------------------------------------------------------

  /** double(S) of RFC 7253 on the number of a 128-bit string: multiplication by x in GF(2^128). */
  function Double(n: nat): nat
  {
    if 2 * n < Pow2(128) then 2 * n else Xor(2 * n - Pow2(128), 0x87)
  }

  function DoubleTimes(n: nat, i: nat): nat
  {
    if i == 0 then n else Double(DoubleTimes(n, i - 1))
  }

  const POLY: seq<Byte> := [0, 0, 0, 0, 0, 0, 0, 0, 0, 0, 0, 0, 0, 0, 0, 0x87]

  lemma {:induction false} PolyValue()
    ensures |POLY| == 16 && BE(POLY) == 0x87
  {
    var z: seq<Byte> := [0, 0, 0, 0, 0, 0, 0, 0, 0, 0, 0, 0, 0, 0, 0];
    assert POLY == z + [0x87];
    BESnoc(z, 0x87);
    Zeros(z);
  }

  lemma {:induction false} Zeros(z: seq<Byte>)
    requires forall i :: 0 <= i < |z| ==> z[i] == 0
    ensures BE(z) == 0
  {
    if |z| > 0 {
      Zeros(z[..|z| - 1]);
    }
  }

  /** ocb3_int_xor_blocks; any of the blocks may be the same. */
  method XorBlocks(out: array<Byte>, a: array<Byte>, b: array<Byte>)
    requires out.Length == a.Length == b.Length
    modifies out
    ensures out[..] == XorBytes(old(a[..]), old(b[..]))
  {
    hide XorByte;
    var n := out.Length;
    ghost var p, q := a[..], b[..];
    if out == a {
      for x := 0 to n
        invariant out[..x] == XorBytes(p, q)[..x] && out[x..] == p[x..] && b[x..] == q[x..]
      {
        out[x] := XorByte(out[x], b[x]);
      }
    } else {
      for x := 0 to n
        invariant out[..x] == XorBytes(p, q)[..x] && a[..] == p && b[x..] == q[x..]
      {
        out[x] := XorByte(a[x], b[x]);
      }
    }
  }

  /** `((a << 1) | (b >> 7)) & 255` */
  function DoubledByte(a: Byte, b: Byte): nat
  {
    And(Or(Shl(a, 1), Shr(b, 7)), 255)
  }

  lemma {:induction false} DoubledByteIs(a: Byte, b: Byte)
    ensures DoubledByte(a, b) == Joined(a, b, 1)
  {
    hide Bitwise, Joined, Shl;
    Pow2Literals();
    ShlIsMul(a, 1);
    Powers();
    OrDisjoint(1, Shr(b, 7), a);
    AndMask(8, 2 * a + Shr(b, 7));
    JoinedIs(a, b, 1);
    QuotientIs(2 * a + Shr(b, 7), 256, Shr(a, 7), Joined(a, b, 1));
  }

  lemma {:induction false} Powers()
    ensures Pow2(1) == 2 && Pow2(7) == 128 && Pow2(6) == 64
  {
    assert Pow2(2) == 4 && Pow2(4) == 16;
  }

  /** One turn of the table loop: `current` becomes the double of `previous`. */
  method DoubleInto(current: array<Byte>, previous: array<Byte>)
    requires current.Length == 16 && previous.Length == 16 && current != previous
    modifies current
    ensures BE(current[..]) == Double(BE(previous[..]))
  {
    hide Joined, BE, Double, DoubledByte, Pow2;
    ghost var p := previous[..];
    var m := Shr(previous[0], 7);
    for y := 0 to 15
      invariant forall j :: 0 <= j < y ==> current[j] == Joined(p[j], p[j + 1], 1)
    {
      DoubledByteIs(previous[y], previous[y + 1]);
      current[y] := DoubledByte(previous[y], previous[y + 1]);
    }
    DoubledByteIs(previous[15], 0);
    LastByte(previous[15]);
    current[15] := And(Shl(previous[15], 1), 255);
    assert current[..] == Shifted(p, 1, 0);
    if m == 1 {
      var poly := new Byte[16](i requires 0 <= i < 16 => POLY[i]);
      assert poly[..] == POLY;
      XorBlocks(current, current, poly);
    }
    DoubleValue(p, m, current[..]);
  }

  lemma {:induction false} LastByte(a: Byte)
    ensures And(Shl(a, 1), 255) == DoubledByte(a, 0)
  {
    hide Bitwise, Shl;
    Powers();
    QuotientIs(0, 128, 0, 0);
    BitwiseZero(OrOp, Shl(a, 1));
  }

  lemma {:induction false} DoubleValue(p: seq<Byte>, m: nat, c: seq<Byte>)
    requires |p| == 16 && m == Shr(p[0], 7)
    requires c == if m == 1 then XorBytes(Shifted(p, 1, 0), POLY) else Shifted(p, 1, 0)
    ensures BE(c) == Double(BE(p))
  {
    hide Joined, BE, Pow2, Bitwise;
    var s := Shifted(p, 1, 0);
    ShiftedValue(p, 1, 0);
    Powers();
    QuotientIs(0, 128, 0, 0);
    Halves(1);
    Parts(p[0], 2, 128);
    BEBound(s);
    PolyValue();
    XorValue(s, POLY);
  }

  // --- The first offset ------------------------------------------------------------------------------

  /** Stretch = Ktop || (Ktop[1..64] xor Ktop[9..72]) */
  function Stretch(ktop: seq<Byte>): (r: seq<Byte>)
    requires |ktop| == 16
    ensures |r| == 24
  {
    ktop + XorBytes(ktop[..8], ktop[1..9])
  }

  /** Section 4.2 of RFC 7253 in numbers: the 128 bits of Ktop, then its first 64 bits xor those from the ninth on. */
  lemma {:induction false} StretchValue(ktop: seq<Byte>)
    requires |ktop| == 16
    ensures BE(Stretch(ktop)) == BE(ktop) * W64 + Xor(BE(ktop) / W64, BE(ktop) / 0x100_0000_0000_0000 % W64)
  {
    hide BE, Pow2, Xor, XorBytes;
    var a, b := ktop[..8], ktop[1..9];
    BEConcat(ktop, XorBytes(a, b));
    XorValue(a, b);
    FirstBytes(ktop, 8);
    FirstBytes(ktop, 9);
    assert ktop[..9][1..] == b;
    LastBytes(ktop[..9], 1);
    Pow2Literals();
    Pow2Add(56, 8);
    assert BE(a) == BE(ktop) / W64 && BE(b) == BE(ktop) / 0x100_0000_0000_0000 % W64;
  }

  lemma {:induction false} FirstBytes(s: seq<Byte>, n: nat)
    requires n <= |s|
    ensures Pow2(8 * (|s| - n)) > 0 && BE(s) / Pow2(8 * (|s| - n)) == BE(s[..n])
  {
    hide BE, Pow2;
    assert s == s[..n] + s[n..];
    BEConcat(s[..n], s[n..]);
    BEBound(s[n..]);
    QuotientIs(BE(s), Pow2(8 * (|s| - n)), BE(s[..n]), BE(s[n..]));
  }

  lemma {:induction false} LastBytes(s: seq<Byte>, n: nat)
    requires n <= |s|
    ensures Pow2(8 * (|s| - n)) > 0 && BE(s) % Pow2(8 * (|s| - n)) == BE(s[n..])
  {
    hide BE, Pow2;
    assert s == s[..n] + s[n..];
    BEConcat(s[..n], s[n..]);
    BEBound(s[n..]);
    QuotientIs(BE(s), Pow2(8 * (|s| - n)), BE(s[..n]), BE(s[n..]));
  }

  /** The 128 bits of a 192-bit string that follow its first `bottom` bits. */
  function Slice(stretch: nat, bottom: nat): int
    requires bottom < 64
  {
    (stretch / Pow2(64 - bottom)) % Pow2(128)
  }

  lemma {:induction false} SliceValue(s: seq<Byte>, bottom: nat, idx: nat, k: nat)
    requires |s| == 24 && bottom < 64 && bottom == 8 * idx + k && k < 8
    ensures BE(Shifted(s[idx..idx + 16], k, s[idx + 16])) == Slice(BE(s), bottom)
  {
    hide Pow2, BE, Joined, Shifted;
    var pre, t, c, rest := s[..idx], s[idx..idx + 16], s[idx + 16], s[idx + 17..];
    var off := Shifted(t, k, c);
    assert s == (pre + t + [c]) + rest;
    BEConcat(pre + t + [c], rest);
    BESnoc(pre + t, c);
    BEConcat(pre, t);
    ShiftedValue(t, k, c);
    BEBound(off);
    BEBound(rest);
    Halves(k);
    Pow2Add(8 * (7 - idx), 8 - k);
    SliceArithmetic(BE(s), BE(pre), BE(t), c, BE(rest), BE(off), MovedOut(t, k, c),
                    Pow2(8 * (7 - idx)), Pow2(k), Pow2(8 - k), Pow2(128));
  }

  lemma {:induction false} SliceArithmetic(v: nat, pre: nat, t: nat, c: nat, rest: nat, off: nat, out: nat,
                                           r: nat, p: nat, q: nat, w: nat)
    requires r > 0 && p > 0 && q > 0 && w > 0 && p * q == 256 && c < 256 && rest < r && off < w
    requires v == (256 * (pre * w + t) + c) * r + rest && off + out * w == p * t + c / q
    ensures (v / (r * q)) % w == off
  {
    var d := pre * w + t;
    var x := p * d + c / q;
    assert x == w * (p * pre + out) + off by {
      assert p * d == p * (pre * w) + p * t;
      MulAssoc(p, pre, w);
      assert (p * pre) * w == w * (p * pre) && out * w == w * out;
      assert w * (p * pre + out) == w * (p * pre) + w * out;
    }
    assert 256 * d + c == q * x + c % q by {
      assert q * x == q * (p * d) + q * (c / q);
      MulAssoc(q, p, d);
      assert q * p == 256;
      assert c == q * (c / q) + c % q;
    }
    assert v == (r * q) * x + ((c % q) * r + rest) by {
      assert (q * x + c % q) * r == (q * x) * r + (c % q) * r;
      assert (q * x) * r == (r * q) * x by { MulAssoc(r, q, x); }
    }
    assert 0 <= (c % q) * r + rest < r * q by {
      Scale(r, c % q, q - 1);
      assert r * (q - 1) == r * q - r;
    }
    assert r * q > 0;
    QuotientIs(v, r * q, x, (c % q) * r + rest);
    QuotientIs(x, w, p * pre + out, off);
  }

  /** Nonce = num2str(TAGLEN mod 128, 7) || zeros(120 - bitlen(N)) || 1 || N, with `taglen` in bytes. */
  function NonceNumber(nonce: seq<Byte>, taglen: nat): nat
    requires |nonce| <= 15
  {
    (taglen * 8 % 128) * Pow2(121) + Pow2(8 * |nonce|) + BE(nonce)
  }

  lemma {:induction false} FirstByte(b: Byte, v: nat)
    requires b < 2 && v < 128
    ensures Or(b, Shl(v, 1)) == b + 2 * v
  {
    hide Bitwise, Shl;
    Powers();
    ShlIsMul(v, 1);
    OrDisjoint(1, b, v);
  }

  lemma {:induction false} PrefixValue(s: seq<Byte>, v: nat)
    requires 0 < |s| <= 16 && v < 128
    requires s[0] == 2 * v + (if |s| == 1 then 1 else 0) && (|s| > 1 ==> s[|s| - 1] == 1)
    requires forall j :: 0 < j < |s| - 1 ==> s[j] == 0
    ensures BE(s) == 2 * v * Pow2(8 * (|s| - 1)) + 1
  {
    hide Pow2;
    var n := |s| - 1;
    if n == 0 {
      Pow2Zero();
      assert s == [] + [s[0]];
      BESnoc([], s[0]);
    } else {
      var mid: seq<Byte> := s[1..n];
      Zeros(mid);
      BESnoc(mid, 1);
      assert s == [s[0]] + (mid + [1]);
      BEConcat([s[0]], mid + [1]);
      assert [s[0]] == [] + [s[0]];
      BESnoc([], s[0]);
    }
  }

  lemma {:induction false} NonceValue(s: seq<Byte>, nonce: seq<Byte>, taglen: nat)
    requires |nonce| <= 15 && |s| == 16 && s[16 - |nonce|..] == nonce
    requires var v, n := taglen * 8 % 128, 16 - |nonce|;
      && s[0] == 2 * v + (if n == 1 then 1 else 0) && (n > 1 ==> s[n - 1] == 1)
      && forall j :: 0 < j < n - 1 ==> s[j] == 0
    ensures BE(s) == NonceNumber(nonce, taglen)
  {
    hide Pow2, BE;
    var v, n := taglen * 8 % 128, 16 - |nonce|;
    PrefixValue(s[..n], v);
    assert s == s[..n] + nonce;
    BEConcat(s[..n], nonce);
    Pow2Add(8 * (n - 1), 8 * |nonce|);
    Pow2Add(1, 120);
    Powers();
    NonceArithmetic(v, Pow2(8 * (n - 1)), Pow2(8 * |nonce|), Pow2(120));
  }

  lemma {:induction false} NonceArithmetic(v: nat, a: nat, b: nat, w: nat)
    requires a * b == w
    ensures (2 * v * a + 1) * b == v * (2 * w) + b
  {
    MulAssoc(2 * v, a, b);
  }

  /** The nonce block, built from its end. */
  method BuildNonce(nonce: seq<Byte>, taglen: nat) returns (iNonce: array<Byte>)
    requires |nonce| <= 15
    ensures fresh(iNonce) && iNonce.Length == 16 && BE(iNonce[..]) == NonceNumber(nonce, taglen)
  {
    hide BE, Pow2, Bitwise;
    var noncelen := |nonce|;
    iNonce := new Byte[16](_ => 0);
    var x, y := 15, 0;
    while y < noncelen
      invariant 0 <= y <= noncelen && x == 15 - y
      invariant forall j :: 0 <= j <= x ==> iNonce[j] == 0
      invariant forall j :: x < j < 16 ==> iNonce[j] == nonce[j - 16 + noncelen]
    {
      iNonce[x] := nonce[noncelen - y - 1];
      x, y := x - 1, y + 1;
    }
    iNonce[x] := 1;
    FirstByte(iNonce[0], taglen * 8 % 128);
    iNonce[0] := Or(iNonce[0], Shl(taglen * 8 % 128, 1));
    NonceValue(iNonce[..], nonce, taglen);
  }

  lemma {:induction false} BottomIs(s: seq<Byte>)
    requires |s| > 0
    ensures And(s[|s| - 1], 0x3f) == BE(s) % 64
  {
    hide Bitwise, Pow2;
    Powers();
    AndMask(6, s[|s| - 1]);
  }

  /** `(a << shift) | (b >> (8 - shift))` in a byte */
  function OffsetByte(a: Byte, b: Byte, shift: nat): nat
    requires shift < 8
  {
    if shift > 0 then Or(Shl(a, shift) % 256, Shr(b, 8 - shift)) else Shl(a, shift) % 256
  }

  lemma {:induction false} OffsetByteIs(a: Byte, b: Byte, k: nat)
    requires k < 8
    ensures OffsetByte(a, b, k) == Joined(a, b, k)
  {
    hide Bitwise, Pow2, Shl;
    ShlIsMul(a, k);
    Halves(k);
    Parts(a, Pow2(k), Pow2(8 - k));
    Parts(b, Pow2(k), Pow2(8 - k));
    QuotientIs(Pow2(k) * a, 256, a / Pow2(8 - k), Pow2(k) * (a % Pow2(8 - k)));
    OrDisjoint(k, Shr(b, 8 - k), a % Pow2(8 - k));
    if k == 0 {
      Pow2Zero();
    }
  }

  /** _ocb3_int_calc_offset_zero: the offset is the 128 bits of Stretch from bit `bottom` on. */
  method OffsetZero(offset: array<Byte>, nonce: seq<Byte>, taglen: nat, ktop: seq<Byte>)
    requires offset.Length == 16 && |nonce| <= 15 && |ktop| == 16
    modifies offset
    ensures BE(offset[..]) == Slice(BE(Stretch(ktop)), NonceNumber(nonce, taglen) % 64)
  {
    hide BE, Pow2, Bitwise, NonceNumber, Joined, Slice, OffsetByte;
    var iNonce := BuildNonce(nonce, taglen);
    BottomIs(iNonce[..]);
    var bottom := And(iNonce[15], 0x3f);
    var stretch := StretchInto(ktop);
    var idx, shift := bottom / 8, bottom % 8;
    ghost var s := stretch[..];
    for x := 0 to 16
      invariant stretch[..] == s
      invariant forall j :: 0 <= j < x ==> offset[j] == Joined(s[idx + j], s[idx + j + 1], shift)
    {
      OffsetByteIs(stretch[idx + x], stretch[idx + x + 1], shift);
      offset[x] := OffsetByte(stretch[idx + x], stretch[idx + x + 1], shift);
    }
    assert offset[..] == Shifted(s[idx..idx + 16], shift, s[idx + 16]);
    SliceValue(s, bottom, idx, shift);
  }

  method StretchInto(ktop: seq<Byte>) returns (stretch: array<Byte>)
    requires |ktop| == 16
    ensures fresh(stretch) && stretch[..] == Stretch(ktop)
  {
    hide XorByte;
    stretch := new Byte[24];
    for x := 0 to 16
      invariant stretch[..x] == ktop[..x]
    {
      stretch[x] := ktop[x];
    }
    for y := 0 to 8
      invariant stretch[..16] == ktop
      invariant forall j :: 0 <= j < y ==> stretch[16 + j] == XorByte(ktop[j], ktop[j + 1])
    {
      stretch[16 + y] := XorByte(ktop[y], ktop[y + 1]);
    }
    assert stretch[..] == Stretch(ktop);
  }

  // --- The state -----------------------------------------------------------------------------------------

  class State {
    const star: array<Byte>
    const dollar: array<Byte>
    const table: seq<array<Byte>>
    const offset: array<Byte>
    const checksum: array<Byte>
    const aOffset: array<Byte>
    const aSum: array<Byte>
    var blockIndex: nat
    var ablockIndex: nat
    var adataBufferBytes: nat
    var tagLen: nat

    /** Thirty-eight separate blocks of 16 bytes. */
    ghost predicate Shape()
    {
      && star.Length == dollar.Length == offset.Length == checksum.Length == aOffset.Length == aSum.Length == 16 && |table| == 32
      && star != dollar && offset !in {star, dollar} && checksum !in {star, dollar, offset}
      && aOffset !in {star, dollar, offset, checksum} && aSum !in {star, dollar, offset, checksum, aOffset}
      && (forall i :: 0 <= i < 32 ==> table[i].Length == 16 && table[i] !in {star, dollar, offset, checksum, aOffset, aSum})
      && (forall i, j :: 0 <= i < j < 32 ==> table[i] != table[j])
    }

    ghost predicate Doubled(count: nat)
      requires Shape() && count <= 32
      reads star, table
    {
      forall i :: 0 <= i < count ==> BE(table[i][..]) == DoubleTimes(BE(star[..]), i + 2)
    }

    /** The loop that fills L_$ and L_0 .. L_31. */
    method FillTable()
      requires Shape()
      modifies dollar, table
      ensures BE(dollar[..]) == Double(BE(star[..])) && Doubled(32)
    {
      hide BE, Double;
      ghost var n := BE(star[..]);
      DoubleInto(dollar, star);
      TwiceDoubled(n);
      DoubleInto(table[0], dollar);
      for x := 1 to 32
        invariant BE(star[..]) == n && BE(dollar[..]) == Double(n) && Doubled(x)
      {
        NextDoubled(n, x + 1);
        DoubleInto(table[x], table[x - 1]);
      }
    }

    /** ocb3_init, given L_* and Ktop. */
    method Init(validCipher: bool, nonce: seq<Byte>, taglen: nat, ktop: seq<Byte>) returns (status: Status)
      requires Shape() && |ktop| == 16
      modifies this, dollar, table, offset, checksum, aOffset, aSum
      ensures status == if !validCipher then InvalidCipher
                        else if |nonce| > 15 || taglen > 16 then InvalidArg else Ok
      ensures status == Ok ==> BE(dollar[..]) == Double(BE(star[..])) && Doubled(32)
      ensures status == Ok ==> BE(offset[..]) == Slice(BE(Stretch(ktop)), NonceNumber(nonce, taglen) % 64)
      ensures status == Ok ==> (forall j :: 0 <= j < 16 ==> checksum[j] == 0) && blockIndex == 1 && tagLen == taglen
      ensures status == Ok ==> NoAad()
      ensures star[..] == old(star[..])
      ensures status != Ok ==> dollar[..] == old(dollar[..]) && offset[..] == old(offset[..]) && checksum[..] == old(checksum[..])
      ensures status != Ok ==> forall i :: 0 <= i < 32 ==> table[i][..] == old(table[i][..])
      ensures status != Ok ==> unchanged(this) && aOffset[..] == old(aOffset[..]) && aSum[..] == old(aSum[..])
    {
      hide BE, Double, Slice, NonceNumber, Stretch;
      if !validCipher {
        return InvalidCipher;
      }
      if |nonce| > 120 / 8 {
        return InvalidArg;
      }
      if taglen > 16 {
        return InvalidArg;
      }
      tagLen := taglen;
      FillTable();
      label filled:
      OffsetZero(offset, nonce, taglen, ktop);
      ghost var first := offset[..];
      Restart();
      assert offset[..] == first && dollar[..] == old@filled(dollar[..]) && star[..] == old@filled(star[..]);
      assert forall i :: 0 <= i < 32 ==> table[i][..] == old@filled(table[i][..]);
      return Ok;
    }

    /** No associated data yet. */
    ghost predicate NoAad()
      requires Shape()
      reads this, aOffset, aSum
    {
      ablockIndex == 1 && adataBufferBytes == 0 && forall j :: 0 <= j < 16 ==> aOffset[j] == 0 && aSum[j] == 0
    }

    /** The counters and running sums of data and associated data. */
    method Restart()
      requires Shape()
      modifies this`blockIndex, this`ablockIndex, this`adataBufferBytes, checksum, aOffset, aSum
      ensures (forall j :: 0 <= j < 16 ==> checksum[j] == 0) && blockIndex == 1 && NoAad()
    {
      ZeroBlock(checksum);
      blockIndex := 1;
      ablockIndex := 1;
      adataBufferBytes := 0;
      ZeroBlock(aOffset);
      ZeroBlock(aSum);
    }
  }

  /** zeromem */
  method ZeroBlock(block: array<Byte>)
    modifies block
    ensures forall j :: 0 <= j < block.Length ==> block[j] == 0
  {
    for j := 0 to block.Length
      invariant forall i :: 0 <= i < j ==> block[i] == 0
    {
      block[j] := 0;
    }
  }

  lemma {:induction false} TwiceDoubled(n: nat)
    ensures Double(Double(n)) == DoubleTimes(n, 2)
  {
    hide Double;
    assert DoubleTimes(n, 1) == Double(DoubleTimes(n, 0));
  }

  lemma {:induction false} NextDoubled(n: nat, i: nat)
    ensures DoubleTimes(n, i + 1) == Double(DoubleTimes(n, i))
  {
  }
}
