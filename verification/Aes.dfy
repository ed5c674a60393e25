/** AES key setup and single-block encryption and decryption of aes.c, for 16, 24 and 32 byte keys,
    against KeyExpansion and Cipher of FIPS 197. */
module Aes {
  import opened AesColumns
  import opened ByteColumns
  import opened AesRounds
  import Words
  import opened Xor

  datatype Status = Ok | InvalidKeysize | InvalidRounds

  // --- Blocks as bytes -----------------------------------------------------------------------

  /** LOAD32H */
  function Load(s: seq<bv8>, at: nat): bv32
    requires at + 4 <= |s|
  {
    Column(s[at], s[at + 1], s[at + 2], s[at + 3])
  }

  /** STORE32H */
  function Store(x: bv32): (r: seq<bv8>)
    ensures |r| == 4
  {
    [Row0(x), Row1(x), Row2(x), Row3(x)]
  }

  function FromBytes(p: seq<bv8>): State
    requires |p| == 16
  {
    State(Load(p, 0), Load(p, 4), Load(p, 8), Load(p, 12))
  }

  function ToBytes(s: State): (r: seq<bv8>)
    ensures |r| == 16
  {
    Store(s.c0) + Store(s.c1) + Store(s.c2) + Store(s.c3)
  }

  lemma {:induction false} LoadStore(a: seq<bv8>, x: bv32, c: seq<bv8>)
    ensures Load(a + Store(x) + c, |a|) == x
  {
    hide Column, Row0, Row1, Row2, Row3;
    RowsColumn(x);
  }

  lemma {:induction false} StoreLoad(p: seq<bv8>, at: nat)
    requires at + 4 <= |p|
    ensures Store(Load(p, at)) == p[at..at + 4]
  {
    hide Column, Row0, Row1, Row2, Row3;
    ColumnRows(p[at], p[at + 1], p[at + 2], p[at + 3]);
  }

  lemma {:induction false} BytesRoundTrip(s: State, p: seq<bv8>)
    requires |p| == 16
    ensures FromBytes(ToBytes(s)) == s && ToBytes(FromBytes(p)) == p
  {
    hide Load, Store;
    var r := ToBytes(s);
    var a, b, c, d := Store(s.c0), Store(s.c1), Store(s.c2), Store(s.c3);
    assert r == [] + a + (b + c + d) == a + b + (c + d) == (a + b) + c + d == (a + b + c) + d + [];
    LoadStore([], s.c0, b + c + d); LoadStore(a, s.c1, c + d); LoadStore(a + b, s.c2, d); LoadStore(a + b + c, s.c3, []);
    StoreLoad(p, 0); StoreLoad(p, 4); StoreLoad(p, 8); StoreLoad(p, 12);
  }

  /** Section 3.4 of FIPS 197: byte r + 4 c of the input is row r of column c, and the rows are from the top. */
  lemma {:induction false} InputBytes(p: seq<bv8>)
    requires |p| == 16
    ensures var s := FromBytes(p);
      && p[0..4] == [Row0(s.c0), Row1(s.c0), Row2(s.c0), Row3(s.c0)]
      && p[4..8] == [Row0(s.c1), Row1(s.c1), Row2(s.c1), Row3(s.c1)]
      && p[8..12] == [Row0(s.c2), Row1(s.c2), Row2(s.c2), Row3(s.c2)]
      && p[12..16] == [Row0(s.c3), Row1(s.c3), Row2(s.c3), Row3(s.c3)]
  {
    hide Column, Row0, Row1, Row2, Row3;
    ColumnRows(p[0], p[1], p[2], p[3]); ColumnRows(p[4], p[5], p[6], p[7]);
    ColumnRows(p[8], p[9], p[10], p[11]); ColumnRows(p[12], p[13], p[14], p[15]);
  }

  // --- Key expansion -----------------------------------------------------------------------------

  function RotWord(x: bv32): bv32 { Column(Row1(x), Row2(x), Row3(x), Row0(x)) }
  function SubWord(b: Boxes, x: bv32): bv32 { SubColumn(b.sub, x) }

  /** x^n in GF(2^8). */
  function PowerOfX(n: nat): bv8
  {
    if n == 0 then 1 else Double(PowerOfX(n - 1))
  }

  /** KeyExpansion, section 5.2 of FIPS 197. */
  function KeyWord(b: Boxes, key: seq<bv8>, nk: nat, i: nat): bv32
    requires 0 < nk && 4 * nk <= |key|
    decreases i
  {
    if i < nk then
      Load(key, 4 * i)
    else
      var temp := KeyWord(b, key, nk, i - 1);
      var temp :=
        if i % nk == 0 then X32(SubWord(b, RotWord(temp)), Column(PowerOfX(i / nk - 1), 0, 0, 0))
        else if 6 < nk && i % nk == 4 then SubWord(b, temp)
        else temp;
      X32(KeyWord(b, key, nk, i - nk), temp)
  }

  /** The first words are the key, its first byte at the top. */
  lemma {:induction false} KeyBytes(b: Boxes, key: seq<bv8>, nk: nat, i: nat)
    requires 4 * nk <= |key| && i < nk
    ensures var w := KeyWord(b, key, nk, i);
      key[4 * i..4 * i + 4] == [Row0(w), Row1(w), Row2(w), Row3(w)]
  {
    hide Column, Row0, Row1, Row2, Row3;
    ColumnRows(key[4 * i], key[4 * i + 1], key[4 * i + 2], key[4 * i + 3]);
  }

  function Schedule(b: Boxes, key: seq<bv8>, nk: nat, n: nat): (w: seq<bv32>)
    requires 0 < nk && 4 * nk <= |key|
    ensures |w| == n
  {
    seq(n, i requires 0 <= i < n => KeyWord(b, key, nk, i))
  }

  const RCON: seq<bv32> := [0x01000000, 0x02000000, 0x04000000, 0x08000000, 0x10000000,
                            0x20000000, 0x40000000, 0x80000000, 0x1B000000, 0x36000000]

  function Rcon(i: nat): bv32
    requires i < 10
  {
    RCON[i]
  }

  /** setup_mix */
  function SetupMix(b: Boxes, x: bv32): bv32
  {
    Sum32(Te43(b, Row1(x)), Te42(b, Row2(x)), Te41(b, Row3(x)), Te40(b, Row0(x)))
  }

  lemma {:induction false} RotRor(x: bv32)
    ensures RotWord(Ror8(x)) == x
  {
  }

  /** The table gives SubWord after RotWord; after a rotation by a byte, SubWord alone. */
  lemma {:induction false} SetupMixCorrect(b: Boxes, x: bv32)
    ensures SetupMix(b, x) == SubWord(b, RotWord(x)) && SetupMix(b, Ror8(x)) == SubWord(b, x)
  {
    hide Ror8, Sum32, SubColumn, SetupMix, RotWord;
    SetupMixOne(b, x);
    SetupMixOne(b, Ror8(x));
    RotRor(x);
  }

  lemma {:induction false} SetupMixOne(b: Boxes, x: bv32)
    ensures SetupMix(b, x) == SubWord(b, RotWord(x))
  {
    hide Column, Row0, Row1, Row2, Row3;
    ColumnRows(Row1(x), Row2(x), Row3(x), Row0(x));
    Disjoint(b.sub(Row1(x)), b.sub(Row2(x)), b.sub(Row3(x)), b.sub(Row0(x)));
  }

  /** The round constants are the powers of x. */
  lemma {:induction false} RconCorrect(i: nat)
    requires i < 10
    ensures Rcon(i) == Column(PowerOfX(i), 0, 0, 0)
  {
    assert PowerOfX(0) == 1 && PowerOfX(1) == 2 && PowerOfX(2) == 4;
    assert PowerOfX(3) == 8 && PowerOfX(4) == 16 && PowerOfX(5) == 32;
    assert PowerOfX(6) == 64 && PowerOfX(7) == 128 && PowerOfX(8) == 0x1b && PowerOfX(9) == 0x36;
  }

  /** The first word of a turn of the expansion loop, and the others. */
  lemma {:induction false} FirstWord(b: Boxes, key: seq<bv8>, nk: nat, n: nat, i: nat)
    requires 0 < nk && 4 * nk <= |key| && i < 10 && n == nk * i + nk
    ensures KeyWord(b, key, nk, n)
         == X32(X32(KeyWord(b, key, nk, n - nk), SetupMix(b, KeyWord(b, key, nk, n - 1))), Rcon(i))
  {
    hide SetupMix, SubWord, RotWord, Column, PowerOfX, X32, Rcon;
    assert n == nk * (i + 1) + 0;
    Words.QuotientIs(n, nk, i + 1, 0);
    var temp := KeyWord(b, key, nk, n - 1);
    SetupMixCorrect(b, temp);
    RconCorrect(i);
    XAssoc(KeyWord(b, key, nk, n - nk), SetupMix(b, temp), Rcon(i));
  }

  lemma {:induction false} NextWord(b: Boxes, key: seq<bv8>, nk: nat, n: nat, i: nat, c: nat)
    requires 0 < c < nk && 4 * nk <= |key| && n == nk * i + nk + c
    ensures KeyWord(b, key, nk, n) == X32(KeyWord(b, key, nk, n - nk), Fed(b, nk, c, KeyWord(b, key, nk, n - 1)))
  {
    hide SetupMix, SubWord, RotWord, Ror8, Column, PowerOfX, X32;
    assert n == nk * (i + 1) + c;
    Words.QuotientIs(n, nk, i + 1, c);
    SetupMixCorrect(b, KeyWord(b, key, nk, n - 1));
  }

  /** What the word before adds to word `c` of a turn. */
  function Fed(b: Boxes, nk: nat, c: nat, last: bv32): bv32
  {
    if 6 < nk && c == 4 then SetupMix(b, Ror8(last)) else last
  }

  // --- The scheduled key -------------------------------------------------------------------------

  /** struct rijndael_key */
  class Key {
    const eK: array<bv32>
    const dK: array<bv32>
    var nr: nat

    constructor ()
      ensures fresh(eK) && fresh(dK) && Room()
    {
      eK := new bv32[60];
      dK := new bv32[60];
      nr := 0;
    }

    predicate Room()
    {
      eK.Length == 60 && dK.Length == 60 && eK != dK
    }

    predicate Scheduled()
      reads this
    {
      Room() && nr in {10, 12, 14}
    }

    ghost function Forward(): (w: seq<bv32>)
      requires Scheduled()
      reads this, eK
      ensures |w| == 4 * nr + 4
    {
      eK[..4 * nr + 4]
    }

    ghost function Backward(): (v: seq<bv32>)
      requires Scheduled()
      reads this, dK
      ensures |v| == 4 * nr + 4
    {
      dK[..4 * nr + 4]
    }

    /** The first `n` words of the forward key are those of KeyExpansion. */
    ghost predicate Expanded(b: Boxes, key: seq<bv8>, nk: nat, n: nat)
      requires Room() && 0 < nk && 4 * nk <= |key| && n <= 60
      reads eK
    {
      forall j :: 0 <= j < n ==> eK[j] == KeyWord(b, key, nk, j)
    }

    method LoadWord(b: Boxes, key: seq<bv8>, nk: nat, j: nat)
      requires Room() && j < nk <= 8 && 4 * nk <= |key| && Expanded(b, key, nk, j)
      modifies eK
      ensures Expanded(b, key, nk, j + 1)
    {
      hide Column;
      eK[j] := Load(key, 4 * j);
    }

    method Head(b: Boxes, key: seq<bv8>, nk: nat, rk: nat, i: nat)
      requires Room() && 0 < nk && 4 * nk <= |key| && i < 10 && rk == nk * i && rk + nk < 60
      requires Expanded(b, key, nk, rk + nk)
      modifies eK
      ensures Expanded(b, key, nk, rk + nk + 1)
    {
      hide KeyWord, X32, SetupMix, Rcon;
      FirstWord(b, key, nk, rk + nk, i);
      var temp := eK[rk + nk - 1];
      eK[rk + nk] := X32(X32(eK[rk], SetupMix(b, temp)), Rcon(i));
    }

    method Next(b: Boxes, key: seq<bv8>, nk: nat, rk: nat, i: nat, c: nat)
      requires Room() && 4 * nk <= |key| && 0 < c < nk && rk == nk * i && rk + nk + c < 60
      requires Expanded(b, key, nk, rk + nk + c)
      modifies eK
      ensures Expanded(b, key, nk, rk + nk + c + 1)
    {
      hide KeyWord, X32, SetupMix, Ror8;
      NextWord(b, key, nk, rk + nk + c, i, c);
      var temp := eK[rk + nk + c - 1];
      if 6 < nk && c == 4 {
        eK[rk + nk + c] := X32(eK[rk + c], SetupMix(b, Ror8(temp)));
      } else {
        eK[rk + nk + c] := X32(eK[rk + c], temp);
      }
    }

    method Expand16(b: Boxes, key: seq<bv8>)
      requires Room() && 16 <= |key|
      modifies eK
      ensures Expanded(b, key, 4, 44)
    {
      hide KeyWord, Expanded;
      assert Expanded(b, key, 4, 0) by { Nothing(b, key, 4); }
      LoadWord(b, key, 4, 0); LoadWord(b, key, 4, 1); LoadWord(b, key, 4, 2); LoadWord(b, key, 4, 3);
      var i, rk := 0, 0;
      while true
        invariant i < 10 && rk == 4 * i
        invariant Expanded(b, key, 4, rk + 4)
        decreases 10 - i
      {
        Head(b, key, 4, rk, i);
        Next(b, key, 4, rk, i, 1); Next(b, key, 4, rk, i, 2); Next(b, key, 4, rk, i, 3);
        i := i + 1;
        if i == 10 { break; }
        rk := rk + 4;
      }
    }

    method Expand24(b: Boxes, key: seq<bv8>)
      requires Room() && 24 <= |key|
      modifies eK
      ensures Expanded(b, key, 6, 52)
    {
      hide KeyWord, Expanded;
      assert Expanded(b, key, 6, 0) by { Nothing(b, key, 6); }
      LoadWord(b, key, 6, 0); LoadWord(b, key, 6, 1); LoadWord(b, key, 6, 2); LoadWord(b, key, 6, 3);
      LoadWord(b, key, 6, 4); LoadWord(b, key, 6, 5);
      var i, rk := 0, 0;
      while true
        invariant i < 8 && rk == 6 * i
        invariant Expanded(b, key, 6, rk + 6)
        decreases 8 - i
      {
        Head(b, key, 6, rk, i);
        Next(b, key, 6, rk, i, 1); Next(b, key, 6, rk, i, 2); Next(b, key, 6, rk, i, 3);
        i := i + 1;
        if i == 8 { break; }
        Next(b, key, 6, rk, i - 1, 4); Next(b, key, 6, rk, i - 1, 5);
        rk := rk + 6;
      }
    }

    method Expand32(b: Boxes, key: seq<bv8>)
      requires Room() && 32 <= |key|
      modifies eK
      ensures Expanded(b, key, 8, 60)
    {
      hide KeyWord, Expanded;
      assert Expanded(b, key, 8, 0) by { Nothing(b, key, 8); }
      LoadWord(b, key, 8, 0); LoadWord(b, key, 8, 1); LoadWord(b, key, 8, 2); LoadWord(b, key, 8, 3);
      LoadWord(b, key, 8, 4); LoadWord(b, key, 8, 5); LoadWord(b, key, 8, 6); LoadWord(b, key, 8, 7);
      var i, rk := 0, 0;
      while true
        invariant i < 7 && rk == 8 * i
        invariant Expanded(b, key, 8, rk + 8)
        decreases 7 - i
      {
        Head(b, key, 8, rk, i);
        Next(b, key, 8, rk, i, 1); Next(b, key, 8, rk, i, 2); Next(b, key, 8, rk, i, 3);
        i := i + 1;
        if i == 7 { break; }
        Next(b, key, 8, rk, i - 1, 4); Next(b, key, 8, rk, i - 1, 5);
        Next(b, key, 8, rk, i - 1, 6); Next(b, key, 8, rk, i - 1, 7);
        rk := rk + 8;
      }
    }

    lemma {:induction false} Nothing(b: Boxes, key: seq<bv8>, nk: nat)
      requires Room() && 0 < nk && 4 * nk <= |key|
      ensures Expanded(b, key, nk, 0)
    {
    }

    /** One round key of the inverse schedule, copied, or unmixed with the tables Tks0 to Tks3. */
    method Invert(rk: nat, rrk: nat, mix: bool, ghost r: nat, ghost last: nat)
      requires Room() && r <= last <= 14 && rk == 4 * r && rrk == 4 * (last - r) && mix == (0 < r < last)
      requires forall q :: 0 <= q < r ==> Inverted(eK[..], dK[..], last, q)
      modifies dK
      ensures forall q :: 0 <= q <= r ==> Inverted(eK[..], dK[..], last, q)
    {
      hide Unmix;
      ghost var was := dK[..];
      if mix {
        dK[rk] := Unmix(eK[rrk]);
        dK[rk + 1] := Unmix(eK[rrk + 1]);
        dK[rk + 2] := Unmix(eK[rrk + 2]);
        dK[rk + 3] := Unmix(eK[rrk + 3]);
      } else {
        dK[rk] := eK[rrk];
        dK[rk + 1] := eK[rrk + 1];
        dK[rk + 2] := eK[rrk + 2];
        dK[rk + 3] := eK[rrk + 3];
      }
      assert Inverted(eK[..], dK[..], last, r);
      forall q | 0 <= q < r
        ensures Inverted(eK[..], dK[..], last, q)
      {
        assert Inverted(eK[..], was, last, q);
      }
    }

    /** The inverse schedule, from the last round key to the first. */
    method InvertKeys(keylen: nat)
      requires Scheduled() && 28 + keylen == 4 * nr + 4
      modifies dK
      ensures InverseKeys(Forward(), Backward(), nr)
    {
      hide Inverted;
      var rk, rrk := 0, 28 + keylen - 4;
      Invert(rk, rrk, false, 0, nr);
      var i := 1;
      while i < nr
        invariant 1 <= i <= nr && rk == 4 * i - 4 && rrk == 4 * (nr - i + 1)
        invariant forall q :: 0 <= q < i ==> Inverted(eK[..], dK[..], nr, q)
      {
        rrk := rrk - 4;
        rk := rk + 4;
        Invert(rk, rrk, true, i, nr);
        i := i + 1;
      }
      rrk := rrk - 4;
      rk := rk + 4;
      Invert(rk, rrk, false, nr, nr);
      AllInverted(eK[..], dK[..], nr);
    }

    /** SETUP */
    method Setup(b: Boxes, key: seq<bv8>, keylen: int, rounds: int) returns (status: Status)
      requires Room() && keylen <= |key|
      modifies this`nr, eK, dK
      ensures status == Accepts(keylen, rounds)
      ensures status != Ok ==> nr == old(nr) && eK[..] == old(eK[..]) && dK[..] == old(dK[..])
      ensures status == Ok ==> Scheduled() && nr == RoundsFor(keylen)
      ensures status == Ok ==> Forward() == Schedule(b, key, keylen / 4, 4 * nr + 4)
      ensures status == Ok ==> InverseKeys(Forward(), Backward(), nr)
    {
      hide KeyWord, InverseKeys;
      if keylen != 16 && keylen != 24 && keylen != 32 {
        return InvalidKeysize;
      }
      if rounds != 0 && rounds != 10 + (keylen / 8 - 2) * 2 {
        return InvalidRounds;
      }
      nr := 10 + (keylen / 8 - 2) * 2;
      if keylen == 16 {
        Expand16(b, key);
      } else if keylen == 24 {
        Expand24(b, key);
      } else {
        Expand32(b, key);
      }
      InvertKeys(keylen);
      assert Forward() == Schedule(b, key, keylen / 4, 4 * nr + 4);
      return Ok;
    }

    method RoundKeyOf(backward: bool, rk: nat, ghost r: nat) returns (k: State)
      requires Scheduled() && rk == 4 * r && r <= nr
      ensures k == RoundKey(if backward then Backward() else Forward(), r)
    {
      if backward {
        k := State(dK[rk], dK[rk + 1], dK[rk + 2], dK[rk + 3]);
      } else {
        k := State(eK[rk], eK[rk + 1], eK[rk + 2], eK[rk + 3]);
      }
    }

    /** ECB_ENC; the two buffers may be the same. */
    method EcbEnc(b: Boxes, pt: array<bv8>, ct: array<bv8>)
      requires Scheduled() && pt.Length == 16 && ct.Length == 16
      modifies ct
      ensures ct[..] == ToBytes(Cipher(b, Forward(), nr, FromBytes(old(pt[..]))))
    {
      hide AddRoundKey, TableRound, LastRound, Round, SubShift, RoundKey, ToBytes;
      ghost var w, p := Forward(), FromBytes(pt[..]);
      var s := State(Load(pt[..], 0), Load(pt[..], 4), Load(pt[..], 8), Load(pt[..], 12));
      var k := RoundKeyOf(false, 0, 0);
      s := AddRoundKey(s, k);
      var t := s;
      var r, rk := nr / 2, 0;
      while true
        invariant 0 < r && 2 * r <= nr && rk == 4 * (nr - 2 * r)
        invariant s == Rounds(b, w, p, nr - 2 * r)
        decreases r
      {
        k := RoundKeyOf(false, rk + 4, nr - 2 * r + 1);
        TableRoundCorrect(b, s, k);
        t := TableRound(b, s, k);
        rk := rk + 8;
        r := r - 1;
        if r == 0 { break; }
        k := RoundKeyOf(false, rk, nr - 2 * r);
        TableRoundCorrect(b, t, k);
        s := TableRound(b, t, k);
      }
      k := RoundKeyOf(false, rk, nr - 2 * r);
      LastRoundCorrect(b, t, k);
      s := LastRound(b, t, k);
      PutBlock(ct, s);
    }

    /** ECB_DEC; the two buffers may be the same. */
    method EcbDec(b: Boxes, ct: array<bv8>, pt: array<bv8>)
      requires Scheduled() && pt.Length == 16 && ct.Length == 16
      modifies pt
      ensures pt[..] == ToBytes(InvCipher(b, Backward(), nr, FromBytes(old(ct[..]))))
    {
      hide AddRoundKey, InvTableRound, InvLastRound, InvRound, InvSubShift, RoundKey, ToBytes;
      ghost var v, c := Backward(), FromBytes(ct[..]);
      var s := State(Load(ct[..], 0), Load(ct[..], 4), Load(ct[..], 8), Load(ct[..], 12));
      var k := RoundKeyOf(true, 0, 0);
      s := AddRoundKey(s, k);
      var t := s;
      var r, rk := nr / 2, 0;
      while true
        invariant 0 < r && 2 * r <= nr && rk == 4 * (nr - 2 * r)
        invariant s == InvRounds(b, v, c, nr - 2 * r)
        decreases r
      {
        k := RoundKeyOf(true, rk + 4, nr - 2 * r + 1);
        InvTableRoundCorrect(b, s, k);
        t := InvTableRound(b, s, k);
        rk := rk + 8;
        r := r - 1;
        if r == 0 { break; }
        k := RoundKeyOf(true, rk, nr - 2 * r);
        InvTableRoundCorrect(b, t, k);
        s := InvTableRound(b, t, k);
      }
      k := RoundKeyOf(true, rk, nr - 2 * r);
      InvLastRoundCorrect(b, t, k);
      s := InvLastRound(b, t, k);
      PutBlock(pt, s);
    }
  }

  function RoundsFor(keylen: nat): nat { 6 + keylen / 4 }

  /** What SETUP answers: only the three key sizes, and no round count but the standard one (or 0). */
  function Accepts(keylen: int, rounds: int): Status
  {
    if keylen !in {16, 24, 32} then InvalidKeysize
    else if rounds !in {0, RoundsFor(keylen)} then InvalidRounds
    else Ok
  }

  method PutBlock(out: array<bv8>, s: State)
    requires out.Length == 16
    modifies out
    ensures out[..] == ToBytes(s)
  {
    hide Store;
    PutWord(out, 0, s.c0);
    PutWord(out, 4, s.c1);
    PutWord(out, 8, s.c2);
    PutWord(out, 12, s.c3);
  }

  method PutWord(out: array<bv8>, at: nat, x: bv32)
    requires out.Length == 16 && at + 4 <= 16
    modifies out
    ensures out[..at + 4] == old(out[..at]) + Store(x)
  {
    hide Row0, Row1, Row2, Row3;
    out[at] := Row0(x);
    out[at + 1] := Row1(x);
    out[at + 2] := Row2(x);
    out[at + 3] := Row3(x);
  }

  /** A block encrypted and decrypted under the same key comes back, and its ciphertext is that of
      the standard, for every key length SETUP accepts. */
  method EncryptThenDecrypt(b: Boxes, key: seq<bv8>, keylen: int, rounds: int, block: seq<bv8>)
    returns (status: Status, ct: seq<bv8>, pt: seq<bv8>)
    requires keylen <= |key| && |block| == 16
    ensures status == Accepts(keylen, rounds)
    ensures status == Ok ==>
      var nr := RoundsFor(keylen);
      ct == ToBytes(Cipher(b, Schedule(b, key, keylen / 4, 4 * nr + 4), nr, FromBytes(block)))
    ensures status == Ok && Inverse(b) ==> pt == block
  {
    hide Cipher, InvCipher, InverseKeys, ToBytes, FromBytes, Schedule;
    var skey := new Key();
    status := skey.Setup(b, key, keylen, rounds);
    if status != Ok {
      return status, [], [];
    }
    var a := new bv8[16](i requires 0 <= i < 16 => block[i]);
    var c, d := new bv8[16], new bv8[16];
    assert a[..] == block;
    skey.EcbEnc(b, a, c);
    ct := c[..];
    skey.EcbDec(b, c, d);
    pt := d[..];
    if Inverse(b) {
      var w, v, p := skey.Forward(), skey.Backward(), FromBytes(block);
      BytesRoundTrip(Cipher(b, w, skey.nr, p), block);
      DecryptEncrypt(b, w, v, skey.nr, p);
    }
  }

  /** Round key `r` of the inverse schedule `v` is in place. */
  ghost predicate Inverted(w: seq<bv32>, v: seq<bv32>, nr: nat, r: nat)
    requires |w| == |v| == 60 && r <= nr <= 14
  {
    RoundKey(v, r) == if 0 < r < nr then InvMixColumns(RoundKey(w, nr - r)) else RoundKey(w, nr - r)
  }

  lemma {:induction false} AllInverted(w: seq<bv32>, v: seq<bv32>, nr: nat)
    requires |w| == |v| == 60 && 0 < nr <= 14
    requires forall q :: 0 <= q <= nr ==> Inverted(w, v, nr, q)
    ensures InverseKeys(w[..4 * nr + 4], v[..4 * nr + 4], nr)
  {
    hide InvMixColumns;
    var w', v' := w[..4 * nr + 4], v[..4 * nr + 4];
    assert Inverted(w, v, nr, 0) && Inverted(w, v, nr, nr);
    forall r | 0 < r < nr
      ensures RoundKey(v', r) == InvMixColumns(RoundKey(w', nr - r))
    {
      assert Inverted(w, v, nr, r);
    }
  }
}
