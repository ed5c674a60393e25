/** The AES rounds of aes.c: the table look-ups against SubBytes, ShiftRows, MixColumns and
    AddRoundKey (section 5.1 of FIPS 197), and decryption by the equivalent inverse cipher
    (section 5.3.5). The S-box and its inverse are parameters. */
module AesRounds {
  import opened AesColumns
  import opened ByteColumns
  import opened Xor

  datatype Boxes = Boxes(sub: bv8 -> bv8, inv: bv8 -> bv8)

  ghost predicate Inverse(b: Boxes)
  {
    forall x :: b.inv(b.sub(x)) == x
  }

  datatype State = State(c0: bv32, c1: bv32, c2: bv32, c3: bv32)

  // --- The transformations of the standard ------------------------------------------------

  function SubColumn(f: bv8 -> bv8, x: bv32): bv32 { Column(f(Row0(x)), f(Row1(x)), f(Row2(x)), f(Row3(x))) }

  function SubBytes(f: bv8 -> bv8, s: State): State
  {
    State(SubColumn(f, s.c0), SubColumn(f, s.c1), SubColumn(f, s.c2), SubColumn(f, s.c3))
  }

  function Gather(a: bv32, b: bv32, c: bv32, d: bv32): bv32 { Column(Row0(a), Row1(b), Row2(c), Row3(d)) }

  function ShiftRows(s: State): State
  {
    State(Gather(s.c0, s.c1, s.c2, s.c3), Gather(s.c1, s.c2, s.c3, s.c0),
          Gather(s.c2, s.c3, s.c0, s.c1), Gather(s.c3, s.c0, s.c1, s.c2))
  }

  function InvShiftRows(s: State): State
  {
    State(Gather(s.c0, s.c3, s.c2, s.c1), Gather(s.c1, s.c0, s.c3, s.c2),
          Gather(s.c2, s.c1, s.c0, s.c3), Gather(s.c3, s.c2, s.c1, s.c0))
  }

  function MixColumns(s: State): State { State(Mix(s.c0), Mix(s.c1), Mix(s.c2), Mix(s.c3)) }
  function InvMixColumns(s: State): State { State(Unmix(s.c0), Unmix(s.c1), Unmix(s.c2), Unmix(s.c3)) }

  function AddRoundKey(s: State, k: State): State
  {
    State(X32(s.c0, k.c0), X32(s.c1, k.c1), X32(s.c2, k.c2), X32(s.c3, k.c3))
  }

  function SubShift(b: Boxes, s: State): State { ShiftRows(SubBytes(b.sub, s)) }
  function InvSubShift(b: Boxes, s: State): State { InvShiftRows(SubBytes(b.inv, s)) }
  function Round(b: Boxes, s: State, k: State): State { AddRoundKey(MixColumns(SubShift(b, s)), k) }
  function InvRound(b: Boxes, s: State, k: State): State { AddRoundKey(InvMixColumns(InvSubShift(b, s)), k) }

  // --- The ciphers --------------------------------------------------------------------------

  function RoundKey(w: seq<bv32>, r: nat): State
    requires 4 * r + 3 < |w|
  {
    State(w[4 * r], w[4 * r + 1], w[4 * r + 2], w[4 * r + 3])
  }

  /** The state after the initial key and `n` full rounds. */
  function Rounds(b: Boxes, w: seq<bv32>, s: State, n: nat): State
    requires 4 * n + 3 < |w|
  {
    if n == 0 then AddRoundKey(s, RoundKey(w, 0)) else Round(b, Rounds(b, w, s, n - 1), RoundKey(w, n))
  }

  function InvRounds(b: Boxes, v: seq<bv32>, s: State, n: nat): State
    requires 4 * n + 3 < |v|
  {
    if n == 0 then AddRoundKey(s, RoundKey(v, 0)) else InvRound(b, InvRounds(b, v, s, n - 1), RoundKey(v, n))
  }

  function Cipher(b: Boxes, w: seq<bv32>, nr: nat, s: State): State
    requires 0 < nr && 4 * nr + 3 < |w|
  {
    AddRoundKey(SubShift(b, Rounds(b, w, s, nr - 1)), RoundKey(w, nr))
  }

  function InvCipher(b: Boxes, v: seq<bv32>, nr: nat, s: State): State
    requires 0 < nr && 4 * nr + 3 < |v|
  {
    AddRoundKey(InvSubShift(b, InvRounds(b, v, s, nr - 1)), RoundKey(v, nr))
  }

  /** The decryption keys are the encryption keys backwards, the inner ones unmixed. */
  ghost predicate InverseKeys(w: seq<bv32>, v: seq<bv32>, nr: nat)
    requires 4 * nr + 3 < |w| && 4 * nr + 3 < |v|
  {
    && RoundKey(v, 0) == RoundKey(w, nr)
    && RoundKey(v, nr) == RoundKey(w, 0)
    && forall r :: 0 < r < nr ==> RoundKey(v, r) == InvMixColumns(RoundKey(w, nr - r))
  }

  // --- Decryption undoes encryption ------------------------------------------------------------

  lemma {:induction false} GatherSub(f: bv8 -> bv8, a: bv32, b: bv32, c: bv32, d: bv32)
    ensures SubColumn(f, Gather(a, b, c, d)) == Column(f(Row0(a)), f(Row1(b)), f(Row2(c)), f(Row3(d)))
    ensures Gather(SubColumn(f, a), SubColumn(f, b), SubColumn(f, c), SubColumn(f, d))
         == SubColumn(f, Gather(a, b, c, d))
  {
    hide Column, Row0, Row1, Row2, Row3;
    ColumnRows(Row0(a), Row1(b), Row2(c), Row3(d));
    ColumnRows(f(Row0(a)), f(Row1(a)), f(Row2(a)), f(Row3(a)));
    ColumnRows(f(Row0(b)), f(Row1(b)), f(Row2(b)), f(Row3(b)));
    ColumnRows(f(Row0(c)), f(Row1(c)), f(Row2(c)), f(Row3(c)));
    ColumnRows(f(Row0(d)), f(Row1(d)), f(Row2(d)), f(Row3(d)));
  }

  lemma {:induction false} SubInverse(b: Boxes, s: State)
    requires Inverse(b)
    ensures SubBytes(b.inv, SubBytes(b.sub, s)) == s
  {
    hide SubColumn;
    SubColumnInverse(b, s.c0); SubColumnInverse(b, s.c1); SubColumnInverse(b, s.c2); SubColumnInverse(b, s.c3);
  }

  lemma {:induction false} SubColumnInverse(b: Boxes, x: bv32)
    requires Inverse(b)
    ensures SubColumn(b.inv, SubColumn(b.sub, x)) == x
  {
    hide Column, Row0, Row1, Row2, Row3;
    ColumnRows(b.sub(Row0(x)), b.sub(Row1(x)), b.sub(Row2(x)), b.sub(Row3(x)));
    RowsColumn(x);
  }

  lemma {:induction false} GatherBack(a: bv32, b: bv32, c: bv32, d: bv32)
    ensures Gather(Gather(a, b, c, d), Gather(d, a, b, c), Gather(c, d, a, b), Gather(b, c, d, a)) == a
  {
    hide Column, Row0, Row1, Row2, Row3;
    ColumnRows(Row0(a), Row1(b), Row2(c), Row3(d)); ColumnRows(Row0(d), Row1(a), Row2(b), Row3(c));
    ColumnRows(Row0(c), Row1(d), Row2(a), Row3(b)); ColumnRows(Row0(b), Row1(c), Row2(d), Row3(a));
    RowsColumn(a);
  }

  lemma {:induction false} ShiftInverse(s: State)
    ensures InvShiftRows(ShiftRows(s)) == s
  {
    hide Gather;
    GatherBack(s.c0, s.c1, s.c2, s.c3); GatherBack(s.c1, s.c2, s.c3, s.c0);
    GatherBack(s.c2, s.c3, s.c0, s.c1); GatherBack(s.c3, s.c0, s.c1, s.c2);
  }

  /** Substituting bytes and permuting them commute. */
  lemma {:induction false} SubThenShift(f: bv8 -> bv8, s: State)
    ensures SubBytes(f, ShiftRows(s)) == ShiftRows(SubBytes(f, s))
  {
    hide Gather, SubColumn;
    GatherSub(f, s.c0, s.c1, s.c2, s.c3); GatherSub(f, s.c1, s.c2, s.c3, s.c0);
    GatherSub(f, s.c2, s.c3, s.c0, s.c1); GatherSub(f, s.c3, s.c0, s.c1, s.c2);
  }

  lemma {:induction false} SubShiftInverse(b: Boxes, s: State)
    requires Inverse(b)
    ensures InvSubShift(b, SubShift(b, s)) == s
  {
    hide ShiftRows, InvShiftRows, SubBytes;
    SubThenShift(b.inv, SubBytes(b.sub, s));
    SubInverse(b, s);
    ShiftInverse(s);
  }

  lemma {:induction false} MixInverse(s: State, k: State)
    ensures InvMixColumns(AddRoundKey(MixColumns(s), k)) == AddRoundKey(s, InvMixColumns(k))
  {
    hide Mix, Unmix, X32;
    UnmixXor(Mix(s.c0), k.c0); UnmixXor(Mix(s.c1), k.c1); UnmixXor(Mix(s.c2), k.c2); UnmixXor(Mix(s.c3), k.c3);
    UnmixMix(s.c0); UnmixMix(s.c1); UnmixMix(s.c2); UnmixMix(s.c3);
  }

  lemma {:induction false} AddTwice(s: State, k: State)
    ensures AddRoundKey(AddRoundKey(s, k), k) == s
  {
    hide X32;
    X32Cancel(s.c0, k.c0); X32Cancel(s.c1, k.c1); X32Cancel(s.c2, k.c2); X32Cancel(s.c3, k.c3);
  }

  /** Before its round n + 1, decryption holds the substituted, shifted state that encryption
      had after its round nr - 1 - n. */
  lemma {:induction false} Meet(b: Boxes, w: seq<bv32>, v: seq<bv32>, nr: nat, s: State, n: nat)
    requires Inverse(b) && n < nr && 4 * nr + 3 < |w| && 4 * nr + 3 < |v| && InverseKeys(w, v, nr)
    ensures InvRounds(b, v, Cipher(b, w, nr, s), n) == SubShift(b, Rounds(b, w, s, nr - 1 - n))
  {
    hide SubShift, InvSubShift, AddRoundKey, MixColumns, InvMixColumns, RoundKey;
    if n == 0 {
      AddTwice(SubShift(b, Rounds(b, w, s, nr - 1)), RoundKey(w, nr));
    } else {
      Meet(b, w, v, nr, s, n - 1);
      var before, k := Rounds(b, w, s, nr - 1 - n), RoundKey(w, nr - n);
      SubShiftInverse(b, Rounds(b, w, s, nr - n));
      MixInverse(SubShift(b, before), k);
      AddTwice(SubShift(b, before), InvMixColumns(k));
    }
  }

  /** The equivalent inverse cipher undoes the cipher, for every key schedule. */
  lemma {:induction false} DecryptEncrypt(b: Boxes, w: seq<bv32>, v: seq<bv32>, nr: nat, s: State)
    requires Inverse(b) && 0 < nr && 4 * nr + 3 < |w| && 4 * nr + 3 < |v| && InverseKeys(w, v, nr)
    ensures InvCipher(b, v, nr, Cipher(b, w, nr, s)) == s
  {
    hide SubShift, InvSubShift, AddRoundKey, Round, InvRound, RoundKey;
    Meet(b, w, v, nr, s, nr - 1);
    SubShiftInverse(b, Rounds(b, w, s, 0));
    AddTwice(s, RoundKey(w, 0));
  }

  // --- The tables ---------------------------------------------------------------------------------

  function Te0(b: Boxes, x: bv8): bv32 { E0(b.sub(x)) }
  function Te1(b: Boxes, x: bv8): bv32 { E1(b.sub(x)) }
  function Te2(b: Boxes, x: bv8): bv32 { E2(b.sub(x)) }
  function Te3(b: Boxes, x: bv8): bv32 { E3(b.sub(x)) }
  function Td0(b: Boxes, x: bv8): bv32 { D0(b.inv(x)) }
  function Td1(b: Boxes, x: bv8): bv32 { D1(b.inv(x)) }
  function Td2(b: Boxes, x: bv8): bv32 { D2(b.inv(x)) }
  function Td3(b: Boxes, x: bv8): bv32 { D3(b.inv(x)) }
  function Te43(b: Boxes, x: bv8): bv32 { (b.sub(x) as bv32) << 24 }
  function Te42(b: Boxes, x: bv8): bv32 { (b.sub(x) as bv32) << 16 }
  function Te41(b: Boxes, x: bv8): bv32 { (b.sub(x) as bv32) << 8 }
  function Te40(b: Boxes, x: bv8): bv32 { b.sub(x) as bv32 }
  function Td4(b: Boxes, x: bv8): bv32 { Column(b.inv(x), b.inv(x), b.inv(x), b.inv(x)) }

  /** One column of a table round. */
  function TeColumn(b: Boxes, p: bv32, q: bv32, r: bv32, s: bv32, k: bv32): bv32
  {
    X32(Sum32(Te0(b, Row0(p)), Te1(b, Row1(q)), Te2(b, Row2(r)), Te3(b, Row3(s))), k)
  }

  function TdColumn(b: Boxes, p: bv32, q: bv32, r: bv32, s: bv32, k: bv32): bv32
  {
    X32(Sum32(Td0(b, Row0(p)), Td1(b, Row1(q)), Td2(b, Row2(r)), Td3(b, Row3(s))), k)
  }

  function LastColumn(b: Boxes, p: bv32, q: bv32, r: bv32, s: bv32, k: bv32): bv32
  {
    X32(Sum32(Te43(b, Row0(p)), Te42(b, Row1(q)), Te41(b, Row2(r)), Te40(b, Row3(s))), k)
  }

  function InvLastColumn(b: Boxes, p: bv32, q: bv32, r: bv32, s: bv32, k: bv32): bv32
  {
    X32(Sum32(Td4(b, Row0(p)) & 0xff000000, Td4(b, Row1(q)) & 0x00ff0000,
              Td4(b, Row2(r)) & 0x0000ff00, Td4(b, Row3(s)) & 0x000000ff), k)
  }

  function TableRound(b: Boxes, s: State, k: State): State
  {
    State(TeColumn(b, s.c0, s.c1, s.c2, s.c3, k.c0), TeColumn(b, s.c1, s.c2, s.c3, s.c0, k.c1),
          TeColumn(b, s.c2, s.c3, s.c0, s.c1, k.c2), TeColumn(b, s.c3, s.c0, s.c1, s.c2, k.c3))
  }

  function InvTableRound(b: Boxes, s: State, k: State): State
  {
    State(TdColumn(b, s.c0, s.c3, s.c2, s.c1, k.c0), TdColumn(b, s.c1, s.c0, s.c3, s.c2, k.c1),
          TdColumn(b, s.c2, s.c1, s.c0, s.c3, k.c2), TdColumn(b, s.c3, s.c2, s.c1, s.c0, k.c3))
  }

  function LastRound(b: Boxes, s: State, k: State): State
  {
    State(LastColumn(b, s.c0, s.c1, s.c2, s.c3, k.c0), LastColumn(b, s.c1, s.c2, s.c3, s.c0, k.c1),
          LastColumn(b, s.c2, s.c3, s.c0, s.c1, k.c2), LastColumn(b, s.c3, s.c0, s.c1, s.c2, k.c3))
  }

  function InvLastRound(b: Boxes, s: State, k: State): State
  {
    State(InvLastColumn(b, s.c0, s.c3, s.c2, s.c1, k.c0), InvLastColumn(b, s.c1, s.c0, s.c3, s.c2, k.c1),
          InvLastColumn(b, s.c2, s.c1, s.c0, s.c3, k.c2), InvLastColumn(b, s.c3, s.c2, s.c1, s.c0, k.c3))
  }

  lemma {:induction false} TeColumnCorrect(b: Boxes, p: bv32, q: bv32, r: bv32, s: bv32, k: bv32)
    ensures TeColumn(b, p, q, r, s, k) == X32(Mix(SubColumn(b.sub, Gather(p, q, r, s))), k)
  {
    hide Column, Row0, Row1, Row2, Row3, E0, E1, E2, E3, X32, Sum32, SubColumn, Gather;
    GatherSub(b.sub, p, q, r, s);
    ColumnRows(b.sub(Row0(p)), b.sub(Row1(q)), b.sub(Row2(r)), b.sub(Row3(s)));
  }

  lemma {:induction false} TdColumnCorrect(b: Boxes, p: bv32, q: bv32, r: bv32, s: bv32, k: bv32)
    ensures TdColumn(b, p, q, r, s, k) == X32(Unmix(SubColumn(b.inv, Gather(p, q, r, s))), k)
  {
    hide Column, Row0, Row1, Row2, Row3, D0, D1, D2, D3, X32, Sum32, SubColumn, Gather;
    GatherSub(b.inv, p, q, r, s);
    ColumnRows(b.inv(Row0(p)), b.inv(Row1(q)), b.inv(Row2(r)), b.inv(Row3(s)));
  }

  lemma {:induction false} Disjoint(a: bv8, b: bv8, c: bv8, d: bv8)
    ensures ((a as bv32) << 24) ^ ((b as bv32) << 16) ^ ((c as bv32) << 8) ^ (d as bv32) == Column(a, b, c, d)
  {
  }

  lemma {:induction false} Masked(a: bv8)
    ensures Column(a, a, a, a) & 0xff000000 == (a as bv32) << 24 && Column(a, a, a, a) & 0x00ff0000 == (a as bv32) << 16
    ensures Column(a, a, a, a) & 0x0000ff00 == (a as bv32) << 8 && Column(a, a, a, a) & 0x000000ff == a as bv32
  {
  }

  lemma {:induction false} LastColumnCorrect(b: Boxes, p: bv32, q: bv32, r: bv32, s: bv32, k: bv32)
    ensures LastColumn(b, p, q, r, s, k) == X32(SubColumn(b.sub, Gather(p, q, r, s)), k)
  {
    hide Column, Row0, Row1, Row2, Row3, SubColumn, Gather;
    GatherSub(b.sub, p, q, r, s);
    Disjoint(b.sub(Row0(p)), b.sub(Row1(q)), b.sub(Row2(r)), b.sub(Row3(s)));
  }

  lemma {:induction false} InvLastColumnCorrect(b: Boxes, p: bv32, q: bv32, r: bv32, s: bv32, k: bv32)
    ensures InvLastColumn(b, p, q, r, s, k) == X32(SubColumn(b.inv, Gather(p, q, r, s)), k)
  {
    hide Column, Row0, Row1, Row2, Row3, SubColumn, Gather;
    GatherSub(b.inv, p, q, r, s);
    Masked(b.inv(Row0(p))); Masked(b.inv(Row1(q))); Masked(b.inv(Row2(r))); Masked(b.inv(Row3(s)));
    Disjoint(b.inv(Row0(p)), b.inv(Row1(q)), b.inv(Row2(r)), b.inv(Row3(s)));
  }

  /** A round done with the tables Te0 to Te3 is SubBytes, ShiftRows, MixColumns, AddRoundKey. */
  lemma {:induction false} TableRoundCorrect(b: Boxes, s: State, k: State)
    ensures TableRound(b, s, k) == Round(b, s, k)
  {
    hide TeColumn, Mix, SubColumn, Gather, X32;
    SubThenShift(b.sub, s);
    TeColumnCorrect(b, s.c0, s.c1, s.c2, s.c3, k.c0); TeColumnCorrect(b, s.c1, s.c2, s.c3, s.c0, k.c1);
    TeColumnCorrect(b, s.c2, s.c3, s.c0, s.c1, k.c2); TeColumnCorrect(b, s.c3, s.c0, s.c1, s.c2, k.c3);
  }

  lemma {:induction false} LastRoundCorrect(b: Boxes, s: State, k: State)
    ensures LastRound(b, s, k) == AddRoundKey(SubShift(b, s), k)
  {
    hide LastColumn, SubColumn, Gather, X32;
    SubThenShift(b.sub, s);
    LastColumnCorrect(b, s.c0, s.c1, s.c2, s.c3, k.c0); LastColumnCorrect(b, s.c1, s.c2, s.c3, s.c0, k.c1);
    LastColumnCorrect(b, s.c2, s.c3, s.c0, s.c1, k.c2); LastColumnCorrect(b, s.c3, s.c0, s.c1, s.c2, k.c3);
  }

  lemma {:induction false} InvSubThenShift(f: bv8 -> bv8, s: State)
    ensures SubBytes(f, InvShiftRows(s)) == InvShiftRows(SubBytes(f, s))
  {
    hide Gather, SubColumn;
    GatherSub(f, s.c0, s.c3, s.c2, s.c1); GatherSub(f, s.c1, s.c0, s.c3, s.c2);
    GatherSub(f, s.c2, s.c1, s.c0, s.c3); GatherSub(f, s.c3, s.c2, s.c1, s.c0);
  }

  /** A round done with the tables Td0 to Td3 is a round of the equivalent inverse cipher. */
  lemma {:induction false} InvTableRoundCorrect(b: Boxes, s: State, k: State)
    ensures InvTableRound(b, s, k) == InvRound(b, s, k)
  {
    hide TdColumn, Unmix, SubColumn, Gather, X32;
    InvSubThenShift(b.inv, s);
    TdColumnCorrect(b, s.c0, s.c3, s.c2, s.c1, k.c0); TdColumnCorrect(b, s.c1, s.c0, s.c3, s.c2, k.c1);
    TdColumnCorrect(b, s.c2, s.c1, s.c0, s.c3, k.c2); TdColumnCorrect(b, s.c3, s.c2, s.c1, s.c0, k.c3);
  }

  lemma {:induction false} InvLastRoundCorrect(b: Boxes, s: State, k: State)
    ensures InvLastRound(b, s, k) == AddRoundKey(InvSubShift(b, s), k)
  {
    hide InvLastColumn, SubColumn, Gather, X32;
    InvSubThenShift(b.inv, s);
    InvLastColumnCorrect(b, s.c0, s.c3, s.c2, s.c1, k.c0); InvLastColumnCorrect(b, s.c1, s.c0, s.c3, s.c2, k.c1);
    InvLastColumnCorrect(b, s.c2, s.c1, s.c0, s.c3, k.c2); InvLastColumnCorrect(b, s.c3, s.c2, s.c1, s.c0, k.c3);
  }
}
