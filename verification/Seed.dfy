/** The block cipher of seed.c. Its four tables are parameters; a half is a pair of words. */
module Seed {
  import opened ByteColumns
  import opened CamelliaHalves
  import opened Feistel
  import opened Xor

  datatype Tables = Tables(ss0: bv8 -> bv32, ss1: bv8 -> bv32, ss2: bv8 -> bv32, ss3: bv8 -> bv32)

  function Look(t: Tables, w: bv32): bv32
  {
    Sum32(t.ss0(Row3(w)), t.ss1(Row2(w)), t.ss2(Row1(w)), t.ss3(Row0(w)))
  }

  function Plus(a: bv32, b: bv32): bv32 { a + b }

  /** What OP adds to the other half, with the key words `k0` and `k1`. */
  function Mixed(t: Tables, k0: bv32, k1: bv32, x: Half): Half
  {
    var t0 := X32(x.l, k0);
    var t1 := Look(t, X32(X32(x.r, k1), t0));
    var t0 := Look(t, Plus(t0, t1));
    var t1 := Look(t, Plus(t1, t0));
    Half(Plus(t0, t1), t1)
  }

  function Rounds(t: Tables, ks: seq<bv32>): (nat, Half) -> Half
  {
    (i: nat, x: Half) => if 2 * i + 1 < |ks| then Mixed(t, ks[2 * i], ks[2 * i + 1], x) else ZERO
  }

  function Load(w: seq<bv32>): Pair<Half>
    requires |w| == 4
  {
    Pair(Half(w[0], w[1]), Half(w[2], w[3]))
  }

  lemma {:induction false} XCancels()
    ensures Cancels(X)
  {
    hide X;
    forall a, b
      ensures X(X(a, b), b) == a
    {
      Cancel(a, b);
    }
  }

  /** OP: one half with what the other gives under the key words at `rbase`. */
  method Op(t: Tables, ks: seq<bv32>, s: Pair<Half>, left: bool, rbase: nat) returns (c: Pair<Half>)
    requires |ks| == 32 && rbase % 2 == 0 && rbase < 32
    ensures c == Round(X, Rounds(t, ks), left, rbase / 2, s)
  {
    hide X, Look, X32, Plus;
    var b := if left then s.r else s.l;
    var t0, t1 := X32(b.l, ks[rbase]), X32(b.r, ks[rbase + 1]);
    t1 := X32(t1, t0);
    t1 := Look(t, t1);
    t0 := Plus(t0, t1);
    t0 := Look(t, t0);
    t1 := Plus(t1, t0);
    t1 := Look(t, t1);
    t0 := Plus(t0, t1);
    c := if left then s.(l := X(s.l, Half(t0, t1))) else s.(r := X(s.r, Half(t0, t1)));
  }

  /** seed_encrypt; the buffers may be the same. */
  method Encrypt(t: Tables, ks: seq<bv32>, src: array<bv32>, dst: array<bv32>)
    requires |ks| == 32 && src.Length == 4 && dst.Length == 4
    modifies dst
    ensures Load(dst[..]) == Swap(Run(X, Rounds(t, ks), 16, Load(old(src[..]))))
  {
    hide X, Rounds, Run, RunBack, Round;
    ghost var f, s := Rounds(t, ks), Load(src[..]);
    var x := Pair(Half(src[0], src[1]), Half(src[2], src[3]));
    RunNone(X, f, 16, s);
    x := Op(t, ks, x, true, 0); RunNext(X, f, 0, s);
    x := Op(t, ks, x, false, 2); RunNext(X, f, 1, s);
    x := Op(t, ks, x, true, 4); RunNext(X, f, 2, s);
    x := Op(t, ks, x, false, 6); RunNext(X, f, 3, s);
    x := Op(t, ks, x, true, 8); RunNext(X, f, 4, s);
    x := Op(t, ks, x, false, 10); RunNext(X, f, 5, s);
    x := Op(t, ks, x, true, 12); RunNext(X, f, 6, s);
    x := Op(t, ks, x, false, 14); RunNext(X, f, 7, s);
    x := Op(t, ks, x, true, 16); RunNext(X, f, 8, s);
    x := Op(t, ks, x, false, 18); RunNext(X, f, 9, s);
    x := Op(t, ks, x, true, 20); RunNext(X, f, 10, s);
    x := Op(t, ks, x, false, 22); RunNext(X, f, 11, s);
    x := Op(t, ks, x, true, 24); RunNext(X, f, 12, s);
    x := Op(t, ks, x, false, 26); RunNext(X, f, 13, s);
    x := Op(t, ks, x, true, 28); RunNext(X, f, 14, s);
    x := Op(t, ks, x, false, 30); RunNext(X, f, 15, s);
    dst[0], dst[1], dst[2], dst[3] := x.r.l, x.r.r, x.l.l, x.l.r;
  }

  /** seed_decrypt; the buffers may be the same. */
  method Decrypt(t: Tables, ks: seq<bv32>, src: array<bv32>, dst: array<bv32>)
    requires |ks| == 32 && src.Length == 4 && dst.Length == 4
    modifies dst
    ensures Load(dst[..]) == Swap(RunBack(X, Rounds(t, ks), 16, 16, Load(old(src[..]))))
  {
    hide X, Rounds, Run, RunBack, Round;
    ghost var f, s := Rounds(t, ks), Load(src[..]);
    var x := Pair(Half(src[0], src[1]), Half(src[2], src[3]));
    RunNone(X, f, 16, s);
    x := Op(t, ks, x, true, 30); RunBackNext(X, f, 16, 0, s);
    x := Op(t, ks, x, false, 28); RunBackNext(X, f, 16, 1, s);
    x := Op(t, ks, x, true, 26); RunBackNext(X, f, 16, 2, s);
    x := Op(t, ks, x, false, 24); RunBackNext(X, f, 16, 3, s);
    x := Op(t, ks, x, true, 22); RunBackNext(X, f, 16, 4, s);
    x := Op(t, ks, x, false, 20); RunBackNext(X, f, 16, 5, s);
    x := Op(t, ks, x, true, 18); RunBackNext(X, f, 16, 6, s);
    x := Op(t, ks, x, false, 16); RunBackNext(X, f, 16, 7, s);
    x := Op(t, ks, x, true, 14); RunBackNext(X, f, 16, 8, s);
    x := Op(t, ks, x, false, 12); RunBackNext(X, f, 16, 9, s);
    x := Op(t, ks, x, true, 10); RunBackNext(X, f, 16, 10, s);
    x := Op(t, ks, x, false, 8); RunBackNext(X, f, 16, 11, s);
    x := Op(t, ks, x, true, 6); RunBackNext(X, f, 16, 12, s);
    x := Op(t, ks, x, false, 4); RunBackNext(X, f, 16, 13, s);
    x := Op(t, ks, x, true, 2); RunBackNext(X, f, 16, 14, s);
    x := Op(t, ks, x, false, 0); RunBackNext(X, f, 16, 15, s);
    dst[0], dst[1], dst[2], dst[3] := x.r.l, x.r.r, x.l.l, x.l.r;
  }

  /** A block encrypted and decrypted comes back, for all tables and key schedules. */
  method EncryptThenDecrypt(t: Tables, ks: seq<bv32>, block: seq<bv32>) returns (ct: seq<bv32>, pt: seq<bv32>)
    requires |ks| == 32 && |block| == 4
    ensures |ct| == 4 && Load(ct) == Swap(Run(X, Rounds(t, ks), 16, Load(block))) && pt == block
  {
    hide X, Rounds, Run, RunBack;
    var io := new bv32[4](i requires 0 <= i < 4 => block[i]);
    assert io[..] == block;
    Encrypt(t, ks, io, io);
    ct := io[..];
    Decrypt(t, ks, io, io);
    pt := io[..];
    XCancels();
    Retrace(X, Rounds(t, ks), 16, 16, Load(block));
    RunNone(X, Rounds(t, ks), 16, Load(block));
    assert Load(pt) == Load(block);
  }
}
