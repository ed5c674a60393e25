/** The SHA-512 block function of hash.c against section 6.4.2 of FIPS 180-4. The sixteen words
    w0 to w15 are a window over the message schedule, renewed in place. The eighty round constants
    are a parameter. */
module Sha512 {

  // --- Words -----------------------------------------------------------------------------------

  function Plus(a: bv64, b: bv64): bv64 { a + b }
  function Ch(x: bv64, y: bv64, z: bv64): bv64 { (x & y) ^ (!x & z) }
  function Maj(x: bv64, y: bv64, z: bv64): bv64 { (x & y) ^ (x & z) ^ (y & z) }
  function BigSigma0(x: bv64): bv64 { ((x >> 28) | (x << 36)) ^ ((x >> 34) | (x << 30)) ^ ((x >> 39) | (x << 25)) }
  function BigSigma1(x: bv64): bv64 { ((x >> 14) | (x << 50)) ^ ((x >> 18) | (x << 46)) ^ ((x >> 41) | (x << 23)) }
  function Sigma0(x: bv64): bv64 { ((x >> 1) | (x << 63)) ^ ((x >> 8) | (x << 56)) ^ (x >> 7) }
  function Sigma1(x: bv64): bv64 { ((x >> 19) | (x << 45)) ^ ((x >> 61) | (x << 3)) ^ (x >> 6) }

  /** Where `x` is set Ch takes `y`, elsewhere `z`. */
  lemma {:induction false} ChChooses(x: bv64, y: bv64, z: bv64)
    ensures Ch(x, y, z) & x == y & x && Ch(x, y, z) & !x == z & !x
  {
  }

  /** Where two of its arguments agree Maj is what they are. */
  lemma {:induction false} MajFirstBits(x: bv64, y: bv64, z: bv64)
    ensures ((x & y) ^ (x & z) ^ (y & z)) & !(x ^ y) == x & !(x ^ y)
  {
  }

  lemma {:induction false} MajFirst(x: bv64, y: bv64, z: bv64)
    ensures Maj(x, y, z) & !(x ^ y) == x & !(x ^ y)
  {
    MajFirstBits(x, y, z);
    assert Maj(x, y, z) == (x & y) ^ (x & z) ^ (y & z);
    hide Maj;
  }

  lemma {:induction false} MajLastBits(x: bv64, y: bv64, z: bv64)
    ensures ((x & y) ^ (x & z) ^ (y & z)) & !(y ^ z) == y & !(y ^ z)
  {
  }

  lemma {:induction false} MajLast(x: bv64, y: bv64, z: bv64)
    ensures Maj(x, y, z) & !(y ^ z) == y & !(y ^ z)
  {
    MajLastBits(x, y, z);
    assert Maj(x, y, z) == (x & y) ^ (x & z) ^ (y & z);
    hide Maj;
  }

  lemma {:induction false} MajOuterBits(x: bv64, y: bv64, z: bv64)
    ensures ((x & y) ^ (x & z) ^ (y & z)) & !(x ^ z) == x & !(x ^ z)
  {
  }

  lemma {:induction false} MajOuter(x: bv64, y: bv64, z: bv64)
    ensures Maj(x, y, z) & !(x ^ z) == x & !(x ^ z)
  {
    MajOuterBits(x, y, z);
    assert Maj(x, y, z) == (x & y) ^ (x & z) ^ (y & z);
    hide Maj;
  }

  /** Section 4.1.3 of FIPS 180-4. */
  lemma {:induction false} SigmasRotate(x: bv64)
    ensures BigSigma0(x) == x.RotateRight(28) ^ x.RotateRight(34) ^ x.RotateRight(39)
    ensures BigSigma1(x) == x.RotateRight(14) ^ x.RotateRight(18) ^ x.RotateRight(41)
    ensures Sigma0(x) == x.RotateRight(1) ^ x.RotateRight(8) ^ (x >> 7)
    ensures Sigma1(x) == x.RotateRight(19) ^ x.RotateRight(61) ^ (x >> 6)
  {
  }

  /** load_bigendian */
  function Load(x: seq<bv8>, at: nat): bv64
    requires at + 8 <= |x|
  {
    Word(x[at], x[at + 1], x[at + 2], x[at + 3], x[at + 4], x[at + 5], x[at + 6], x[at + 7])
  }

  function Word(a: bv8, b: bv8, c: bv8, d: bv8, e: bv8, f: bv8, g: bv8, h: bv8): bv64
  {
    (h as bv64) | ((g as bv64) << 8) | ((f as bv64) << 16) | ((e as bv64) << 24) |
    ((d as bv64) << 32) | ((c as bv64) << 40) | ((b as bv64) << 48) | ((a as bv64) << 56)
  }

  /** The bytes of a word, from the least significant. */
  function B0(u: bv64): bv8 { (u & 0xff) as bv8 }
  function B1(u: bv64): bv8 { ((u >> 8) & 0xff) as bv8 }
  function B2(u: bv64): bv8 { ((u >> 16) & 0xff) as bv8 }
  function B3(u: bv64): bv8 { ((u >> 24) & 0xff) as bv8 }
  function B4(u: bv64): bv8 { ((u >> 32) & 0xff) as bv8 }
  function B5(u: bv64): bv8 { ((u >> 40) & 0xff) as bv8 }
  function B6(u: bv64): bv8 { ((u >> 48) & 0xff) as bv8 }
  function B7(u: bv64): bv8 { ((u >> 56) & 0xff) as bv8 }

  /** store_bigendian */
  function Store(u: bv64): (r: seq<bv8>)
    ensures |r| == 8
  {
    [B7(u), B6(u), B5(u), B4(u), B3(u), B2(u), B1(u), B0(u)]
  }

  lemma {:induction false} WordOfBytes(u: bv64)
    ensures Word(B7(u), B6(u), B5(u), B4(u), B3(u), B2(u), B1(u), B0(u)) == u
  {
  }

  /** The first byte is the most significant. */
  lemma {:induction false} WordBytes(a: bv8, b: bv8, c: bv8, d: bv8, e: bv8, f: bv8, g: bv8, h: bv8)
    ensures var w := Word(a, b, c, d, e, f, g, h);
      && w >> 56 == a as bv64 && (w >> 48) & 0xff == b as bv64 && (w >> 40) & 0xff == c as bv64
      && (w >> 32) & 0xff == d as bv64 && (w >> 24) & 0xff == e as bv64 && (w >> 16) & 0xff == f as bv64
      && (w >> 8) & 0xff == g as bv64 && w & 0xff == h as bv64
  {
  }

  // --- The schedule and the rounds of the standard -------------------------------------------------

  /** W_t of the message block `m` of sixteen words. */
  function W(m: seq<bv64>, t: nat): bv64
    requires |m| == 16
  {
    if t < 16 then m[t] else Plus(Plus(Plus(Sigma1(W(m, t - 2)), W(m, t - 7)), Sigma0(W(m, t - 15))), W(m, t - 16))
  }

  datatype Vars = Vars(a: bv64, b: bv64, c: bv64, d: bv64, e: bv64, f: bv64, g: bv64, h: bv64)

  function Step(v: Vars, w: bv64, k: bv64): Vars
  {
    var t1 := Plus(Plus(Plus(Plus(v.h, BigSigma1(v.e)), Ch(v.e, v.f, v.g)), k), w);
    var t2 := Plus(BigSigma0(v.a), Maj(v.a, v.b, v.c));
    Vars(Plus(t1, t2), v.a, v.b, v.c, Plus(v.d, t1), v.e, v.f, v.g)
  }

  /** The sums of the first step on the message "abc". */
  lemma {:induction false} FirstSums()
    ensures BigSigma1(0x510e_527f_ade6_82d1) == 0x9427_e33b_b5c9_dbca
    ensures Ch(0x510e_527f_ade6_82d1, 0x9b05_688c_2b3e_6c1f, 0x1f83_d9ab_fb41_bd6b) == 0x1f85_c98c_7b27_3d3b
    ensures BigSigma0(0x6a09_e667_f3bc_c908) == 0x08c4_db56_aac8_0c2a
    ensures Maj(0x6a09_e667_f3bc_c908, 0xbb67_ae85_84ca_a73b, 0x3c6e_f372_fe94_f82b) == 0x3a6f_e667_f69c_e92b
  {
  }

  /** The first of the eighty steps on the message "abc", as the examples of FIPS 180-4 print it. */
  lemma {:induction false} FirstStep()
    ensures Step(Vars(0x6a09_e667_f3bc_c908, 0xbb67_ae85_84ca_a73b, 0x3c6e_f372_fe94_f82b, 0xa54f_f53a_5f1d_36f1,
                      0x510e_527f_ade6_82d1, 0x9b05_688c_2b3e_6c1f, 0x1f83_d9ab_fb41_bd6b, 0x5be0_cd19_137e_2179),
                 0x6162_6380_0000_0000, 0x428a_2f98_d728_ae22)
         == Vars(0xf6af_ceb8_bcfc_ddf5, 0x6a09_e667_f3bc_c908, 0xbb67_ae85_84ca_a73b, 0x3c6e_f372_fe94_f82b,
                 0x58cb_0234_7ab5_1f91, 0x510e_527f_ade6_82d1, 0x9b05_688c_2b3e_6c1f, 0x1f83_d9ab_fb41_bd6b)
  {
    FirstSums();
    hide Ch, Maj, BigSigma0, BigSigma1;
  }

  function Steps(m: seq<bv64>, k: seq<bv64>, t: nat, v: Vars): Vars
    requires |m| == 16 && t <= |k|
  {
    if t == 0 then v else Step(Steps(m, k, t - 1, v), W(m, t - 1), k[t - 1])
  }

  function AddVars(v: Vars, s: Vars): Vars
  {
    Vars(Plus(v.a, s.a), Plus(v.b, s.b), Plus(v.c, s.c), Plus(v.d, s.d),
         Plus(v.e, s.e), Plus(v.f, s.f), Plus(v.g, s.g), Plus(v.h, s.h))
  }

  function Compress(m: seq<bv64>, k: seq<bv64>, s: Vars): Vars
    requires |m| == 16 && |k| == 80
  {
    AddVars(Steps(m, k, 80, s), s)
  }

  function Block(x: seq<bv8>, at: nat): (m: seq<bv64>)
    requires at + 128 <= |x|
    ensures |m| == 16
  {
    seq(16, j requires 0 <= j < 16 => Load(x, at + 8 * j))
  }

  /** All the whole 128-byte blocks of `x`, in order. */
  function Hash(x: seq<bv8>, k: seq<bv64>, s: Vars): Vars
    requires |k| == 80
    decreases |x|
  {
    if |x| < 128 then s else Hash(x[128..], k, Compress(Block(x, 0), k, s))
  }

  /** Blocks can be hashed in any number of calls: what is left over from one goes in front of the next. */
  lemma {:induction false} HashConcat(x: seq<bv8>, y: seq<bv8>, k: seq<bv64>, s: Vars)
    requires |k| == 80
    ensures Hash(x + y, k, s) == Hash(x[|x| - |x| % 128..] + y, k, Hash(x, k, s))
    decreases |x|
  {
    hide Compress, Block, Hash;
    HashNext(x, k, s);
    if |x| < 128 {
      assert x[|x| - |x| % 128..] == x;
    } else {
      var rest := x[128..];
      BlockOfPrefix(x, y);
      LeftOver(x);
      HashNext(x + y, k, s);
      assert (x + y)[128..] == rest + y;
      HashConcat(rest, y, k, Compress(Block(x, 0), k, s));
    }
  }

  lemma {:induction false} HashNext(x: seq<bv8>, k: seq<bv64>, s: Vars)
    requires |k| == 80
    ensures Hash(x, k, s) == if |x| < 128 then s else Hash(x[128..], k, Compress(Block(x, 0), k, s))
  {
    hide Compress, Block;
  }

  lemma {:induction false} BlockOfPrefix(x: seq<bv8>, y: seq<bv8>)
    requires 128 <= |x|
    ensures Block(x + y, 0) == Block(x, 0)
  {
    hide Word;
  }

  lemma {:induction false} LeftOver(x: seq<bv8>)
    requires 128 <= |x|
    ensures var rest := x[128..]; rest[|rest| - |rest| % 128..] == x[|x| - |x| % 128..]
  {
    var n := |x| % 128;
    SameRest(|x|);
    DropTwice(x, |x| - 128 - n);
  }

  lemma {:induction false} SameRest(n: nat)
    requires 128 <= n
    ensures (n - 128) % 128 == n % 128 && n - 128 >= n % 128
  {
  }

  lemma {:induction false} DropTwice(x: seq<bv8>, k: nat)
    requires 128 + k <= |x|
    ensures x[128..][k..] == x[128 + k..]
  {
  }

  // --- The window ---------------------------------------------------------------------------------------

  /** The window holds W_t .. W_{t+i-1} in its first `i` words and W_{t-16+i} .. W_{t-1} in the others. */
  ghost predicate Window(w: seq<bv64>, m: seq<bv64>, t: nat, i: nat)
  {
    && |w| == 16 && |m| == 16 && 16 <= t && i <= 16
    && (forall j :: 0 <= j < i ==> w[j] == W(m, t + j))
    && (forall j :: i <= j < 16 ==> w[j] == W(m, t + j - 16))
  }

  /** M(w0, w14, w9, w1), where w0 is word `i` of the window and the others lie 14, 9 and 1 words on. */
  method Renew(w: array<bv64>, i: nat, i14: nat, i9: nat, i1: nat, ghost m: seq<bv64>, ghost t: nat)
    requires w.Length == 16 && i < 16 && i14 < 16 && i9 < 16 && i1 < 16 && Window(w[..], m, t, i)
    requires (i14 == i + 14 || i14 == i - 2) && (i9 == i + 9 || i9 == i - 7) && (i1 == i + 1 || i1 == i - 15)
    modifies w
    ensures Window(w[..], m, t, i + 1)
  {
    hide W, Plus, Sigma0, Sigma1;
    WNext(m, t + i);
    assert w[i14] == W(m, t + i - 2) && w[i9] == W(m, t + i - 7) && w[i1] == W(m, t + i - 15) && w[i] == W(m, t + i - 16);
    w[i] := Plus(Plus(Plus(Sigma1(w[i14]), w[i9]), Sigma0(w[i1])), w[i]);
  }

  lemma {:induction false} WNext(m: seq<bv64>, t: nat)
    requires |m| == 16 && 16 <= t
    ensures W(m, t) == Plus(Plus(Plus(Sigma1(W(m, t - 2)), W(m, t - 7)), Sigma0(W(m, t - 15))), W(m, t - 16))
  {
  }

  /** EXPAND */
  method Expand(w: array<bv64>, ghost m: seq<bv64>, ghost t: nat)
    requires w.Length == 16 && Window(w[..], m, t, 0)
    modifies w
    ensures Holds(w[..], m, t) && Window(w[..], m, t + 16, 0)
  {
    hide Window;
    Renew(w, 0, 14, 9, 1, m, t);
    Renew(w, 1, 15, 10, 2, m, t);
    Renew(w, 2, 0, 11, 3, m, t);
    Renew(w, 3, 1, 12, 4, m, t);
    Renew(w, 4, 2, 13, 5, m, t);
    Renew(w, 5, 3, 14, 6, m, t);
    Renew(w, 6, 4, 15, 7, m, t);
    Renew(w, 7, 5, 0, 8, m, t);
    Renew(w, 8, 6, 1, 9, m, t);
    Renew(w, 9, 7, 2, 10, m, t);
    Renew(w, 10, 8, 3, 11, m, t);
    Renew(w, 11, 9, 4, 12, m, t);
    Renew(w, 12, 10, 5, 13, m, t);
    Renew(w, 13, 11, 6, 14, m, t);
    Renew(w, 14, 12, 7, 15, m, t);
    Renew(w, 15, 13, 8, 0, m, t);
    NextWindow(w[..], m, t);
  }

  lemma {:induction false} NextWindow(w: seq<bv64>, m: seq<bv64>, t: nat)
    requires Window(w, m, t, 16)
    ensures Window(w, m, t + 16, 0) && Holds(w, m, t)
  {
    hide W;
  }

  // --- The rounds -----------------------------------------------------------------------------------------

  /** F(w, k): the eight variables moved along. */
  method F(v: Vars, w: bv64, k: bv64) returns (r: Vars)
    ensures r == Step(v, w, k)
  {
    hide Plus, BigSigma0, BigSigma1, Ch, Maj;
    var a, b, c, d, e, f, g, h := v.a, v.b, v.c, v.d, v.e, v.f, v.g, v.h;
    var t1 := Plus(Plus(Plus(Plus(h, BigSigma1(e)), Ch(e, f, g)), k), w);
    var t2 := Plus(BigSigma0(a), Maj(a, b, c));
    h := g;
    g := f;
    f := e;
    e := Plus(d, t1);
    d := c;
    c := b;
    b := a;
    a := Plus(t1, t2);
    r := Vars(a, b, c, d, e, f, g, h);
  }

  lemma {:induction false} StepsNext(m: seq<bv64>, k: seq<bv64>, t: nat, s: Vars)
    requires |m| == 16 && t < |k|
    ensures Steps(m, k, t + 1, s) == Step(Steps(m, k, t, s), W(m, t), k[t])
  {
  }

  /** The window holds W_t .. W_{t+15}. */
  ghost predicate Holds(w: seq<bv64>, m: seq<bv64>, t: nat)
  {
    |w| == 16 && |m| == 16 && forall j :: 0 <= j < 16 ==> w[j] == W(m, t + j)
  }

  method Next(w: array<bv64>, k: seq<bv64>, t: nat, i: nat, v: Vars, ghost m: seq<bv64>, ghost s: Vars) returns (r: Vars)
    requires Holds(w[..], m, t) && |k| == 80 && i < 16 && t + i < 80 && v == Steps(m, k, t + i, s)
    ensures r == Steps(m, k, t + i + 1, s)
  {
    hide Steps, Step, W;
    r := F(v, w[i], k[t + i]);
    StepsNext(m, k, t + i, s);
  }

  /** Sixteen rounds from round `t` on, over the window. */
  method Sixteen(w: array<bv64>, k: seq<bv64>, t: nat, v0: Vars, ghost m: seq<bv64>, ghost s: Vars) returns (v: Vars)
    requires Holds(w[..], m, t) && |k| == 80 && t + 16 <= 80 && v0 == Steps(m, k, t, s)
    ensures v == Steps(m, k, t + 16, s)
  {
    hide Steps, W;
    v := v0;
    v := Next(w, k, t, 0, v, m, s);
    v := Next(w, k, t, 1, v, m, s);
    v := Next(w, k, t, 2, v, m, s);
    v := Next(w, k, t, 3, v, m, s);
    v := Next(w, k, t, 4, v, m, s);
    v := Next(w, k, t, 5, v, m, s);
    v := Next(w, k, t, 6, v, m, s);
    v := Next(w, k, t, 7, v, m, s);
    v := Next(w, k, t, 8, v, m, s);
    v := Next(w, k, t, 9, v, m, s);
    v := Next(w, k, t, 10, v, m, s);
    v := Next(w, k, t, 11, v, m, s);
    v := Next(w, k, t, 12, v, m, s);
    v := Next(w, k, t, 13, v, m, s);
    v := Next(w, k, t, 14, v, m, s);
    v := Next(w, k, t, 15, v, m, s);
  }

  /** One pass of the loop: the block at `at` compressed into the state. */
  method OneBlock(x: seq<bv8>, at: nat, k: seq<bv64>, s: Vars) returns (v: Vars)
    requires at + 128 <= |x| && |k| == 80
    ensures v == Compress(Block(x, at), k, s)
  {
    hide Steps, W, Load, Window, Holds;
    ghost var m := Block(x, at);
    var w := new bv64[16](j requires 0 <= j < 16 => Load(x, at + 8 * j));
    FirstWindow(w[..], m, k, s);
    v := Sixteen(w, k, 0, s, m, s);
    Expand(w, m, 16);
    v := Sixteen(w, k, 16, v, m, s);
    Expand(w, m, 32);
    v := Sixteen(w, k, 32, v, m, s);
    Expand(w, m, 48);
    v := Sixteen(w, k, 48, v, m, s);
    Expand(w, m, 64);
    v := Sixteen(w, k, 64, v, m, s);
    v := AddVars(v, s);
  }

  lemma {:induction false} FirstWindow(w: seq<bv64>, m: seq<bv64>, k: seq<bv64>, s: Vars)
    requires w == m && |m| == 16
    ensures Window(w, m, 16, 0) && Steps(m, k, 0, s) == s
    ensures Holds(w, m, 0)
  {
  }

  // --- The function ------------------------------------------------------------------------------------------

  function StateOf(b: seq<bv8>): Vars
    requires |b| == 64
  {
    Vars(Load(b, 0), Load(b, 8), Load(b, 16), Load(b, 24), Load(b, 32), Load(b, 40), Load(b, 48), Load(b, 56))
  }

  function Four(a: bv64, b: bv64, c: bv64, d: bv64): (r: seq<bv8>)
    ensures |r| == 32
  {
    Store(a) + Store(b) + Store(c) + Store(d)
  }

  function BytesOf(v: Vars): (b: seq<bv8>)
    ensures |b| == 64
  {
    Four(v.a, v.b, v.c, v.d) + Four(v.e, v.f, v.g, v.h)
  }

  lemma {:induction false} LoadStore(a: seq<bv8>, u: bv64, c: seq<bv8>)
    ensures Load(a + Store(u) + c, |a|) == u
  {
    hide Word, B0, B1, B2, B3, B4, B5, B6, B7;
    WordOfBytes(u);
  }

  lemma {:induction false} LoadFour(p: seq<bv8>, a: bv64, b: bv64, c: bv64, d: bv64, q: seq<bv8>)
    ensures var x := p + Four(a, b, c, d) + q;
      Load(x, |p|) == a && Load(x, |p| + 8) == b && Load(x, |p| + 16) == c && Load(x, |p| + 24) == d
  {
    hide Load, Store;
    var x, sa, sb, sc, sd := p + Four(a, b, c, d) + q, Store(a), Store(b), Store(c), Store(d);
    assert x == p + sa + (sb + sc + sd + q) == (p + sa) + sb + (sc + sd + q);
    assert x == (p + sa + sb) + sc + (sd + q) == (p + sa + sb + sc) + sd + q;
    LoadStore(p, a, sb + sc + sd + q);
    LoadStore(p + sa, b, sc + sd + q);
    LoadStore(p + sa + sb, c, sd + q);
    LoadStore(p + sa + sb + sc, d, q);
  }

  /** The state stored and loaded again. */
  lemma {:induction false} StateOfBytes(v: Vars)
    ensures StateOf(BytesOf(v)) == v
  {
    hide Load, Four;
    var p, q := Four(v.a, v.b, v.c, v.d), Four(v.e, v.f, v.g, v.h);
    assert BytesOf(v) == [] + p + q == p + q + [];
    LoadFour([], v.a, v.b, v.c, v.d, q);
    LoadFour(p, v.e, v.f, v.g, v.h, []);
  }

  method PutHalf(out: array<bv8>, at: nat, a: bv8, b: bv8, c: bv8, d: bv8)
    requires out.Length == 64 && at + 4 <= 64
    modifies out
    ensures out[..at + 4] == old(out[..at]) + [a, b, c, d]
  {
    out[at + 3] := d;
    out[at + 2] := c;
    out[at + 1] := b;
    out[at] := a;
  }

  method Put(out: array<bv8>, at: nat, u: bv64)
    requires out.Length == 64 && at + 8 <= 64
    modifies out
    ensures out[..at + 8] == old(out[..at]) + Store(u)
  {
    hide B0, B1, B2, B3, B4, B5, B6, B7;
    PutHalf(out, at, B7(u), B6(u), B5(u), B4(u));
    PutHalf(out, at + 4, B3(u), B2(u), B1(u), B0(u));
  }

  /** crypto_hashblocks_sha512: every whole block goes into the state; the count of bytes left over is
      returned. */
  method HashBlocks(statebytes: array<bv8>, x: seq<bv8>, k: seq<bv64>) returns (rest: nat)
    requires statebytes.Length == 64 && |k| == 80
    modifies statebytes
    ensures StateOf(statebytes[..]) == Hash(x, k, StateOf(old(statebytes[..])))
    ensures rest == |x| % 128
  {
    hide Compress, Load, Block, StateOf, BytesOf;
    var state := StateOf(statebytes[..]);
    ghost var s := state;
    var at, inlen: nat := 0, |x|;
    assert x[0..] == x;
    while inlen >= 128
      invariant 0 <= at && at + inlen == |x| && at % 128 == 0
      invariant Hash(x[at..], k, state) == Hash(x, k, s)
    {
      assert Block(x[at..], 0) == Block(x, at) by { BlockFrom(x, at); }
      assert x[at..][128..] == x[at + 128..];
      state := OneBlock(x, at, k, state);
      at, inlen := at + 128, inlen - 128;
    }
    PutState(statebytes, state);
    StateOfBytes(state);
    rest := inlen;
  }

  lemma {:induction false} BlockFrom(x: seq<bv8>, at: nat)
    requires at + 128 <= |x|
    ensures Block(x[at..], 0) == Block(x, at)
  {
    hide Word;
  }

  method PutState(out: array<bv8>, v: Vars)
    requires out.Length == 64
    modifies out
    ensures out[..] == BytesOf(v)
  {
    hide Four;
    PutFour(out, 0, v.a, v.b, v.c, v.d);
    PutFour(out, 32, v.e, v.f, v.g, v.h);
    assert out[..64] == out[..];
  }

  method PutFour(out: array<bv8>, at: nat, a: bv64, b: bv64, c: bv64, d: bv64)
    requires out.Length == 64 && at + 32 <= 64
    modifies out
    ensures out[..at + 32] == old(out[..at]) + Four(a, b, c, d)
  {
    hide Store;
    Put(out, at, a);
    Put(out, at + 8, b);
    Put(out, at + 16, c);
    Put(out, at + 24, d);
  }

  /** Two calls, the bytes left over by the first in front of the second, leave the state of one call. */
  method TwoCalls(start: seq<bv8>, x: seq<bv8>, y: seq<bv8>, k: seq<bv64>) returns (out: seq<bv8>, rest: nat)
    requires |start| == 64 && |k| == 80
    ensures |out| == 64 && StateOf(out) == Hash(x + y, k, StateOf(start)) && rest == (|x| + |y|) % 128
  {
    hide Hash, StateOf;
    var state := new bv8[64](i requires 0 <= i < 64 => start[i]);
    assert state[..] == start;
    var left := HashBlocks(state, x, k);
    rest := HashBlocks(state, x[|x| - left..] + y, k);
    out := state[..];
    HashConcat(x, y, k, StateOf(start));
  }
}
