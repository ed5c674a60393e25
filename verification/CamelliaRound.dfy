/** The round function of camellia_generic.c. Its rotation by eight bits is written without the parentheses that would
    make it one, so that CAMELLIA_ROUNDSM can differ from the round function it stands for. */
module CamelliaRound {
  import opened ByteColumns
  import opened CamelliaHalves
  import opened Camellia
  import opened Xor

  datatype Tables = Tables(sp1110: bv8 -> bv32, sp0222: bv8 -> bv32, sp3033: bv8 -> bv32, sp4404: bv8 -> bv32)

  function Left(t: Tables, w: bv32): bv32
  {
    Sum32(t.sp1110(Row0(w)), t.sp0222(Row1(w)), t.sp3033(Row2(w)), t.sp4404(Row3(w)))
  }

  function Right(t: Tables, w: bv32): bv32
  {
    Sum32(t.sp1110(Row3(w)), t.sp0222(Row0(w)), t.sp3033(Row1(w)), t.sp4404(Row2(w)))
  }

  /** What CAMELLIA_ROUNDSM adds to the other half. */
  function Mixed(t: Tables, x: Half): Half
  {
    var il := Left(t, x.l);
    var ir := X32(Right(t, x.r), il);
    Half(ir, LooseRor8(il, ir))
  }

  /** What it adds when the rotation is one. */
  function Proper(t: Tables, x: Half): Half
  {
    var il := Left(t, x.l);
    var ir := X32(Right(t, x.r), il);
    Half(ir, X32(Ror8(il), ir))
  }

  function LooseRor8(il: bv32, ir: bv32): bv32 { (il >> 8) | ((il << 24) ^ ir) }
  function Overlap(il: bv32, ir: bv32): bv32 { (il >> 8) & ir }

  lemma {:induction false} RorBits(il: bv32, ir: bv32)
    ensures ((il >> 8) | ((il << 24) ^ ir)) ^ (((il >> 8) | (il << 24)) ^ ir) == (il >> 8) & ir
  {
  }

  /** The loose grouping is the rotation exactly when the words have no bit in common. */
  lemma {:induction false} LooseRor8Exact(il: bv32, ir: bv32)
    ensures LooseRor8(il, ir) == X32(Ror8(il), ir) <==> Overlap(il, ir) == 0
  {
    RorBits(il, ir);
    assert X32(LooseRor8(il, ir), X32(Ror8(il), ir)) == Overlap(il, ir);
    SameIffZero(LooseRor8(il, ir), X32(Ror8(il), ir));
  }

  lemma {:induction false} SameIffZero(a: bv32, b: bv32)
    ensures a == b <==> X32(a, b) == 0
  {
    X32Cancel(a, b);
    ZeroXor(b);
    hide X32;
  }

  lemma {:induction false} ZeroXor(a: bv32)
    ensures X32(0, a) == a && X32(a, a) == 0
  {
  }

  // --- The inputs on which the code's round function is the proper one -------------------------------------------

  /** The top three bytes of `il` and the word added have no bit in common. */
  predicate Clean(t: Tables, x: Half)
  {
    Overlap(Left(t, x.l), X32(Right(t, x.r), Left(t, x.l))) == 0
  }

  lemma {:induction false} RoundExact(t: Tables, x: Half)
    ensures Mixed(t, x) == Proper(t, x) <==> Clean(t, x)
  {
    hide LooseRor8, Ror8, Overlap, X32, Left, Right;
    LooseRor8Exact(Left(t, x.l), X32(Right(t, x.r), Left(t, x.l)));
  }

  lemma {:induction false} ZeroClean(t: Tables)
    ensures Clean(t, ZERO)
  {
    assert Row0(0) == 0 && Row1(0) == 0 && Row2(0) == 0 && Row3(0) == 0;
    assert Left(t, 0) == Right(t, 0);
    var w := Left(t, 0);
    assert X32(w, w) == 0;
    assert Overlap(w, 0) == 0;
  }

  /** The entries of the tables at index 0, and of the first one at index 1. */
  predicate Shipped(t: Tables)
  {
    && t.sp1110(0) == 0x70707000 && t.sp1110(1) == 0x82828200
    && t.sp0222(0) == 0x00e0e0e0 && t.sp3033(0) == 0x38003838 && t.sp4404(0) == 0x70700070
  }

  /** An input with which the shipped tables give another round function. */
  lemma {:induction false} ShippedDiffers(t: Tables)
    requires Shipped(t)
    ensures Mixed(t, ONE) == Half(0xf2f2f200, 0x5afaf2a8) && Proper(t, ONE) == Half(0xf2f2f200, 0x5aca12a8)
    ensures !Clean(t, ONE)
  {
    assert Row0(0) == 0 && Row1(0) == 0 && Row2(0) == 0 && Row3(0) == 0;
    assert Row3(1) == 1 && Row2(1) == 0 && Row1(1) == 0 && Row0(1) == 0;
    assert Left(t, 0) == 0x38e0a8a8;
    assert Right(t, 1) == 0xca125aa8;
  }

  // --- The cipher with either round function ---------------------------------------------------------------

  function Every(t: Tables): Rounds
  {
    (i, x) => Mixed(t, x)
  }

  function Standard(t: Tables): Rounds
  {
    (i, x) => Proper(t, x)
  }

  /** The state before pair `m` of rounds of the standard's cipher, the layers done. */
  function Before(f: Rounds, sub: seq<Half>, n: nat, m: nat, s: Block): Block
    requires Subkeys(sub, n) && m < 3 * n
    decreases m, 0
  {
    if m == 0 then
      Block(X(s.l, sub[0]), X(s.r, sub[1]))
    else
      var b := After(f, sub, n, m - 1, s);
      if m % 3 == 0 then Layer(b, sub[8 * (m / 3)], sub[8 * (m / 3) + 1]) else b
  }

  function After(f: Rounds, sub: seq<Half>, n: nat, m: nat, s: Block): Block
    requires Subkeys(sub, n) && m < 3 * n
    decreases m, 1
  {
    TextPair(f, 2 * m, Before(f, sub, n, m, s), First(sub, n, m), Second(sub, n, m))
  }

  function First(sub: seq<Half>, n: nat, m: nat): Half
    requires Subkeys(sub, n) && m < 3 * n
  {
    sub[8 * (m / 3) + 2 * (m % 3) + 2]
  }

  function Second(sub: seq<Half>, n: nat, m: nat): Half
    requires Subkeys(sub, n) && m < 3 * n
  {
    sub[8 * (m / 3) + 2 * (m % 3) + 3]
  }

  /** Group `g` is the pairs 3 g, 3 g + 1 and 3 g + 2. */
  lemma {:induction false} PairsOfGroup(f: Rounds, sub: seq<Half>, n: nat, g: nat, s: Block)
    requires Subkeys(sub, n) && g < n && Before(f, sub, n, 3 * g, s) == TextTo(f, sub, g, s)
    ensures After(f, sub, n, 3 * g + 2, s) == TextGroup(f, sub, g, TextTo(f, sub, g, s))
  {
    hide TextPair, X, Layer;
    assert (3 * g) / 3 == g && (3 * g) % 3 == 0;
    assert (3 * g + 1) / 3 == g && (3 * g + 1) % 3 == 1;
    assert (3 * g + 2) / 3 == g && (3 * g + 2) % 3 == 2;
    assert Before(f, sub, n, 3 * g + 1, s) == After(f, sub, n, 3 * g, s);
    assert Before(f, sub, n, 3 * g + 2, s) == After(f, sub, n, 3 * g + 1, s);
  }

  lemma {:induction false} PairsTo(f: Rounds, sub: seq<Half>, n: nat, g: nat, s: Block)
    requires Subkeys(sub, n) && g < n
    ensures Before(f, sub, n, 3 * g, s) == TextTo(f, sub, g, s)
  {
    hide TextPair, X, Layer, TextGroup;
    if g > 0 {
      PairsTo(f, sub, n, g - 1, s);
      PairsOfGroup(f, sub, n, g - 1, s);
      assert (3 * g) / 3 == g && (3 * g) % 3 == 0 && 3 * g - 1 == 3 * (g - 1) + 2;
    }
  }

  /** The cipher is its pairs of rounds and the last whitening. */
  lemma {:induction false} PairsAreText(f: Rounds, sub: seq<Half>, n: nat, s: Block)
    requires Subkeys(sub, n)
    ensures Text(f, sub, n, s) ==
      Block(X(After(f, sub, n, 3 * n - 1, s).l, sub[8 * n + 1]), X(After(f, sub, n, 3 * n - 1, s).r, sub[8 * n]))
  {
    hide TextPair, X, Layer, TextGroup, TextTo, Before, After;
    PairsTo(f, sub, n, n - 1, s);
    PairsOfGroup(f, sub, n, n - 1, s);
    assert 3 * (n - 1) + 2 == 3 * n - 1;
  }

  // --- One run -----------------------------------------------------------------------------------------------

  /** Both inputs of a pair of rounds are clean. */
  predicate CleanPair(t: Tables, s: Block, ka: Half, kb: Half)
  {
    var x := X(s.l, ka);
    Clean(t, x) && Clean(t, X(X(s.r, Proper(t, x)), kb))
  }

  /** All inputs of the round function in the standard's run on this block are clean. */
  predicate CleanRun(t: Tables, sub: seq<Half>, n: nat, s: Block)
    requires Subkeys(sub, n)
  {
    forall m :: 0 <= m < 3 * n ==> CleanPair(t, Before(Standard(t), sub, n, m, s), First(sub, n, m), Second(sub, n, m))
  }

  lemma {:induction false} XInjective(a: Half, b: Half, c: Half)
    ensures X(a, b) == X(a, c) <==> b == c
  {
    hide X;
    Comm(a, b);
    Comm(a, c);
    Cancel(b, a);
    Cancel(c, a);
  }

  lemma {:induction false} PairExact(t: Tables, i: nat, s: Block, ka: Half, kb: Half)
    ensures TextPair(Every(t), i, s, ka, kb) == TextPair(Standard(t), i, s, ka, kb) <==> CleanPair(t, s, ka, kb)
  {
    hide X, Mixed, Proper, Clean;
    var x := X(s.l, ka);
    RoundExact(t, x);
    XInjective(s.r, Mixed(t, x), Proper(t, x));
    var y := X(X(s.r, Proper(t, x)), kb);
    RoundExact(t, y);
    XInjective(s.l, Mixed(t, y), Proper(t, y));
  }

  lemma {:induction false} CleanTo(t: Tables, sub: seq<Half>, n: nat, m: nat, s: Block)
    requires Subkeys(sub, n) && m < 3 * n
    requires forall p :: 0 <= p < m ==> CleanPair(t, Before(Standard(t), sub, n, p, s), First(sub, n, p), Second(sub, n, p))
    ensures Before(Every(t), sub, n, m, s) == Before(Standard(t), sub, n, m, s)
  {
    hide X, Layer, TextPair, CleanPair, Every, Standard;
    if m > 0 {
      CleanTo(t, sub, n, m - 1, s);
      PairExact(t, 2 * (m - 1), Before(Standard(t), sub, n, m - 1, s), First(sub, n, m - 1), Second(sub, n, m - 1));
    }
  }

  /** After pair `m` of rounds the code's round function and the proper one have given the same state. */
  predicate Together(t: Tables, sub: seq<Half>, n: nat, m: nat, s: Block)
    requires Subkeys(sub, n) && m < 3 * n
  {
    After(Every(t), sub, n, m, s) == After(Standard(t), sub, n, m, s)
  }

  /** The code's round function takes a block through the states of the standard's run exactly when all inputs of that
      run are clean. */
  lemma {:induction false} CleanRunExact(t: Tables, sub: seq<Half>, n: nat, s: Block)
    requires Subkeys(sub, n)
    ensures CleanRun(t, sub, n, s) <==> forall m :: 0 <= m < 3 * n ==> Together(t, sub, n, m, s)
  {
    hide Before, TextPair, CleanPair, Every, Standard, First, Second;
    if CleanRun(t, sub, n, s) {
      forall m | 0 <= m < 3 * n
        ensures Together(t, sub, n, m, s)
      {
        CleanTo(t, sub, n, m, s);
        PairExact(t, 2 * m, Before(Standard(t), sub, n, m, s), First(sub, n, m), Second(sub, n, m));
      }
    } else {
      var m :| 0 <= m < 3 * n && !CleanPair(t, Before(Standard(t), sub, n, m, s), First(sub, n, m), Second(sub, n, m));
      PairExact(t, 2 * m, Before(Standard(t), sub, n, m, s), First(sub, n, m), Second(sub, n, m));
      if m == 0 || Together(t, sub, n, m - 1, s) {
        SameBefore(t, sub, n, m, s);
        assert !Together(t, sub, n, m, s);
      }
    }
  }

  lemma {:induction false} SameBefore(t: Tables, sub: seq<Half>, n: nat, m: nat, s: Block)
    requires Subkeys(sub, n) && m < 3 * n
    requires m > 0 ==> Together(t, sub, n, m - 1, s)
    ensures Before(Every(t), sub, n, m, s) == Before(Standard(t), sub, n, m, s)
  {
    hide After, Layer, X;
  }

  /** On a clean run the code's round function gives the standard's ciphertext. */
  lemma {:induction false} CleanText(t: Tables, sub: seq<Half>, n: nat, s: Block)
    requires Subkeys(sub, n) && CleanRun(t, sub, n, s)
    ensures Text(Every(t), sub, n, s) == Text(Standard(t), sub, n, s)
  {
    hide Text, After, X, CleanRun, Every, Standard;
    CleanRunExact(t, sub, n, s);
    assert Together(t, sub, n, 3 * n - 1, s);
    PairsAreText(Every(t), sub, n, s);
    PairsAreText(Standard(t), sub, n, s);
  }

  // --- All keys and blocks -----------------------------------------------------------------------------------------

  /** The states of a run all of whose round inputs are zero, where the round function gives `c`. */
  function Steady(c: Half, g: nat): Block
  {
    if g == 0 then Block(ZERO, ZERO)
    else
      var s := Steady(c, g - 1);
      Layer(Block(X(s.l, c), X(s.r, c)), ZERO, ZERO)
  }

  /** Subkeys that make every round input zero and the last one `x`. */
  function Steering(c: Half, n: nat, x: Half): (sub: seq<Half>)
    requires 0 < n
    ensures Subkeys(sub, n)
  {
    seq(8 * n + 2, j requires 0 <= j < 8 * n + 2 => SteeringKey(c, n, x, j))
  }

  function SteeringKey(c: Half, n: nat, x: Half, j: nat): Half
  {
    var s := Steady(c, j / 8);
    match j % 8
    case 2 => s.l
    case 3 => X(s.r, c)
    case 4 => X(s.l, c)
    case 5 => s.r
    case 6 => s.l
    case 7 => X(X(s.r, c), if j / 8 == n - 1 then x else ZERO)
    case _ => ZERO
  }

  /** A pair of rounds on zero inputs. */
  lemma {:induction false} SteadyPair(f: Rounds, i: nat, c: Half, s: Block)
    requires f(i, ZERO) == c && f(i + 1, ZERO) == c
    ensures TextPair(f, i, s, s.l, X(s.r, c)) == Block(X(s.l, c), X(s.r, c))
  {
    hide X;
    Cancel(s.l, s.l);
    Cancel(X(s.r, c), X(s.r, c));
  }

  lemma {:induction false} SteadyTwo(f: Rounds, i: nat, c: Half, s: Block)
    requires f(i, ZERO) == c && f(i + 1, ZERO) == c && f(i + 2, ZERO) == c && f(i + 3, ZERO) == c
    ensures TextPair(f, i + 2, TextPair(f, i, s, s.l, X(s.r, c)), X(s.l, c), s.r) == s
  {
    hide X, TextPair;
    SteadyPair(f, i, c, s);
    var s' := Block(X(s.l, c), X(s.r, c));
    SteadyPair(f, i + 2, c, s');
    Cancel(s.l, c);
    Cancel(s.r, c);
  }

  /** Six rounds on zero inputs, the last one on `x`. */
  lemma {:induction false} SteadyGroup(f: Rounds, sub: seq<Half>, g: nat, c: Half, s: Block, x: Half)
    requires 8 * g + 7 < |sub| && forall i :: f(i, ZERO) == c
    requires sub[8 * g + 2] == s.l && sub[8 * g + 3] == X(s.r, c) && sub[8 * g + 4] == X(s.l, c) && sub[8 * g + 5] == s.r
    requires sub[8 * g + 6] == s.l && sub[8 * g + 7] == X(X(s.r, c), x)
    ensures TextGroup(f, sub, g, s) == Block(X(s.l, f(6 * g + 5, x)), X(s.r, c))
  {
    hide X;
    assert forall i: nat :: f(i, ZERO) == c;
    SteadyTwo(f, 6 * g, c, s);
    Cancel(s.l, s.l);
    Comm(X(s.r, c), x);
    Assoc(X(s.r, c), X(s.r, c), x);
    Cancel(X(s.r, c), x);
    Cancel(x, X(s.r, c));
    Comm(X(s.r, c), X(x, X(s.r, c)));
  }

  lemma {:induction false} SteeringGroup(c: Half, n: nat, x: Half, g: nat)
    requires g < n
    ensures var sub, s := Steering(c, n, x), Steady(c, g);
      && sub[8 * g + 2] == s.l && sub[8 * g + 3] == X(s.r, c) && sub[8 * g + 4] == X(s.l, c) && sub[8 * g + 5] == s.r
      && sub[8 * g + 6] == s.l && sub[8 * g + 7] == X(X(s.r, c), if g == n - 1 then x else ZERO)
    ensures g > 0 ==> Steering(c, n, x)[8 * g] == ZERO && Steering(c, n, x)[8 * g + 1] == ZERO
  {
    hide X, Steady, SteeringKey;
    SteeringAt(c, n, x, g);
  }

  lemma {:induction false} SteeringAt(c: Half, n: nat, x: Half, g: nat)
    ensures var s := Steady(c, g);
      && SteeringKey(c, n, x, 8 * g + 2) == s.l && SteeringKey(c, n, x, 8 * g + 3) == X(s.r, c)
      && SteeringKey(c, n, x, 8 * g + 4) == X(s.l, c) && SteeringKey(c, n, x, 8 * g + 5) == s.r
      && SteeringKey(c, n, x, 8 * g + 6) == s.l
      && SteeringKey(c, n, x, 8 * g + 7) == X(X(s.r, c), if g == n - 1 then x else ZERO)
    ensures SteeringKey(c, n, x, 8 * g) == ZERO && SteeringKey(c, n, x, 8 * g + 1) == ZERO
  {
    hide X, Steady;
  }

  lemma {:induction false} SteadyTo(f: Rounds, c: Half, n: nat, x: Half, g: nat)
    requires g < n && forall i :: f(i, ZERO) == c
    ensures TextTo(f, Steering(c, n, x), g, Block(ZERO, ZERO)) == Steady(c, g)
  {
    hide X, Layer, TextGroup, SteeringKey;
    var sub := Steering(c, n, x);
    if g == 0 {
      Cancel(ZERO, ZERO);
      SteeringEnds(c, n, x);
    } else {
      SteadyTo(f, c, n, x, g - 1);
      SteeringGroup(c, n, x, g - 1);
      SteeringGroup(c, n, x, g);
      SteadyGroup(f, sub, g - 1, c, Steady(c, g - 1), ZERO);
    }
  }

  lemma {:induction false} SteeringEnds(c: Half, n: nat, x: Half)
    requires 0 < n
    ensures var sub := Steering(c, n, x); sub[0] == ZERO && sub[1] == ZERO && sub[8 * n] == ZERO && sub[8 * n + 1] == ZERO
  {
    hide X, Steady, SteeringKey;
    SteeringAt(c, n, x, 0);
    SteeringAt(c, n, x, n);
  }

  /** With those subkeys the left half of the ciphertext of the zero block shows the round function at `x`. */
  lemma {:induction false} SteeredText(f: Rounds, c: Half, n: nat, x: Half)
    requires 0 < n && forall i :: f(i, ZERO) == c
    ensures Text(f, Steering(c, n, x), n, Block(ZERO, ZERO)).l == X(Steady(c, n - 1).l, f(6 * n - 1, x))
  {
    hide X, TextGroup, TextTo, SteeringKey, Steady;
    SteadyTo(f, c, n, x, n - 1);
    SteeringGroup(c, n, x, n - 1);
    SteadyGroup(f, Steering(c, n, x), n - 1, c, Steady(c, n - 1), x);
    SteeringEnds(c, n, x);
    Cancel(X(Steady(c, n - 1).l, f(6 * n - 1, x)), ZERO);
  }

  /** For every input that is not clean there are subkeys with which the code's round function gives another ciphertext
      for the zero block. */
  lemma {:induction false} DirtyText(t: Tables, n: nat, x: Half)
    requires 0 < n && !Clean(t, x)
    ensures var sub := Steering(Proper(t, ZERO), n, x);
      Text(Every(t), sub, n, Block(ZERO, ZERO)) != Text(Standard(t), sub, n, Block(ZERO, ZERO))
  {
    hide Text, Clean, Mixed, Proper, X, Steering, Steady;
    ZeroClean(t);
    RoundExact(t, ZERO);
    RoundExact(t, x);
    var c := Proper(t, ZERO);
    SteeredText(Every(t), c, n, x);
    SteeredText(Standard(t), c, n, x);
    XInjective(Steady(c, n - 1).l, Mixed(t, x), Proper(t, x));
  }

  /** The code's round function gives the standard's ciphertexts, for all subkeys and blocks, exactly when it is clean on
      every input. */
  lemma {:induction false} CipherExact(t: Tables, n: nat)
    requires 0 < n
    ensures (forall sub, s :: Subkeys(sub, n) ==> Text(Every(t), sub, n, s) == Text(Standard(t), sub, n, s))
       <==> (forall x :: Clean(t, x))
  {
    hide Text, Clean, Every, Standard, Steering, Before, First, Second;
    if forall x :: Clean(t, x) {
      forall sub, s | Subkeys(sub, n)
        ensures Text(Every(t), sub, n, s) == Text(Standard(t), sub, n, s)
      {
        CleanText(t, sub, n, s);
      }
    }
    if x :| !Clean(t, x) {
      DirtyText(t, n, x);
    }
  }
}
