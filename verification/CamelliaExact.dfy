/** Exactly when the subkeys of camellia_setup_tail make the code compute the cipher of the standard:
    when no rotated bit collides. A collision is brought to light by round functions that are zero
    except at one point of one round. */
module CamelliaExact {
  import opened CamelliaHalves
  import opened Camellia
  import opened CamelliaSetup

  /** Whether the rotated bit collides where group `g` begins, and where it ends. */
  predicate RightCollides(s: seq<Half>, n: nat, g: nat)
    requires Subkeys(s, n) && g < n
  {
    0 < g && Collides(X(s[8 * g - 1], RightCarry(s, g - 1)), s[8 * g + 1])
  }

  predicate LeftCollides(s: seq<Half>, n: nat, g: nat)
    requires Subkeys(s, n) && g < n
  {
    g < n - 1 && Collides(X(s[8 * g + 10], LeftCarry(s, n, g + 1)), s[8 * g + 8])
  }

  /** No collision at any of the lines that group a rotation loosely, in terms of the subkeys given. */
  predicate NoCollision(s: seq<Half>, n: nat)
    requires Subkeys(s, n)
  {
    forall g :: 0 <= g < n ==> !RightCollides(s, n, g) && !LeftCollides(s, n, g)
  }

  ghost predicate Agrees(s: seq<Half>, n: nat, k: seq<Half>)
    requires Subkeys(s, n) && 8 * n < |k|
  {
    forall f: Rounds, b: Block :: Code(f, k, n, b) == Text(f, s, n, b)
  }

  // --- Round functions that are zero almost everywhere --------------------------------------------

  const Z: Rounds := (i, x) => ZERO

  function Hit(at: nat, v: Half): Rounds
  {
    (i, x) => if i == at && x == v then ONE else ZERO
  }

  lemma {:induction false} Step(t: Half, a: Half, b: Half)
    ensures X(X(t, a), X(a, b)) == X(t, b)
  {
    hide X;
    Assoc(X(t, a), a, b);
    Cancel(t, a);
  }

  lemma {:induction false} ZeroCode(k: seq<Half>, g: nat, s: Block)
    requires 8 * g + 7 < |k|
    ensures CodeGroup(Z, k, g, s).l == X(X(X(s.l, k[8 * g + 3]), k[8 * g + 5]), k[8 * g + 7])
    ensures CodeGroup(Z, k, g, s).r == X(X(X(s.r, k[8 * g + 2]), k[8 * g + 4]), k[8 * g + 6])
  {
    hide X, CodePair;
    var a := CodePair(Z, 6 * g, s, k[8 * g + 2], k[8 * g + 3]);
    var b := CodePair(Z, 6 * g + 2, a, k[8 * g + 4], k[8 * g + 5]);
    ZeroPair(6 * g, s, k[8 * g + 2], k[8 * g + 3]);
    ZeroPair(6 * g + 2, a, k[8 * g + 4], k[8 * g + 5]);
    ZeroPair(6 * g + 4, b, k[8 * g + 6], k[8 * g + 7]);
  }

  lemma {:induction false} ZeroPair(i: nat, s: Block, ka: Half, kb: Half)
    ensures CodePair(Z, i, s, ka, kb) == Block(X(s.l, kb), X(s.r, ka)) && TextPair(Z, i, s, ka, kb) == s
  {
    hide X;
    Cancel(X(s.r, ka), ZERO);
    Cancel(X(s.l, kb), ZERO);
    Cancel(s.r, ZERO);
    Cancel(s.l, ZERO);
  }

  lemma {:induction false} ZeroText(sub: seq<Half>, g: nat, s: Block)
    requires 8 * g + 7 < |sub|
    ensures TextGroup(Z, sub, g, s) == s
  {
    hide X, TextPair;
    ZeroPair(6 * g, s, sub[8 * g + 2], sub[8 * g + 3]);
    ZeroPair(6 * g + 2, s, sub[8 * g + 4], sub[8 * g + 5]);
    ZeroPair(6 * g + 4, s, sub[8 * g + 6], sub[8 * g + 7]);
  }

  // --- The two halves apart, up to the first slip ------------------------------------------------------

  ghost predicate LeftOff(s: seq<Half>, n: nat, k: seq<Half>, g: nat, b: Block)
    requires Subkeys(s, n) && 8 * n < |k| && g < n
  {
    CodeTo(Z, k, g, b).l == X(TextTo(Z, s, g, b).l, s[8 * g + 2])
  }

  ghost predicate RightOff(s: seq<Half>, n: nat, k: seq<Half>, g: nat, b: Block)
    requires Subkeys(s, n) && 8 * n < |k| && g < n
  {
    CodeTo(Z, k, g, b).r == X(TextTo(Z, s, g, b).r, RightIn(s, g))
  }

  lemma {:induction false} LeftAfter(s: seq<Half>, n: nat, k: seq<Half>, g: nat, c: Block, t: Block, right: Half, left: Half)
    requires Subkeys(s, n) && 8 * n < |k| && g < n && Group(s, n, k, g, right, left) && c.l == X(t.l, s[8 * g + 2])
    ensures CodeGroup(Z, k, g, c).l == X(X(t.l, LeftOut(s, n, g)), left)
  {
    hide X, CodeGroup, LeftOut, RightIn;
    ZeroCode(k, g, c);
    var out := LeftOut(s, n, g);
    Step(t.l, s[8 * g + 2], s[8 * g + 4]);
    Step(t.l, s[8 * g + 4], s[8 * g + 6]);
    Assoc(X(t.l, s[8 * g + 6]), X(s[8 * g + 6], out), left);
    Step(t.l, s[8 * g + 6], out);
  }

  lemma {:induction false} RightAfter(s: seq<Half>, n: nat, k: seq<Half>, g: nat, c: Block, t: Block, left: Half)
    requires Subkeys(s, n) && 8 * n < |k| && g < n && Group(s, n, k, g, ZERO, left) && c.r == X(t.r, RightIn(s, g))
    ensures CodeGroup(Z, k, g, c).r == X(t.r, s[8 * g + 7])
  {
    hide X, CodeGroup, LeftOut, RightIn;
    ZeroCode(k, g, c);
    var b := RightIn(s, g);
    Cancel(X(b, s[8 * g + 3]), ZERO);
    Step(t.r, b, s[8 * g + 3]);
    Step(t.r, s[8 * g + 3], s[8 * g + 5]);
    Step(t.r, s[8 * g + 5], s[8 * g + 7]);
  }

  lemma {:induction false} LeftHolds(s: seq<Half>, n: nat, k: seq<Half>, g: nat, b: Block)
    requires Subkeys(s, n) && 8 * n < |k| && g < n && Tail(s, n, k)
    requires forall h :: 0 <= h < g ==> LeftSlip(s, n, h) == ZERO
    ensures LeftOff(s, n, k, g, b)
  {
    hide Group, X, Push, LeftSlip, RightSlip, CodeGroup, TextGroup, Fl, FlInverse, Outer;
    if g == 0 {
      LeftStart(s, n, k, b);
    } else {
      var h := g - 1;
      LeftHolds(s, n, k, h, b);
      var c, t := CodeTo(Z, k, h, b), TextTo(Z, s, h, b);
      LayerKeys(s, n, k, h, RightSlip(s, n, h), LeftSlip(s, n, h));
      LeftAfter(s, n, k, h, c, t, RightSlip(s, n, h), ZERO);
      Cancel(X(t.l, LeftOut(s, n, h)), ZERO);
      ZeroText(s, h, t);
      FlPush(t.l, s[8 * g + 2], s[8 * g]);
    }
  }

  lemma {:induction false} LeftStart(s: seq<Half>, n: nat, k: seq<Half>, b: Block)
    requires Subkeys(s, n) && 8 * n < |k| && Outer(s, n, k)
    ensures LeftOff(s, n, k, 0, b)
  {
    hide X;
    Assoc(b.l, s[0], s[2]);
  }

  lemma {:induction false} RightHolds(s: seq<Half>, n: nat, k: seq<Half>, g: nat, b: Block)
    requires Subkeys(s, n) && 8 * n < |k| && g < n && Tail(s, n, k)
    requires forall h :: 0 <= h < g ==> RightSlip(s, n, h) == ZERO
    ensures RightOff(s, n, k, g, b)
  {
    hide Group, X, Push, LeftSlip, RightSlip, CodeGroup, TextGroup, Fl, FlInverse, Outer;
    if g == 0 {
      Cancel(b.r, s[1]);
    } else {
      var h := g - 1;
      RightHolds(s, n, k, h, b);
      var c, t := CodeTo(Z, k, h, b), TextTo(Z, s, h, b);
      LayerKeys(s, n, k, h, RightSlip(s, n, h), LeftSlip(s, n, h));
      RightAfter(s, n, k, h, c, t, LeftSlip(s, n, h));
      ZeroText(s, h, t);
      FlInversePush(t.r, s[8 * h + 7], s[8 * g + 1]);
    }
  }

  // --- One round function that tells the two apart ------------------------------------------------------

  /** What reaches the round function in the first or second round of group `g` while all are zero. */
  ghost function CodeArgument(k: seq<Half>, g: nat, second: bool, b: Block): Half
    requires 8 * g + 7 < |k|
  {
    var c := CodeTo(Z, k, g, b);
    if second then X(c.r, k[8 * g + 2]) else c.l
  }

  ghost function TextArgument(s: seq<Half>, g: nat, second: bool, b: Block): Half
    requires 8 * g + 7 < |s|
  {
    var t := TextTo(Z, s, g, b);
    if second then X(t.r, s[8 * g + 3]) else X(t.l, s[8 * g + 2])
  }

  function Index(g: nat, second: bool): nat { if second then 6 * g + 1 else 6 * g }

  lemma {:induction false} PairSame(at: nat, v: Half, i: nat, s: Block, ka: Half, kb: Half)
    requires at != i && at != i + 1
    ensures CodePair(Hit(at, v), i, s, ka, kb) == CodePair(Z, i, s, ka, kb)
    ensures TextPair(Hit(at, v), i, s, ka, kb) == TextPair(Z, i, s, ka, kb)
  {
    hide X;
  }

  lemma {:induction false} GroupSame(at: nat, v: Half, k: seq<Half>, g: nat, s: Block)
    requires 8 * g + 7 < |k| && !(6 * g <= at < 6 * g + 6)
    ensures CodeGroup(Hit(at, v), k, g, s) == CodeGroup(Z, k, g, s)
    ensures TextGroup(Hit(at, v), k, g, s) == s
  {
    hide X, CodePair, TextPair, Hit;
    var a := CodePair(Z, 6 * g, s, k[8 * g + 2], k[8 * g + 3]);
    var b := CodePair(Z, 6 * g + 2, a, k[8 * g + 4], k[8 * g + 5]);
    PairSame(at, v, 6 * g, s, k[8 * g + 2], k[8 * g + 3]);
    PairSame(at, v, 6 * g + 2, a, k[8 * g + 4], k[8 * g + 5]);
    PairSame(at, v, 6 * g + 4, b, k[8 * g + 6], k[8 * g + 7]);
    PairSame(at, v, 6 * g + 2, s, k[8 * g + 4], k[8 * g + 5]);
    PairSame(at, v, 6 * g + 4, s, k[8 * g + 6], k[8 * g + 7]);
    ZeroPair(6 * g, s, k[8 * g + 2], k[8 * g + 3]);
    ZeroPair(6 * g + 2, s, k[8 * g + 4], k[8 * g + 5]);
    ZeroPair(6 * g + 4, s, k[8 * g + 6], k[8 * g + 7]);
  }

  lemma {:induction false} PairMisses(i: nat, second: bool, v: Half, s: Block, ka: Half, kb: Half)
    requires (if second then X(s.r, ka) else s.l) != v
    ensures CodePair(Hit(if second then i + 1 else i, v), i, s, ka, kb) == CodePair(Z, i, s, ka, kb)
  {
    hide X;
    Cancel(X(s.r, ka), ZERO);
  }

  lemma {:induction false} GroupMisses(k: seq<Half>, g: nat, second: bool, v: Half, s: Block)
    requires 8 * g + 7 < |k| && (if second then X(s.r, k[8 * g + 2]) else s.l) != v
    ensures CodeGroup(Hit(Index(g, second), v), k, g, s) == CodeGroup(Z, k, g, s)
  {
    hide X, CodePair, Hit;
    var at := Index(g, second);
    var a := CodePair(Z, 6 * g, s, k[8 * g + 2], k[8 * g + 3]);
    var b := CodePair(Z, 6 * g + 2, a, k[8 * g + 4], k[8 * g + 5]);
    PairMisses(6 * g, second, v, s, k[8 * g + 2], k[8 * g + 3]);
    PairSame(at, v, 6 * g + 2, a, k[8 * g + 4], k[8 * g + 5]);
    PairSame(at, v, 6 * g + 4, b, k[8 * g + 6], k[8 * g + 7]);
  }

  lemma {:induction false} MissesTo(k: seq<Half>, n: nat, g: nat, second: bool, v: Half, h: nat, b: Block)
    requires g < n && h < n && 8 * n < |k| && CodeArgument(k, g, second, b) != v
    ensures CodeTo(Hit(Index(g, second), v), k, h, b) == CodeTo(Z, k, h, b)
  {
    hide X, Layer, CodeGroup, Hit, CodeArgument;
    if h > 0 {
      var p := h - 1;
      MissesTo(k, n, g, second, v, p, b);
      MissesGroup(k, n, g, second, v, p, b);
    }
  }

  lemma {:induction false} MissesGroup(k: seq<Half>, n: nat, g: nat, second: bool, v: Half, h: nat, b: Block)
    requires g < n && h < n && 8 * n < |k| && CodeArgument(k, g, second, b) != v
    ensures var c := CodeTo(Z, k, h, b); CodeGroup(Hit(Index(g, second), v), k, h, c) == CodeGroup(Z, k, h, c)
  {
    hide X, CodeGroup, Hit, CodeTo;
    var c := CodeTo(Z, k, h, b);
    if h == g {
      GroupMisses(k, g, second, v, c);
    } else {
      GroupSame(Index(g, second), v, k, h, c);
    }
  }

  lemma {:induction false} CodeMisses(k: seq<Half>, n: nat, g: nat, second: bool, v: Half, b: Block)
    requires g < n && 8 * n < |k| && CodeArgument(k, g, second, b) != v
    ensures Code(Hit(Index(g, second), v), k, n, b) == Code(Z, k, n, b)
  {
    hide X, CodeGroup, Hit, CodeTo, CodeArgument;
    MissesTo(k, n, g, second, v, n - 1, b);
    MissesGroup(k, n, g, second, v, n - 1, b);
  }

  lemma {:induction false} PairHits(i: nat, second: bool, s: Block, ka: Half, kb: Half)
    ensures TextPair(Hit(if second then i + 1 else i, if second then X(s.r, kb) else X(s.l, ka)), i, s, ka, kb) != s
  {
    OneMoves(s.r);
    OneMoves(s.l);
    hide X;
    Cancel(s.r, ZERO);
    Cancel(s.l, ZERO);
  }

  lemma {:induction false} OneMoves(y: Half)
    ensures X(y, ONE) != y
  {
  }

  lemma {:induction false} GroupHits(s: seq<Half>, g: nat, second: bool, t: Block)
    requires 8 * g + 7 < |s|
    ensures var v := if second then X(t.r, s[8 * g + 3]) else X(t.l, s[8 * g + 2]);
      TextGroup(Hit(Index(g, second), v), s, g, t) != t
  {
    hide X, TextPair, Hit;
    var at, v := Index(g, second), if second then X(t.r, s[8 * g + 3]) else X(t.l, s[8 * g + 2]);
    PairHits(6 * g, second, t, s[8 * g + 2], s[8 * g + 3]);
    var a := TextPair(Hit(at, v), 6 * g, t, s[8 * g + 2], s[8 * g + 3]);
    PairSame(at, v, 6 * g + 2, a, s[8 * g + 4], s[8 * g + 5]);
    PairSame(at, v, 6 * g + 4, a, s[8 * g + 6], s[8 * g + 7]);
    ZeroPair(6 * g + 2, a, s[8 * g + 4], s[8 * g + 5]);
    ZeroPair(6 * g + 4, a, s[8 * g + 6], s[8 * g + 7]);
  }

  lemma {:induction false} LayerInjective(x: Block, y: Block, ka: Half, kb: Half)
    requires x != y
    ensures Layer(x, ka, kb) != Layer(y, ka, kb)
  {
    hide Fl, FlInverse;
    FlInverseFl(x.l, ka); FlInverseFl(y.l, ka);
    FlInverseFl(x.r, kb); FlInverseFl(y.r, kb);
  }

  /** The standard's run is the zero run up to the hit and differs from it after. */
  lemma {:induction false} HitsTo(s: seq<Half>, n: nat, g: nat, second: bool, h: nat, b: Block)
    requires Subkeys(s, n) && g < n && h < n
    ensures var f := Hit(Index(g, second), TextArgument(s, g, second, b));
      (TextTo(f, s, h, b) == TextTo(Z, s, h, b)) <==> h <= g
  {
    hide X, Layer, TextGroup, Hit, TextArgument;
    if h > 0 {
      var p := h - 1;
      HitsTo(s, n, g, second, p, b);
      HitsGroup(s, n, g, second, p, b);
      var f := Hit(Index(g, second), TextArgument(s, g, second, b));
      var x, y := TextGroup(f, s, p, TextTo(f, s, p, b)), TextGroup(Z, s, p, TextTo(Z, s, p, b));
      if x != y {
        LayerInjective(x, y, s[8 * h], s[8 * h + 1]);
      }
    }
  }

  lemma {:induction false} HitsGroup(s: seq<Half>, n: nat, g: nat, second: bool, h: nat, b: Block)
    requires Subkeys(s, n) && g < n && h < n
    requires var f := Hit(Index(g, second), TextArgument(s, g, second, b));
      (TextTo(f, s, h, b) == TextTo(Z, s, h, b)) <==> h <= g
    ensures var f := Hit(Index(g, second), TextArgument(s, g, second, b));
      (TextGroup(f, s, h, TextTo(f, s, h, b)) == TextGroup(Z, s, h, TextTo(Z, s, h, b))) <==> h < g
  {
    hide X, TextGroup, Hit, TextTo;
    var v := TextArgument(s, g, second, b);
    var f := Hit(Index(g, second), v);
    ZeroText(s, h, TextTo(Z, s, h, b));
    if h == g {
      GroupHits(s, g, second, TextTo(f, s, h, b));
    } else {
      GroupSame(Index(g, second), v, s, h, TextTo(f, s, h, b));
    }
  }

  lemma {:induction false} TextHits(s: seq<Half>, n: nat, g: nat, second: bool, b: Block)
    requires Subkeys(s, n) && g < n
    ensures Text(Hit(Index(g, second), TextArgument(s, g, second, b)), s, n, b) != Text(Z, s, n, b)
  {
    hide X, TextGroup, Hit, TextTo, TextArgument;
    var f := Hit(Index(g, second), TextArgument(s, g, second, b));
    HitsTo(s, n, g, second, n - 1, b);
    HitsGroup(s, n, g, second, n - 1, b);
    var x, y := TextGroup(f, s, n - 1, TextTo(f, s, n - 1, b)), TextGroup(Z, s, n - 1, TextTo(Z, s, n - 1, b));
    Cancel(x.l, s[8 * n + 1]); Cancel(y.l, s[8 * n + 1]);
    Cancel(x.r, s[8 * n]); Cancel(y.r, s[8 * n]);
  }

  /** If the round functions of the two ciphers once meet different values, some functions tell the
      ciphers apart. */
  lemma {:induction false} Apart(s: seq<Half>, n: nat, k: seq<Half>, g: nat, second: bool, b: Block)
    requires Subkeys(s, n) && 8 * n < |k| && g < n
    requires CodeArgument(k, g, second, b) != TextArgument(s, g, second, b)
    ensures !Agrees(s, n, k)
  {
    hide Code, Text, Hit, CodeArgument, TextArgument;
    var f := Hit(Index(g, second), TextArgument(s, g, second, b));
    CodeMisses(k, n, g, second, TextArgument(s, g, second, b), b);
    TextHits(s, n, g, second, b);
    assert Code(f, k, n, b) != Text(f, s, n, b) || Code(Z, k, n, b) != Text(Z, s, n, b);
  }

  // --- The theorem ----------------------------------------------------------------------------------------

  lemma {:induction false} LeftBreaks(s: seq<Half>, n: nat, k: seq<Half>, g: nat, b: Block)
    requires Subkeys(s, n) && 8 * n < |k| && g < n && Tail(s, n, k)
    requires forall h :: 0 <= h < g ==> LeftSlip(s, n, h) == ZERO
    requires LeftSlip(s, n, g) != ZERO
    ensures !Agrees(s, n, k)
  {
    hide Group, X, Push, LeftSlip, RightSlip, CodeGroup, TextGroup, Fl, FlInverse, Outer, Agrees, RightCollides;
    SlipIsOne(s, n, g);
    var e := g + 1;
    var c, t := CodeTo(Z, k, g, b), TextTo(Z, s, g, b);
    var y := X(t.l, LeftOut(s, n, g));
    OneMoves(y);
    LeftHolds(s, n, k, g, b);
    LayerKeys(s, n, k, g, RightSlip(s, n, g), ONE);
    LeftAfter(s, n, k, g, c, t, RightSlip(s, n, g), ONE);
    ZeroText(s, g, t);
    FlPush(t.l, s[8 * e + 2], s[8 * e]);
    FlInverseFl(y, s[8 * e]);
    FlInverseFl(X(y, ONE), s[8 * e]);
    Apart(s, n, k, e, false, b);
  }

  lemma {:induction false} RightBreaks(s: seq<Half>, n: nat, k: seq<Half>, g: nat, b: Block)
    requires Subkeys(s, n) && 8 * n < |k| && g < n && Tail(s, n, k)
    requires forall h :: 0 <= h < g ==> RightSlip(s, n, h) == ZERO
    requires RightSlip(s, n, g) != ZERO
    ensures !Agrees(s, n, k)
  {
    SlipIsOne(s, n, g);
    var t, carried := TextTo(Z, s, g, b), RightIn(s, g);
    var y := X(t.r, s[8 * g + 3]);
    OneMoves(y);
    assert k[8 * g + 2] == X(X(carried, s[8 * g + 3]), ONE) by {
      assert Group(s, n, k, g, RightSlip(s, n, g), LeftSlip(s, n, g));
    }
    hide Group, X, Push, LeftSlip, RightSlip, CodeTo, TextTo, Outer, Agrees;
    RightHolds(s, n, k, g, b);
    Assoc(X(t.r, carried), X(carried, s[8 * g + 3]), ONE);
    Step(t.r, carried, s[8 * g + 3]);
    Apart(s, n, k, g, true, b);
  }

  /** The subkeys of camellia_setup_tail make the code the cipher of the standard, for all round functions
      and blocks, exactly when no rotated bit collides. */
  lemma {:induction false} TailExact(s: seq<Half>, n: nat, k: seq<Half>)
    requires Subkeys(s, n) && 8 * n < |k| && Tail(s, n, k)
    ensures Agrees(s, n, k) <==> NoCollision(s, n)
  {
    if NoCollision(s, n) {
      NoSlips(s, n);
      TailMoved(s, n, k);
      hide Code, Text, Moved;
      forall f: Rounds, b: Block
        ensures Code(f, k, n, b) == Text(f, s, n, b)
      {
        MovedIsText(f, s, n, k, b);
      }
    } else {
      SomeSlip(s, n, k, 0);
    }
  }

  lemma {:induction false} NoSlips(s: seq<Half>, n: nat)
    requires Subkeys(s, n)
    ensures NoCollision(s, n) <==> forall g :: 0 <= g < n ==> RightSlip(s, n, g) == ZERO && LeftSlip(s, n, g) == ZERO
  {
    hide RightCollides, LeftCollides, RightSlip, LeftSlip;
    forall g | 0 <= g < n
      ensures RightCollides(s, n, g) <==> RightSlip(s, n, g) != ZERO
      ensures LeftCollides(s, n, g) <==> LeftSlip(s, n, g) != ZERO
    {
      SlipIsOne(s, n, g);
    }
  }

  lemma {:induction false} SlipIsOne(s: seq<Half>, n: nat, g: nat)
    requires Subkeys(s, n) && g < n
    ensures RightSlip(s, n, g) == (if RightCollides(s, n, g) then ONE else ZERO)
    ensures LeftSlip(s, n, g) == (if LeftCollides(s, n, g) then ONE else ZERO)
  {
    hide X, Collides, RightCarry, LeftCarry;
  }

  lemma {:induction false} TailMoved(s: seq<Half>, n: nat, k: seq<Half>)
    requires Subkeys(s, n) && 8 * n < |k| && Tail(s, n, k)
    requires forall g :: 0 <= g < n ==> RightSlip(s, n, g) == ZERO && LeftSlip(s, n, g) == ZERO
    ensures Moved(s, n, k)
  {
    hide Group, RightSlip, LeftSlip;
    forall g | 0 <= g < n
      ensures Group(s, n, k, g, ZERO, ZERO)
    {
      assert Group(s, n, k, g, RightSlip(s, n, g), LeftSlip(s, n, g));
    }
  }

  /** The first slip of either half, found from group `g` on. */
  lemma {:induction false} SomeSlip(s: seq<Half>, n: nat, k: seq<Half>, g: nat)
    requires Subkeys(s, n) && 8 * n < |k| && Tail(s, n, k) && g <= n && !NoCollision(s, n)
    requires forall h :: 0 <= h < g ==> RightSlip(s, n, h) == ZERO && LeftSlip(s, n, h) == ZERO
    ensures !Agrees(s, n, k)
    decreases n - g
  {
    hide Tail, RightSlip, LeftSlip, Agrees, NoCollision;
    if g == n {
      NoSlips(s, n);
      assert false;
    } else if RightSlip(s, n, g) != ZERO {
      RightBreaks(s, n, k, g, Block(ZERO, ZERO));
    } else if LeftSlip(s, n, g) != ZERO {
      LeftBreaks(s, n, k, g, Block(ZERO, ZERO));
    } else {
      SomeSlip(s, n, k, g + 1);
    }
  }

  // --- A collision seen with a single round function -------------------------------------------------------

  lemma {:induction false} LeftStaysOff(s: seq<Half>, n: nat, k: seq<Half>, g: nat, c: Half, t: Half)
    requires Subkeys(s, n) && 8 * n < |k| && g < n && c != X(t, s[8 * g + 2])
    ensures X(X(X(c, X(s[8 * g + 2], s[8 * g + 4])), X(s[8 * g + 4], s[8 * g + 6])), X(s[8 * g + 6], LeftOut(s, n, g)))
         != X(t, LeftOut(s, n, g))
  {
    hide X, LeftOut;
    var a, out := s[8 * g + 2], LeftOut(s, n, g);
    var d := X(c, a);
    Cancel(c, a);
    Step(d, a, s[8 * g + 4]);
    Step(d, s[8 * g + 4], s[8 * g + 6]);
    Step(d, s[8 * g + 6], out);
    Cancel(d, out);
    Cancel(t, out);
  }

  lemma {:induction false} LeftLost(s: seq<Half>, n: nat, k: seq<Half>, p: nat, g: nat, b: Block)
    requires Subkeys(s, n) && 8 * n < |k| && p < g < n && Tail(s, n, k) && LeftSlip(s, n, p) != ZERO
    requires forall h :: 0 <= h < n && h != p ==> LeftSlip(s, n, h) == ZERO
    ensures !LeftOff(s, n, k, g, b)
    decreases g, 0
  {
    hide Group, X, Push, LeftSlip, RightSlip, CodeGroup, TextGroup, Fl, FlInverse, Outer, RightCollides, Agrees;
    var h := g - 1;
    var c, t := CodeTo(Z, k, h, b), TextTo(Z, s, h, b);
    var y, d := X(t.l, LeftOut(s, n, h)), CodeGroup(Z, k, h, c).l;
    LayerKeys(s, n, k, h, RightSlip(s, n, h), LeftSlip(s, n, h));
    ZeroText(s, h, t);
    FlPush(t.l, s[8 * g + 2], s[8 * g]);
    FlInverseFl(y, s[8 * g]);
    FlInverseFl(d, s[8 * g]);
    LeftEnds(s, n, k, p, h, b);
  }

  /** After the rounds of a group at or past the only collision, the left half is off. */
  lemma {:induction false} LeftEnds(s: seq<Half>, n: nat, k: seq<Half>, p: nat, g: nat, b: Block)
    requires Subkeys(s, n) && 8 * n < |k| && p <= g < n && Tail(s, n, k) && LeftSlip(s, n, p) != ZERO
    requires forall h :: 0 <= h < n && h != p ==> LeftSlip(s, n, h) == ZERO
    ensures CodeGroup(Z, k, g, CodeTo(Z, k, g, b)).l != X(TextTo(Z, s, g, b).l, LeftOut(s, n, g))
    decreases g, 1
  {
    hide X, Push, LeftSlip, RightSlip, CodeGroup, TextGroup, Fl, FlInverse, Outer, RightIn, LeftOut, CodeTo, TextTo, LeftCollides;
    var c, t := CodeTo(Z, k, g, b), TextTo(Z, s, g, b);
    if p == g {
      SlipIsOne(s, n, g);
      LeftHolds(s, n, k, g, b);
      LeftAfter(s, n, k, g, c, t, RightSlip(s, n, g), ONE);
      OneMoves(X(t.l, LeftOut(s, n, g)));
    } else {
      LeftLost(s, n, k, p, g, b);
      ZeroCode(k, g, c);
      assert Group(s, n, k, g, RightSlip(s, n, g), ZERO);
      Cancel(X(s[8 * g + 6], LeftOut(s, n, g)), ZERO);
      LeftStaysOff(s, n, k, g, c.l, t.l);
    }
  }

  /** With one collision in the left half, every block comes out wrong under the zero round function. */
  lemma {:induction false} OneCollision(s: seq<Half>, n: nat, k: seq<Half>, p: nat, b: Block)
    requires Subkeys(s, n) && 8 * n < |k| && p < n && Tail(s, n, k) && LeftCollides(s, n, p)
    requires forall h :: 0 <= h < n && h != p ==> !LeftCollides(s, n, h)
    ensures Code(Z, k, n, b) != Text(Z, s, n, b)
  {
    hide X, CodeGroup, TextGroup, CodeTo, TextTo, LeftCollides, RightCollides, LeftSlip, RightSlip, Group, Outer;
    forall h | 0 <= h < n { SlipIsOne(s, n, h); }
    LeftEnds(s, n, k, p, n - 1, b);
    ZeroText(s, n - 1, TextTo(Z, s, n - 1, b));
  }

  /** Subkeys of an 18-round cipher that are zero but for those that meet at the first layer. */
  const COLLIDING: seq<Half> :=
    seq(26, i => if i == 8 then Half(0x8000_0000, 0xffff_ffff) else if i == 10 then Half(0x8000_0000, 1) else ZERO)

  lemma {:induction false} CollidingCollides()
    ensures Subkeys(COLLIDING, 3) && LeftCollides(COLLIDING, 3, 0) && !LeftCollides(COLLIDING, 3, 1)
    ensures !NoCollision(COLLIDING, 3)
  {
    var s := COLLIDING;
    assert Push(ZERO, ZERO) == ZERO && X(Half(0x8000_0000, 1), ZERO) == Half(0x8000_0000, 1) && X(ZERO, ZERO) == ZERO;
    assert LeftCarry(s, 3, 2) == ZERO;
    assert LeftCarry(s, 3, 1) == ZERO;
    assert s[10] == Half(0x8000_0000, 1) && s[8] == Half(0x8000_0000, 0xffff_ffff);
    assert Collides(Half(0x8000_0000, 1), Half(0x8000_0000, 0xffff_ffff));
    assert !Collides(ZERO, ZERO);
    assert |s| == 26 && s[16] == ZERO && s[18] == ZERO && s[25] == ZERO;
    assert !LeftCollides(s, 3, 1);
    assert LeftCollides(s, 3, 0);
  }
}
