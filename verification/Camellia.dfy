/** Camellia with its whitening and round keys moved (camellia_generic.c), against the cipher of
    section 2.3 of RFC 3713. A cipher has `n` groups of six rounds, with a layer of FL and FL^-1
    between groups: n is 3 for max = 24 and 4 for max = 32. Round functions are arbitrary and may
    differ from round to round. */
module Camellia {
  import opened CamelliaHalves

  datatype Block = Block(l: Half, r: Half)

  /** The round function of each round. */
  type Rounds = (nat, Half) -> Half

  function Layer(s: Block, ka: Half, kb: Half): Block
  {
    Block(Fl(s.l, ka), FlInverse(s.r, kb))
  }

  // --- The cipher of the standard -----------------------------------------------------------
  // Subkeys: kw1, kw2, then for each group its six round keys and the two keys of the layer after
  // it; the last two are kw3 and kw4.

  predicate Subkeys(sub: seq<Half>, n: nat)
  {
    0 < n && |sub| == 8 * n + 2
  }

  function TextPair(f: Rounds, i: nat, s: Block, ka: Half, kb: Half): Block
  {
    var r := X(s.r, f(i, X(s.l, ka)));
    Block(X(s.l, f(i + 1, X(r, kb))), r)
  }

  function TextGroup(f: Rounds, sub: seq<Half>, g: nat, s: Block): Block
    requires 8 * g + 7 < |sub|
  {
    var a := TextPair(f, 6 * g, s, sub[8 * g + 2], sub[8 * g + 3]);
    var b := TextPair(f, 6 * g + 2, a, sub[8 * g + 4], sub[8 * g + 5]);
    TextPair(f, 6 * g + 4, b, sub[8 * g + 6], sub[8 * g + 7])
  }

  /** The state before the rounds of group `g`. */
  function TextTo(f: Rounds, sub: seq<Half>, g: nat, s: Block): Block
    requires 8 * g + 1 < |sub|
  {
    if g == 0 then
      Block(X(s.l, sub[0]), X(s.r, sub[1]))
    else
      Layer(TextGroup(f, sub, g - 1, TextTo(f, sub, g - 1, s)), sub[8 * g], sub[8 * g + 1])
  }

  /** The whole cipher, before the final exchange of the halves. */
  function Text(f: Rounds, sub: seq<Half>, n: nat, s: Block): Block
    requires Subkeys(sub, n)
  {
    var t := TextGroup(f, sub, n - 1, TextTo(f, sub, n - 1, s));
    Block(X(t.l, sub[8 * n + 1]), X(t.r, sub[8 * n]))
  }

  // --- The cipher of the code ---------------------------------------------------------------------
  // The key is added to the output of the round function; kw2 and kw4 are absorbed.

  function CodePair(f: Rounds, i: nat, s: Block, ka: Half, kb: Half): Block
  {
    var r := X(X(s.r, ka), f(i, s.l));
    Block(X(X(s.l, kb), f(i + 1, r)), r)
  }

  function CodeGroup(f: Rounds, k: seq<Half>, g: nat, s: Block): Block
    requires 8 * g + 7 < |k|
  {
    var a := CodePair(f, 6 * g, s, k[8 * g + 2], k[8 * g + 3]);
    var b := CodePair(f, 6 * g + 2, a, k[8 * g + 4], k[8 * g + 5]);
    CodePair(f, 6 * g + 4, b, k[8 * g + 6], k[8 * g + 7])
  }

  function CodeTo(f: Rounds, k: seq<Half>, g: nat, s: Block): Block
    requires 8 * g + 1 < |k|
  {
    if g == 0 then
      Block(X(s.l, k[0]), s.r)
    else
      Layer(CodeGroup(f, k, g - 1, CodeTo(f, k, g - 1, s)), k[8 * g], k[8 * g + 1])
  }

  function Code(f: Rounds, k: seq<Half>, n: nat, s: Block): Block
    requires 0 < n && 8 * n < |k|
  {
    var t := CodeGroup(f, k, n - 1, CodeTo(f, k, n - 1, s));
    Block(t.l, X(t.r, k[8 * n]))
  }

  // --- The moved keys ---------------------------------------------------------------------------------

  /** What the right half carries into group `g`, and the left half out of it. */
  function RightIn(sub: seq<Half>, g: nat): Half
    requires 8 * g + 1 < |sub|
  {
    if g == 0 then sub[1] else Push(sub[8 * g - 1], sub[8 * g + 1])
  }

  function LeftOut(sub: seq<Half>, n: nat, g: nat): Half
    requires Subkeys(sub, n) && g < n
  {
    if g == n - 1 then sub[8 * n + 1] else Push(sub[8 * g + 10], sub[8 * g + 8])
  }

  /** The moved keys of group `g`, off by `right` in its first round and by `left` in its last. */
  ghost predicate Group(sub: seq<Half>, n: nat, k: seq<Half>, g: nat, right: Half, left: Half)
    requires Subkeys(sub, n) && 8 * n < |k| && g < n
  {
    && k[8 * g + 2] == X(X(RightIn(sub, g), sub[8 * g + 3]), right)
    && k[8 * g + 3] == X(sub[8 * g + 2], sub[8 * g + 4])
    && k[8 * g + 4] == X(sub[8 * g + 3], sub[8 * g + 5])
    && k[8 * g + 5] == X(sub[8 * g + 4], sub[8 * g + 6])
    && k[8 * g + 6] == X(sub[8 * g + 5], sub[8 * g + 7])
    && k[8 * g + 7] == X(X(sub[8 * g + 6], LeftOut(sub, n, g)), left)
    && (g < n - 1 ==> k[8 * g + 8] == sub[8 * g + 8] && k[8 * g + 9] == sub[8 * g + 9])
  }

  ghost predicate Outer(sub: seq<Half>, n: nat, k: seq<Half>)
    requires Subkeys(sub, n) && 8 * n < |k|
  {
    k[0] == X(sub[0], sub[2]) && k[8 * n] == X(sub[8 * n], sub[8 * n - 1])
  }

  /** Keys with which the code computes the cipher of the standard. */
  ghost predicate Moved(sub: seq<Half>, n: nat, k: seq<Half>)
    requires Subkeys(sub, n) && 8 * n < |k|
  {
    Outer(sub, n, k) && forall g :: 0 <= g < n ==> Group(sub, n, k, g, ZERO, ZERO)
  }

  // --- Moving the keys preserves the cipher -----------------------------------------------------------

  /** `c` is `t` with `a` added on the left and `b` on the right. */
  ghost predicate Off(c: Block, t: Block, a: Half, b: Half)
  {
    c.l == X(t.l, a) && c.r == X(t.r, b)
  }

  lemma {:induction false} PairMoves(f: Rounds, i: nat, c: Block, t: Block, b: Half, k1: Half, k2: Half, k3: Half)
    requires Off(c, t, k1, b)
    ensures Off(CodePair(f, i, c, X(b, k2), X(k1, k3)), TextPair(f, i, t, k1, k2), k3, k2)
  {
    hide X;
    var r := X(t.r, f(i, X(t.l, k1)));
    Exchange(t.r, b, k2, f(i, X(t.l, k1)));
    Exchange(t.l, k1, k3, f(i + 1, X(r, k2)));
  }

  lemma {:induction false} GroupMoves(f: Rounds, sub: seq<Half>, n: nat, k: seq<Half>, g: nat, c: Block, t: Block)
    requires Subkeys(sub, n) && 8 * n < |k| && g < n && Group(sub, n, k, g, ZERO, ZERO)
    requires Off(c, t, sub[8 * g + 2], RightIn(sub, g))
    ensures Off(CodeGroup(f, k, g, c), TextGroup(f, sub, g, t), LeftOut(sub, n, g), sub[8 * g + 7])
  {
    hide X, Off, CodePair, TextPair, RightIn, LeftOut;
    var b, out := RightIn(sub, g), LeftOut(sub, n, g);
    Cancel(X(b, sub[8 * g + 3]), b);
    Cancel(X(sub[8 * g + 6], out), b);
    var t1 := TextPair(f, 6 * g, t, sub[8 * g + 2], sub[8 * g + 3]);
    var t2 := TextPair(f, 6 * g + 2, t1, sub[8 * g + 4], sub[8 * g + 5]);
    var c1 := CodePair(f, 6 * g, c, k[8 * g + 2], k[8 * g + 3]);
    var c2 := CodePair(f, 6 * g + 2, c1, k[8 * g + 4], k[8 * g + 5]);
    PairMoves(f, 6 * g, c, t, b, sub[8 * g + 2], sub[8 * g + 3], sub[8 * g + 4]);
    PairMoves(f, 6 * g + 2, c1, t1, sub[8 * g + 3], sub[8 * g + 4], sub[8 * g + 5], sub[8 * g + 6]);
    PairMoves(f, 6 * g + 4, c2, t2, sub[8 * g + 5], sub[8 * g + 6], sub[8 * g + 7], out);
  }

  lemma {:induction false} LayerMoves(c: Block, t: Block, ka: Half, kb: Half, a: Half, b: Half)
    requires Off(c, t, Push(a, ka), b)
    ensures Off(Layer(c, ka, kb), Layer(t, ka, kb), a, Push(b, kb))
  {
    hide X, Fl, FlInverse, Push;
    FlPush(t.l, a, ka);
    FlInversePush(t.r, b, kb);
  }

  lemma {:induction false} MovesStart(f: Rounds, sub: seq<Half>, n: nat, k: seq<Half>, s: Block)
    requires Subkeys(sub, n) && 8 * n < |k| && Outer(sub, n, k)
    ensures Off(CodeTo(f, k, 0, s), TextTo(f, sub, 0, s), sub[2], RightIn(sub, 0))
  {
    hide X;
    Assoc(s.l, sub[0], sub[2]);
    Cancel(s.r, sub[1]);
  }

  lemma {:induction false} LayerKeys(sub: seq<Half>, n: nat, k: seq<Half>, g: nat, right: Half, left: Half)
    requires Subkeys(sub, n) && 8 * n < |k| && g < n - 1 && Group(sub, n, k, g, right, left)
    ensures k[8 * g + 8] == sub[8 * g + 8] && k[8 * g + 9] == sub[8 * g + 9]
  {
    hide X;
  }

  lemma {:induction false} MovesTo(f: Rounds, sub: seq<Half>, n: nat, k: seq<Half>, g: nat, s: Block)
    requires Subkeys(sub, n) && 8 * n < |k| && g < n && Moved(sub, n, k)
    ensures Off(CodeTo(f, k, g, s), TextTo(f, sub, g, s), sub[8 * g + 2], RightIn(sub, g))
  {
    hide X, Off, Layer, Push, Group, CodeGroup, TextGroup;
    if g == 0 {
      MovesStart(f, sub, n, k, s);
    } else {
      var p := g - 1;
      MovesTo(f, sub, n, k, p, s);
      MovesOn(f, sub, n, k, p, CodeTo(f, k, p, s), TextTo(f, sub, p, s));
    }
  }

  /** Over the rounds of a group and the layer after it. */
  lemma {:induction false} MovesOn(f: Rounds, sub: seq<Half>, n: nat, k: seq<Half>, g: nat, c: Block, t: Block)
    requires Subkeys(sub, n) && 8 * n < |k| && g < n - 1 && Group(sub, n, k, g, ZERO, ZERO)
    requires Off(c, t, sub[8 * g + 2], RightIn(sub, g))
    ensures Off(Layer(CodeGroup(f, k, g, c), k[8 * g + 8], k[8 * g + 9]),
                Layer(TextGroup(f, sub, g, t), sub[8 * g + 8], sub[8 * g + 9]), sub[8 * g + 10], RightIn(sub, g + 1))
  {
    hide X, Off, Layer, Push, Group, CodeGroup, TextGroup;
    LayerKeys(sub, n, k, g, ZERO, ZERO);
    GroupMoves(f, sub, n, k, g, c, t);
    LayerMoves(CodeGroup(f, k, g, c), TextGroup(f, sub, g, t), sub[8 * g + 8], sub[8 * g + 9], sub[8 * g + 10], sub[8 * g + 7]);
  }

  /** With moved keys the code computes the cipher of the standard, for every block and every choice of
      round functions. */
  lemma {:induction false} MovedIsText(f: Rounds, sub: seq<Half>, n: nat, k: seq<Half>, s: Block)
    requires Subkeys(sub, n) && 8 * n < |k| && Moved(sub, n, k)
    ensures Code(f, k, n, s) == Text(f, sub, n, s)
  {
    hide X, CodeGroup, TextGroup, Group, CodeTo, TextTo;
    var c, t := CodeTo(f, k, n - 1, s), TextTo(f, sub, n - 1, s);
    MovesTo(f, sub, n, k, n - 1, s);
    GroupMoves(f, sub, n, k, n - 1, c, t);
    var out := TextGroup(f, sub, n - 1, t);
    Comm(sub[8 * n], sub[8 * n - 1]);
    Exchange(out.r, sub[8 * n - 1], sub[8 * n], ZERO);
    Cancel(X(X(out.r, sub[8 * n - 1]), X(sub[8 * n - 1], sub[8 * n])), ZERO);
    Cancel(out.r, ZERO);
  }
}
